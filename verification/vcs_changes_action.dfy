/**
 The "analyze VCS changes" action: when it is shown and enabled, whether a
 click submits an analysis, which files it submits, and the label of the
 result. The IDE's answers (the selected changes, the project's state, whether
 an analysis is running, the Rider solution check, the user's answer to the
 whole-project warning) are inputs.
 */
module VcsChangesAction {
  import opened Wrappers
  import opened Decimal
  import opened FileCollector

  /** A VCS change; a moved or deleted file has no virtual file. */
  datatype Change = Change(virtualFile: Option<VFile>)

  /** What the action reads of the IDE project. */
  datatype ProjectState = ProjectState(initialized: bool, disposed: bool, basePath: Option<string>)

  datatype Presentation = Presentation(enabled: bool, visible: bool)

  /** The effect of a click. */
  datatype Outcome =
    | Hidden                    // no changes data: the action hides itself
    | Ignored                   // nothing is submitted
    | Submitted(files: set<VFile>)

  /** The virtual files of the changes, in order, dropping the missing ones. */
  function ChangedFiles(changes: seq<Change>): (files: seq<VFile>)
    ensures |files| <= |changes|
    ensures forall f :: f in files <==> Change(Some(f)) in changes
    ensures |files| == 0 <==> forall i | 0 <= i < |changes| :: changes[i].virtualFile.None?
    decreases |changes|
  {
    if |changes| == 0 then []
    else
      var rest := ChangedFiles(changes[1..]);
      assert forall f :: Change(Some(f)) in changes[1..] ==> Change(Some(f)) in changes;
      assert forall i | 1 <= i < |changes| :: changes[i] == changes[1..][i - 1];
      match changes[0].virtualFile
      case None => rest
      case Some(f) => [f] + rest
  }

  /** Filtering distributes over concatenation, so the changes' order and repetitions are kept. */
  lemma {:induction false} ChangedFilesAppend(a: seq<Change>, b: seq<Change>)
    ensures ChangedFiles(a + b) == ChangedFiles(a) + ChangedFiles(b)
    decreases |a|
  {
    if |a| == 0 {
      assert a + b == b;
    } else {
      assert (a + b)[0] == a[0];
      assert (a + b)[1..] == a[1..] + b;
      ChangedFilesAppend(a[1..], b);
    }
  }

  /** One change contributes its file, if it has one. */
  lemma ChangedFilesSingle(c: Change)
    ensures c.virtualFile.None? ==> ChangedFiles([c]) == []
    ensures c.virtualFile.Some? ==> ChangedFiles([c]) == [c.virtualFile.value]
  {
    assert [c][1..] == [];
  }

  /**
   Presentation of the action. It is hidden when there are no changes data,
   no changed file or a Rider solution; otherwise it is shown, and enabled
   only for a live, initialized project with no analysis running.
   */
  function Update(
    changes: Option<seq<Change>>,
    project: Option<ProjectState>,
    analysisRunning: bool,
    isRiderSlnOrCsproj: seq<VFile> -> bool): (r: Presentation)
    ensures changes.None? ==> !r.enabled && !r.visible
    ensures r.visible <==>
      changes.Some? && |ChangedFiles(changes.value)| > 0 && !isRiderSlnOrCsproj(ChangedFiles(changes.value))
    ensures r.enabled <==>
      r.visible && project.Some? && project.value.initialized && !project.value.disposed && !analysisRunning
  {
    if changes.None? then Presentation(false, false)
    else
      var files := ChangedFiles(changes.value);
      if |files| == 0 || isRiderSlnOrCsproj(files) then Presentation(false, false)
      else if project.None? || !project.value.initialized || project.value.disposed then Presentation(false, true)
      else if analysisRunning then Presentation(false, true)
      else Presentation(true, true)
  }

  /** Some selected file is the project's base directory itself. */
  predicate SelectsProjectRoot(files: seq<VFile>, project: ProjectState) {
    project.basePath.Some? && exists i | 0 <= i < |files| :: files[i].path == project.basePath.value
  }

  /** What one selected file adds to the submitted set. */
  function Contribution(f: VFile): (r: set<VFile>)
    ensures f.isDirectory ==> r == Collect(f)
    ensures !f.isDirectory ==> r == {f}
  {
    if f.isDirectory then Collect(f) else {f}
  }

  /** The submitted set: the selected plain files and what is collected under the selected directories. */
  function FileSet(files: seq<VFile>): (r: set<VFile>)
    ensures forall g :: g in r <==> exists i | 0 <= i < |files| :: g in Contribution(files[i])
    decreases |files|
  {
    if |files| == 0 then {}
    else
      var rest := FileSet(files[1..]);
      assert forall i | 1 <= i < |files| :: files[i] == files[1..][i - 1];
      Contribution(files[0]) + rest
  }

  /**
   A click. `warningAccepted` is the user's answer to the whole-project
   warning; it is only consulted when the project root is selected.
   */
  function ActionPerformed(
    changes: Option<seq<Change>>,
    project: Option<ProjectState>,
    warningAccepted: bool): (r: Outcome)
    ensures r.Hidden? <==> changes.None?
    ensures r.Submitted? <==>
      changes.Some? && project.Some? && !project.value.disposed && |ChangedFiles(changes.value)| > 0 &&
      (warningAccepted || !SelectsProjectRoot(ChangedFiles(changes.value), project.value))
    ensures r.Submitted? ==> r.files == FileSet(ChangedFiles(changes.value))
  {
    if changes.None? then Hidden
    else
      var files := ChangedFiles(changes.value);
      if project.None? || project.value.disposed || |files| == 0 then Ignored
      else if SelectsProjectRoot(files, project.value) && !warningAccepted then Ignored
      else Submitted(FileSet(files))
  }

  /** The label of the analysis results: "1 file", otherwise the count and "files". */
  function WhatAnalyzed(numFiles: nat): (s: string)
    ensures numFiles == 1 <==> s == "1 file"
    ensures |s| > |NatToString(numFiles)| && s[..|NatToString(numFiles)|] == NatToString(numFiles)
    ensures numFiles != 1 ==> s == NatToString(numFiles) + " files"
  {
    assert NatToString(1) == "1";
    if numFiles == 1 then "1 file" else NatToString(numFiles) + " files"
  }

  /** The digits a string starts with. */
  function LeadingDigits(s: string): (d: string)
    ensures AllDigits(d) && |d| <= |s| && d == s[..|d|]
    decreases |s|
  {
    if |s| == 0 || !IsDigit(s[0]) then [] else [s[0]] + LeadingDigits(s[1..])
  }

  lemma {:induction false} LeadingDigitsOfNumeral(d: string, rest: string)
    requires AllDigits(d) && |rest| > 0 && !IsDigit(rest[0])
    ensures LeadingDigits(d + rest) == d
    decreases |d|
  {
    if |d| > 0 {
      assert (d + rest)[1..] == d[1..] + rest;
      LeadingDigitsOfNumeral(d[1..], rest);
    } else {
      assert d + rest == rest;
    }
  }

  /** The file count can be read back from the label: no two counts share a label. */
  lemma WhatAnalyzedCount(numFiles: nat)
    ensures ParseDecimal(LeadingDigits(WhatAnalyzed(numFiles))) == numFiles
  {
    var digits := NatToString(numFiles);
    var s := WhatAnalyzed(numFiles);
    assert s == digits + s[|digits|..];
    assert s[|digits|] == ' ' by {
      assert NatToString(1) == "1";
    }
    LeadingDigitsOfNumeral(digits, s[|digits|..]);
    ParseNatToString(numFiles);
  }

  /** The label is plural for every count but one, zero included. */
  lemma WhatAnalyzedPlural(numFiles: nat)
    ensures numFiles != 1 <==> WhatAnalyzed(numFiles)[|WhatAnalyzed(numFiles)| - 1] == 's'
  {
  }

  /** Nothing submitted is a directory, and every collected file passed the visitor's filter. */
  lemma SubmittedFiles(files: seq<VFile>, g: VFile)
    requires g in FileSet(files)
    ensures !g.isDirectory
    ensures g !in files ==> Accepted(g)
  {
    var i :| 0 <= i < |files| && g in Contribution(files[i]);
  }

  /** The submitted set does not depend on the order or repetition of the selection. */
  lemma {:induction false} FileSetAppend(a: seq<VFile>, b: seq<VFile>)
    ensures FileSet(a + b) == FileSet(a) + FileSet(b)
  {
    forall g | g in FileSet(a + b) ensures g in FileSet(a) + FileSet(b) {
      var i :| 0 <= i < |a + b| && g in Contribution((a + b)[i]);
      if i >= |a| {
        assert (a + b)[i] == b[i - |a|];
      }
    }
    forall g | g in FileSet(a) ensures g in FileSet(a + b) {
      var i :| 0 <= i < |a| && g in Contribution(a[i]);
      assert (a + b)[i] == a[i];
    }
    forall g | g in FileSet(b) ensures g in FileSet(a + b) {
      var i :| 0 <= i < |b| && g in Contribution(b[i]);
      assert (a + b)[|a| + i] == b[i];
    }
  }

  lemma FileSetOrderFree(a: seq<VFile>, b: seq<VFile>)
    ensures FileSet(a + b) == FileSet(b + a)
    ensures FileSet(a + a) == FileSet(a)
  {
    FileSetAppend(a, b);
    FileSetAppend(b, a);
    FileSetAppend(a, a);
  }

  /**
   A click on the enabled action submits unless the project root is selected
   and the user declines the warning.
   */
  lemma EnabledActionSubmits(
    changes: Option<seq<Change>>,
    project: Option<ProjectState>,
    analysisRunning: bool,
    isRiderSlnOrCsproj: seq<VFile> -> bool,
    warningAccepted: bool)
    requires Update(changes, project, analysisRunning, isRiderSlnOrCsproj).enabled
    ensures ActionPerformed(changes, project, warningAccepted).Submitted? <==>
      warningAccepted || !SelectsProjectRoot(ChangedFiles(changes.value), project.value)
  {
  }

  /**
   A click submits only where the action is shown, unless the selection is a
   Rider solution: the click does not re-check that, nor whether the project
   is initialized or an analysis is running.
   */
  lemma SubmittedWhereShown(
    changes: Option<seq<Change>>,
    project: Option<ProjectState>,
    analysisRunning: bool,
    isRiderSlnOrCsproj: seq<VFile> -> bool,
    warningAccepted: bool)
    requires ActionPerformed(changes, project, warningAccepted).Submitted?
    ensures Update(changes, project, analysisRunning, isRiderSlnOrCsproj).visible ||
      isRiderSlnOrCsproj(ChangedFiles(changes.value))
  {
  }
}

/**
 The recursive collection of analysable files under a selected directory, as
 the VCS-changes action's visitor performs it. The file system is an abstract
 tree; the facts the visitor asks the IDE for (file type is binary, file is a
 project or workspace file) are fields of each node.
 */
module FileCollector {

  /** A virtual file. Only a directory's `children` are ever visited. */
  datatype VFile = VFile(
    path: string,
    name: string,
    isDirectory: bool,
    isBinary: bool,
    isProjectFile: bool,
    children: seq<VFile>)

  /** The name of the VCS metadata directory the visitor never enters. */
  const GitDirName := ".git"

  /** The visitor keeps a file when it is a plain, non-binary source file. */
  predicate Accepted(f: VFile) {
    !f.isDirectory && !f.isBinary && !f.isProjectFile
  }

  /** The visitor's answer to "go on below this file". */
  predicate Continues(f: VFile) {
    !f.isProjectFile && f.name != GitDirName
  }

  /** The traversal visits the children of `f`. */
  predicate Opens(f: VFile) {
    f.isDirectory && Continues(f)
  }

  /**
   The files the visitor has collected after a recursive visit rooted at `f`;
   the root itself is visited first.
   */
  function Collect(f: VFile): (r: set<VFile>)
    ensures forall g | g in r :: Accepted(g)
    ensures Accepted(f) ==> f in r
    ensures !Opens(f) ==> r <= {f}
    decreases f, 1
  {
    (if Accepted(f) then {f} else {}) + (if Opens(f) then CollectFrom(f, 0) else {})
  }

  /** What the visits of the children of `f` from index `i` on collect. */
  function CollectFrom(f: VFile, i: nat): (r: set<VFile>)
    ensures forall g | g in r :: Accepted(g)
    decreases f, 0, |f.children| - i
  {
    if i >= |f.children| then {}
    else Collect(f.children[i]) + CollectFrom(f, i + 1)
  }

  /**
   A chain of visits: each file but the last is a directory the visitor
   continues into, and each next file is one of its children.
   */
  predicate IsDescent(p: seq<VFile>) {
    |p| >= 1 &&
    forall k | 0 <= k < |p| - 1 :: Opens(p[k]) && p[k + 1] in p[k].children
  }

  lemma {:induction false} CollectFromMember(f: VFile, i: nat, g: VFile) returns (j: nat)
    requires g in CollectFrom(f, i)
    ensures i <= j < |f.children| && g in Collect(f.children[j])
    decreases |f.children| - i
  {
    if g in Collect(f.children[i]) {
      j := i;
    } else {
      j := CollectFromMember(f, i + 1, g);
    }
  }

  lemma {:induction false} CollectFromContains(f: VFile, i: nat, j: nat, g: VFile)
    requires i <= j < |f.children| && g in Collect(f.children[j])
    ensures g in CollectFrom(f, i)
    decreases j - i
  {
    if i < j {
      CollectFromContains(f, i + 1, j, g);
    }
  }

  /** Every collected file is reached from the root by a chain of visits. */
  lemma {:induction false} CollectedIsReached(f: VFile, g: VFile) returns (p: seq<VFile>)
    requires g in Collect(f)
    ensures IsDescent(p) && p[0] == f && p[|p| - 1] == g
    decreases f
  {
    if g == f {
      p := [f];
    } else {
      assert Opens(f) && g in CollectFrom(f, 0);
      var j := CollectFromMember(f, 0, g);
      var child := f.children[j];
      var q := CollectedIsReached(child, g);
      p := [f] + q;
      forall k | 0 <= k < |p| - 1
        ensures Opens(p[k]) && p[k + 1] in p[k].children
      {
        if k > 0 {
          assert p[k] == q[k - 1] && p[k + 1] == q[k];
        }
      }
    }
  }

  /** Every acceptable file reached by a chain of visits is collected. */
  lemma {:induction false} ReachedIsCollected(p: seq<VFile>)
    requires IsDescent(p) && Accepted(p[|p| - 1])
    ensures p[|p| - 1] in Collect(p[0])
    decreases |p|
  {
    if |p| > 1 {
      var q := p[1..];
      assert IsDescent(q) by {
        forall k | 0 <= k < |q| - 1
          ensures Opens(q[k]) && q[k + 1] in q[k].children
        {
          assert q[k] == p[k + 1] && q[k + 1] == p[k + 2];
        }
      }
      ReachedIsCollected(q);
      assert Opens(p[0]) && p[1] in p[0].children;
      var j :| 0 <= j < |p[0].children| && p[0].children[j] == p[1];
      CollectFromContains(p[0], 0, j, p[|p| - 1]);
    }
  }

  /** A `.git` directory or a project file contributes nothing below itself. */
  lemma PrunedSubtree(f: VFile)
    requires f.isProjectFile || (f.isDirectory && f.name == GitDirName)
    ensures Collect(f) == {}
  {
  }
}

/**
 The synthetic configuration-scope identifiers that the plugin mints for
 modules: the module name, a dash, and the decimal value of a counter.
 The text after the LAST dash of such an identifier is the counter, whatever
 dashes the module name itself contains, so the counter can be read back.
 */
module ModuleIds {
  import opened Wrappers
  import opened Decimal

  const Separator: char := '-'

  /** Index of the last occurrence of `c` in `s`, if any. */
  function LastIndexOf(s: string, c: char): (r: Option<nat>)
    ensures r.Some? ==> r.value < |s| && s[r.value] == c
    ensures r.Some? ==> forall j | r.value < j < |s| :: s[j] != c
    ensures r.None? ==> forall j | 0 <= j < |s| :: s[j] != c
    decreases |s|
  {
    if |s| == 0 then None
    else if s[|s| - 1] == c then Some(|s| - 1)
    else LastIndexOf(s[..|s| - 1], c)
  }

  /** The counter encoded after the last separator of `id`, when that text is a numeral. */
  function CounterOf(id: string): (counter: Option<nat>) {
    match LastIndexOf(id, Separator)
    case None => None
    case Some(i) =>
      var suffix := id[i + 1..];
      if |suffix| > 0 && AllDigits(suffix) then Some(ParseDecimal(suffix)) else None
  }

  lemma {:induction false} LastIndexOfAt(s: string, c: char, k: nat)
    requires k < |s| && s[k] == c
    requires forall j | k < j < |s| :: s[j] != c
    ensures LastIndexOf(s, c) == Some(k)
    decreases |s|
  {
    if k < |s| - 1 {
      assert s[|s| - 1] != c;
      var t := s[..|s| - 1];
      assert t[k] == c;
      LastIndexOfAt(t, c, k);
    }
  }

  lemma NoSeparatorAfter(name: string, digits: string)
    requires AllDigits(digits)
    ensures var s := name + [Separator] + digits;
            |name| < |s| && s[|name|] == Separator &&
            forall j | |name| < j < |s| :: s[j] != Separator
  {
    var s := name + [Separator] + digits;
    forall j | |name| < j < |s|
      ensures s[j] != Separator
    {
      assert s[j] == digits[j - |name| - 1];
    }
  }

  lemma LastSeparatorBeforeNumeral(name: string, digits: string)
    requires AllDigits(digits)
    ensures LastIndexOf(name + [Separator] + digits, Separator) == Some(|name|)
  {
    NoSeparatorAfter(name, digits);
    LastIndexOfAt(name + [Separator] + digits, Separator, |name|);
  }

  /** The identifier minted for a module called `name` when the counter reads `counter`. */
  function Mint(name: string, counter: nat): (id: string)
    ensures CounterOf(id) == Some(counter)
    ensures |id| > |name| && id[..|name|] == name
  {
    var digits := NatToString(counter);
    var id := name + [Separator] + digits;
    LastSeparatorBeforeNumeral(name, digits);
    assert id[|name| + 1..] == digits;
    ParseNatToString(counter);
    id
  }

  /** Two minted identifiers are equal only when both the name and the counter are. */
  lemma MintInjective(a: string, k: nat, b: string, j: nat)
    requires Mint(a, k) == Mint(b, j)
    ensures k == j && a == b
  {
    assert CounterOf(Mint(a, k)) == Some(k);
    assert k == j;
    assert |a| == |b|;
    assert a == Mint(a, k)[..|a|];
  }
}

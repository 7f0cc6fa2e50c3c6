/** Shared notions: options, sequences without repeats, byte-wise string order, file extensions. */
module Text {

  datatype Option<+T> = None | Some(value: T)

  ghost predicate NoRepeats<T(!new)>(s: seq<T>) {
    forall i, j :: 0 <= i < j < |s| ==> s[i] != s[j]
  }

  /** Lexicographic order of names, as `str::cmp` gives it. */
  predicate LexLeq(a: string, b: string) {
    a == [] || (b != [] && (a[0] < b[0] || (a[0] == b[0] && LexLeq(a[1..], b[1..]))))
  }

  predicate LexLess(a: string, b: string) {
    LexLeq(a, b) && a != b
  }

  lemma LexReflexive(a: string)
    ensures LexLeq(a, a)
  {
  }

  lemma LexTotal(a: string, b: string)
    ensures LexLeq(a, b) || LexLeq(b, a)
  {
  }

  lemma LexAntisymmetric(a: string, b: string)
    requires LexLeq(a, b) && LexLeq(b, a)
    ensures a == b
  {
    if a != [] {
      LexAntisymmetric(a[1..], b[1..]);
      assert a == [a[0]] + a[1..] && b == [b[0]] + b[1..];
    }
  }

  lemma LexTransitive(a: string, b: string, c: string)
    requires LexLeq(a, b) && LexLeq(b, c)
    ensures LexLeq(a, c)
  {
    if a != [] && a[0] == b[0] == c[0] {
      LexTransitive(a[1..], b[1..], c[1..]);
    }
  }

  /** Strictly ascending, hence without duplicates. */
  ghost predicate Ascending(s: seq<string>) {
    forall i, j :: 0 <= i < j < |s| ==> LexLess(s[i], s[j])
  }

  /** A separator splits a string in one way when the part before it does not contain it. */
  lemma SplitUnique(c: char, a: string, b: string, a': string, b': string)
    requires c !in a && c !in a'
    requires a + [c] + b == a' + [c] + b'
    ensures a == a' && b == b'
  {
    var s, s' := a + [c] + b, a' + [c] + b';
    assert s[|a|] == c && s'[|a'|] == c;
    assert forall i :: 0 <= i < |a| ==> s[i] == a[i];
    assert forall i :: 0 <= i < |a'| ==> s'[i] == a'[i];
    assert |a| == |a'|;
    assert a == s[..|a|] && a' == s'[..|a|];
    assert b == s[|a| + 1..] && b' == s'[|a| + 1..];
  }

  /** Index of the last dot, or -1. */
  function LastDot(s: string): (i: int)
    ensures -1 <= i < |s|
    ensures i >= 0 ==> s[i] == '.'
    ensures forall j :: i < j < |s| ==> s[j] != '.'
  {
    if s == [] then -1
    else if s[|s| - 1] == '.' then |s| - 1
    else LastDot(s[..|s| - 1])
  }

  /** `Path::extension`: what follows the last dot, unless the name has no dot after its first character. */
  function Extension(name: string): Option<string> {
    var i := LastDot(name);
    if i <= 0 then None else Some(name[i + 1..])
  }

  lemma ExtensionOfSuffix(stem: string, ext: string)
    requires stem != [] && '.' !in ext
    ensures Extension(stem + "." + ext) == Some(ext)
  {
    var s := stem + "." + ext;
    assert s[|stem|] == '.';
    forall j | |stem| < j < |s|
      ensures s[j] != '.'
    {
      assert s[j] == ext[j - |stem| - 1];
    }
    assert LastDot(s) == |stem|;
    assert s[|stem| + 1..] == ext;
  }

  /** Decimal digits, as `{}` formats an unsigned integer. */
  function Decimal(n: nat): (s: string)
    ensures s != [] && forall c :: c in s ==> '0' <= c <= '9'
  {
    var digit := ['0' + (n % 10) as char];
    if n < 10 then digit else Decimal(n / 10) + digit
  }

  /** Insertion of one name into an ascending list. */
  method InsertName(sorted: seq<string>, name: string) returns (r: seq<string>)
    requires Ascending(sorted) && name !in sorted
    ensures Ascending(r)
    ensures forall n :: n in r <==> n in sorted || n == name
  {
    var i := 0;
    while i < |sorted| && LexLeq(sorted[i], name)
      invariant i <= |sorted|
      invariant forall j :: 0 <= j < i ==> LexLess(sorted[j], name)
    {
      i := i + 1;
    }
    forall j | i <= j < |sorted|
      ensures LexLess(name, sorted[j])
    {
      LexTotal(sorted[i], name);
      if i < j { LexTransitive(name, sorted[i], sorted[j]); }
    }
    r := sorted[..i] + [name] + sorted[i..];
    assert forall n :: n in sorted <==> n in sorted[..i] || n in sorted[i..];
  }
}

/** Release versions as (major, minor, patch) triples, ordered by precedence
    as in section 11 of Semantic Versioning 2.0.0 (pre-release and build
    metadata are not modelled), and their text form "major.minor.patch". */
module Semver {
  datatype Version = Version(major: nat, minor: nat, patch: nat)

  /** `semver.gt(a, b)`: a has higher precedence than b. */
  predicate Gt(a: Version, b: Version) {
    || a.major > b.major
    || (a.major == b.major && a.minor > b.minor)
    || (a.major == b.major && a.minor == b.minor && a.patch > b.patch)
  }

  /** `semver.gte(a, b)`. */
  predicate Gte(a: Version, b: Version) {
    !Gt(b, a)
  }

  /** Precedence is a strict total order on triples. */
  lemma GtIsStrictTotalOrder(a: Version, b: Version, c: Version)
    ensures !Gt(a, a)
    ensures Gt(a, b) && Gt(b, c) ==> Gt(a, c)
    ensures a == b || Gt(a, b) || Gt(b, a)
  {
  }

  function DigitChar(d: nat): (c: char)
    requires d < 10
    ensures '0' <= c <= '9'
  {
    (48 + d) as char
  }

  /** The decimal text of n, without leading zeros. */
  function Digits(n: nat): (r: string)
    ensures |r| >= 1
    ensures forall i :: 0 <= i < |r| ==> '0' <= r[i] <= '9'
    decreases n
  {
    if n < 10 then [DigitChar(n)] else Digits(n / 10) + [DigitChar(n % 10)]
  }

  /** Exactly the one-digit numbers have one-character texts. */
  lemma DigitsLength(n: nat)
    ensures |Digits(n)| == 1 <==> n < 10
  {
    if n >= 10 {
      assert |Digits(n)| == |Digits(n / 10)| + 1;
    }
  }

  /** Distinct numbers have distinct decimal texts. */
  lemma {:induction false} DigitsInjective(a: nat, b: nat)
    requires Digits(a) == Digits(b)
    ensures a == b
    decreases a
  {
    DigitsLength(a);
    DigitsLength(b);
    if a < 10 {
      assert Digits(a)[0] == Digits(b)[0];
    } else {
      var da, db := Digits(a), Digits(b);
      assert da[|da| - 1] == DigitChar(a % 10) && db[|db| - 1] == DigitChar(b % 10);
      assert a % 10 == b % 10;
      assert Digits(a / 10) == da[..|da| - 1] == db[..|db| - 1] == Digits(b / 10);
      DigitsInjective(a / 10, b / 10);
    }
  }

  /** The version's text, "major.minor.patch". */
  function Render(v: Version): string {
    Digits(v.major) + "." + Digits(v.minor) + "." + Digits(v.patch)
  }

  /** In x + "." + y with no dot in x, the first dot sits right after x. */
  lemma FirstDotAfter(x: string, y: string)
    requires '.' !in x
    ensures (x + "." + y)[|x|] == '.'
    ensures forall i :: 0 <= i < |x| ==> (x + "." + y)[i] != '.'
  {
    assert forall i :: 0 <= i < |x| ==> (x + "." + y)[i] == x[i];
  }

  /** x + "." + y can be split back at its first dot when x has no dot. */
  lemma SplitAtFirstDot(x: string, y: string, x': string, y': string)
    requires '.' !in x && '.' !in x'
    requires x + "." + y == x' + "." + y'
    ensures x == x' && y == y'
  {
    var s := x + "." + y;
    FirstDotAfter(x, y);
    FirstDotAfter(x', y');
    assert |x| == |x'|;
    assert x == s[..|x|] == x';
    assert y == s[|x| + 1..] == y';
  }

  lemma DigitsHaveNoDot(n: nat)
    ensures '.' !in Digits(n)
  {
    var d := Digits(n);
    assert forall i :: 0 <= i < |d| ==> d[i] != '.';
  }

  /** Distinct versions have distinct texts. */
  lemma RenderInjective(a: Version, b: Version)
    requires Render(a) == Render(b)
    ensures a == b
  {
    DigitsHaveNoDot(a.major); DigitsHaveNoDot(b.major);
    DigitsHaveNoDot(a.minor); DigitsHaveNoDot(b.minor);
    var ta := Digits(a.minor) + "." + Digits(a.patch);
    var tb := Digits(b.minor) + "." + Digits(b.patch);
    assert Render(a) == Digits(a.major) + "." + ta;
    assert Render(b) == Digits(b.major) + "." + tb;
    SplitAtFirstDot(Digits(a.major), ta, Digits(b.major), tb);
    SplitAtFirstDot(Digits(a.minor), Digits(a.patch), Digits(b.minor), Digits(b.patch));
    DigitsInjective(a.major, b.major);
    DigitsInjective(a.minor, b.minor);
    DigitsInjective(a.patch, b.patch);
  }

  /** A version's text begins with a digit. */
  lemma RenderStartsWithDigit(v: Version)
    ensures |Render(v)| > 0 && '0' <= Render(v)[0] <= '9'
  {
    assert Render(v)[0] == Digits(v.major)[0];
  }
}

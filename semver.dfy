/** The versions compared by `check_module_state` and the "update all" batch
    (`semver::Version::parse` and `>`): a `major.minor.patch` triple of numeric identifiers
    without leading zeros, ordered by precedence as section 11 of Semantic Versioning 2.0.0
    orders release versions: major, then minor, then patch, numerically. */
module SemVer {
  import opened Wrappers
  import opened Strings

  /** `semver` stores each component as a `u64`. */
  const U64End: nat := 0x1_0000_0000_0000_0000

  newtype u64 = x: int | 0 <= x < 0x1_0000_0000_0000_0000

  datatype Version = Version(major: u64, minor: u64, patch: u64)

  predicate IsDigit(c: char) { '0' <= c <= '9' }

  function DigitValue(c: char): nat
    requires IsDigit(c)
  {
    (c - '0') as nat
  }

  function DigitChar(d: nat): (c: char)
    requires d < 10
    ensures IsDigit(c) && DigitValue(c) == d
  {
    '0' + d as char
  }

  /** The value of a non-empty run of decimal digits. */
  function DigitsValue(s: string): nat
    requires forall i :: 0 <= i < |s| ==> IsDigit(s[i])
  {
    if s == [] then 0 else DigitsValue(s[..|s| - 1]) * 10 + DigitValue(s[|s| - 1])
  }

  /** A numeric identifier: `0`, or digits not starting with `0` (section 2 of Semantic
      Versioning), whose value fits a `u64`; a larger one is a parse error. */
  function ParseNumber(s: string): (r: Option<u64>)
    ensures r.Some? ==> s != [] && (s[0] == '0' ==> s == "0")
  {
    if s != [] && (forall i :: 0 <= i < |s| ==> IsDigit(s[i])) && (s[0] == '0' ==> |s| == 1) && DigitsValue(s) < U64End
    then Some(DigitsValue(s) as u64) else None
  }

  /** The decimal text of a number, without leading zeros. */
  function ShowNumber(n: nat): (s: string)
    ensures s != [] && (forall i :: 0 <= i < |s| ==> IsDigit(s[i]))
    ensures s[0] == '0' ==> n == 0 && s == "0"
  {
    if n < 10 then [DigitChar(n)] else ShowNumber(n / 10) + [DigitChar(n % 10)]
  }

  lemma {:induction false} DigitsOfShow(n: nat)
    ensures DigitsValue(ShowNumber(n)) == n
  {
    if n >= 10 {
      var s := ShowNumber(n);
      assert s[..|s| - 1] == ShowNumber(n / 10);
      DigitsOfShow(n / 10);
    }
  }

  lemma ParseShowNumber(n: u64)
    ensures ParseNumber(ShowNumber(n as nat)) == Some(n)
  {
    DigitsOfShow(n as nat);
  }

  /** A component too large for a `u64` makes the version text invalid. */
  lemma TooLargeRejected(n: nat)
    requires n >= U64End
    ensures ParseNumber(ShowNumber(n)).None?
  {
    DigitsOfShow(n);
  }

  /** `Version::parse` for release versions; anything else (pre-release or build suffixes
      included) is a parse failure. */
  function Parse(s: string): (r: Option<Version>)
    ensures r.Some? ==> |Split(s, '.')| == 3
  {
    var parts := Split(s, '.');
    if |parts| != 3 then None
    else
      var a, b, c := ParseNumber(parts[0]), ParseNumber(parts[1]), ParseNumber(parts[2]);
      if a.Some? && b.Some? && c.Some? then Some(Version(a.value, b.value, c.value)) else None
  }

  function Show(v: Version): string {
    ShowNumber(v.major as nat) + "." + ShowNumber(v.minor as nat) + "." + ShowNumber(v.patch as nat)
  }

  /** Every version reads back from its text. */
  lemma ParseShow(v: Version)
    ensures Parse(Show(v)) == Some(v)
  {
    var a, b, c := ShowNumber(v.major as nat), ShowNumber(v.minor as nat), ShowNumber(v.patch as nat);
    assert '.' !in a && '.' !in b && '.' !in c by {
      assert forall x :: x in a ==> IsDigit(x);
      assert forall x :: x in b ==> IsDigit(x);
      assert forall x :: x in c ==> IsDigit(x);
    }
    assert Show(v) == a + ['.'] + (b + ['.'] + c);
    SplitCons(a, b + ['.'] + c, '.');
    SplitCons(b, c, '.');
    ParseShowNumber(v.major);
    ParseShowNumber(v.minor);
    ParseShowNumber(v.patch);
  }

  /** A version whose major component exceeds `u64` does not parse, whatever follows it. */
  lemma TooLargeMajorRejected(n: nat, rest: string)
    requires n >= U64End
    ensures Parse(ShowNumber(n) + "." + rest).None?
  {
    var a := ShowNumber(n);
    assert '.' !in a by {
      assert forall x :: x in a ==> IsDigit(x);
    }
    assert a + "." + rest == a + ['.'] + rest;
    SplitCons(a, rest, '.');
    TooLargeRejected(n);
  }

  /** Precedence: `a` is lower than `b`. */
  predicate Less(a: Version, b: Version) {
    a.major < b.major ||
    (a.major == b.major && (a.minor < b.minor || (a.minor == b.minor && a.patch < b.patch)))
  }

  /** Precedence is a strict total order on release versions. */
  lemma LessIsStrictTotal(a: Version, b: Version, c: Version)
    ensures !Less(a, a)
    ensures Less(a, b) && Less(b, c) ==> Less(a, c)
    ensures a == b || Less(a, b) || Less(b, a)
    ensures !(Less(a, b) && Less(b, a))
  {
  }

  /** Leading zeros make a numeric identifier invalid. */
  lemma LeadingZeroRejected(s: string)
    requires |s| >= 2 && s[0] == '0'
    ensures ParseNumber(s).None?
  {
  }
}

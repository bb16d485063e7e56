/** Release tags (internal/common/release): parsing YYYY.N[-suffix] and the
    three classifications the upgrade flow gates on. */
module Releases {
  import opened Wrappers
  import opened Text

  datatype Release = Release(year: int, minor: int, patch: string, raw: string)

  const MAX_INT := 0x7fff_ffff_ffff_ffff

  /** strconv.Atoi on a 64-bit int: an optional sign, at least one digit. */
  function Atoi(s: string): Option<int> {
    var signed := s != "" && (s[0] == '+' || s[0] == '-');
    var digits := if signed then s[1..] else s;
    if digits == "" || !AllDigits(digits) then None
    else
      var n: int := Digits(digits);
      var v := if signed && s[0] == '-' then -n else n;
      if -MAX_INT - 1 <= v <= MAX_INT then Some(v) else None
  }

  function ParseRelease(tag: string): (r: Option<Release>)
    ensures r.Some? ==>
              && tag != "" && r.value.raw == tag
              && r.value.year >= 2010 && (r.value.minor == 1 || r.value.minor == 2)
  {
    if tag == "" then None
    else
      var dash := IndexOf(tag, '-');
      var parts := Split(tag[..dash], '.');
      if |parts| != 2 then None
      else
        var year := Atoi(parts[0]);
        var minor := Atoi(parts[1]);
        if year.None? || year.value < 2010 then None
        else if minor.None? || (minor.value != 1 && minor.value != 2) then None
        else Some(Release(year.value, minor.value, if dash < |tag| then tag[dash + 1..] else "", tag))
  }

  lemma AtoiOfItoa(n: nat)
    requires n <= MAX_INT
    ensures Atoi(Itoa(n)) == Some(n)
  {
    DigitsOfItoa(n);
    assert IsDigit(Itoa(n)[0]);
  }

  predicate AllZeros(s: string) { forall i :: 0 <= i < |s| ==> s[i] == '0' }

  lemma {:induction false} ZerosAreZero(zeros: string)
    requires AllZeros(zeros)
    ensures Digits(zeros) == 0
  {
    if zeros != [] {
      ZerosAreZero(zeros[..|zeros| - 1]);
    }
  }

  lemma {:induction false} ZerosAhead(zeros: string, s: string)
    requires AllZeros(zeros) && AllDigits(s)
    ensures AllDigits(zeros + s) && Digits(zeros + s) == Digits(s)
    decreases |s|
  {
    if s == [] {
      assert zeros + s == zeros;
      ZerosAreZero(zeros);
    } else {
      var n := |s| - 1;
      ZerosAhead(zeros, s[..n]);
      assert (zeros + s)[..|zeros| + n] == zeros + s[..n];
    }
  }

  function InRange(v: int): Option<int> { if -MAX_INT - 1 <= v <= MAX_INT then Some(v) else None }

  lemma AtoiOfDigits(digits: string)
    requires digits != "" && AllDigits(digits)
    ensures Atoi(digits) == InRange(Digits(digits))
    ensures Atoi(['+'] + digits) == InRange(Digits(digits))
    ensures Atoi(['-'] + digits) == InRange(-(Digits(digits) as int))
  {
    assert IsDigit(digits[0]);
    assert (['+'] + digits)[1..] == digits && (['-'] + digits)[1..] == digits;
  }

  /** Atoi reads a number with or without a sign and with leading zeros, up to what a
      64-bit int holds. */
  lemma AtoiReads(zeros: string, n: nat)
    requires AllZeros(zeros)
    ensures Atoi(zeros + Itoa(n)) == Atoi(['+'] + (zeros + Itoa(n))) == InRange(n)
    ensures Atoi(['-'] + (zeros + Itoa(n))) == InRange(-(n as int))
  {
    ZerosAhead(zeros, Itoa(n));
    DigitsOfItoa(n);
    AtoiOfDigits(zeros + Itoa(n));
  }

  function Tag(base: string, suffixed: bool, patch: string): string {
    if suffixed then base + ['-'] + patch else base
  }

  lemma CutTag(base: string, suffixed: bool, patch: string)
    requires '-' !in base
    ensures var tag := Tag(base, suffixed, patch);
            IndexOf(tag, '-') == |base| && tag[..|base|] == base
            && (suffixed <==> |base| < |tag|) && (suffixed ==> tag[|base| + 1..] == patch)
  {
    IndexOfAt(base, '-', patch);
  }

  lemma SplitTwo(y: string, m: string)
    requires '.' !in y && '.' !in m
    ensures Split(y + ['.'] + m, '.') == [y, m]
  {
    SplitOfJoin([y, m], '.');
    assert [y, m][1..] == [m];
    assert Join([y, m], '.') == y + ['.'] + m;
  }

  lemma ParseOfParts(y: string, m: string, suffixed: bool, patch: string, year: int, minor: int)
    requires '-' !in y && '-' !in m && '.' !in y && '.' !in m
    requires Atoi(y) == Some(year) && Atoi(m) == Some(minor) && year >= 2010 && (minor == 1 || minor == 2)
    requires suffixed || patch == ""
    ensures var tag := Tag(y + ['.'] + m, suffixed, patch);
            ParseRelease(tag) == Some(Release(year, minor, patch, tag))
  {
    CutTag(y + ['.'] + m, suffixed, patch);
    SplitTwo(y, m);
  }

  /** Parsing undoes printing: every release of the documented shape is read
      back with its year, minor and suffix, whatever the suffix holds. */
  lemma {:induction false} ParseOfPrint(year: nat, minor: nat, suffixed: bool, patch: string)
    requires 2010 <= year <= MAX_INT && 1 <= minor <= 2
    requires suffixed || patch == ""
    ensures var tag := Tag(Itoa(year) + ['.'] + Itoa(minor), suffixed, patch);
            ParseRelease(tag) == Some(Release(year, minor, patch, tag))
  {
    AtoiOfItoa(year);
    AtoiOfItoa(minor);
    DigitsOfItoa(year);
    DigitsOfItoa(minor);
    ParseOfParts(Itoa(year), Itoa(minor), suffixed, patch, year, minor);
  }

  lemma CutAtDash(tag: string)
    ensures var dash := IndexOf(tag, '-');
            tag == Tag(tag[..dash], dash < |tag|, if dash < |tag| then tag[dash + 1..] else "") && '-' !in tag[..dash]
  {
    var dash := IndexOf(tag, '-');
    if dash < |tag| {
      Parted(tag, dash);
    } else {
      assert tag[..dash] == tag;
    }
  }

  lemma Parted(s: string, i: nat)
    requires i < |s|
    ensures s == s[..i] + [s[i]] + s[i + 1..]
  {}

  lemma JoinedTwo(s: string)
    requires |Split(s, '.')| == 2
    ensures s == Split(s, '.')[0] + ['.'] + Split(s, '.')[1]
  {
    var parts := Split(s, '.');
    JoinOfSplit(s, '.');
    assert parts[1..] == [parts[1]] && Join([parts[1]], '.') == parts[1];
  }

  /** And nothing else parses: a tag that does is a year and a minor that Atoi reads, with
      a dot between them and a dash before any suffix. */
  lemma ParsedIsTag(tag: string) returns (y: string, m: string, suffixed: bool)
    requires ParseRelease(tag).Some?
    ensures var r := ParseRelease(tag).value;
            && tag == Tag(y + ['.'] + m, suffixed, r.patch) && '-' !in y + ['.'] + m
            && Atoi(y) == Some(r.year) && Atoi(m) == Some(r.minor)
  {
    var dash := IndexOf(tag, '-');
    var parts := Split(tag[..dash], '.');
    y, m, suffixed := parts[0], parts[1], dash < |tag|;
    CutAtDash(tag);
    JoinedTwo(tag[..dash]);
  }

  predicate IsSequentialUpgrade(from: Release, to: Release) {
    || (from.year == to.year && from.minor == 1 && to.minor == 2)
    || (to.year == from.year + 1 && from.minor == 2 && to.minor == 1)
  }

  predicate IsDowngrade(from: Release, to: Release) {
    to.year < from.year || (to.year == from.year && to.minor < from.minor)
  }

  predicate IsPatchOnly(from: Release, to: Release) {
    from.year == to.year && from.minor == to.minor
  }

  /** Position of YYYY.N in the sequence of half-yearly releases. */
  function Ordinal(r: Release): int { 2 * r.year + r.minor }

  /** The three classifications are the three ways two positions can compare. */
  lemma Classification(a: string, b: string)
    requires ParseRelease(a).Some? && ParseRelease(b).Some?
    ensures var from, to := ParseRelease(a).value, ParseRelease(b).value;
            && (IsPatchOnly(from, to) <==> Ordinal(to) == Ordinal(from))
            && (IsSequentialUpgrade(from, to) <==> Ordinal(to) == Ordinal(from) + 1)
            && (IsDowngrade(from, to) <==> Ordinal(to) < Ordinal(from))
  {
  }
}

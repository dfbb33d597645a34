/**
 Version parsing and precedence (apps/updater/src/manifest.ts). `ComparePrerelease` and
 `CompareSemver` keep the loops of the program; `ListOrder` and `VersionOrder` are what they
 compute, and `Precedes` is item 11 of Semantic Versioning 2.0.0 said without any loop.
 */
module SemVer {
  import opened Wrappers
  import opened Decimal
  import opened JsString

  datatype Version = Version(major: nat, minor: nat, patch: nat, prerelease: seq<string>)

  // ---------------------------------------------------------------- parsing

  predicate IsIdentifierChar(c: char) {
    IsDigit(c) || 'a' <= c <= 'z' || 'A' <= c <= 'Z' || c == '-'
  }

  predicate IsNumeric(s: string) { s != "" && AllDigits(s) }

  predicate IsIdentifier(s: string) { s != "" && forall i :: 0 <= i < |s| ==> IsIdentifierChar(s[i]) }

  /** `\d+` followed by `stop`: the number and what is behind the stop. */
  function NumberThen(s: string, stop: char): Option<(nat, string)> {
    var n := DigitPrefix(s);
    if n > 0 && n < |s| && s[n] == stop then Some((Number(s[..n]), s[n + 1..])) else None
  }

  function ParsePatchAndPrerelease(major: nat, minor: nat, s: string): Option<Version> {
    var n := DigitPrefix(s);
    if n == 0 then None
    else if n == |s| then Some(Version(major, minor, Number(s), []))
    else if s[n] != '-' then None
    else
      var parts := Split(s[n + 1..], '.');
      if forall i :: 0 <= i < |parts| ==> IsIdentifier(parts[i])
      then Some(Version(major, minor, Number(s[..n]), parts)) else None
  }

  function ParseCore(s: string): Option<Version> {
    match NumberThen(s, '.')
    case None => None
    case Some((major, s1)) =>
      match NumberThen(s1, '.')
      case None => None
      case Some((minor, s2)) => ParsePatchAndPrerelease(major, minor, s2)
  }

  /** parseSemver; None is INVALID_SEMVER. */
  function ParseSemver(version: string): Option<Version> { ParseCore(WithoutV(version)) }

  function Tail(prerelease: seq<string>): string { if prerelease == [] then "" else "-" + Join(prerelease, ".") }

  /** The text of a version, without the optional `v`: three numbers of one digit or more, and identifiers. */
  predicate Spells(s: string, a: string, b: string, c: string, v: Version) {
    && IsNumeric(a) && IsNumeric(b) && IsNumeric(c)
    && v.major == Number(a) && v.minor == Number(b) && v.patch == Number(c)
    && (forall i :: 0 <= i < |v.prerelease| ==> IsIdentifier(v.prerelease[i]))
    && s == a + ("." + (b + ("." + (c + Tail(v.prerelease)))))
  }

  lemma ReadsNumber(digits: string, rest: string)
    requires IsNumeric(digits)
    ensures NumberThen(digits + ("." + rest), '.') == Some((Number(digits), rest))
  {
    var s := digits + ("." + rest);
    DigitPrefixConcat(digits, "." + rest);
    assert s[..|digits|] == digits && s[|digits| + 1..] == rest;
  }

  lemma NumberIsRead(s: string)
    requires NumberThen(s, '.').Some?
    ensures var a, (number, rest) := s[..DigitPrefix(s)], NumberThen(s, '.').value;
            IsNumeric(a) && number == Number(a) && s == a + ("." + rest)
  {
    DigitPrefixIsExact(s);
  }

  lemma ReadsPatch(c: string, v: Version)
    requires IsNumeric(c) && v.patch == Number(c)
    requires forall i :: 0 <= i < |v.prerelease| ==> IsIdentifier(v.prerelease[i])
    ensures ParsePatchAndPrerelease(v.major, v.minor, c + Tail(v.prerelease)) == Some(v)
  {
    var s, tail := c + Tail(v.prerelease), Tail(v.prerelease);
    DigitPrefixConcat(c, tail);
    assert s[..|c|] == c;
    if v.prerelease == [] {
      assert s == c;
    } else {
      assert s[|c| + 1..] == Join(v.prerelease, ".");
      SplitJoin(v.prerelease, '.');
    }
  }

  lemma PatchIsRead(s: string, v: Version)
    requires ParsePatchAndPrerelease(v.major, v.minor, s) == Some(v)
    ensures var c := s[..DigitPrefix(s)];
            && IsNumeric(c) && v.patch == Number(c) && s == c + Tail(v.prerelease)
            && forall i :: 0 <= i < |v.prerelease| ==> IsIdentifier(v.prerelease[i])
  {
    DigitPrefixIsExact(s);
    var n := DigitPrefix(s);
    if n < |s| {
      JoinSplit(s[n + 1..], '.');
      assert s == s[..n] + ("-" + s[n + 1..]);
    } else {
      assert s[..n] == s;
    }
  }

  function WithoutV(version: string): string { if version != "" && version[0] == 'v' then version[1..] else version }

  lemma ParseSpelled(s: string, a: string, b: string, c: string, v: Version)
    requires Spells(s, a, b, c, v)
    ensures ParseCore(s) == Some(v)
  {
    var s2 := c + Tail(v.prerelease);
    ReadsNumber(a, b + ("." + s2));
    ReadsNumber(b, s2);
    ReadsPatch(c, v);
  }

  lemma SpelledAsParsed(s: string, v: Version)
    requires ParseCore(s) == Some(v)
    ensures exists a: string, b: string, c: string :: Spells(s, a, b, c, v)
  {
    var (major, s1) := NumberThen(s, '.').value;
    var (minor, s2) := NumberThen(s1, '.').value;
    var a, b, c := s[..DigitPrefix(s)], s1[..DigitPrefix(s1)], s2[..DigitPrefix(s2)];
    assert IsNumeric(a) && major == Number(a) && s == a + ("." + s1) by { NumberIsRead(s); }
    assert IsNumeric(b) && minor == Number(b) && s1 == b + ("." + s2) by { NumberIsRead(s1); }
    assert Spells(s, a, b, c, v) by { PatchIsRead(s2, v); }
  }

  /** A text parses as a version exactly when it spells that version, after an optional `v`. */
  lemma ParseIsExact(version: string, v: Version)
    ensures ParseSemver(version) == Some(v)
       <==> exists a: string, b: string, c: string :: Spells(WithoutV(version), a, b, c, v)
  {
    var s := WithoutV(version);
    if ParseSemver(version) == Some(v) { SpelledAsParsed(s, v); }
    if a: string, b: string, c: string :| Spells(s, a, b, c, v) { ParseSpelled(s, a, b, c, v); }
  }

  // ---------------------------------------------------------------- precedence

  type Sign = n: int | -1 <= n <= 1

  function NatOrder(a: nat, b: nat): Sign { if a < b then -1 else if a > b then 1 else 0 }

  /** The order of `<` on strings: by code unit, a proper prefix first. */
  function StringOrder(a: string, b: string): Sign {
    if a == "" && b == "" then 0
    else if a == "" then -1
    else if b == "" then 1
    else if a[0] != b[0] then (if a[0] < b[0] then -1 else 1)
    else StringOrder(a[1..], b[1..])
  }

  /** One pair of prerelease identifiers: numeric by value, numeric before alphanumeric. */
  function IdentifierOrder(a: string, b: string): Sign {
    if IsNumeric(a) && IsNumeric(b) then NatOrder(Number(a), Number(b))
    else if IsNumeric(a) then -1
    else if IsNumeric(b) then 1
    else StringOrder(a, b)
  }

  function ListOrder(a: seq<string>, b: seq<string>): Sign {
    if a == [] && b == [] then 0
    else if a == [] then -1
    else if b == [] then 1
    else
      var c := IdentifierOrder(a[0], b[0]);
      if c != 0 then c else ListOrder(a[1..], b[1..])
  }

  /** A version without prerelease identifiers comes after every prerelease of it. */
  function PrereleaseOrder(a: seq<string>, b: seq<string>): Sign {
    if a == [] && b == [] then 0
    else if a == [] then 1
    else if b == [] then -1
    else ListOrder(a, b)
  }

  function VersionOrder(a: Version, b: Version): Sign {
    if a.major != b.major then NatOrder(a.major, b.major)
    else if a.minor != b.minor then NatOrder(a.minor, b.minor)
    else if a.patch != b.patch then NatOrder(a.patch, b.patch)
    else PrereleaseOrder(a.prerelease, b.prerelease)
  }

  /** `left` is a later release than `right`; false when one of them is no version at all. */
  predicate Newer(left: string, right: string) {
    var a, b := ParseSemver(left), ParseSemver(right);
    a.Some? && b.Some? && VersionOrder(a.value, b.value) == 1
  }

  // ---------------------------------------------------------------- the program's loops

  lemma StringOrderZero(a: string, b: string)
    ensures StringOrder(a, b) == 0 <==> a == b
  {
    if a != "" && b != "" {
      StringOrderZero(a[1..], b[1..]);
      assert a == [a[0]] + a[1..] && b == [b[0]] + b[1..];
    }
  }

  method ComparePrerelease(left: seq<string>, right: seq<string>) returns (r: Sign)
    ensures r == PrereleaseOrder(left, right)
  {
    if |left| == 0 && |right| == 0 { return 0; }
    if |left| == 0 { return 1; }
    if |right| == 0 { return -1; }
    var length := if |left| > |right| then |left| else |right|;
    var index := 0;
    while index < length
      invariant 0 <= index <= length
      invariant index <= |left| && index <= |right|
      invariant ListOrder(left, right) == ListOrder(left[index..], right[index..])
    {
      if index == |left| { return -1; }
      if index == |right| { return 1; }
      var leftPart, rightPart := left[index], right[index];
      assert left[index..][1..] == left[index + 1..] && right[index..][1..] == right[index + 1..];
      StringOrderZero(leftPart, rightPart);
      index := index + 1;
      if leftPart == rightPart { continue; }
      var leftNumeric, rightNumeric := IsNumeric(leftPart), IsNumeric(rightPart);
      if leftNumeric && rightNumeric {
        var leftNumber, rightNumber := Number(leftPart), Number(rightPart);
        if leftNumber > rightNumber { return 1; }
        if leftNumber < rightNumber { return -1; }
        continue;
      }
      if leftNumeric { return -1; }
      if rightNumeric { return 1; }
      return if StringOrder(leftPart, rightPart) > 0 then 1 else -1;
    }
    return 0;
  }

  /** The loop over the keys `major`, `minor` and `patch`, then the prereleases. */
  method CompareParsed(a: Version, b: Version) returns (r: Sign)
    ensures r == VersionOrder(a, b)
  {
    var leftKeys, rightKeys := [a.major, a.minor, a.patch], [b.major, b.minor, b.patch];
    for key := 0 to 3
      invariant key > 0 ==> a.major == b.major
      invariant key > 1 ==> a.minor == b.minor
      invariant key > 2 ==> a.patch == b.patch
    {
      assert leftKeys[0] == a.major && leftKeys[1] == a.minor && leftKeys[2] == a.patch;
      if leftKeys[key] > rightKeys[key] { return 1; }
      if leftKeys[key] < rightKeys[key] { return -1; }
    }
    r := ComparePrerelease(a.prerelease, b.prerelease);
  }

  /** None is the INVALID_SEMVER error. */
  method CompareSemver(left: string, right: string) returns (r: Option<Sign>)
    ensures r.None? <==> ParseSemver(left).None? || ParseSemver(right).None?
    ensures r.Some? ==> r.value == VersionOrder(ParseSemver(left).value, ParseSemver(right).value)
  {
    var a := ParseSemver(left);
    var b := ParseSemver(right);
    if a.None? || b.None? { return None; }
    var c := CompareParsed(a.value, b.value);
    return Some(c);
  }

  // ---------------------------------------------------------------- a total preorder

  /** Item 11.4: the first identifiers that differ decide; if none does, the shorter list is lower. */
  ghost predicate Precedes(a: seq<string>, b: seq<string>) {
    exists k: nat :: k <= |a| && k < |b| && AgreeUpTo(a, b, k)
      && (k == |a| || IdentifierOrder(a[k], b[k]) == -1)
  }

  ghost predicate AgreeUpTo(a: seq<string>, b: seq<string>, k: nat)
    requires k <= |a| && k <= |b|
  {
    forall i :: 0 <= i < k ==> IdentifierOrder(a[i], b[i]) == 0
  }

  lemma {:induction false} ListOrderIsPrecedence(a: seq<string>, b: seq<string>)
    ensures ListOrder(a, b) == -1 <==> Precedes(a, b)
  {
    if a == [] {
      if b != [] { assert AgreeUpTo(a, b, 0); }
    } else if b != [] {
      var c := IdentifierOrder(a[0], b[0]);
      var at, bt := a[1..], b[1..];
      ListOrderIsPrecedence(at, bt);
      if c == -1 { assert AgreeUpTo(a, b, 0); }
      if c == 0 && Precedes(at, bt) {
        var k: nat :| && k <= |at| && k < |bt| && AgreeUpTo(at, bt, k)
                      && (k == |at| || IdentifierOrder(at[k], bt[k]) == -1);
        forall i | 0 <= i < k + 1 ensures IdentifierOrder(a[i], b[i]) == 0 {
          if i > 0 { assert a[i] == at[i - 1] && b[i] == bt[i - 1]; }
        }
        assert AgreeUpTo(a, b, k + 1);
      }
      if c != -1 && Precedes(a, b) {
        var k: nat :| k <= |a| && k < |b| && AgreeUpTo(a, b, k) && (k == |a| || IdentifierOrder(a[k], b[k]) == -1);
        assert k > 0;
        forall i | 0 <= i < k - 1 ensures IdentifierOrder(at[i], bt[i]) == 0 {
          assert at[i] == a[i + 1] && bt[i] == b[i + 1];
        }
        assert AgreeUpTo(at, bt, k - 1);
      }
    }
  }

  lemma {:induction false} StringOrderLaws(a: string, b: string, c: string)
    ensures StringOrder(a, b) == -StringOrder(b, a)
    ensures StringOrder(a, b) <= 0 && StringOrder(b, c) <= 0
            ==> StringOrder(a, c) == (if StringOrder(a, b) + StringOrder(b, c) == 0 then 0 else -1)
    decreases |a| + |b| + |c|
  {
    if a != "" && b != "" {
      StringOrderLaws(a[1..], b[1..], if c == "" then c else c[1..]);
    }
    StringOrderZero(a, b);
    StringOrderZero(b, c);
    StringOrderZero(a, c);
  }

  lemma IdentifierOrderLaws(a: string, b: string, c: string)
    ensures IdentifierOrder(a, b) == -IdentifierOrder(b, a)
    ensures IdentifierOrder(a, b) <= 0 && IdentifierOrder(b, c) <= 0
            ==> IdentifierOrder(a, c) == (if IdentifierOrder(a, b) + IdentifierOrder(b, c) == 0 then 0 else -1)
  {
    StringOrderLaws(a, b, c);
  }

  lemma {:induction false} ListOrderLaws(a: seq<string>, b: seq<string>, c: seq<string>)
    ensures ListOrder(a, b) == -ListOrder(b, a)
    ensures ListOrder(a, b) <= 0 && ListOrder(b, c) <= 0
            ==> ListOrder(a, c) == (if ListOrder(a, b) + ListOrder(b, c) == 0 then 0 else -1)
    decreases |a| + |b| + |c|
  {
    if a != [] && b != [] {
      IdentifierOrderLaws(a[0], b[0], if c == [] then "" else c[0]);
      ListOrderLaws(a[1..], b[1..], if c == [] then c else c[1..]);
    }
  }

  /** compareSemver is a total preorder: reflexive, antisymmetric in sign and transitive, strictly so
      as soon as one of the two comparisons is strict. */
  lemma VersionOrderIsTotalPreorder(a: Version, b: Version, c: Version)
    ensures VersionOrder(a, a) == 0
    ensures VersionOrder(a, b) == -VersionOrder(b, a)
    ensures VersionOrder(a, b) <= 0 && VersionOrder(b, c) <= 0
            ==> VersionOrder(a, c) == (if VersionOrder(a, b) + VersionOrder(b, c) == 0 then 0 else -1)
  {
    ListOrderLaws(a.prerelease, b.prerelease, c.prerelease);
    ListOrderLaws(a.prerelease, a.prerelease, a.prerelease);
  }

  lemma NewerIsStrictOrder(a: string, b: string, c: string)
    ensures !Newer(a, a)
    ensures Newer(a, b) ==> !Newer(b, a)
    ensures Newer(a, b) && Newer(b, c) ==> Newer(a, c)
  {
    var x, y, z := ParseSemver(a), ParseSemver(b), ParseSemver(c);
    if x.Some? { VersionOrderIsTotalPreorder(x.value, x.value, x.value); }
    if x.Some? && y.Some? {
      VersionOrderIsTotalPreorder(x.value, y.value, y.value);
      if z.Some? {
        VersionOrderIsTotalPreorder(z.value, y.value, x.value);
        VersionOrderIsTotalPreorder(y.value, z.value, z.value);
        VersionOrderIsTotalPreorder(x.value, z.value, z.value);
      }
    }
  }
}

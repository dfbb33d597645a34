/**
 The literal addresses that a WebSocket URL may hold (packages/sdk/src/lib/websocket-url.ts:5-52): dotted IPv4
 in canonical decimal, and IPv6 in the text forms of section 2.2 of RFC 4291.
 */
module IpAddress {
  import opened Wrappers
  import opened Decimal
  import opened JsString

  // ---------------------------------------------------------------- IPv4

  /** `^(?:0|[1-9]\d{0,2})$`, and at most 255. */
  predicate Octet(s: string) {
    1 <= |s| <= 3 && AllDigits(s) && (s[0] == '0' ==> |s| == 1) && Number(s) <= 255
  }

  predicate IsIpv4(s: string) { |Split(s, '.')| == 4 && forall p <- Split(s, '.') :: Octet(p) }

  lemma NumberStep(s: string, d: char)
    requires AllDigits(s) && IsDigit(d)
    ensures AllDigits(s + [d]) && Number(s + [d]) == Number(s) * 10 + DigitValue(d)
  {
    assert (s + [d])[..|s|] == s;
  }

  lemma {:induction false} NumberIsPositive(s: string)
    requires s != "" && AllDigits(s) && s[0] != '0'
    ensures Number(s) > 0
  {
    var front := s[..|s| - 1];
    assert s == front + [s[|s| - 1]];
    NumberStep(front, s[|s| - 1]);
    if front != "" { NumberIsPositive(front); }
  }

  /** A number without superfluous zeros is printed as it was written. */
  lemma {:induction false} DigitsOfNumber(s: string)
    requires s != "" && AllDigits(s) && (s[0] == '0' ==> |s| == 1)
    ensures Digits(Number(s)) == s
  {
    var front, d := s[..|s| - 1], s[|s| - 1];
    assert s == front + [d];
    NumberStep(front, d);
    if front == "" {
      assert Number(front) == 0;
    } else {
      NumberIsPositive(front);
      DigitsOfNumber(front);
      assert DigitChar(DigitValue(d)) == d;
    }
  }

  /** normalizeIpv4: a canonical address comes back unchanged. */
  method NormalizeIpv4(value: string) returns (r: Option<string>)
    ensures r == if IsIpv4(value) then Some(value) else None
  {
    var parts := Split(value, '.');
    if |parts| != 4 { return None; }
    var normalized: seq<string>, i := [], 0;
    while i < |parts|
      invariant 0 <= i <= |parts|
      invariant normalized == parts[..i]
      invariant forall p <- parts[..i] :: Octet(p)
    {
      var part := parts[i];
      if !(1 <= |part| <= 3 && AllDigits(part) && (part[0] == '0' ==> |part| == 1)) {
        assert part in parts;
        return None;
      }
      var octet := Number(part);
      if octet > 255 {
        assert part in parts;
        return None;
      }
      DigitsOfNumber(part);
      normalized := normalized + [Digits(octet)];
      i := i + 1;
    }
    assert parts[..i] == parts;
    JoinSplit(value, '.');
    return Some(Join(normalized, "."));
  }

  // ---------------------------------------------------------------- IPv6, as the code decides it

  predicate IsHex(c: char) { IsDigit(c) || 'a' <= c <= 'f' || 'A' <= c <= 'F' }

  predicate H16(s: string) { 1 <= |s| <= 4 && forall i :: 0 <= i < |s| ==> IsHex(s[i]) }

  predicate DoubleAt(s: string, i: int) { 0 <= i < |s| - 1 && s[i] == ':' && s[i + 1] == ':' }

  ghost predicate NoDouble(s: string) { forall i :: !DoubleAt(s, i) }

  /** `indexOf('::')`. */
  function IndexOfDouble(s: string): (i: int)
    ensures i == -1 || DoubleAt(s, i)
  {
    if |s| < 2 then -1
    else if s[0] == ':' && s[1] == ':' then 0
    else
      var i := IndexOfDouble(s[1..]);
      if i < 0 then -1 else i + 1
  }

  /** `lastIndexOf('::')`. */
  function LastIndexOfDouble(s: string): (i: int)
    ensures i == -1 || DoubleAt(s, i)
  {
    if |s| < 2 then -1
    else if s[|s| - 2] == ':' && s[|s| - 1] == ':' then |s| - 2
    else LastIndexOfDouble(s[..|s| - 1])
  }

  function SideSegments(side: string): seq<string> { if side == "" then [] else Split(side, ':') }

  /** A group, or the IPv4 part in the last place. */
  predicate Segment(s: string, last: bool) { if '.' in s then last && IsIpv4(s) else H16(s) }

  predicate Segments(segs: seq<string>) {
    forall i :: 0 <= i < |segs| ==> Segment(segs[i], i == |segs| - 1)
  }

  /** How many 16-bit groups the segments stand for. */
  function GroupCount(segs: seq<string>): nat {
    if segs == [] then 0 else GroupCount(segs[..|segs| - 1]) + (if '.' in segs[|segs| - 1] then 2 else 1)
  }

  /** What stands on either side of '::', or the whole text. */
  function Sides(s: string): seq<string> {
    var i := IndexOfDouble(s);
    if i < 0 then [s] else [s[..i], s[i + 2..]]
  }

  function AllSegments(sides: seq<string>): seq<string> {
    if sides == [] then [] else AllSegments(sides[..|sides| - 1]) + SideSegments(sides[|sides| - 1])
  }

  predicate IsIpv6(s: string) {
    var segs := AllSegments(Sides(s));
    && s != "" && '%' !in s
    && ('.' in s ==> IsIpv4(s[LastIndexOf(s, ':') + 1..]))
    && (IndexOfDouble(s) >= 0 ==> IndexOfDouble(s) == LastIndexOfDouble(s))
    && Segments(segs)
    && if IndexOfDouble(s) >= 0 then GroupCount(segs) < 8 else GroupCount(segs) == 8
  }

  lemma EmptyIsNoSegment(segs: seq<string>)
    requires "" in segs
    ensures !Segments(segs)
  {
    var i :| 0 <= i < |segs| && segs[i] == "";
    assert !Segment(segs[i], i == |segs| - 1);
  }

  /** isValidIpv6. */
  method IsValidIpv6(value: string) returns (ok: bool)
    ensures ok <==> IsIpv6(value)
  {
    if |value| == 0 || '%' in value { return false; }
    if '.' in value {
      var ipv4 := NormalizeIpv4(value[LastIndexOf(value, ':') + 1..]);
      if ipv4 == None { return false; }
    }
    var compression := IndexOfDouble(value);
    var compressed := compression >= 0;
    if compressed && compression != LastIndexOfDouble(value) { return false; }
    var sides := if compressed then [value[..compression], value[compression + 2..]] else [value];
    var segments, empty := GatherSegments(sides);
    if empty { EmptyIsNoSegment(AllSegments(sides)); return false; }
    var valid, count := CountGroups(segments);
    return valid && if compressed then count < 8 else count == 8;
  }

  /** The loop over the sides; an empty segment ends it. */
  method GatherSegments(sides: seq<string>) returns (segments: seq<string>, empty: bool)
    ensures empty <==> "" in AllSegments(sides)
    ensures !empty ==> segments == AllSegments(sides)
  {
    segments := [];
    var i := 0;
    while i < |sides|
      invariant 0 <= i <= |sides|
      invariant segments == AllSegments(sides[..i]) && "" !in segments
    {
      assert sides[..i + 1][..i] == sides[..i];
      var side := sides[i];
      if |side| > 0 {
        var parts := Split(side, ':');
        if "" in parts {
          EmptyStays(sides, i);
          return segments, true;
        }
        segments := segments + parts;
      }
      i := i + 1;
    }
    assert sides[..i] == sides;
    return segments, false;
  }

  lemma {:induction false} EmptyStays(sides: seq<string>, i: nat)
    requires i < |sides| && "" in SideSegments(sides[i])
    ensures "" in AllSegments(sides)
  {
    if i < |sides| - 1 { EmptyStays(sides[..|sides| - 1], i); }
  }

  /** The loop over the segments. */
  method CountGroups(segments: seq<string>) returns (ok: bool, count: nat)
    ensures ok <==> Segments(segments)
    ensures ok ==> count == GroupCount(segments)
  {
    count := 0;
    var i := 0;
    while i < |segments|
      invariant 0 <= i <= |segments|
      invariant forall j :: 0 <= j < i ==> Segment(segments[j], j == |segments| - 1)
      invariant count == GroupCount(segments[..i])
    {
      var s := segments[i];
      assert segments[..i + 1][..i] == segments[..i];
      if '.' in s {
        var ipv4 := NormalizeIpv4(s);
        if i != |segments| - 1 || ipv4 == None {
          assert !Segment(segments[i], i == |segments| - 1);
          return false, 0;
        }
        count := count + 2;
      } else {
        if !H16(s) {
          assert !Segment(segments[i], i == |segments| - 1);
          return false, 0;
        }
        count := count + 1;
      }
      i := i + 1;
    }
    assert segments[..i] == segments;
    return true, count;
  }

  // ---------------------------------------------------------------- IPv6, as RFC 4291 defines it

  /** Groups in a row, of which the last may be the decimal form of the low 32 bits (form 3). */
  predicate Row(gs: seq<string>) {
    gs != [] && (forall i :: 0 <= i < |gs| - 1 ==> H16(gs[i])) && (H16(gs[|gs| - 1]) || IsIpv4(gs[|gs| - 1]))
  }

  /** The number of 16-bit groups of a row. */
  function Size(gs: seq<string>): nat { if gs != [] && IsIpv4(gs[|gs| - 1]) then |gs| + 1 else |gs| }

  /** Form 1: eight groups. */
  predicate Full(s: string, gs: seq<string>) { Row(gs) && Size(gs) == 8 && s == Join(gs, ":") }

  /** Form 2: '::' once, for one or more groups of zeros. */
  predicate Compressed(s: string, left: seq<string>, right: seq<string>) {
    && (forall i :: 0 <= i < |left| ==> H16(left[i])) && (right == [] || Row(right))
    && |left| + Size(right) <= 7
    && s == Join(left, ":") + "::" + Join(right, ":")
  }

  ghost predicate Rfc4291(s: string) {
    || (exists gs: seq<string> :: Full(s, gs))
    || (exists left: seq<string>, right: seq<string> :: Compressed(s, left, right))
  }

  predicate Piece(g: string) { H16(g) || IsIpv4(g) }

  predicate AddressChar(c: char) { IsHex(c) || c == '.' || c == ':' }

  lemma Ipv4Chars(s: string)
    requires IsIpv4(s)
    ensures '.' in s && forall i :: 0 <= i < |s| ==> IsDigit(s[i]) || s[i] == '.'
  {
    if '.' !in s { SplitWhole(s, '.'); }
    forall i | 0 <= i < |s| ensures IsDigit(s[i]) || s[i] == '.' { SplitCovers(s, '.', i); }
  }

  lemma PieceChars(g: string)
    requires Piece(g)
    ensures g != "" && forall i :: 0 <= i < |g| ==> IsHex(g[i]) || g[i] == '.'
    ensures '.' in g <==> IsIpv4(g)
  {
    if IsIpv4(g) { Ipv4Chars(g); }
  }

  /** Pieces joined by ':' begin and end with a piece's character, and hold no '::'. */
  lemma {:induction false} JoinedPieces(gs: seq<string>)
    requires gs != [] && forall i :: 0 <= i < |gs| ==> Piece(gs[i])
    ensures var s := Join(gs, ":");
            && s != "" && s[0] != ':' && s[|s| - 1] != ':'
            && NoDouble(s)
            && (forall i :: 0 <= i < |s| ==> AddressChar(s[i]))
            && ((forall i :: 0 <= i < |gs| ==> H16(gs[i])) ==> '.' !in s)
  {
    PieceChars(gs[0]);
    if |gs| > 1 {
      var g, rest := gs[0], Join(gs[1..], ":");
      JoinedPieces(gs[1..]);
      var s := Join(gs, ":");
      assert s == g + ":" + rest;
      forall i ensures !DoubleAt(s, i) {
        if |g| < i { assert DoubleAt(s, i) ==> DoubleAt(rest, i - |g| - 1); }
      }
    }
  }

  lemma {:induction false} PlainCount(segs: seq<string>)
    requires forall i :: 0 <= i < |segs| ==> H16(segs[i])
    ensures GroupCount(segs) == |segs|
  {
    if segs != [] {
      PlainCount(segs[..|segs| - 1]);
      assert '.' !in segs[|segs| - 1];
    }
  }

  lemma RowIsSegments(gs: seq<string>)
    requires gs != []
    ensures Row(gs) <==> Segments(gs)
    ensures Row(gs) ==> GroupCount(gs) == Size(gs) && forall i :: 0 <= i < |gs| ==> Piece(gs[i])
  {
    if Row(gs) { RowCount(gs); }
    if Segments(gs) { SegmentsAreRow(gs); }
  }

  lemma RowCount(gs: seq<string>)
    requires Row(gs)
    ensures Segments(gs) && GroupCount(gs) == Size(gs)
  {
    var n := |gs| - 1;
    PlainCount(gs[..n]);
    PieceChars(gs[n]);
    forall i | 0 <= i < n ensures Segment(gs[i], false) { PieceChars(gs[i]); }
  }

  lemma SegmentsAreRow(gs: seq<string>)
    requires gs != [] && Segments(gs)
    ensures Row(gs)
  {
    var n := |gs| - 1;
    assert Segment(gs[n], true);
    forall i | 0 <= i < n ensures H16(gs[i]) { assert Segment(gs[i], i == n); }
  }

  /** What follows the last ':' is the last part. */
  lemma AfterLastColon(s: string)
    ensures s[LastIndexOf(s, ':') + 1..] == LastPart(s, ':')
  {
    var last := LastPart(s, ':');
    SplitEnds(s, ':');
    SplitParts(s, ':');
    assert Without(last, ':');
    if |Split(s, ':')| > 1 {
      SeparatorBeforeLast(s, ':');
      var front := s[..|s| - |last| - 1];
      assert s == front + ([':'] + last);
      LastIndexOfConcat(front, ':', last);
    } else {
      IndexOfNone(s, ':');
    }
  }

  lemma FullIsAccepted(s: string, gs: seq<string>)
    requires Full(s, gs)
    ensures IsIpv6(s)
  {
    RowIsSegments(gs);
    JoinedPieces(gs);
    NoDoubleIndex(s);
    forall g | g in gs ensures ':' !in g { PieceChars(g); }
    SplitJoin(gs, ':');
    AfterLastColon(s);
    SegmentsOfOne(s);
  }

  lemma SegmentsOfOne(s: string)
    ensures AllSegments([s]) == SideSegments(s)
  {
    assert [s][..0] == [];
  }

  lemma SegmentsOfTwo(a: string, b: string)
    ensures AllSegments([a, b]) == SideSegments(a) + SideSegments(b)
  {
    assert [a, b][..1] == [a];
    SegmentsOfOne(a);
  }

  lemma JoinedSide(gs: seq<string>)
    requires forall i :: 0 <= i < |gs| ==> Piece(gs[i])
    ensures SideSegments(Join(gs, ":")) == gs
  {
    if gs != [] {
      JoinedPieces(gs);
      forall g | g in gs ensures ':' !in g { PieceChars(g); }
      SplitJoin(gs, ':');
    }
  }

  lemma {:induction false} NoDoubleIndex(s: string)
    requires NoDouble(s)
    ensures IndexOfDouble(s) == -1
  {
    if |s| >= 2 {
      assert !DoubleAt(s, 0);
      forall i ensures !DoubleAt(s[1..], i) { assert DoubleAt(s[1..], i) ==> DoubleAt(s, i + 1); }
      NoDoubleIndex(s[1..]);
    }
  }

  lemma {:induction false} FirstDouble(a: string, b: string)
    requires NoDouble(a) && (a != "" ==> a[|a| - 1] != ':')
    ensures IndexOfDouble(a + "::" + b) == |a|
  {
    var s := a + "::" + b;
    if a != "" {
      assert !DoubleAt(a, 0);
      forall i ensures !DoubleAt(a[1..], i) { assert DoubleAt(a[1..], i) ==> DoubleAt(a, i + 1); }
      FirstDouble(a[1..], b);
      assert s[1..] == a[1..] + "::" + b;
    }
  }

  lemma {:induction false} LastDouble(a: string, b: string)
    requires NoDouble(b) && (b != "" ==> b[0] != ':')
    ensures LastIndexOfDouble(a + "::" + b) == |a|
  {
    var s := a + "::" + b;
    if b != "" {
      var front := b[..|b| - 1];
      assert !DoubleAt(b, |b| - 2);
      forall i ensures !DoubleAt(front, i) { assert DoubleAt(front, i) ==> DoubleAt(b, i); }
      LastDouble(a, front);
      assert s[..|s| - 1] == a + "::" + front;
    }
  }

  /** The last part of a text that ends in a row is the last of the row. */
  lemma EndsInRow(front: string, right: seq<string>)
    requires Row(right)
    ensures var s := front + (":" + Join(right, ":"));
            s[LastIndexOf(s, ':') + 1..] == right[|right| - 1]
  {
    RowIsSegments(right);
    JoinedSide(right);
    EndsInPart(front, Join(right, ":"), right);
  }

  lemma EndsInPart(front: string, text: string, parts: seq<string>)
    requires text != "" && Split(text, ':') == parts && parts != []
    ensures var s := front + (":" + text);
            s[LastIndexOf(s, ':') + 1..] == parts[|parts| - 1]
  {
    AfterLastColon(front + (":" + text));
    SplitAppend(front, ":" + text, ':');
    assert (":" + text)[1..] == text;
  }

  lemma InOneOfThree(a: string, m: string, b: string, c: char)
    requires c in a + m + b && c !in a && c !in m
    ensures c in b
  {
  }

  lemma PlainHasNoDots(gs: seq<string>)
    requires forall i :: 0 <= i < |gs| ==> H16(gs[i])
    ensures '.' !in Join(gs, ":")
  {
    if gs != [] { JoinedPieces(gs); }
  }

  lemma DotsAreRight(left: seq<string>, right: seq<string>)
    requires (forall i :: 0 <= i < |left| ==> H16(left[i])) && (right == [] || Row(right))
    requires '.' in Join(left, ":") + "::" + Join(right, ":")
    ensures right != [] && IsIpv4(right[|right| - 1])
  {
    PlainHasNoDots(left);
    InOneOfThree(Join(left, ":"), "::", Join(right, ":"), '.');
    DotsComeLast(right);
  }

  lemma DotsComeLast(gs: seq<string>)
    requires (gs == [] || Row(gs)) && '.' in Join(gs, ":")
    ensures gs != [] && IsIpv4(gs[|gs| - 1])
  {
    if gs != [] {
      RowIsSegments(gs);
      assert !IsIpv4(gs[|gs| - 1]) ==> (forall i :: 0 <= i < |gs| ==> H16(gs[i]));
      JoinedPieces(gs);
    }
  }

  lemma HalveDouble(a: string, b: string)
    ensures a + "::" + b == (a + ":") + (":" + b)
  {
  }

  lemma CompressedDots(s: string, left: seq<string>, right: seq<string>)
    requires Compressed(s, left, right) && '.' in s
    ensures IsIpv4(s[LastIndexOf(s, ':') + 1..])
  {
    DotsAreRight(left, right);
    EndsInRow(Join(left, ":") + ":", right);
    HalveDouble(Join(left, ":"), Join(right, ":"));
  }

  lemma CompressedChars(s: string, left: seq<string>, right: seq<string>)
    requires Compressed(s, left, right)
    ensures '%' !in s && forall i :: 0 <= i < |s| ==> AddressChar(s[i])
  {
    if left != [] { JoinedPieces(left); }
    if right != [] { RowIsSegments(right); JoinedPieces(right); }
  }

  lemma CompressedSides(left: seq<string>, right: seq<string>)
    requires (forall i :: 0 <= i < |left| ==> H16(left[i])) && (right == [] || Row(right))
    ensures var s := Join(left, ":") + "::" + Join(right, ":");
            IndexOfDouble(s) == LastIndexOfDouble(s) >= 0 && AllSegments(Sides(s)) == left + right
  {
    var a, b := Join(left, ":"), Join(right, ":");
    if left != [] { JoinedPieces(left); }
    if right != [] { RowIsSegments(right); JoinedPieces(right); }
    FirstDouble(a, b);
    LastDouble(a, b);
    JoinedSide(left);
    JoinedSide(right);
    SegmentsOfTwo(a, b);
    var s := a + "::" + b;
    assert s[..|a|] == a && s[|a| + 2..] == b;
  }

  lemma CompressedIsAccepted(s: string, left: seq<string>, right: seq<string>)
    requires Compressed(s, left, right)
    ensures IsIpv6(s)
  {
    CompressedSides(left, right);
    CompressedCount(left, right);
    CompressedChars(s, left, right);
    if '.' in s { CompressedDots(s, left, right); }
  }

  lemma RowAfterPlain(left: seq<string>, right: seq<string>)
    requires (forall i :: 0 <= i < |left| ==> H16(left[i])) && Row(right)
    ensures Row(left + right) && Size(left + right) == |left| + Size(right)
  {
    var segs, n := left + right, |left| + |right| - 1;
    assert segs[n] == right[|right| - 1];
    forall i | 0 <= i < n ensures H16(segs[i]) {
      if i >= |left| { assert segs[i] == right[i - |left|]; }
    }
  }

  lemma CompressedCount(left: seq<string>, right: seq<string>)
    requires (forall i :: 0 <= i < |left| ==> H16(left[i])) && (right == [] || Row(right))
    ensures Segments(left + right) && GroupCount(left + right) == |left| + Size(right)
  {
    if right == [] {
      assert left + right == left;
      PlainCount(left);
      forall i | 0 <= i < |left| ensures Segment(left[i], i == |left| - 1) { PieceChars(left[i]); }
    } else {
      RowAfterPlain(left, right);
      RowIsSegments(left + right);
    }
  }

  lemma AcceptedIsRfc4291(s: string)
    requires IsIpv6(s)
    ensures Rfc4291(s)
  {
    if IndexOfDouble(s) < 0 { AcceptedIsFull(s); } else { AcceptedIsCompressed(s); }
  }

  lemma AcceptedIsFull(s: string)
    requires IsIpv6(s) && IndexOfDouble(s) < 0
    ensures Full(s, Split(s, ':'))
  {
    SegmentsOfOne(s);
    RowIsSegments(Split(s, ':'));
    JoinSplit(s, ':');
  }

  lemma AcceptedIsCompressed(s: string)
    requires IsIpv6(s) && IndexOfDouble(s) >= 0
    ensures var i := IndexOfDouble(s); Compressed(s, SideSegments(s[..i]), SideSegments(s[i + 2..]))
  {
    var i := IndexOfDouble(s);
    JoinedSegments(s[..i]);
    JoinedSegments(s[i + 2..]);
    SplitAtDouble(s, i);
    SplitSegments(s, SideSegments(s[..i]), SideSegments(s[i + 2..]));
  }

  lemma SplitAtDouble(s: string, i: nat)
    requires DoubleAt(s, i)
    ensures s == s[..i] + "::" + s[i + 2..]
  {
  }

  lemma JoinedSegments(side: string)
    ensures Join(SideSegments(side), ":") == side
  {
    JoinSplit(side, ':');
  }

  /** No group left of '::' is in decimal form: the text would end in '::', not in the decimal form. */
  lemma LeftIsPlain(s: string, i: nat, left: seq<string>, j: nat, last: bool)
    requires IsIpv6(s) && i == IndexOfDouble(s) && left == SideSegments(s[..i])
    requires j < |left| && Segment(left[j], last) && (last ==> i + 2 == |s| && j == |left| - 1)
    ensures H16(left[j])
  {
    if last {
      EndsInColon(s);
      SplitWhole("", '.');
      if '.' in left[j] { SplitEnds(s[..i], ':'); }
    }
  }

  lemma EndsInColon(s: string)
    requires s != "" && s[|s| - 1] == ':'
    ensures s[LastIndexOf(s, ':') + 1..] == ""
  {
  }

  lemma SplitSegments(s: string, left: seq<string>, right: seq<string>)
    requires IsIpv6(s) && IndexOfDouble(s) >= 0
    requires left == SideSegments(s[..IndexOfDouble(s)]) && right == SideSegments(s[IndexOfDouble(s) + 2..])
    ensures forall j :: 0 <= j < |left| ==> H16(left[j])
    ensures right == [] || Row(right)
    ensures |left| + Size(right) <= 7
  {
    var i := IndexOfDouble(s);
    SegmentsOfTwo(s[..i], s[i + 2..]);
    forall j | 0 <= j < |left| ensures H16(left[j]) {
      SegmentAt(left, right, j);
      LeftIsPlain(s, i, left, j, j == |left + right| - 1);
    }
    if right != [] {
      forall j | 0 <= j < |right| ensures Segment(right[j], j == |right| - 1) { SegmentAt(left, right, |left| + j); }
      RowIsSegments(right);
    }
    CompressedCount(left, right);
  }

  lemma SegmentAt(left: seq<string>, right: seq<string>, j: nat)
    requires Segments(left + right) && j < |left| + |right|
    ensures Segment(if j < |left| then left[j] else right[j - |left|], j == |left| + |right| - 1)
  {
    assert Segment((left + right)[j], j == |left + right| - 1);
  }

  /** isValidIpv6 accepts exactly the text forms of RFC 4291. */
  lemma Ipv6IsRfc4291(s: string)
    ensures IsIpv6(s) <==> Rfc4291(s)
  {
    if IsIpv6(s) { AcceptedIsRfc4291(s); }
    if Rfc4291(s) {
      if gs: seq<string> :| Full(s, gs) {
        FullIsAccepted(s, gs);
      } else {
        var left: seq<string>, right: seq<string> :| Compressed(s, left, right);
        CompressedIsAccepted(s, left, right);
      }
    }
  }

  // ---------------------------------------------------------------- case

  lemma LowerH16(g: string)
    requires H16(g)
    ensures H16(Lower(g))
  {
    forall i | 0 <= i < |g| ensures IsHex(Lower(g)[i]) { assert IsHex(g[i]); }
  }

  lemma LowerIpv4(s: string)
    requires IsIpv4(s)
    ensures Lower(s) == s
  {
    Ipv4Chars(s);
  }

  lemma {:induction false} LowerJoin(gs: seq<string>)
    ensures Lower(Join(gs, ":")) == Join(LowerAll(gs), ":")
  {
    if |gs| > 1 {
      LowerJoin(gs[1..]);
      assert LowerAll(gs)[1..] == LowerAll(gs[1..]);
      assert Lower(gs[0] + ":" + Join(gs[1..], ":")) == Lower(gs[0]) + ":" + Lower(Join(gs[1..], ":"));
    }
  }

  lemma LowerRow(gs: seq<string>)
    requires Row(gs)
    ensures Row(LowerAll(gs)) && Size(LowerAll(gs)) == Size(gs)
  {
    var n := |gs| - 1;
    forall i | 0 <= i < n ensures H16(LowerAll(gs)[i]) { LowerH16(gs[i]); }
    if IsIpv4(gs[n]) {
      LowerIpv4(gs[n]);
    } else {
      LowerH16(gs[n]);
      PieceChars(Lower(gs[n]));
    }
  }

  lemma LowerCompressed(s: string, left: seq<string>, right: seq<string>)
    requires Compressed(s, left, right)
    ensures Compressed(Lower(s), LowerAll(left), LowerAll(right))
  {
    var a, b := Join(left, ":"), Join(right, ":");
    LowerJoin(left);
    LowerJoin(right);
    if right != [] { LowerRow(right); }
    forall i | 0 <= i < |left| ensures H16(LowerAll(left)[i]) { LowerH16(left[i]); }
    assert Lower(a + "::" + b) == Lower(a) + "::" + Lower(b);
  }

  /** Lower case keeps an address valid. */
  lemma LowerIpv6(s: string)
    requires IsIpv6(s)
    ensures IsIpv6(Lower(s))
  {
    AcceptedIsRfc4291(s);
    if gs: seq<string> :| Full(s, gs) {
      LowerRow(gs);
      LowerJoin(gs);
      FullIsAccepted(Lower(s), LowerAll(gs));
    } else {
      var left: seq<string>, right: seq<string> :| Compressed(s, left, right);
      LowerCompressed(s, left, right);
      CompressedIsAccepted(Lower(s), LowerAll(left), LowerAll(right));
    }
  }

  lemma Ipv6Chars(s: string)
    requires IsIpv6(s)
    ensures forall i :: 0 <= i < |s| ==> AddressChar(s[i])
  {
    Ipv6IsRfc4291(s);
    if gs: seq<string> :| Full(s, gs) {
      RowIsSegments(gs);
      JoinedPieces(gs);
    } else {
      var left: seq<string>, right: seq<string> :| Compressed(s, left, right);
      CompressedChars(s, left, right);
    }
  }
}

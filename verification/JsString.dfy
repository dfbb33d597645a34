/** The string operations of ECMAScript that the SDK relies on. */
module JsString {

  /** White space and line terminators, as `trim` sees them. */
  predicate IsSpace(c: char) {
    ('\t' <= c && c <= '\r') || c == ' ' || c == '\U{A0}' || c == '\U{1680}' || ('\U{2000}' <= c && c <= '\U{200A}')
    || c == '\U{2028}' || c == '\U{2029}' || c == '\U{202F}' || c == '\U{205F}' || c == '\U{3000}' || c == '\U{FEFF}'
  }

  predicate AllSpace(s: string) { forall i :: 0 <= i < |s| ==> IsSpace(s[i]) }

  function TrimStart(s: string): (r: string)
    ensures |r| <= |s|
  {
    if s != "" && IsSpace(s[0]) then TrimStart(s[1..]) else s
  }

  function TrimEnd(s: string): (r: string)
    ensures |r| <= |s|
  {
    if s != "" && IsSpace(s[|s| - 1]) then TrimEnd(s[..|s| - 1]) else s
  }

  function Trim(s: string): (r: string)
    ensures |r| <= |s|
  {
    TrimEnd(TrimStart(s))
  }

  lemma {:induction false} TrimStartDrops(before: string, s: string)
    requires AllSpace(before)
    ensures TrimStart(before + s) == TrimStart(s)
  {
    if before == "" {
      assert before + s == s;
    } else {
      assert (before + s)[1..] == before[1..] + s;
      TrimStartDrops(before[1..], s);
    }
  }

  lemma {:induction false} TrimEndDrops(s: string, after: string)
    requires AllSpace(after)
    ensures TrimEnd(s + after) == TrimEnd(s)
  {
    if after == "" {
      assert s + after == s;
    } else {
      var front := after[..|after| - 1];
      assert (s + after)[..|s + after| - 1] == s + front;
      TrimEndDrops(s, front);
    }
  }

  /** Text whose ends are not white space is what trimming leaves, whatever white space surrounds it. */
  lemma TrimSurrounded(before: string, core: string, after: string)
    requires AllSpace(before) && AllSpace(after)
    requires core != "" ==> !IsSpace(core[0]) && !IsSpace(core[|core| - 1])
    ensures Trim(before + core + after) == core
  {
    assert before + core + after == before + (core + after);
    TrimStartDrops(before, core + after);
    if core == "" {
      assert core + after == after && after + "" == after;
      TrimStartDrops(after, "");
    } else {
      TrimEndDrops(core, after);
    }
  }

  /** `parts.join(sep)`. */
  function Join(parts: seq<string>, sep: string): string {
    if parts == [] then "" else if |parts| == 1 then parts[0] else parts[0] + sep + Join(parts[1..], sep)
  }

  /** `s.split(c)` for a separator of one character. */
  function Split(s: string, c: char): (parts: seq<string>)
    ensures parts != []
  {
    if s == "" then [""]
    else
      var more := Split(s[1..], c);
      if s[0] == c then [""] + more else AddTo([s[0]], more)
  }

  /** Text in front of the first part. */
  function AddTo(text: string, parts: seq<string>): seq<string>
    requires parts != []
  {
    [text + parts[0]] + parts[1..]
  }

  lemma {:induction false} SplitParts(s: string, c: char)
    ensures forall p <- Split(s, c) :: c !in p && |p| <= |s|
  {
    if s != "" { SplitParts(s[1..], c); }
  }

  lemma {:induction false} JoinSplit(s: string, c: char)
    ensures Join(Split(s, c), [c]) == s
  {
    if s != "" {
      JoinSplit(s[1..], c);
      var more := Split(s[1..], c);
      if s[0] == c {
        assert Split(s, c)[1..] == more;
      } else {
        assert Split(s, c)[1..] == more[1..];
      }
    }
  }

  lemma SplitStep(x: char, s: string, c: char)
    ensures var more := Split(s, c);
            Split([x] + s, c) == if x == c then [""] + more else AddTo([x], more)
  {
    assert ([x] + s)[1..] == s;
  }

  lemma {:induction false} SplitConcat(a: string, tail: string, c: char)
    requires c !in a && tail != "" && tail[0] == c
    ensures Split(a + tail, c) == [a] + Split(tail[1..], c)
  {
    SplitAppend(a, tail, c);
    SplitWhole(a, c);
  }

  lemma {:induction false} SplitWhole(a: string, c: char)
    requires c !in a
    ensures Split(a, c) == [a]
  {
    if a != "" {
      SplitWhole(a[1..], c);
      assert a == [a[0]] + a[1..];
    }
  }

  lemma {:induction false} SplitJoin(parts: seq<string>, c: char)
    requires parts != [] && forall p <- parts :: c !in p
    ensures Split(Join(parts, [c]), c) == parts
  {
    if |parts| == 1 {
      SplitWhole(parts[0], c);
    } else {
      SplitJoin(parts[1..], c);
      var tail := [c] + Join(parts[1..], [c]);
      assert parts[0] + [c] + Join(parts[1..], [c]) == parts[0] + tail;
      SplitConcat(parts[0], tail, c);
    }
  }

  lemma JoinMore(parts: seq<string>, sep: string, rest: string)
    requires parts != []
    ensures |parts| == 1 ==> Join(parts, sep) + rest == parts[0] + rest
    ensures |parts| > 1 ==> Join(parts, sep) + rest == parts[0] + (sep + (Join(parts[1..], sep) + rest))
  {
    if |parts| > 1 {
      var tail := Join(parts[1..], sep);
      assert parts[0] + sep + tail + rest == parts[0] + (sep + (tail + rest));
    }
  }

  lemma AddToConcat(text: string, parts: seq<string>, more: seq<string>)
    requires parts != []
    ensures AddTo(text, parts + more) == AddTo(text, parts) + more
  {
  }

  lemma AppendStep(x: char, others: string, tail: string, c: char, more: seq<string>)
    requires Split(others + tail, c) == Split(others, c) + more
    ensures Split([x] + (others + tail), c) == Split([x] + others, c) + more
  {
    SplitStep(x, others + tail, c);
    SplitStep(x, others, c);
    AddToConcat([x], Split(others, c), more);
  }

  /** Splitting a text that contains the separator splits both sides of it. */
  lemma {:induction false} SplitAppend(a: string, tail: string, c: char)
    requires tail != "" && tail[0] == c
    ensures Split(a + tail, c) == Split(a, c) + Split(tail[1..], c)
  {
    if a == "" {
      assert a + tail == tail;
      assert Split(tail, c) == [""] + Split(tail[1..], c);
    } else {
      SplitAppend(a[1..], tail, c);
      AppendStep(a[0], a[1..], tail, c, Split(tail[1..], c));
      assert a == [a[0]] + a[1..] && a + tail == [a[0]] + (a[1..] + tail);
    }
  }

  function LastPart(s: string, c: char): string { Split(s, c)[|Split(s, c)| - 1] }

  lemma LastPartStep(s: string, c: char)
    requires s != ""
    ensures var more := Split(s[1..], c);
            |Split(s, c)| == (if s[0] == c then |more| + 1 else |more|)
            && LastPart(s, c) == if s[0] != c && |more| == 1 then [s[0]] + more[0] else LastPart(s[1..], c)
  {
  }

  lemma TailOfRest(s: string, n: nat)
    requires n < |s|
    ensures s[1..][|s| - 1 - n..] == s[|s| - n..]
  {
  }

  /** The last part is what the text ends in. */
  lemma {:induction false} SplitEnds(s: string, c: char)
    ensures var last := LastPart(s, c);
            |last| <= |s| && s[|s| - |last|..] == last && (|Split(s, c)| == 1 ==> last == s)
  {
    if s != "" {
      SplitEnds(s[1..], c);
      LastPartStep(s, c);
      var last := LastPart(s[1..], c);
      TailOfRest(s, |last|);
      assert s == [s[0]] + s[1..];
    }
  }

  /** Before the last part, if it is not the whole text, there is a separator. */
  lemma {:induction false} SeparatorBeforeLast(s: string, c: char)
    requires |Split(s, c)| > 1
    ensures |LastPart(s, c)| < |s| && s[|s| - |LastPart(s, c)| - 1] == c
  {
    LastPartStep(s, c);
    SplitEnds(s[1..], c);
    if |Split(s[1..], c)| > 1 { SeparatorBeforeLast(s[1..], c); }
  }

  /** Every character is a separator or belongs to a part. */
  lemma {:induction false} SplitCovers(s: string, c: char, i: nat)
    requires i < |s|
    ensures s[i] == c || exists p <- Split(s, c) :: s[i] in p
  {
    var more := Split(s[1..], c);
    if i > 0 && s[i] != c {
      SplitCovers(s[1..], c, i - 1);
      var p :| p in more && s[i] in p;
      if s[0] == c {
        assert Split(s, c) == [""] + more;
      } else if p == more[0] {
        assert s[i] in [s[0]] + more[0];
      } else {
        assert p in more[1..];
      }
    } else if s[0] != c {
      assert s[0] in [s[0]] + more[0];
    }
  }

  function LowerChar(c: char): (r: char)
    ensures 'A' <= c <= 'Z' ==> 'a' <= r <= 'z'
    ensures !('A' <= c <= 'Z') ==> r == c
  {
    if 'A' <= c <= 'Z' then (c as int + 32) as char else c
  }

  /** `toLowerCase` of a text of ASCII letters. */
  function Lower(s: string): string { seq(|s|, i requires 0 <= i < |s| => LowerChar(s[i])) }

  function LowerAll(parts: seq<string>): seq<string> { seq(|parts|, i requires 0 <= i < |parts| => Lower(parts[i])) }

  lemma LowerAddTo(x: char, parts: seq<string>)
    requires parts != []
    ensures LowerAll(AddTo([x], parts)) == AddTo([LowerChar(x)], LowerAll(parts))
  {
    assert Lower([x] + parts[0]) == [LowerChar(x)] + Lower(parts[0]);
  }

  lemma LowerBlank(parts: seq<string>)
    ensures LowerAll([""] + parts) == [""] + LowerAll(parts)
  {
    assert Lower("") == "";
  }

  lemma {:induction false} SplitLower(s: string, c: char)
    requires LowerChar(c) == c && !('a' <= c <= 'z')
    ensures Split(Lower(s), c) == LowerAll(Split(s, c))
  {
    if s != "" {
      SplitLower(s[1..], c);
      assert Lower(s)[1..] == Lower(s[1..]);
      var more := Split(s[1..], c);
      if s[0] == c {
        LowerBlank(more);
      } else {
        LowerAddTo(s[0], more);
      }
    }
  }

  /** `indexOf` of a character: its first position, or -1. */
  function IndexOf(s: string, c: char): (i: int)
    ensures -1 <= i < |s|
  {
    if s == "" then -1
    else if s[0] == c then 0
    else
      var i := IndexOf(s[1..], c);
      if i < 0 then -1 else i + 1
  }

  /** `lastIndexOf` of a character: its last position, or -1. */
  function LastIndexOf(s: string, c: char): (i: int)
    ensures -1 <= i < |s|
  {
    if s == "" || s[|s| - 1] == c then |s| - 1 else LastIndexOf(s[..|s| - 1], c)
  }

  predicate Without(s: string, c: char) { forall k :: 0 <= k < |s| ==> s[k] != c }

  lemma {:induction false} IndexOfNone(s: string, c: char)
    requires Without(s, c)
    ensures IndexOf(s, c) == -1 == LastIndexOf(s, c)
  {
    if s != "" {
      IndexOfNone(s[1..], c);
      IndexOfNone(s[..|s| - 1], c);
    }
  }

  lemma {:induction false} IndexOfConcat(a: string, c: char, b: string)
    requires Without(a, c)
    ensures IndexOf(a + ([c] + b), c) == |a|
  {
    if a == "" {
      assert a + ([c] + b) == [c] + b;
    } else {
      assert (a + ([c] + b))[1..] == a[1..] + ([c] + b);
      IndexOfConcat(a[1..], c, b);
    }
  }

  lemma {:induction false} LastIndexOfConcat(a: string, c: char, b: string)
    requires Without(b, c)
    ensures LastIndexOf(a + ([c] + b), c) == |a|
  {
    var s := a + ([c] + b);
    if b != "" {
      var front := b[..|b| - 1];
      assert s[..|s| - 1] == a + ([c] + front);
      LastIndexOfConcat(a, c, front);
    }
  }
}

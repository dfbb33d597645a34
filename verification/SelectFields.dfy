/**
 The select string (packages/sdk/src/lib/graphql-builder.ts:30-62): how it is cut at its top-level commas
 and turned into a GraphQL selection, and a reader for selection sets (sections 2.4 to 2.7 of the GraphQL
 specification, October 2021; no arguments, directives or fragments).
 */
module SelectFields {
  import opened Wrappers
  import opened JsString
  import GraphqlValue

  // ---------------------------------------------------------------- splitByComma

  function Shift(c: char, depth: int): int {
    if c == '(' then depth + 1 else if c == ')' then depth - 1 else depth
  }

  /** The depth of parentheses after `s`, when `s` begins at `depth`. */
  function Depth(s: string, depth: int): int {
    if s == "" then depth else Depth(s[1..], Shift(s[0], depth))
  }

  /** No comma of `s` stands at depth 0, when `s` begins at `depth`. */
  predicate Uncut(s: string, depth: int) {
    s == "" || (!(s[0] == ',' && depth == 0) && Uncut(s[1..], Shift(s[0], depth)))
  }

  /** The pieces between the commas at depth 0, when `s` begins at `depth`. */
  function Cut(s: string, depth: int): (pieces: seq<string>)
    ensures pieces != []
  {
    if s == "" then [""]
    else
      var more := Cut(s[1..], Shift(s[0], depth));
      if s[0] == ',' && depth == 0 then [""] + more else AddTo([s[0]], more)
  }

  function TrimAll(pieces: seq<string>): (r: seq<string>)
    ensures |r| == |pieces|
  {
    if pieces == [] then [] else [Trim(pieces[0])] + TrimAll(pieces[1..])
  }

  /** What splitByComma returns: every piece trimmed, the last one only when it is not blank. */
  function Segments(s: string): seq<string> {
    var pieces := Cut(s, 0);
    var last := Trim(pieces[|pieces| - 1]);
    TrimAll(pieces[..|pieces| - 1]) + (if last == "" then [] else [last])
  }

  /** splitByComma. */
  method SplitByComma(str: string) returns (segments: seq<string>)
    ensures segments == Segments(str)
  {
    segments := [];
    var depth, current, i := 0, "", 0;
    ghost var done: seq<string> := [];
    Begin(str);
    while i < |str|
      invariant 0 <= i <= |str|
      invariant Progress(str, i, depth, done, current, segments)
    {
      var ch := str[i];
      Advance(str, i, depth, done, current, segments);
      if ch == '(' { depth := depth + 1; }
      if ch == ')' { depth := depth - 1; }
      if ch == ',' && depth == 0 {
        done := done + [current];
        segments := segments + [Trim(current)];
        current := "";
      } else {
        current := current + [ch];
      }
      i := i + 1;
    }
    LastSegment(str, depth, done, current, segments);
    if Trim(current) != "" { segments := segments + [Trim(current)]; }
  }

  /** After `i` characters: the pieces `done` are complete and trimmed into `segments`, `current` is begun. */
  ghost predicate Progress(s: string, i: nat, depth: int, done: seq<string>, current: string, segments: seq<string>)
    requires i <= |s|
  {
    segments == TrimAll(done) && Resumed(done, current, s[i..], depth) == Cut(s, 0)
  }

  lemma Begin(s: string)
    ensures Progress(s, 0, 0, [], "", [])
  {
    AddNothing(Cut(s, 0));
    assert s[0..] == s;
  }

  lemma Advance(s: string, i: nat, depth: int, done: seq<string>, current: string, segments: seq<string>)
    requires i < |s| && Progress(s, i, depth, done, current, segments)
    ensures var d := Shift(s[i], depth);
            if s[i] == ',' && d == 0 then Progress(s, i + 1, d, done + [current], "", segments + [Trim(current)])
            else Progress(s, i + 1, d, done, current + [s[i]], segments)
  {
    Resume(done, current, s[i..], depth);
    assert s[i..][1..] == s[i + 1..];
    TrimOneMore(done, current);
  }

  lemma LastSegment(s: string, depth: int, done: seq<string>, current: string, segments: seq<string>)
    requires Progress(s, |s|, depth, done, current, segments)
    ensures Segments(s) == segments + (if Trim(current) == "" then [] else [Trim(current)])
  {
    assert s[|s|..] == "";
    AddToBlank(current, []);
    assert Cut(s, 0) == done + [current];
    assert (done + [current])[..|done|] == done;
  }

  lemma {:induction false} TrimOneMore(pieces: seq<string>, piece: string)
    ensures TrimAll(pieces + [piece]) == TrimAll(pieces) + [Trim(piece)]
  {
    if pieces == [] {
      assert pieces + [piece] == [piece] && [piece][1..] == [];
    } else {
      TrimOneMore(pieces[1..], piece);
      assert (pieces + [piece])[0] == pieces[0];
      assert (pieces + [piece])[1..] == pieces[1..] + [piece];
    }
  }

  /** The whole cut, when the pieces `done` are complete, `current` is begun and `rest` is still to come. */
  function Resumed(done: seq<string>, current: string, rest: string, depth: int): seq<string> {
    done + AddTo(current, Cut(rest, depth))
  }

  lemma Resume(done: seq<string>, current: string, rest: string, depth: int)
    requires rest != ""
    ensures var d := Shift(rest[0], depth);
            Resumed(done, current, rest, depth)
              == (if rest[0] == ',' && depth == 0 then Resumed(done + [current], "", rest[1..], d)
                  else Resumed(done, current + [rest[0]], rest[1..], d))
  {
    var more := Cut(rest[1..], Shift(rest[0], depth));
    if rest[0] == ',' && depth == 0 {
      AddToBlank(current, more);
      AddNothing(more);
      assert done + ([current] + more) == (done + [current]) + more;
    } else {
      AddTwice(current, [rest[0]], more);
    }
  }

  lemma AddNothing(pieces: seq<string>)
    requires pieces != []
    ensures AddTo("", pieces) == pieces
  {
    assert "" + pieces[0] == pieces[0];
  }

  lemma AddTwice(a: string, b: string, pieces: seq<string>)
    requires pieces != []
    ensures AddTo(a, AddTo(b, pieces)) == AddTo(a + b, pieces)
  {
    assert a + (b + pieces[0]) == (a + b) + pieces[0];
    assert AddTo(b, pieces)[1..] == pieces[1..];
  }

  lemma AddToBlank(a: string, pieces: seq<string>)
    ensures AddTo(a, [""] + pieces) == [a] + pieces
  {
    assert a + "" == a;
    assert ([""] + pieces)[1..] == pieces;
  }

  lemma CutStep(x: char, s: string, depth: int)
    ensures var more := Cut(s, Shift(x, depth));
            Cut([x] + s, depth) == if x == ',' && depth == 0 then [""] + more else AddTo([x], more)
  {
    assert ([x] + s)[1..] == s;
  }

  /** Pieces that a cut at the top-level commas can yield: none holds such a comma, and all but the last
      close what they open. */
  predicate Whole(pieces: seq<string>) {
    pieces != [] && Uncut(pieces[0], 0) && (|pieces| > 1 ==> Depth(pieces[0], 0) == 0 && Whole(pieces[1..]))
  }

  lemma {:induction false} CutUncut(a: string, depth: int)
    requires Uncut(a, depth)
    ensures Cut(a, depth) == [a]
  {
    if a != "" {
      CutUncut(a[1..], Shift(a[0], depth));
      assert a == [a[0]] + a[1..];
    }
  }

  lemma {:induction false} CutConcat(a: string, tail: string, depth: int)
    requires Uncut(a, depth) && Depth(a, depth) == 0 && tail != "" && tail[0] == ','
    ensures Cut(a + tail, depth) == [a] + Cut(tail[1..], 0)
  {
    if a == "" {
      assert a + tail == tail;
    } else {
      var x, others := a[0], a[1..];
      CutConcat(others, tail, Shift(x, depth));
      CutStep(x, others + tail, depth);
      assert a == [x] + others;
      assert a + tail == [x] + (others + tail);
    }
  }

  lemma {:induction false} CutJoin(pieces: seq<string>)
    requires Whole(pieces)
    ensures Cut(Join(pieces, ","), 0) == pieces
  {
    if |pieces| == 1 {
      CutUncut(pieces[0], 0);
    } else {
      CutJoin(pieces[1..]);
      var tail := "," + Join(pieces[1..], ",");
      assert Join(pieces, ",") == pieces[0] + tail;
      CutConcat(pieces[0], tail, 0);
    }
  }

  /** The pieces from `depth` on are whole, and the first begins at `depth`. */
  predicate WholeFrom(pieces: seq<string>, depth: int) {
    pieces != [] && Uncut(pieces[0], depth) && (|pieces| > 1 ==> Depth(pieces[0], depth) == 0 && Whole(pieces[1..]))
  }

  lemma WholeBegins(x: char, more: seq<string>, depth: int)
    requires WholeFrom(more, Shift(x, depth)) && !(x == ',' && depth == 0)
    ensures WholeFrom(AddTo([x], more), depth) && Join(AddTo([x], more), ",") == [x] + Join(more, ",")
  {
    var pieces := AddTo([x], more);
    assert pieces[0][0] == x && pieces[0][1..] == more[0] && pieces[1..] == more[1..];
  }

  lemma WholeAfterComma(more: seq<string>)
    requires WholeFrom(more, 0)
    ensures WholeFrom([""] + more, 0) && Join([""] + more, ",") == "," + Join(more, ",")
  {
    assert ([""] + more)[1..] == more;
  }

  lemma {:induction false} CutIsWhole(s: string, depth: int)
    ensures WholeFrom(Cut(s, depth), depth)
    ensures Join(Cut(s, depth), ",") == s
  {
    if s != "" {
      var d := Shift(s[0], depth);
      CutIsWhole(s[1..], d);
      if s[0] == ',' && depth == 0 {
        WholeAfterComma(Cut(s[1..], d));
      } else {
        WholeBegins(s[0], Cut(s[1..], d), depth);
      }
      assert s == [s[0]] + s[1..];
    }
  }

  /** The cut is the only way to write a string as pieces joined by commas at depth 0: cutting inverts
      joining, and joining inverts cutting. */
  lemma CutIsUnique(s: string, pieces: seq<string>)
    ensures Cut(s, 0) == pieces <==> Whole(pieces) && Join(pieces, ",") == s
  {
    CutIsWhole(s, 0);
    if Whole(pieces) && Join(pieces, ",") == s { CutJoin(pieces); }
  }

  // ---------------------------------------------------------------- parseSelectFields

  /** `^(\w+)\((.+)\)$`: a relation and what its parentheses hold. */
  function MatchCall(f: string): (r: Option<(string, string)>)
    ensures r.Some? ==> |r.value.1| < |f|
  {
    var n := GraphqlValue.NamePrefix(f);
    if n == 0 || |f| < n + 3 || f[n] != '(' || f[|f| - 1] != ')' then None
    else Some((f[..n], f[n + 1..|f| - 1]))
  }

  /** The same with an optional `alias:` in front: alias, relation, what the parentheses hold. */
  function MatchNested(f: string): (r: Option<(Option<string>, string, string)>)
    ensures r.Some? ==> |r.value.2| < |f|
  {
    var n := GraphqlValue.NamePrefix(f);
    var aliased := 0 < n < |f| && f[n] == ':';
    match MatchCall(if aliased then f[n + 1..] else f)
    case None => None
    case Some((rel, sub)) => Some((if aliased then Some(f[..n]) else None, rel, sub))
  }

  predicate IsWord(s: string) { s != "" && forall i :: 0 <= i < |s| ==> GraphqlValue.NameChar(s[i]) }

  function Aliased(alias: Option<string>, colon: string, name: string): string {
    if alias.Some? then alias.value + colon + name else name
  }

  lemma MatchCallIsExact(f: string, rel: string, sub: string)
    ensures MatchCall(f) == Some((rel, sub)) <==> IsWord(rel) && sub != "" && f == rel + ("(" + sub + ")")
  {
    var n := GraphqlValue.NamePrefix(f);
    NamePrefixIsWord(f);
    if MatchCall(f) == Some((rel, sub)) { assert f == f[..n] + ("(" + f[n + 1..|f| - 1] + ")"); }
    if IsWord(rel) && sub != "" && f == rel + ("(" + sub + ")") {
      CallParts(f, rel, sub);
    }
  }

  lemma CallParts(f: string, rel: string, sub: string)
    requires IsWord(rel) && f == rel + ("(" + sub + ")")
    ensures var n := |rel|;
            GraphqlValue.NamePrefix(f) == n && f[..n] == rel && f[n + 1..|f| - 1] == sub && f[n] == '('
            && f[|f| - 1] == ')'
  {
    GraphqlValue.NamePrefixConcat(rel, "(" + sub + ")");
    assert f[..|rel|] == rel && f[|rel|] == '(';
    assert f[|rel| + 1..] == sub + ")";
    assert f[|rel| + 1..|f| - 1] == f[|rel| + 1..][..|sub|];
  }

  lemma {:induction false} NamePrefixIsWord(f: string)
    ensures var n := GraphqlValue.NamePrefix(f);
            (forall i :: 0 <= i < n ==> GraphqlValue.NameChar(f[i])) && (n < |f| ==> !GraphqlValue.NameChar(f[n]))
  {
    if f != "" && GraphqlValue.NameChar(f[0]) {
      NamePrefixIsWord(f[1..]);
      forall i | 0 <= i < GraphqlValue.NamePrefix(f) ensures GraphqlValue.NameChar(f[i]) {
        if i > 0 { assert f[i] == f[1..][i - 1]; }
      }
    }
  }

  lemma MatchOfNested(alias: Option<string>, rel: string, sub: string)
    requires (alias.Some? ==> IsWord(alias.value)) && IsWord(rel) && sub != ""
    ensures MatchNested(Aliased(alias, ":", rel + ("(" + sub + ")"))) == Some((alias, rel, sub))
  {
    var call := rel + ("(" + sub + ")");
    MatchCallIsExact(call, rel, sub);
    if alias.Some? {
      var a, f := alias.value, alias.value + ":" + call;
      assert f == a + (":" + call);
      GraphqlValue.NamePrefixConcat(a, ":" + call);
      assert f[..|a|] == a && f[|a| + 1..] == call;
    } else {
      GraphqlValue.NamePrefixConcat(rel, "(" + sub + ")");
    }
  }

  lemma MatchIsNested(f: string, alias: Option<string>, rel: string, sub: string)
    requires MatchNested(f) == Some((alias, rel, sub))
    ensures (alias.Some? ==> IsWord(alias.value)) && IsWord(rel) && sub != ""
    ensures f == Aliased(alias, ":", rel + ("(" + sub + ")"))
  {
    var n := GraphqlValue.NamePrefix(f);
    NamePrefixIsWord(f);
    if alias.Some? {
      MatchCallIsExact(f[n + 1..], rel, sub);
      assert f == f[..n] + ":" + f[n + 1..];
    } else {
      MatchCallIsExact(f, rel, sub);
    }
  }

  /** The match exists exactly for the texts of the form `alias:rel(sub)` or `rel(sub)`, and is unique. */
  lemma MatchNestedIsExact(f: string, alias: Option<string>, rel: string, sub: string)
    ensures MatchNested(f) == Some((alias, rel, sub))
       <==> (alias.Some? ==> IsWord(alias.value)) && IsWord(rel) && sub != ""
            && f == Aliased(alias, ":", rel + ("(" + sub + ")"))
  {
    if MatchNested(f) == Some((alias, rel, sub)) {
      MatchIsNested(f, alias, rel, sub);
    } else if (alias.Some? ==> IsWord(alias.value)) && IsWord(rel) && sub != "" {
      MatchOfNested(alias, rel, sub);
    }
  }

  lemma {:induction false} PiecesFit(s: string, depth: int)
    ensures forall p <- Cut(s, depth) :: |p| <= |s|
  {
    if s != "" { PiecesFit(s[1..], Shift(s[0], depth)); }
  }

  lemma {:induction false} TrimmedFit(pieces: seq<string>, bound: nat)
    requires forall p <- pieces :: |p| <= bound
    ensures forall p <- TrimAll(pieces) :: |p| <= bound
  {
    if pieces != [] { TrimmedFit(pieces[1..], bound); }
  }

  lemma SegmentsFit(s: string)
    ensures forall p <- Segments(s) :: |p| <= |s|
  {
    PiecesFit(s, 0);
    var pieces := Cut(s, 0);
    TrimmedFit(pieces[..|pieces| - 1], |s|);
  }

  /** parseSelectFields. */
  function ParseSelect(fields: string): string
    decreases |fields|, 1, 0
  {
    SegmentsFit(fields);
    Join(ParseAll(Segments(fields), |fields|), "\n    ")
  }

  function ParseAll(segments: seq<string>, ghost bound: nat): seq<string>
    requires forall f <- segments :: |f| <= bound
    decreases bound, 0, |segments| + 1
  {
    if segments == [] then [] else [ParseOne(segments[0])] + ParseAll(segments[1..], bound)
  }

  function ParseOne(f: string): string
    decreases |f|, 0, 0
  {
    match MatchNested(f)
    case None => f
    case Some((alias, rel, sub)) => Aliased(alias, ": ", rel) + " { " + ParseSelect(sub) + " }"
  }

  // ---------------------------------------------------------------- selections as trees

  /** A field or, with sub-selections, a relation. */
  datatype Sel = Sel(alias: Option<string>, name: string, subs: seq<Sel>)

  /** The same as the caller writes it, with white space on either side. */
  datatype Item = Item(before: string, alias: Option<string>, name: string, subs: seq<Item>, after: string)

  predicate Named(x: Sel) {
    && (x.alias.Some? ==> GraphqlValue.IsName(x.alias.value)) && GraphqlValue.IsName(x.name)
    && forall y <- x.subs :: Named(y)
  }

  function Tree(x: Item): Sel { Sel(x.alias, x.name, Trees(x.subs)) }

  function Trees(xs: seq<Item>): seq<Sel> { if xs == [] then [] else [Tree(xs[0])] + Trees(xs[1..]) }

  predicate Written(x: Item) {
    && AllSpace(x.before) && AllSpace(x.after)
    && (x.alias.Some? ==> GraphqlValue.IsName(x.alias.value)) && GraphqlValue.IsName(x.name)
    && forall y <- x.subs :: Written(y)
  }

  /** `name`, `alias:name`, `rel(…)` or `alias:rel(…)`. */
  function Core(x: Item): string
    decreases x, 0
  {
    Aliased(x.alias, ":", if x.subs == [] then x.name else x.name + ("(" + Print(x.subs) + ")"))
  }

  function PrintEach(xs: seq<Item>): seq<string>
    decreases xs, 0
  {
    if xs == [] then [] else [xs[0].before + Core(xs[0]) + xs[0].after] + PrintEach(xs[1..])
  }

  /** A select string: the items between commas. */
  function Print(xs: seq<Item>): string
    decreases xs, 1
  {
    Join(PrintEach(xs), ",")
  }

  /** The GraphQL text of one selection. */
  function Render(x: Sel): string
    decreases x, 0
  {
    if x.subs == [] then Aliased(x.alias, ":", x.name)
    else Aliased(x.alias, ": ", x.name) + " { " + RenderAll(x.subs) + " }"
  }

  function RenderEach(xs: seq<Sel>): seq<string>
    decreases xs, 0
  {
    if xs == [] then [] else [Render(xs[0])] + RenderEach(xs[1..])
  }

  function RenderAll(xs: seq<Sel>): string
    decreases xs, 1
  {
    Join(RenderEach(xs), "\n    ")
  }

  // ---------------------------------------------------------------- the select string is cut where it was joined

  lemma {:induction false} DepthConcat(a: string, b: string, d: int)
    ensures Depth(a + b, d) == Depth(b, Depth(a, d))
    ensures Uncut(a + b, d) <==> Uncut(a, d) && Uncut(b, Depth(a, d))
  {
    if a == "" {
      assert a + b == b;
    } else {
      assert (a + b)[1..] == a[1..] + b;
      DepthConcat(a[1..], b, Shift(a[0], d));
    }
  }

  predicate Plain(s: string) { forall i :: 0 <= i < |s| ==> s[i] != '(' && s[i] != ')' && s[i] != ',' }

  lemma {:induction false} PlainIsLevel(s: string, d: int)
    requires Plain(s)
    ensures Level(s, d)
  {
    if s != "" { PlainIsLevel(s[1..], d); }
  }

  /** From depth `d`, the text has no comma at depth 0 and ends at `d` again. */
  predicate Level(s: string, d: int) { Uncut(s, d) && Depth(s, d) == d }

  lemma LevelConcat(a: string, b: string, d: int)
    requires Level(a, d) && Level(b, d)
    ensures Level(a + b, d)
  {
    DepthConcat(a, b, d);
  }

  lemma Enclosed(s: string, d: nat)
    requires Level(s, d + 1)
    ensures Level("(" + s + ")", d)
  {
    assert "(" + s + ")" == "(" + (s + ")");
    assert ("(" + (s + ")"))[1..] == s + ")";
    DepthConcat(s, ")", d + 1);
    assert Level(")"[1..], d);
  }

  lemma CommaIsLevel(d: nat)
    requires d > 0
    ensures Level(",", d)
  {
    var s := ",";
    assert s[1..] == "" && Shift(s[0], d) == d;
    assert Depth(s, d) == Depth(s[1..], d) == d;
  }

  lemma {:induction false} CoreIsLevel(x: Item, d: nat)
    requires Written(x)
    ensures Level(Core(x), d)
    decreases x, 0
  {
    var call := if x.subs == [] then x.name else x.name + ("(" + Print(x.subs) + ")");
    PlainIsLevel(x.name, d);
    if x.subs != [] {
      PrintIsLevel(x.subs, d + 1);
      Enclosed(Print(x.subs), d);
      LevelConcat(x.name, "(" + Print(x.subs) + ")", d);
    }
    if x.alias.Some? {
      PlainIsLevel(x.alias.value + ":", d);
      LevelConcat(x.alias.value + ":", call, d);
    }
  }

  lemma ItemIsLevel(x: Item, d: nat)
    requires Written(x) && Level(Core(x), d)
    ensures Level(x.before + Core(x) + x.after, d)
  {
    PlainIsLevel(x.before, d);
    PlainIsLevel(x.after, d);
    LevelConcat(x.before, Core(x), d);
    LevelConcat(x.before + Core(x), x.after, d);
  }

  lemma {:induction false} PrintIsLevel(xs: seq<Item>, d: nat)
    requires d > 0 && forall x <- xs :: Written(x)
    ensures Level(Print(xs), d)
    decreases xs, 1
  {
    if xs != [] {
      var first := xs[0].before + Core(xs[0]) + xs[0].after;
      CoreIsLevel(xs[0], d);
      ItemIsLevel(xs[0], d);
      if |xs| > 1 {
        PrintIsLevel(xs[1..], d);
        CommaIsLevel(d);
        LevelConcat(first, ",", d);
        LevelConcat(first + ",", Print(xs[1..]), d);
        assert PrintEach(xs)[1..] == PrintEach(xs[1..]);
      }
    }
  }

  lemma {:induction false} PrintIsWhole(xs: seq<Item>)
    requires xs != [] && forall x <- xs :: Written(x)
    ensures Whole(PrintEach(xs))
  {
    CoreIsLevel(xs[0], 0);
    ItemIsLevel(xs[0], 0);
    if |xs| > 1 {
      PrintIsWhole(xs[1..]);
      assert PrintEach(xs)[1..] == PrintEach(xs[1..]);
    }
  }

  function Cores(xs: seq<Item>): seq<string> { if xs == [] then [] else [Core(xs[0])] + Cores(xs[1..]) }

  lemma CoreHasNoSpaceAround(x: Item)
    requires Written(x)
    ensures Core(x) != "" && !IsSpace(Core(x)[0]) && !IsSpace(Core(x)[|Core(x)| - 1])
  {
  }

  lemma {:induction false} TrimmedCores(xs: seq<Item>)
    requires forall x <- xs :: Written(x)
    ensures TrimAll(PrintEach(xs)) == Cores(xs)
  {
    if xs != [] {
      CoreHasNoSpaceAround(xs[0]);
      TrimSurrounded(xs[0].before, Core(xs[0]), xs[0].after);
      TrimmedCores(xs[1..]);
      assert PrintEach(xs)[1..] == PrintEach(xs[1..]);
    }
  }

  lemma {:induction false} LastCore(xs: seq<Item>)
    requires xs != [] && forall x <- xs :: Written(x)
    ensures Cores(xs) != [] && Cores(xs)[|Cores(xs)| - 1] != ""
  {
    if |xs| == 1 { CoreHasNoSpaceAround(xs[0]); } else { LastCore(xs[1..]); }
  }

  lemma SegmentsOfPieces(s: string, pieces: seq<string>, cores: seq<string>)
    requires pieces != [] && Cut(s, 0) == pieces
    requires TrimAll(pieces) == cores && cores != [] && cores[|cores| - 1] != ""
    ensures Segments(s) == cores
  {
    var front, last := pieces[..|pieces| - 1], pieces[|pieces| - 1];
    assert pieces == front + [last];
    TrimOneMore(front, last);
  }

  /** splitByComma gives back the items of a printed select string, without the white space around them. */
  lemma SegmentsOfPrint(xs: seq<Item>)
    requires forall x <- xs :: Written(x)
    ensures Segments(Print(xs)) == Cores(xs)
  {
    if xs != [] {
      PrintIsWhole(xs);
      CutJoin(PrintEach(xs));
      TrimmedCores(xs);
      LastCore(xs);
      SegmentsOfPieces(Print(xs), PrintEach(xs), Cores(xs));
    }
  }

  // ---------------------------------------------------------------- parsing what was printed

  lemma {:induction false} ParsesCore(x: Item)
    requires Written(x)
    ensures ParseOne(Core(x)) == Render(Tree(x))
    decreases x, 0
  {
    if x.subs == [] {
      NoCallWithoutParentheses(x);
    } else {
      PrintIsNotEmpty(x.subs);
      MatchOfNested(x.alias, x.name, Print(x.subs));
      ParsesPrint(x.subs);
    }
  }

  lemma {:induction false} PrintIsNotEmpty(xs: seq<Item>)
    requires xs != [] && forall x <- xs :: Written(x)
    ensures Print(xs) != ""
  {
    CoreHasNoSpaceAround(xs[0]);
  }

  /** A plain field has no parenthesis, so it is passed on as it is. */
  lemma NoCallWithoutParentheses(x: Item)
    requires Written(x) && x.subs == []
    ensures MatchNested(Core(x)) == None
  {
    var f := Core(x);
    assert f[|f| - 1] == x.name[|x.name| - 1];
    if MatchNested(f).Some? {
      var (alias, rel, sub) := MatchNested(f).value;
      MatchNestedIsExact(f, alias, rel, sub);
    }
  }

  lemma {:induction false} ParsesEach(xs: seq<Item>, bound: nat)
    requires forall x <- xs :: Written(x)
    requires forall f <- Cores(xs) :: |f| <= bound
    ensures ParseAll(Cores(xs), bound) == RenderEach(Trees(xs))
    decreases xs, 0
  {
    if xs != [] {
      ParsesCore(xs[0]);
      ParsesEach(xs[1..], bound);
      assert Cores(xs)[1..] == Cores(xs[1..]);
      assert Trees(xs)[1..] == Trees(xs[1..]);
    }
  }

  /** parseSelectFields turns a printed select tree of any depth, with any white space around its items,
      into the GraphQL text of that tree. */
  lemma {:induction false} ParsesPrint(xs: seq<Item>)
    requires forall x <- xs :: Written(x)
    ensures ParseSelect(Print(xs)) == RenderAll(Trees(xs))
    decreases xs, 1
  {
    SegmentsOfPrint(xs);
    SegmentsFit(Print(xs));
    ParsesEach(xs, |Print(xs)|);
  }

  // ---------------------------------------------------------------- reading a selection set

  /** The selections up to a closing brace or the end, and what is left from there. */
  function ReadSelections(s: string): (r: Option<(seq<Sel>, string)>)
    ensures r.Some? ==> |r.value.1| <= |s|
    decreases |s|, 2
  {
    var t := GraphqlValue.SkipIgnored(s);
    if t == "" || t[0] == '}' then Some(([], t))
    else
      match ReadSelection(t)
      case None => None
      case Some((x, rest)) =>
        match ReadSelections(rest)
        case None => None
        case Some((xs, rest')) => Some(([x] + xs, rest'))
  }

  /** A field: optional alias, name, optional selection set. */
  function ReadSelection(s: string): (r: Option<(Sel, string)>)
    ensures r.Some? ==> |r.value.1| < |s|
    decreases |s|, 1
  {
    var n := GraphqlValue.NamePrefix(s);
    if n == 0 || !GraphqlValue.NameStart(s[0]) then None
    else
      var t := GraphqlValue.SkipIgnored(s[n..]);
      if t == "" || t[0] != ':' then ReadSubs(None, s[..n], s[n..])
      else
        var u := GraphqlValue.SkipIgnored(t[1..]);
        var m := GraphqlValue.NamePrefix(u);
        if m == 0 || !GraphqlValue.NameStart(u[0]) then None else ReadSubs(Some(s[..n]), u[..m], u[m..])
  }

  function ReadSubs(alias: Option<string>, name: string, s: string): (r: Option<(Sel, string)>)
    ensures r.Some? ==> |r.value.1| <= |s|
    decreases |s|, 1
  {
    var t := GraphqlValue.SkipIgnored(s);
    if t == "" || t[0] != '{' then Some((Sel(alias, name, []), s))
    else
      match ReadSelections(t[1..])
      case None => None
      case Some((subs, rest)) => if subs == [] || rest == "" then None else Some((Sel(alias, name, subs), rest[1..]))
  }

  /** What may follow a selection: neither more of its name nor a colon nor a selection set. */
  predicate Follows(rest: string) {
    (rest != "" ==> !GraphqlValue.NameChar(rest[0]))
    && var t := GraphqlValue.SkipIgnored(rest); t == "" || (t[0] != ':' && t[0] != '{')
  }

  lemma NameIsCutOff(name: string, rest: string)
    requires GraphqlValue.IsName(name)
    requires rest != "" ==> !GraphqlValue.NameChar(rest[0])
    ensures var s := name + rest;
            s != "" && GraphqlValue.NameStart(s[0]) && GraphqlValue.SkipIgnored(s) == s
            && GraphqlValue.NamePrefix(s) == |name| && s[..|name|] == name && s[|name|..] == rest
  {
    GraphqlValue.NamePrefixConcat(name, rest);
  }

  lemma ReadsPlainName(name: string, rest: string)
    requires GraphqlValue.IsName(name)
    requires rest != "" ==> !GraphqlValue.NameChar(rest[0])
    requires var t := GraphqlValue.SkipIgnored(rest); t == "" || t[0] != ':'
    ensures ReadSelection(name + rest) == ReadSubs(None, name, rest)
  {
    NameIsCutOff(name, rest);
  }

  lemma SkipsColon(colon: string, u: string)
    requires colon == ":" || colon == ": "
    requires u != "" && GraphqlValue.SkipIgnored(u) == u
    ensures var s := colon + u;
            GraphqlValue.SkipIgnored(s) == s && s[0] == ':' && GraphqlValue.SkipIgnored(s[1..]) == u
  {
    if colon == ":" {
      assert (colon + u)[1..] == u;
    } else {
      assert (colon + u)[1..] == " " + u;
      GraphqlValue.SkipsSpace(u);
    }
  }

  lemma ReadsAliasedName(alias: string, colon: string, name: string, rest: string)
    requires GraphqlValue.IsName(name) && GraphqlValue.IsName(alias)
    requires colon == ":" || colon == ": "
    requires rest != "" ==> !GraphqlValue.NameChar(rest[0])
    ensures ReadSelection(alias + (colon + (name + rest))) == ReadSubs(Some(alias), name, rest)
  {
    var u := name + rest;
    NameIsCutOff(name, rest);
    SkipsColon(colon, u);
    NameIsCutOff(alias, colon + u);
  }

  lemma ReadsName(alias: Option<string>, colon: string, name: string, rest: string)
    requires GraphqlValue.IsName(name) && (alias.Some? ==> GraphqlValue.IsName(alias.value))
    requires colon == ":" || colon == ": "
    requires rest != "" ==> !GraphqlValue.NameChar(rest[0])
    requires var t := GraphqlValue.SkipIgnored(rest); t == "" || t[0] != ':'
    ensures ReadSelection(Aliased(alias, colon, name) + rest) == ReadSubs(alias, name, rest)
  {
    if alias.Some? {
      assert Aliased(alias, colon, name) + rest == alias.value + (colon + (name + rest));
      ReadsAliasedName(alias.value, colon, name, rest);
    } else {
      ReadsPlainName(name, rest);
    }
  }

  lemma ReadSubsStep(alias: Option<string>, name: string, text: string, subs: seq<Sel>, rest: string)
    requires ReadSelections(text + (" }" + rest)) == Some((subs, "}" + rest)) && subs != []
    ensures ReadSubs(alias, name, " { " + text + " }" + rest) == Some((Sel(alias, name, subs), rest))
  {
    var s := " { " + text + " }" + rest;
    assert s[1..][1..] == " " + (text + (" }" + rest));
    GraphqlValue.SkipsSpace(text + (" }" + rest));
    assert GraphqlValue.SkipIgnored(s) == s[1..];
    assert ("}" + rest)[1..] == rest;
  }

  lemma ReadSelectionsStep(t: string, x: Sel, more: string, xs: seq<Sel>, rest: string)
    requires t != "" && GraphqlValue.NameStart(t[0])
    requires ReadSelection(t) == Some((x, more)) && ReadSelections(more) == Some((xs, rest))
    ensures ReadSelections(t) == Some(([x] + xs, rest))
  {
    assert GraphqlValue.SkipIgnored(t) == t;
  }

  lemma RenderBegins(x: Sel, rest: string)
    requires Named(x)
    ensures Render(x) + rest != "" && GraphqlValue.NameStart((Render(x) + rest)[0])
  {
  }

  lemma {:induction false} ReadsSelection(x: Sel, rest: string)
    requires Named(x) && Follows(rest)
    ensures ReadSelection(Render(x) + rest) == Some((x, rest))
    decreases x, 0
  {
    if x.subs == [] {
      ReadsName(x.alias, ":", x.name, rest);
    } else {
      var body := " { " + RenderAll(x.subs) + " }" + rest;
      assert ReadSelection(Render(x) + rest) == ReadSubs(x.alias, x.name, body) by {
        assert Render(x) + rest == Aliased(x.alias, ": ", x.name) + body;
        assert GraphqlValue.SkipIgnored(body) == body[1..];
        ReadsName(x.alias, ": ", x.name, body);
      }
      assert ReadSelections(RenderAll(x.subs) + (" }" + rest)) == Some((x.subs, "}" + rest)) by {
        ReadsSelections(x.subs, " }" + rest);
        assert (" }" + rest)[1..] == "}" + rest;
      }
      ReadSubsStep(x.alias, x.name, RenderAll(x.subs), x.subs, rest);
    }
  }

  predicate Ends(rest: string) { rest == "" || (|rest| > 1 && rest[0] == ' ' && rest[1] == '}') }

  lemma ReadsEnd(rest: string)
    requires Ends(rest)
    ensures Follows(rest) && ReadSelections(rest) == Some(([], GraphqlValue.SkipIgnored(rest)))
  {
    if rest != "" { assert rest[1..][0] == '}'; }
  }

  lemma RenderSplits(xs: seq<Sel>, rest: string)
    requires xs != []
    ensures |xs| == 1 ==> RenderAll(xs) + rest == Render(xs[0]) + rest
    ensures |xs| > 1 ==> RenderAll(xs) + rest == Render(xs[0]) + ("\n    " + (RenderAll(xs[1..]) + rest))
  {
    RenderEachLength(xs);
    JoinMore(RenderEach(xs), "\n    ", rest);
    assert RenderEach(xs)[1..] == RenderEach(xs[1..]);
  }

  lemma {:induction false} RenderEachLength(xs: seq<Sel>)
    ensures |RenderEach(xs)| == |xs|
  {
    if xs != [] { RenderEachLength(xs[1..]); }
  }

  lemma SkipsBreak(s: string)
    ensures GraphqlValue.SkipIgnored("\n    " + s) == GraphqlValue.SkipIgnored(s)
  {
    assert ("\n    " + s)[1..] == " " + (" " + (" " + (" " + s)));
    GraphqlValue.SkipsSpace(" " + (" " + (" " + s)));
    GraphqlValue.SkipsSpace(" " + (" " + s));
    GraphqlValue.SkipsSpace(" " + s);
    GraphqlValue.SkipsSpace(s);
  }

  lemma {:induction false} ReadsSelections(xs: seq<Sel>, rest: string)
    requires (forall x <- xs :: Named(x)) && Ends(rest)
    ensures ReadSelections(RenderAll(xs) + rest) == Some((xs, GraphqlValue.SkipIgnored(rest)))
    decreases xs, 1
  {
    if xs == [] {
      assert RenderAll(xs) + rest == rest;
      ReadsEnd(rest);
    } else {
      var x, others := xs[0], xs[1..];
      assert xs == [x] + others;
      RenderBegins(x, rest);
      if others == [] {
        ReadsEnd(rest);
        ReadsSelection(x, rest);
        ReadSelectionsStep(Render(x) + rest, x, rest, [], GraphqlValue.SkipIgnored(rest));
        RenderSplits(xs, rest);
      } else {
        var after := RenderAll(others) + rest;
        var more := "\n    " + after;
        RenderSplits(xs, rest);
        SkipsBreak(after);
        RenderAllBegins(others, rest);
        RenderBegins(x, more);
        ReadsSelection(x, more);
        ReadsSelections(others, rest);
        assert ReadSelections(more) == ReadSelections(after);
        ReadSelectionsStep(Render(x) + more, x, more, others, GraphqlValue.SkipIgnored(rest));
      }
    }
  }

  lemma RenderAllBegins(xs: seq<Sel>, rest: string)
    requires xs != [] && Named(xs[0])
    ensures RenderAll(xs) + rest != "" && GraphqlValue.NameStart((RenderAll(xs) + rest)[0])
  {
    RenderSplits(xs, rest);
    RenderBegins(xs[0], if |xs| == 1 then rest else "\n    " + (RenderAll(xs[1..]) + rest));
  }

  lemma {:induction false} WrittenIsNamed(x: Item)
    requires Written(x)
    ensures Named(Tree(x))
    decreases x, 0
  {
    AllNamed(x.subs);
  }

  lemma {:induction false} AllNamed(xs: seq<Item>)
    requires forall x <- xs :: Written(x)
    ensures forall y <- Trees(xs) :: Named(y)
    decreases xs, 1
  {
    if xs != [] {
      WrittenIsNamed(xs[0]);
      AllNamed(xs[1..]);
    }
  }

  /** Written as a select string and turned into GraphQL, every tree of fields and relations is read by
      GraphQL as that same tree. */
  lemma SelectRoundTrip(xs: seq<Item>)
    requires forall x <- xs :: Written(x)
    ensures ReadSelections(ParseSelect(Print(xs))) == Some((Trees(xs), ""))
  {
    ParsesPrint(xs);
    AllNamed(xs);
    ReadsSelections(Trees(xs), "");
    assert RenderAll(Trees(xs)) + "" == RenderAll(Trees(xs));
  }
}

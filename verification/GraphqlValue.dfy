/**
 Values as the SDK prints them into a query (packages/sdk/src/lib/graphql-builder.ts), and a reader for
 the value literals of section 2.9 of the GraphQL specification (October 2021). Block strings, `\u`
 escapes, floats, enum values and variables are read as failures: nothing is printed that way.
 */
module GraphqlValue {
  import opened Wrappers
  import opened Decimal

  datatype Value =
    | Str(s: string)
    | Int(n: int)
    | Bool(b: bool)
    | Null
    | List(items: seq<Value>)
    | Obj(fields: seq<Field>)

  /** An entry of an object, in the order of Object.entries. */
  datatype Field = Field(name: string, value: Value)

  // ---------------------------------------------------------------- printing

  /** `s.replace(/c/g, with)`. */
  function ReplaceAll(s: string, c: char, with: string): string {
    if s == "" then "" else (if s[0] == c then with else [s[0]]) + ReplaceAll(s[1..], c, with)
  }

  /** escapeGraphQLString: four replacements, one after the other. */
  function Escape(s: string): string {
    ReplaceAll(ReplaceAll(ReplaceAll(ReplaceAll(s, '\\', "\\\\"), '"', "\\\""), '\n', "\\n"), '\r', "\\r")
  }

  function PrintInt(n: int): string { if n < 0 then "-" + Digits(-n) else Digits(n) }

  /** serializeValue. */
  function Serialize(v: Value): string
    decreases v, 1
  {
    match v
    case Str(s) => "\"" + Escape(s) + "\""
    case List(items) => "[" + SerializeItems(items) + "]"
    case Null => "null"
    case Bool(b) => if b then "true" else "false"
    case Obj(fields) => SerializeObject(fields)
    case Int(n) => PrintInt(n)
  }

  /** `items.map(serializeValue).join(', ')`. */
  function SerializeItems(items: seq<Value>): string
    decreases items, 0
  {
    if items == [] then ""
    else Serialize(items[0]) + (if |items| == 1 then "" else ", ") + SerializeItems(items[1..])
  }

  function SerializeFields(fields: seq<Field>): string
    decreases fields, 0
  {
    if fields == [] then ""
    else
      fields[0].name + ": " + Serialize(fields[0].value)
      + (if |fields| == 1 then "" else ", ") + SerializeFields(fields[1..])
  }

  /** serializeObject. */
  function SerializeObject(fields: seq<Field>): string
    decreases fields, 1
  {
    "{" + SerializeFields(fields) + "}"
  }

  // ---------------------------------------------------------------- escaping in one pass

  function EscapeChar(c: char): string {
    if c == '\\' then "\\\\" else if c == '"' then "\\\"" else if c == '\n' then "\\n"
    else if c == '\r' then "\\r" else [c]
  }

  function EscapeOnce(s: string): string {
    if s == "" then "" else EscapeChar(s[0]) + EscapeOnce(s[1..])
  }

  lemma {:induction false} ReplaceConcat(a: string, b: string, c: char, with: string)
    ensures ReplaceAll(a + b, c, with) == ReplaceAll(a, c, with) + ReplaceAll(b, c, with)
  {
    if a == "" {
      assert a + b == b;
    } else {
      ReplaceConcat(a[1..], b, c, with);
      assert (a + b)[1..] == a[1..] + b;
      var first := if a[0] == c then with else [a[0]];
      assert first + (ReplaceAll(a[1..], c, with) + ReplaceAll(b, c, with))
          == first + ReplaceAll(a[1..], c, with) + ReplaceAll(b, c, with);
    }
  }

  lemma ReplaceOne(x: char, c: char, with: string)
    ensures ReplaceAll([x], c, with) == if x == c then with else [x]
  {
    assert ReplaceAll([x][1..], c, with) == "";
  }

  lemma ReplaceTwo(x: char, y: char, c: char, with: string)
    requires x != c && y != c
    ensures ReplaceAll([x, y], c, with) == [x, y]
  {
    assert [x, y] == [x] + [y];
    ReplaceConcat([x], [y], c, with);
    ReplaceOne(x, c, with);
    ReplaceOne(y, c, with);
  }

  lemma EscapeOfChar(x: char)
    ensures Escape([x]) == EscapeChar(x)
  {
    ReplaceOne(x, '\\', "\\\\");
    if x == '\\' {
      ReplaceTwo('\\', '\\', '"', "\\\"");
      ReplaceTwo('\\', '\\', '\n', "\\n");
      ReplaceTwo('\\', '\\', '\r', "\\r");
    } else {
      ReplaceOne(x, '"', "\\\"");
      if x == '"' {
        ReplaceTwo('\\', '"', '\n', "\\n");
        ReplaceTwo('\\', '"', '\r', "\\r");
      } else {
        ReplaceOne(x, '\n', "\\n");
        if x == '\n' { ReplaceTwo('\\', 'n', '\r', "\\r"); } else { ReplaceOne(x, '\r', "\\r"); }
      }
    }
  }

  lemma EscapeConcat(a: string, b: string)
    ensures Escape(a + b) == Escape(a) + Escape(b)
  {
    ReplaceConcat(a, b, '\\', "\\\\");
    var a1, b1 := ReplaceAll(a, '\\', "\\\\"), ReplaceAll(b, '\\', "\\\\");
    ReplaceConcat(a1, b1, '"', "\\\"");
    var a2, b2 := ReplaceAll(a1, '"', "\\\""), ReplaceAll(b1, '"', "\\\"");
    ReplaceConcat(a2, b2, '\n', "\\n");
    ReplaceConcat(ReplaceAll(a2, '\n', "\\n"), ReplaceAll(b2, '\n', "\\n"), '\r', "\\r");
  }

  /** The four chained replacements are one pass of a character map: none touches what another produced. */
  lemma {:induction false} EscapeIsOnePass(s: string)
    ensures Escape(s) == EscapeOnce(s)
  {
    if s != "" {
      assert s == [s[0]] + s[1..];
      EscapeConcat([s[0]], s[1..]);
      EscapeOfChar(s[0]);
      EscapeIsOnePass(s[1..]);
    }
  }

  // ---------------------------------------------------------------- reading

  /** Section 2.1.1: the characters of a GraphQL source text. */
  predicate SourceChar(c: char) { c == '\t' || c == '\n' || c == '\r' || ' ' <= c }

  predicate NameStart(c: char) { 'a' <= c <= 'z' || 'A' <= c <= 'Z' || c == '_' }

  predicate NameChar(c: char) { NameStart(c) || IsDigit(c) }

  predicate IsName(s: string) { s != "" && NameStart(s[0]) && forall i :: 0 <= i < |s| ==> NameChar(s[i]) }

  /** White space, line terminators and commas; comments end with their line. */
  function SkipIgnored(s: string): (r: string)
    ensures |r| <= |s|
    decreases |s|
  {
    if s == "" then s
    else if s[0] == ' ' || s[0] == '\t' || s[0] == '\n' || s[0] == '\r' || s[0] == ',' then SkipIgnored(s[1..])
    else if s[0] == '#' then SkipIgnored(SkipComment(s[1..]))
    else s
  }

  function SkipComment(s: string): (r: string)
    ensures |r| <= |s|
  {
    if s == "" || s[0] == '\n' || s[0] == '\r' then s else SkipComment(s[1..])
  }

  /** What a backslash and this character stand for. */
  function Unescape(c: char): Option<char> {
    if c == '"' || c == '\\' || c == '/' then Some(c)
    else if c == 'b' then Some(8 as char) else if c == 'f' then Some(12 as char)
    else if c == 'n' then Some('\n') else if c == 'r' then Some('\r') else if c == 't' then Some('\t')
    else None
  }

  /** The characters of a string up to its closing quote, and what follows. */
  function ReadString(s: string): (r: Option<(string, string)>)
    ensures r.Some? ==> |r.value.1| < |s|
  {
    if s == "" then None
    else if s[0] == '"' then Some(("", s[1..]))
    else if s[0] == '\n' || s[0] == '\r' || !SourceChar(s[0]) then None
    else if s[0] == '\\' then
      if |s| == 1 || Unescape(s[1]).None? then None
      else
        match ReadString(s[2..])
        case None => None
        case Some((text, rest)) => Some(([Unescape(s[1]).value] + text, rest))
    else
      match ReadString(s[1..])
      case None => None
      case Some((text, rest)) => Some(([s[0]] + text, rest))
  }

  function NamePrefix(s: string): (n: nat)
    ensures n <= |s|
  {
    if s != "" && NameChar(s[0]) then 1 + NamePrefix(s[1..]) else 0
  }

  /** Digits without a leading zero, not followed by a dot or a name. */
  function ReadNatural(s: string): (r: Option<(nat, string)>)
    ensures r.Some? ==> |r.value.1| < |s|
  {
    var n := DigitPrefix(s);
    var rest := s[n..];
    if n == 0 || (n > 1 && s[0] == '0') || (rest != "" && (rest[0] == '.' || NameStart(rest[0]))) then None
    else Some((Number(s[..n]), rest))
  }

  /** IntValue. */
  function ReadInt(s: string): (r: Option<(Value, string)>)
    ensures r.Some? ==> |r.value.1| < |s|
  {
    var negative := s != "" && s[0] == '-';
    match ReadNatural(if negative then s[1..] else s)
    case None => None
    case Some((m, rest)) =>
      var n: int := m;
      Some((Int(if negative then -n else n), rest))
  }

  function ReadValue(s: string): (r: Option<(Value, string)>)
    ensures r.Some? ==> |r.value.1| < |s|
    decreases |s|, 2
  {
    var t := SkipIgnored(s);
    if t == "" then None
    else if t[0] == '"' then
      if |t| >= 3 && t[1] == '"' && t[2] == '"' then None
      else
        match ReadString(t[1..])
        case None => None
        case Some((text, rest)) => Some((Str(text), rest))
    else if t[0] == '[' then
      match ReadItems(t[1..])
      case None => None
      case Some((items, rest)) => Some((List(items), rest))
    else if t[0] == '{' then
      match ReadFields(t[1..])
      case None => None
      case Some((fields, rest)) => Some((Obj(fields), rest))
    else if NameStart(t[0]) then
      var n := NamePrefix(t);
      if t[..n] == "true" then Some((Bool(true), t[n..]))
      else if t[..n] == "false" then Some((Bool(false), t[n..]))
      else if t[..n] == "null" then Some((Null, t[n..]))
      else None
    else ReadInt(t)
  }

  /** The items of a list up to the closing bracket. */
  function ReadItems(s: string): (r: Option<(seq<Value>, string)>)
    ensures r.Some? ==> |r.value.1| < |s|
    decreases |s|, 3
  {
    var t := SkipIgnored(s);
    if t == "" then None
    else if t[0] == ']' then Some(([], t[1..]))
    else
      match ReadValue(t)
      case None => None
      case Some((v, rest)) =>
        match ReadItems(rest)
        case None => None
        case Some((items, rest')) => Some(([v] + items, rest'))
  }

  /** A name, a colon and a value. */
  function ReadField(s: string): (r: Option<(Field, string)>)
    ensures r.Some? ==> |r.value.1| < |s|
    decreases |s|, 2
  {
    var n := NamePrefix(s);
    var t := SkipIgnored(s[n..]);
    if n == 0 || !NameStart(s[0]) || t == "" || t[0] != ':' then None
    else
      match ReadValue(t[1..])
      case None => None
      case Some((v, rest)) => Some((Field(s[..n], v), rest))
  }

  /** The fields of an object up to the closing brace. */
  function ReadFields(s: string): (r: Option<(seq<Field>, string)>)
    ensures r.Some? ==> |r.value.1| < |s|
    decreases |s|, 3
  {
    var t := SkipIgnored(s);
    if t == "" then None
    else if t[0] == '}' then Some(([], t[1..]))
    else
      match ReadField(t)
      case None => None
      case Some((f, rest)) =>
        match ReadFields(rest)
        case None => None
        case Some((fields, rest')) => Some(([f] + fields, rest'))
  }

  // ---------------------------------------------------------------- what can be printed

  predicate AllSource(s: string) { s == "" || (SourceChar(s[0]) && AllSource(s[1..])) }

  /** Every string of the value consists of source characters. */
  predicate Source(v: Value) {
    match v
    case Str(s) => AllSource(s)
    case List(items) => forall x <- items :: Source(x)
    case Obj(fields) => forall f <- fields :: Source(f.value)
    case _ => true
  }

  /** Every object key of the value is a Name. */
  predicate Named(v: Value) {
    match v
    case List(items) => forall x <- items :: Named(x)
    case Obj(fields) => forall f <- fields :: IsName(f.name) && Named(f.value)
    case _ => true
  }

  /** What may follow a value: nothing, or a character that no value continues with. */
  predicate Stop(rest: string) {
    rest == "" || (!NameChar(rest[0]) && rest[0] != '.' && rest[0] != '"')
  }

  // ---------------------------------------------------------------- reading back

  /** One escaped character is read off, if it is a source character. */
  lemma ReadStringStep(c: char, more: string)
    ensures var r := ReadString(more);
            ReadString(EscapeChar(c) + more)
              == (if SourceChar(c) && r.Some? then Some(([c] + r.value.0, r.value.1)) else None)
  {
    var text := EscapeChar(c) + more;
    if |EscapeChar(c)| == 2 { assert text[2..] == more; } else { assert text[1..] == more; }
  }

  lemma {:induction false} ReadsString(s: string, rest: string)
    ensures ReadString(EscapeOnce(s) + ("\"" + rest)) == if AllSource(s) then Some((s, rest)) else None
  {
    var tail := "\"" + rest;
    if s == "" {
      assert EscapeOnce(s) + tail == tail;
      assert tail[1..] == rest;
    } else {
      ReadsString(s[1..], rest);
      var more := EscapeOnce(s[1..]) + tail;
      ReadStringStep(s[0], more);
      assert EscapeOnce(s) + tail == EscapeChar(s[0]) + more;
      assert s == [s[0]] + s[1..];
    }
  }

  lemma {:induction false} NamePrefixConcat(name: string, rest: string)
    requires forall i :: 0 <= i < |name| ==> NameChar(name[i])
    requires rest != "" ==> !NameChar(rest[0])
    ensures NamePrefix(name + rest) == |name|
  {
    if name == "" {
      assert name + rest == rest;
    } else {
      assert (name + rest)[1..] == name[1..] + rest;
      NamePrefixConcat(name[1..], rest);
    }
  }

  lemma ReadsNatural(n: nat, rest: string)
    requires Stop(rest)
    ensures ReadNatural(Digits(n) + rest) == Some((n, rest))
  {
    var t, k := Digits(n) + rest, |Digits(n)|;
    NumberOfDigits(n);
    DigitsAreDigits(n);
    DigitPrefixConcat(Digits(n), rest);
    assert t[..k] == Digits(n) && t[k..] == rest;
  }

  lemma ReadsSigned(negative: bool, digits: string, m: int, rest: string)
    requires digits != "" && IsDigit(digits[0]) && m >= 0 && ReadNatural(digits + rest) == Some((m, rest))
    ensures ReadInt((if negative then "-" + digits else digits) + rest) == Some((Int(if negative then -m else m), rest))
  {
    if negative { assert ("-" + digits + rest)[1..] == digits + rest; }
  }

  lemma ReadsInt(n: int, rest: string)
    requires Stop(rest)
    ensures ReadInt(PrintInt(n) + rest) == Some((Int(n), rest))
  {
    var m: nat := if n < 0 then -n else n;
    ReadsNatural(m, rest);
    ReadsSigned(n < 0, Digits(m), m, rest);
  }

  lemma SkipsSpace(x: string)
    ensures SkipIgnored(" " + x) == SkipIgnored(x)
  {
    assert (" " + x)[1..] == x;
  }

  lemma SkipsComma(x: string)
    ensures SkipIgnored(", " + x) == SkipIgnored(x)
  {
    assert (", " + x)[1..] == " " + x;
    SkipsSpace(x);
  }

  /** A printed value begins with a character that is not ignored and closes nothing. */
  lemma Begins(v: Value, rest: string)
    ensures var t := Serialize(v) + rest;
            t != "" && SkipIgnored(t) == t && t[0] != ']' && t[0] != '}'
  {
    if v.Int? {
      var digits := Digits(if v.n < 0 then -v.n else v.n);
      assert Serialize(v)[0] == '-' || Serialize(v)[0] == digits[0];
    }
  }

  lemma ReadsStringValue(s: string, rest: string)
    requires Stop(rest)
    ensures ReadValue(Serialize(Str(s)) + rest) == if AllSource(s) then Some((Str(s), rest)) else None
  {
    var t := Serialize(Str(s)) + rest;
    EscapeIsOnePass(s);
    ReadsString(s, rest);
    assert t[0] == '"' && t[1..] == EscapeOnce(s) + ("\"" + rest);
    if s != "" {
      assert EscapeOnce(s)[0] == EscapeChar(s[0])[0];
    } else {
      assert t[1..] == "\"" + rest;
    }
  }

  lemma ReadsWord(word: string, rest: string)
    requires word == "true" || word == "false" || word == "null"
    requires Stop(rest)
    ensures ReadValue(word + rest)
         == Some((if word == "null" then Null else Bool(word == "true"), rest))
  {
    var t := word + rest;
    NamePrefixConcat(word, rest);
    assert SkipIgnored(t) == t;
    assert t[..|word|] == word && t[|word|..] == rest;
  }

  lemma ReadListStep(text: string, rest: string)
    ensures var r := ReadItems(text + ("]" + rest));
            ReadValue("[" + text + "]" + rest) == if r.Some? then Some((List(r.value.0), r.value.1)) else None
  {
    assert ("[" + text + "]" + rest)[1..] == text + ("]" + rest);
  }

  lemma ReadObjectStep(text: string, rest: string)
    ensures var r := ReadFields(text + ("}" + rest));
            ReadValue("{" + text + "}" + rest) == if r.Some? then Some((Obj(r.value.0), r.value.1)) else None
  {
    assert ("{" + text + "}" + rest)[1..] == text + ("}" + rest);
  }

  lemma {:induction false} ReadsValue(v: Value, rest: string)
    requires Named(v) && Stop(rest)
    ensures ReadValue(Serialize(v) + rest) == if Source(v) then Some((v, rest)) else None
    decreases v, 1
  {
    match v {
      case Str(s) => ReadsStringValue(s, rest);
      case Int(n) =>
        Begins(v, rest);
        ReadsInt(n, rest);
      case Bool(b) => ReadsWord(Serialize(v), rest);
      case Null => ReadsWord("null", rest);
      case List(items) =>
        ReadListStep(SerializeItems(items), rest);
        ReadsItems(items, rest);
      case Obj(fields) =>
        ReadObjectStep(SerializeFields(fields), rest);
        ReadsFields(fields, rest);
    }
  }

  /** What follows an item reads like what follows its separator. */
  lemma ReadsPastComma(last: bool, after: string, closing: char)
    requires after != "" && (closing == ']' || closing == '}')
    requires last ==> after[0] == closing
    ensures var t := (if last then "" else ", ") + after;
            Stop(t) && ReadItems(t) == ReadItems(after) && ReadFields(t) == ReadFields(after)
  {
    if last { assert "" + after == after; } else { SkipsComma(after); }
  }

  lemma Regroup(a: string, b: string, c: string, d: string)
    ensures a + b + c + d == a + (b + (c + d))
  {
  }

  /** A list reads as its first item, as far as that reads, and the list of what follows. */
  lemma ReadItemsStep(t: string, more: string, v: Option<Value>, items: Option<seq<Value>>, rest: string)
    requires t != "" && SkipIgnored(t) == t && t[0] != ']'
    requires ReadValue(t) == if v.Some? then Some((v.value, more)) else None
    requires ReadItems(more) == if items.Some? then Some((items.value, rest)) else None
    ensures ReadItems(t) == if v.Some? && items.Some? then Some(([v.value] + items.value, rest)) else None
  {
  }

  lemma ReadItemsEnd(rest: string)
    ensures ReadItems("]" + rest) == Some(([], rest))
  {
    assert ("]" + rest)[1..] == rest;
  }

  lemma ItemsText(items: seq<Value>, tail: string)
    requires items != []
    ensures SerializeItems(items) + tail
         == Serialize(items[0]) + ((if |items| == 1 then "" else ", ") + (SerializeItems(items[1..]) + tail))
  {
    Regroup(Serialize(items[0]), if |items| == 1 then "" else ", ", SerializeItems(items[1..]), tail);
  }

  lemma {:induction false} ReadsItems(items: seq<Value>, rest: string)
    requires forall x <- items :: Named(x)
    ensures ReadItems(SerializeItems(items) + ("]" + rest))
         == if forall x <- items :: Source(x) then Some((items, rest)) else None
    decreases items, 0
  {
    if items == [] {
      assert SerializeItems(items) + ("]" + rest) == "]" + rest;
      ReadItemsEnd(rest);
    } else {
      var x, others := items[0], items[1..];
      var after := SerializeItems(others) + ("]" + rest);
      var more := (if |items| == 1 then "" else ", ") + after;
      ItemsText(items, "]" + rest);
      ReadsPastComma(|items| == 1, after, ']');
      Begins(x, more);
      ReadsValue(x, more);
      ReadsItems(others, rest);
      ReadItemsStep(Serialize(x) + more, more, if Source(x) then Some(x) else None,
                    if forall y <- others :: Source(y) then Some(others) else None, rest);
      assert items == [x] + others;
    }
  }

  /** A name, a colon and a space are read off; the value is what follows. */
  lemma ReadFieldStep(name: string, value: string)
    requires IsName(name)
    ensures var r := ReadValue(value);
            ReadField(name + (": " + value)) == if r.Some? then Some((Field(name, r.value.0), r.value.1)) else None
  {
    var s := name + (": " + value);
    NamePrefixConcat(name, ": " + value);
    assert s[..|name|] == name && s[|name|..] == ": " + value;
    assert (": " + value)[1..] == " " + value;
    SkipsSpace(value);
  }

  lemma {:induction false} ReadsField(f: Field, rest: string)
    requires IsName(f.name) && Named(f.value) && Stop(rest)
    ensures ReadField(f.name + ": " + Serialize(f.value) + rest)
         == if Source(f.value) then Some((f, rest)) else None
    decreases f, 2
  {
    Regroup(f.name, ": ", Serialize(f.value), rest);
    ReadFieldStep(f.name, Serialize(f.value) + rest);
    ReadsValue(f.value, rest);
  }

  lemma ReadFieldsStep(t: string, more: string, f: Option<Field>, fields: Option<seq<Field>>, rest: string)
    requires t != "" && SkipIgnored(t) == t && t[0] != '}'
    requires ReadField(t) == if f.Some? then Some((f.value, more)) else None
    requires ReadFields(more) == if fields.Some? then Some((fields.value, rest)) else None
    ensures ReadFields(t) == if f.Some? && fields.Some? then Some(([f.value] + fields.value, rest)) else None
  {
  }

  lemma ReadFieldsEnd(rest: string)
    ensures ReadFields("}" + rest) == Some(([], rest))
  {
    assert ("}" + rest)[1..] == rest;
  }

  lemma FieldBegins(f: Field, rest: string)
    requires IsName(f.name)
    ensures var t := f.name + ": " + Serialize(f.value) + rest;
            t != "" && SkipIgnored(t) == t && t[0] != '}'
  {
    var t := f.name + ": " + Serialize(f.value) + rest;
    assert t[0] == f.name[0];
  }

  lemma FieldsText(fields: seq<Field>, tail: string)
    requires fields != []
    ensures SerializeFields(fields) + tail
         == fields[0].name + ": " + Serialize(fields[0].value)
            + ((if |fields| == 1 then "" else ", ") + (SerializeFields(fields[1..]) + tail))
  {
    Regroup(fields[0].name + ": " + Serialize(fields[0].value), if |fields| == 1 then "" else ", ",
            SerializeFields(fields[1..]), tail);
  }

  lemma {:induction false} ReadsFirst(f: Field, more: string)
    requires IsName(f.name) && Named(f.value) && Stop(more)
    ensures var t := f.name + ": " + Serialize(f.value) + more;
            && t != "" && SkipIgnored(t) == t && t[0] != '}'
            && ReadField(t) == if Source(f.value) then Some((f, more)) else None
    decreases f, 3
  {
    FieldBegins(f, more);
    ReadsField(f, more);
  }

  lemma SourceFields(fields: seq<Field>)
    requires fields != []
    ensures (forall f <- fields :: Source(f.value)) <==>
            Source(fields[0].value) && forall f <- fields[1..] :: Source(f.value)
  {
    assert fields == [fields[0]] + fields[1..];
  }

  lemma {:induction false} ReadsFields(fields: seq<Field>, rest: string)
    requires forall f <- fields :: IsName(f.name) && Named(f.value)
    ensures ReadFields(SerializeFields(fields) + ("}" + rest))
         == if forall f <- fields :: Source(f.value) then Some((fields, rest)) else None
    decreases fields, 0
  {
    if fields == [] {
      assert SerializeFields(fields) + ("}" + rest) == "}" + rest;
      ReadFieldsEnd(rest);
    } else {
      var f, others := fields[0], fields[1..];
      var after := SerializeFields(others) + ("}" + rest);
      var more := (if |fields| == 1 then "" else ", ") + after;
      var t := f.name + ": " + Serialize(f.value) + more;
      var source: bool := forall g <- others :: Source(g.value);
      assert SerializeFields(fields) + ("}" + rest) == t by { FieldsText(fields, "}" + rest); }
      ReadsPastComma(|fields| == 1, after, '}');
      ReadsFirst(f, more);
      assert ReadFields(more) == (if source then Some((others, rest)) else None) by { ReadsFields(others, rest); }
      ReadFieldsStep(t, more, if Source(f.value) then Some(f) else None, if source then Some(others) else None, rest);
      SourceFields(fields);
      assert fields == [f] + others;
    }
  }

  /** A printed value reads back as itself exactly when its strings contain source characters only; a
      string with any other character (U+0000 to U+001F but for tab, LF and CR) makes the text unreadable. */
  lemma SerializeRoundTrip(v: Value)
    requires Named(v)
    ensures ReadValue(Serialize(v)) == Some((v, "")) <==> Source(v)
    ensures !Source(v) ==> ReadValue(Serialize(v)) == None
  {
    ReadsValue(v, "");
    assert Serialize(v) + "" == Serialize(v);
  }

  /** The smallest value that does not survive. */
  lemma ControlCharacterIsNotReadable()
    ensures ReadValue(Serialize(Str([0 as char]))) == None
  {
    assert !AllSource([0 as char]);
    SerializeRoundTrip(Str([0 as char]));
  }

  /** Two values with readable strings are never printed alike. */
  lemma SerializeIsInjective(v: Value, w: Value)
    requires Named(v) && Named(w) && Source(v) && Source(w)
    requires Serialize(v) == Serialize(w)
    ensures v == w
  {
    SerializeRoundTrip(v);
    SerializeRoundTrip(w);
  }
}

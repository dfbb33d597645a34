/**
 Filters of a query (packages/sdk/src/modules/query-builder.ts) and the two ways they are printed: as the
 `where` argument of a query (packages/sdk/src/lib/graphql-builder.ts:82-104), and as an object built first
 and serialized into a mutation (query-builder.ts:302-313).
 */
module WhereClause {
  import opened Wrappers
  import Decimal
  import opened JsString
  import opened GraphqlValue

  datatype FilterItem = FilterItem(column: string, op: string, value: Value)

  datatype WhereItem = One(f: FilterItem) | AnyOf(conditions: seq<FilterItem>)

  // ---------------------------------------------------------------- the query path

  /** JavaScript truthiness. */
  predicate Truthy(v: Value) {
    match v
    case Str(s) => s != ""
    case Int(n) => n != 0
    case Bool(b) => b
    case Null => false
    case _ => true
  }

  function ConditionText(c: FilterItem): string {
    c.column + ": {" + c.op + ": "
    + (if c.op == "_is_null" then (if Truthy(c.value) then "true" else "false") else Serialize(c.value)) + "}"
  }

  function OrTexts(conditions: seq<FilterItem>): seq<string> {
    if conditions == [] then [] else ["{" + ConditionText(conditions[0]) + "}"] + OrTexts(conditions[1..])
  }

  function ItemText(f: WhereItem): string {
    match f
    case One(c) => ConditionText(c)
    case AnyOf(conditions) => "_or: [" + Join(OrTexts(conditions), ", ") + "]"
  }

  function ItemTexts(filters: seq<WhereItem>): seq<string> {
    if filters == [] then [] else [ItemText(filters[0])] + ItemTexts(filters[1..])
  }

  function WhereText(filters: seq<WhereItem>): string {
    if filters == [] then "" else "where: {" + Join(ItemTexts(filters), ", ") + "}"
  }

  /** buildWhereClause. */
  method BuildWhereClause(filters: seq<WhereItem>) returns (text: string)
    ensures text == WhereText(filters)
  {
    if filters == [] { return ""; }
    var conditions: seq<string>, i := [], 0;
    while i < |filters|
      invariant 0 <= i <= |filters|
      invariant conditions == ItemTexts(filters[..i])
    {
      TextsUpTo(filters, i);
      conditions := conditions + [ItemText(filters[i])];
      i := i + 1;
    }
    assert filters[..i] == filters;
    return "where: {" + Join(conditions, ", ") + "}";
  }

  lemma TextsUpTo(filters: seq<WhereItem>, i: nat)
    requires i < |filters|
    ensures ItemTexts(filters[..i + 1]) == ItemTexts(filters[..i]) + [ItemText(filters[i])]
  {
    TextsOneMore(filters[..i], filters[i]);
    assert filters[..i + 1] == filters[..i] + [filters[i]];
  }

  lemma {:induction false} TextsOneMore(filters: seq<WhereItem>, f: WhereItem)
    ensures ItemTexts(filters + [f]) == ItemTexts(filters) + [ItemText(f)]
  {
    if filters != [] {
      TextsOneMore(filters[1..], f);
      assert (filters + [f])[1..] == filters[1..] + [f];
    }
  }

  // ---------------------------------------------------------------- the mutation path

  /** `{ [column]: { [op]: value } }`. */
  function ConditionField(c: FilterItem): Field { Field(c.column, Obj([Field(c.op, c.value)])) }

  function OrItems(conditions: seq<FilterItem>): seq<Value> {
    if conditions == [] then [] else [Obj([ConditionField(conditions[0])])] + OrItems(conditions[1..])
  }

  /** The property that a filter assigns. */
  function ItemField(f: WhereItem): Field {
    match f
    case One(c) => ConditionField(c)
    case AnyOf(conditions) => Field("_or", List(OrItems(conditions)))
  }

  predicate HasName(fields: seq<Field>, name: string) {
    fields != [] && (fields[0].name == name || HasName(fields[1..], name))
  }

  /** The array indices among the keys of a JavaScript object. */
  predicate IsIndex(key: string) {
    key == Decimal.Digits(Decimal.Number(key)) && Decimal.Number(key) <= 0xFFFF_FFFE
  }

  /** A JavaScript object lists its array indices first, in ascending order; its other keys stay in the order in
      which they were added. */
  predicate Before(a: string, b: string) {
    IsIndex(a) && (IsIndex(b) ==> Decimal.Number(a) < Decimal.Number(b))
  }

  function Replace(fields: seq<Field>, f: Field): seq<Field> {
    if fields == [] then []
    else if fields[0].name == f.name then [f] + fields[1..]
    else [fields[0]] + Replace(fields[1..], f)
  }

  function Insert(fields: seq<Field>, f: Field): seq<Field> {
    if fields == [] then [f]
    else if Before(f.name, fields[0].name) then [f] + fields
    else [fields[0]] + Insert(fields[1..], f)
  }

  const PROTOTYPE := "__proto__"

  /** Assignment to a property: in place when it exists, as a new one when it does not. Assigning to
      `__proto__` adds no property. */
  function Put(fields: seq<Field>, f: Field): seq<Field> {
    if f.name == PROTOTYPE then fields
    else if HasName(fields, f.name) then Replace(fields, f)
    else Insert(fields, f)
  }

  function ObjectOf(filters: seq<WhereItem>): seq<Field> {
    if filters == [] then []
    else Put(ObjectOf(filters[..|filters| - 1]), ItemField(filters[|filters| - 1]))
  }

  /** All filters as fields, one each. */
  function FieldsOf(filters: seq<WhereItem>): (fields: seq<Field>)
    ensures |fields| == |filters|
  {
    if filters == [] then [] else [ItemField(filters[0])] + FieldsOf(filters[1..])
  }

  datatype Comparison = Eq | Neq | In | Gt | Gte | Lt | Lte | Like | Ilike

  function OpName(c: Comparison): string {
    match c
    case Eq => "_eq" case Neq => "_neq" case In => "_in" case Gt => "_gt" case Gte => "_gte"
    case Lt => "_lt" case Lte => "_lte" case Like => "_like" case Ilike => "_ilike"
  }

  /** The table of `not`; `is` maps to the null test. */
  function NegatedOp(operator: string): Option<string> {
    if operator == "eq" then Some("_neq") else if operator == "neq" then Some("_eq")
    else if operator == "gt" then Some("_lte") else if operator == "gte" then Some("_lt")
    else if operator == "lt" then Some("_gte") else if operator == "lte" then Some("_gt")
    else if operator == "like" then Some("_nlike") else if operator == "ilike" then Some("_nilike")
    else if operator == "is" then Some("_is_null")
    else None
  }

  function NegatedFilter(column: string, operator: string, value: Value): FilterItem
    requires NegatedOp(operator).Some?
  {
    if operator == "is" && value == Null then FilterItem(column, "_is_null", Bool(false))
    else FilterItem(column, NegatedOp(operator).value, value)
  }

  class QueryBuilder {
    var filters: seq<WhereItem>

    constructor ()
      ensures filters == []
    {
      filters := [];
    }

    /** eq, neq, in, gt, gte, lt, lte, like and ilike. */
    method Filter(c: Comparison, column: string, value: Value)
      modifies this
      ensures filters == old(filters) + [One(FilterItem(column, OpName(c), value))]
    {
      filters := filters + [One(FilterItem(column, OpName(c), value))];
    }

    /** is: the null test, with null or a boolean. */
    method Is(column: string, value: Option<bool>)
      modifies this
      ensures filters == old(filters) + [One(FilterItem(column, "_is_null", Bool(value.None?)))]
    {
      filters := filters + [One(FilterItem(column, "_is_null", Bool(value == None)))];
    }

    /** or, with its conditions already parsed. */
    method Or(conditions: seq<FilterItem>)
      modifies this
      ensures filters == old(filters) + [AnyOf(conditions)]
    {
      filters := filters + [AnyOf(conditions)];
    }

    /** not: throws on an operator outside its table. */
    method Not(column: string, operator: string, value: Value) returns (ok: bool)
      modifies this
      ensures ok <==> NegatedOp(operator).Some?
      ensures !ok ==> filters == old(filters)
      ensures ok ==> filters == old(filters) + [One(NegatedFilter(column, operator, value))]
    {
      var op := NegatedOp(operator);
      if op == None { return false; }
      if operator == "is" && value == Null {
        filters := filters + [One(FilterItem(column, "_is_null", Bool(false)))];
      } else {
        filters := filters + [One(FilterItem(column, op.value, value))];
      }
      return true;
    }

    /** buildWhereObject. */
    method BuildWhereObject() returns (where: seq<Field>)
      ensures where == ObjectOf(filters)
    {
      where := [];
      var i := 0;
      while i < |filters|
        invariant 0 <= i <= |filters|
        invariant where == ObjectOf(filters[..i])
      {
        assert filters[..i + 1][..i] == filters[..i];
        where := Put(where, ItemField(filters[i]));
        i := i + 1;
      }
      assert filters[..i] == filters;
    }
  }

  // ---------------------------------------------------------------- when the two paths print the same

  /** Null tests carry a boolean, as `is` always sees to. */
  predicate NullTestIsBoolean(c: FilterItem) { c.op == "_is_null" ==> c.value.Bool? }

  predicate ItemIsBoolean(f: WhereItem) {
    match f
    case One(c) => NullTestIsBoolean(c)
    case AnyOf(conditions) => forall c <- conditions :: NullTestIsBoolean(c)
  }

  predicate NullTestsAreBoolean(filters: seq<WhereItem>) { forall f <- filters :: ItemIsBoolean(f) }

  function Key(f: WhereItem): string { if f.One? then f.f.column else "_or" }

  predicate DistinctKeys(filters: seq<WhereItem>) {
    forall i, j :: 0 <= i < j < |filters| ==> Key(filters[i]) != Key(filters[j])
  }

  function FieldText(f: Field): string { f.name + ": " + Serialize(f.value) }

  function FieldTexts(fields: seq<Field>): seq<string> {
    if fields == [] then [] else [FieldText(fields[0])] + FieldTexts(fields[1..])
  }

  lemma {:induction false} SerializeFieldsJoins(fields: seq<Field>)
    ensures SerializeFields(fields) == Join(FieldTexts(fields), ", ")
  {
    if |fields| == 1 {
      assert FieldTexts(fields) == [FieldText(fields[0])];
    } else if fields != [] {
      SerializeFieldsJoins(fields[1..]);
      assert FieldTexts(fields)[1..] == FieldTexts(fields[1..]);
    }
  }

  lemma SerializeSingle(f: Field)
    ensures Serialize(Obj([f])) == "{" + FieldText(f) + "}"
  {
    SerializeFieldsJoins([f]);
    assert FieldTexts([f]) == [FieldText(f)];
  }

  lemma ConditionTextIsField(c: FilterItem)
    ensures ConditionText(c) == FieldText(ConditionField(c)) <==> NullTestIsBoolean(c)
  {
    SerializeSingle(Field(c.op, c.value));
    var prefix := c.column + ": {" + c.op + ": ";
    var text := if c.op == "_is_null" then (if Truthy(c.value) then "true" else "false") else Serialize(c.value);
    assert FieldText(ConditionField(c)) == prefix + (Serialize(c.value) + "}");
    assert ConditionText(c) == prefix + (text + "}");
    assert ConditionText(c) == FieldText(ConditionField(c)) <==> text + "}" == Serialize(c.value) + "}" by {
      CancelPrefix(prefix, text + "}", Serialize(c.value) + "}");
    }
    if text + "}" == Serialize(c.value) + "}" {
      assert text == (text + "}")[..|text|] && Serialize(c.value) == (Serialize(c.value) + "}")[..|Serialize(c.value)|];
      if c.op == "_is_null" { BooleansBeginSo(c.value); }
    }
  }

  lemma CancelPrefix(p: string, a: string, b: string)
    ensures p + a == p + b <==> a == b
  {
    if p + a == p + b {
      assert a == (p + a)[|p|..] == (p + b)[|p|..] == b;
    }
  }

  lemma BooleansBeginSo(v: Value)
    ensures Serialize(v) != "" && (Serialize(v)[0] == 't' || Serialize(v)[0] == 'f' <==> v.Bool?)
  {
    match v {
      case Str(s) => assert Serialize(v) == "\"" + Escape(s) + "\"";
      case Int(n) =>
        var digits := Decimal.Digits(if n < 0 then -n else n);
        assert Serialize(v) == (if n < 0 then "-" + digits else digits) && Decimal.IsDigit(digits[0]);
      case Bool(b) => assert Serialize(v) == if b then "true" else "false";
      case Null => assert Serialize(v) == "null";
      case List(items) => assert Serialize(v) == "[" + SerializeItems(items) + "]";
      case Obj(fields) => assert Serialize(v) == SerializeObject(fields) == "{" + SerializeFields(fields) + "}";
    }
  }

  lemma {:induction false} OrTextsJoin(conditions: seq<FilterItem>)
    requires forall c <- conditions :: NullTestIsBoolean(c)
    ensures Join(OrTexts(conditions), ", ") == SerializeItems(OrItems(conditions))
  {
    if conditions != [] {
      var c := conditions[0];
      ConditionTextIsField(c);
      SerializeSingle(ConditionField(c));
      OrTextsJoin(conditions[1..]);
      assert OrTexts(conditions)[1..] == OrTexts(conditions[1..]);
      assert OrItems(conditions)[1..] == OrItems(conditions[1..]);
    }
  }

  lemma ItemTextIsField(f: WhereItem)
    requires ItemIsBoolean(f)
    ensures ItemText(f) == FieldText(ItemField(f))
  {
    match f {
      case One(c) => ConditionTextIsField(c);
      case AnyOf(conditions) => OrTextsJoin(conditions);
    }
  }

  lemma {:induction false} ItemTextsAreFields(filters: seq<WhereItem>)
    requires NullTestsAreBoolean(filters)
    ensures ItemTexts(filters) == FieldTexts(FieldsOf(filters))
  {
    if filters != [] {
      assert filters[0] in filters;
      ItemTextIsField(filters[0]);
      ItemTextsAreFields(filters[1..]);
      assert FieldsOf(filters)[1..] == FieldsOf(filters[1..]);
    }
  }

  /** The query path prints every filter as one field. */
  lemma QueryPrintsEveryFilter(filters: seq<WhereItem>)
    requires filters != [] && NullTestsAreBoolean(filters)
    ensures WhereText(filters) == "where: " + SerializeObject(FieldsOf(filters))
  {
    ItemTextsAreFields(filters);
    SerializeFieldsJoins(FieldsOf(filters));
  }

  function TextLength(fields: seq<Field>): nat {
    if fields == [] then 0 else |FieldText(fields[0])| + 2 + TextLength(fields[1..])
  }

  lemma {:induction false} TextLengthIsExact(fields: seq<Field>)
    requires fields != []
    ensures |SerializeFields(fields)| + 2 == TextLength(fields)
  {
    if |fields| == 1 { assert fields[1..] == []; } else { TextLengthIsExact(fields[1..]); }
  }

  predicate HasKey(filters: seq<WhereItem>, key: string) { exists f <- filters :: Key(f) == key }

  lemma {:induction false} InsertLength(fields: seq<Field>, f: Field)
    ensures TextLength(Insert(fields, f)) == TextLength(fields) + |FieldText(f)| + 2
  {
    if fields == [] {
      assert [f][1..] == [];
    } else if Before(f.name, fields[0].name) {
      assert ([f] + fields)[1..] == fields;
    } else {
      InsertLength(fields[1..], f);
      assert Insert(fields, f)[1..] == Insert(fields[1..], f);
    }
  }

  lemma {:induction false} ReplaceLength(fields: seq<Field>, f: Field)
    requires HasName(fields, f.name)
    ensures TextLength(Replace(fields, f)) < TextLength(fields) + |FieldText(f)| + 2
  {
    if fields[0].name == f.name {
      assert Replace(fields, f)[1..] == fields[1..];
    } else {
      ReplaceLength(fields[1..], f);
      assert Replace(fields, f)[1..] == Replace(fields[1..], f);
    }
  }

  /** An assignment that adds no property loses text. */
  lemma PutLength(fields: seq<Field>, f: Field)
    ensures TextLength(Put(fields, f)) <= TextLength(fields) + |FieldText(f)| + 2
    ensures HasName(fields, f.name) || f.name == PROTOTYPE ==>
              TextLength(Put(fields, f)) < TextLength(fields) + |FieldText(f)| + 2
  {
    if HasName(fields, f.name) { ReplaceLength(fields, f); } else { InsertLength(fields, f); }
  }

  lemma {:induction false} NamesAfterReplace(fields: seq<Field>, f: Field, name: string)
    requires HasName(fields, f.name)
    ensures HasName(Replace(fields, f), name) <==> HasName(fields, name)
  {
    if fields[0].name == f.name {
      assert Replace(fields, f)[1..] == fields[1..];
    } else {
      NamesAfterReplace(fields[1..], f, name);
      assert Replace(fields, f)[1..] == Replace(fields[1..], f);
    }
  }

  lemma {:induction false} NamesAfterInsert(fields: seq<Field>, f: Field, name: string)
    ensures HasName(Insert(fields, f), name) <==> HasName(fields, name) || name == f.name
  {
    if fields == [] {
      assert [f][1..] == [];
    } else if Before(f.name, fields[0].name) {
      assert ([f] + fields)[1..] == fields;
    } else {
      NamesAfterInsert(fields[1..], f, name);
      assert Insert(fields, f)[1..] == Insert(fields[1..], f);
    }
  }

  lemma {:induction false} NamesOfObject(filters: seq<WhereItem>, name: string)
    ensures HasName(ObjectOf(filters), name) <==> name != PROTOTYPE && HasKey(filters, name)
  {
    if filters != [] {
      var front, last := filters[..|filters| - 1], filters[|filters| - 1];
      var fields, f := ObjectOf(front), ItemField(last);
      assert HasKey(filters, name) <==> HasKey(front, name) || Key(last) == name by {
        assert filters == front + [last] && last in filters;
      }
      NamesOfObject(front, name);
      if HasName(fields, f.name) { NamesAfterReplace(fields, f, name); } else { NamesAfterInsert(fields, f, name); }
    }
  }

  lemma {:induction false} FieldsOneMore(filters: seq<WhereItem>, f: WhereItem)
    ensures FieldsOf(filters + [f]) == FieldsOf(filters) + [ItemField(f)]
    ensures TextLength(FieldsOf(filters + [f])) == TextLength(FieldsOf(filters)) + |FieldText(ItemField(f))| + 2
  {
    if filters == [] {
      assert FieldsOf([f]) == [ItemField(f)] && FieldsOf([f])[1..] == [];
    } else {
      FieldsOneMore(filters[1..], f);
      assert (filters + [f])[1..] == filters[1..] + [f];
      assert FieldsOf(filters + [f])[1..] == FieldsOf(filters[1..] + [f]);
      assert FieldsOf(filters)[1..] == FieldsOf(filters[1..]);
    }
  }

  /** Every filter has a property of its own. */
  predicate NothingLost(filters: seq<WhereItem>) { DistinctKeys(filters) && !HasKey(filters, PROTOTYPE) }

  lemma NothingLostOneMore(front: seq<WhereItem>, last: WhereItem)
    ensures NothingLost(front + [last]) <==>
            NothingLost(front) && !HasName(ObjectOf(front), Key(last)) && Key(last) != PROTOTYPE
  {
    DistinctOneMore(front, last);
    NamesOfObject(front, Key(last));
    if HasKey(front, PROTOTYPE) {
      var f :| f in front && Key(f) == PROTOTYPE;
      assert f in front + [last];
    }
    assert last in front + [last];
  }

  /** A filter without a property of its own makes the object shorter. */
  lemma {:induction false} ObjectShape(filters: seq<WhereItem>)
    ensures TextLength(ObjectOf(filters)) <= TextLength(FieldsOf(filters))
    ensures !NothingLost(filters) ==> TextLength(ObjectOf(filters)) < TextLength(FieldsOf(filters))
  {
    if filters != [] {
      var front, last := filters[..|filters| - 1], filters[|filters| - 1];
      assert filters == front + [last];
      ObjectShape(front);
      PutLength(ObjectOf(front), ItemField(last));
      FieldsOneMore(front, last);
      NothingLostOneMore(front, last);
    }
  }

  /** No later field belongs before an earlier one. */
  predicate InOrder(fields: seq<Field>) {
    fields == [] || ((forall g <- fields[1..] :: !Before(g.name, fields[0].name)) && InOrder(fields[1..]))
  }

  lemma {:induction false} InOrderAppend(fields: seq<Field>, f: Field)
    ensures InOrder(fields + [f]) <==> InOrder(fields) && forall g <- fields :: !Before(f.name, g.name)
  {
    if fields == [] {
      assert fields + [f] == [f] && [f][1..] == [];
    } else {
      InOrderAppend(fields[1..], f);
      assert (fields + [f])[1..] == fields[1..] + [f];
      assert fields == [fields[0]] + fields[1..];
      assert f in fields[1..] + [f];
    }
  }

  lemma {:induction false} InsertAtEnd(fields: seq<Field>, f: Field)
    requires forall g <- fields :: !Before(f.name, g.name)
    ensures Insert(fields, f) == fields + [f]
  {
    if fields != [] {
      assert fields[0] in fields;
      InsertAtEnd(fields[1..], f);
      assert fields == [fields[0]] + fields[1..];
    }
  }

  lemma {:induction false} InsertHas(fields: seq<Field>, f: Field, g: Field)
    ensures g in Insert(fields, f) <==> g in fields || g == f
  {
    if fields != [] {
      InsertHas(fields[1..], f, g);
      assert fields == [fields[0]] + fields[1..];
    }
  }

  lemma {:induction false} InsertKeepsOrder(fields: seq<Field>, f: Field)
    requires InOrder(fields)
    ensures InOrder(Insert(fields, f))
  {
    if fields == [] {
      assert [f][1..] == [];
    } else if Before(f.name, fields[0].name) {
      assert ([f] + fields)[1..] == fields && fields == [fields[0]] + fields[1..];
    } else {
      InsertKeepsOrder(fields[1..], f);
      var more := Insert(fields, f);
      assert more[1..] == Insert(fields[1..], f);
      forall g | g in more[1..] ensures !Before(g.name, more[0].name) { InsertHas(fields[1..], f, g); }
    }
  }

  lemma {:induction false} ReplaceNames(fields: seq<Field>, f: Field)
    ensures |Replace(fields, f)| == |fields|
    ensures forall i :: 0 <= i < |fields| ==> Replace(fields, f)[i].name == fields[i].name
  {
    if fields != [] && fields[0].name != f.name { ReplaceNames(fields[1..], f); }
  }

  lemma {:induction false} SameNamesSameOrder(a: seq<Field>, b: seq<Field>)
    requires |a| == |b| && InOrder(a) && forall i :: 0 <= i < |a| ==> a[i].name == b[i].name
    ensures InOrder(b)
  {
    if a != [] {
      SameNamesSameOrder(a[1..], b[1..]);
      forall g | g in b[1..] ensures !Before(g.name, b[0].name) {
        var i :| 0 <= i < |b| - 1 && b[1..][i] == g;
        assert a[1..][i] in a[1..] && a[1..][i].name == g.name;
      }
    }
  }

  /** The object lists its keys in the order of JavaScript. */
  lemma {:induction false} ObjectIsOrdered(filters: seq<WhereItem>)
    ensures InOrder(ObjectOf(filters))
  {
    if filters != [] {
      var front := filters[..|filters| - 1];
      var fields, f := ObjectOf(front), ItemField(filters[|filters| - 1]);
      ObjectIsOrdered(front);
      InsertKeepsOrder(fields, f);
      ReplaceNames(fields, f);
      SameNamesSameOrder(fields, Replace(fields, f));
    }
  }

  lemma {:induction false} AllFiltersStay(filters: seq<WhereItem>)
    requires NothingLost(filters) && InOrder(FieldsOf(filters))
    ensures ObjectOf(filters) == FieldsOf(filters)
  {
    if filters != [] {
      var front, last := filters[..|filters| - 1], filters[|filters| - 1];
      assert filters == front + [last];
      FieldsOneMore(front, last);
      InOrderAppend(FieldsOf(front), ItemField(last));
      NothingLostOneMore(front, last);
      AllFiltersStay(front);
      InsertAtEnd(FieldsOf(front), ItemField(last));
    }
  }

  /** The object of a mutation has one field for each filter, in their order, exactly when no two filters share a
      key, none is named `__proto__`, and array indices come first and ascend. */
  lemma ObjectIsAllFilters(filters: seq<WhereItem>)
    ensures ObjectOf(filters) == FieldsOf(filters) <==> NothingLost(filters) && InOrder(FieldsOf(filters))
  {
    ObjectShape(filters);
    ObjectIsOrdered(filters);
    if NothingLost(filters) && InOrder(FieldsOf(filters)) { AllFiltersStay(filters); }
  }

  predicate NoIndices(filters: seq<WhereItem>) { forall f <- filters :: !IsIndex(Key(f)) }

  lemma {:induction false} WithoutIndicesInOrder(filters: seq<WhereItem>)
    requires NoIndices(filters)
    ensures InOrder(FieldsOf(filters)) && forall g <- FieldsOf(filters) :: !IsIndex(g.name)
  {
    if filters != [] {
      assert filters[0] in filters;
      WithoutIndicesInOrder(filters[1..]);
      assert FieldsOf(filters)[1..] == FieldsOf(filters[1..]);
    }
  }

  lemma DistinctOneMore(front: seq<WhereItem>, last: WhereItem)
    ensures DistinctKeys(front + [last]) <==> DistinctKeys(front) && !HasKey(front, Key(last))
  {
    var filters := front + [last];
    if DistinctKeys(front) && !HasKey(front, Key(last)) {
      forall i, j | 0 <= i < j < |filters| ensures Key(filters[i]) != Key(filters[j]) {
        if j == |front| { assert front[i] in front; }
      }
    }
    if DistinctKeys(filters) {
      forall i, j | 0 <= i < j < |front| ensures Key(front[i]) != Key(front[j]) {
        assert front[i] == filters[i] && front[j] == filters[j];
      }
      forall i | 0 <= i < |front| ensures Key(front[i]) != Key(last) {
        assert filters[i] == front[i] && filters[|front|] == last;
      }
    }
  }

  /** A query and a mutation print the same condition exactly when no two filters share a column, there is at
      most one or-group (counting a column named `_or` as one), and no column is `__proto__`. */
  lemma PathsAgree(filters: seq<WhereItem>)
    requires filters != [] && NullTestsAreBoolean(filters) && NoIndices(filters)
    ensures WhereText(filters) == "where: " + SerializeObject(ObjectOf(filters)) <==> NothingLost(filters)
  {
    QueryPrintsEveryFilter(filters);
    TextsTellObjects(filters);
    WithoutIndicesInOrder(filters);
    ObjectIsAllFilters(filters);
    CancelPrefix("where: ", SerializeObject(FieldsOf(filters)), SerializeObject(ObjectOf(filters)));
  }

  lemma TextsTellObjects(filters: seq<WhereItem>)
    requires filters != []
    ensures SerializeObject(FieldsOf(filters)) == SerializeObject(ObjectOf(filters)) ==> NothingLost(filters)
  {
    ObjectShape(filters);
    TextLengthIsExact(FieldsOf(filters));
    if ObjectOf(filters) == [] {
      assert SerializeObject(ObjectOf(filters)) == "{}";
    } else {
      TextLengthIsExact(ObjectOf(filters));
    }
  }

  // ---------------------------------------------------------------- what the conditions mean

  /** Whether a row meets one comparison: column, operator, operand. */
  type Atom = (string, string, Value) -> bool

  predicate ConditionHolds(c: FilterItem, atom: Atom) { atom(c.column, c.op, c.value) }

  predicate ItemHolds(f: WhereItem, atom: Atom) {
    match f
    case One(c) => ConditionHolds(c, atom)
    case AnyOf(conditions) => exists c <- conditions :: ConditionHolds(c, atom)
  }

  /** A where object: all its fields hold. A list under `_or` holds when one of its objects does; any other
      field holds an object of operators, which all apply to the column. */
  predicate ObjectHolds(fields: seq<Field>, atom: Atom) { forall f <- fields :: FieldHolds(f, atom) }

  predicate FieldHolds(f: Field, atom: Atom) {
    match f.value
    case List(items) => f.name == "_or" && exists x <- items :: x.Obj? && ObjectHolds(x.fields, atom)
    case Obj(ops) => forall o <- ops :: atom(f.name, o.name, o.value)
    case _ => false
  }

  lemma ConditionFieldHolds(c: FilterItem, atom: Atom)
    ensures FieldHolds(ConditionField(c), atom) <==> ConditionHolds(c, atom)
  {
    var o := Field(c.op, c.value);
    assert o in [o];
  }

  lemma {:induction false} OrHolds(conditions: seq<FilterItem>, atom: Atom)
    ensures (exists x <- OrItems(conditions) :: x.Obj? && ObjectHolds(x.fields, atom))
       <==> exists c <- conditions :: ConditionHolds(c, atom)
  {
    if conditions != [] {
      var c, x := conditions[0], Obj([ConditionField(conditions[0])]);
      OrHolds(conditions[1..], atom);
      ConditionFieldHolds(c, atom);
      assert ConditionField(c) in x.fields;
      assert ObjectHolds(x.fields, atom) <==> ConditionHolds(c, atom);
      assert OrItems(conditions) == [x] + OrItems(conditions[1..]);
      assert conditions == [c] + conditions[1..];
    }
  }

  lemma ItemFieldHolds(f: WhereItem, atom: Atom)
    ensures FieldHolds(ItemField(f), atom) <==> ItemHolds(f, atom)
  {
    match f {
      case One(c) => ConditionFieldHolds(c, atom);
      case AnyOf(conditions) => OrHolds(conditions, atom);
    }
  }

  lemma {:induction false} EveryFieldHolds(filters: seq<WhereItem>, atom: Atom)
    ensures ObjectHolds(FieldsOf(filters), atom) <==> forall f <- filters :: ItemHolds(f, atom)
  {
    if filters != [] {
      ItemFieldHolds(filters[0], atom);
      EveryFieldHolds(filters[1..], atom);
      assert FieldsOf(filters) == [ItemField(filters[0])] + FieldsOf(filters[1..]);
      assert filters == [filters[0]] + filters[1..];
    }
  }

  /** Columns and operators are Names, operands are printable. */
  predicate Printable(c: FilterItem) { IsName(c.column) && IsName(c.op) && Named(c.value) && Source(c.value) }

  predicate ItemIsPrintable(f: WhereItem) {
    match f
    case One(c) => Printable(c)
    case AnyOf(conditions) => forall c <- conditions :: Printable(c)
  }

  lemma ConditionIsPrintable(c: FilterItem)
    requires Printable(c)
    ensures var v := ConditionField(c).value;
            Named(v) && Source(v) && Named(Obj([ConditionField(c)])) && Source(Obj([ConditionField(c)]))
  {
  }

  lemma {:induction false} OrItemsArePrintable(conditions: seq<FilterItem>)
    requires forall c <- conditions :: Printable(c)
    ensures forall x <- OrItems(conditions) :: Named(x) && Source(x)
  {
    if conditions != [] {
      assert conditions[0] in conditions;
      ConditionIsPrintable(conditions[0]);
      OrItemsArePrintable(conditions[1..]);
    }
  }

  lemma FieldIsPrintable(f: WhereItem)
    requires ItemIsPrintable(f)
    ensures var g := ItemField(f); IsName(g.name) && Named(g.value) && Source(g.value)
  {
    match f {
      case One(c) => ConditionIsPrintable(c);
      case AnyOf(conditions) =>
        OrItemsArePrintable(conditions);
        assert IsName("_or");
    }
  }

  lemma {:induction false} FieldsArePrintable(filters: seq<WhereItem>)
    requires forall f <- filters :: ItemIsPrintable(f)
    ensures forall g <- FieldsOf(filters) :: IsName(g.name) && Named(g.value) && Source(g.value)
  {
    if filters != [] {
      assert filters[0] in filters;
      FieldIsPrintable(filters[0]);
      FieldsArePrintable(filters[1..]);
    }
  }

  /** The query's where argument reads back as an object that denotes the conjunction of all filters. */
  lemma QueryDenotesConjunction(filters: seq<WhereItem>, atom: Atom)
    requires filters != [] && NullTestsAreBoolean(filters) && forall f <- filters :: ItemIsPrintable(f)
    ensures WhereText(filters) == "where: " + SerializeObject(FieldsOf(filters))
    ensures ReadValue(SerializeObject(FieldsOf(filters))) == Some((Obj(FieldsOf(filters)), ""))
    ensures ObjectHolds(FieldsOf(filters), atom) <==> forall f <- filters :: ItemHolds(f, atom)
  {
    QueryPrintsEveryFilter(filters);
    FieldsArePrintable(filters);
    SerializeRoundTrip(Obj(FieldsOf(filters)));
    EveryFieldHolds(filters, atom);
  }

  /** The filter assigns a property, and no later one assigns the same. */
  predicate Survives(filters: seq<WhereItem>, i: nat)
    requires i < |filters|
  {
    Key(filters[i]) != PROTOTYPE && forall j :: i < j < |filters| ==> Key(filters[j]) != Key(filters[i])
  }

  predicate HoldsBut(fields: seq<Field>, names: set<string>, atom: Atom) {
    forall g <- fields :: g.name in names || FieldHolds(g, atom)
  }

  predicate NamesDistinct(fields: seq<Field>) {
    fields == [] || (!HasName(fields[1..], fields[0].name) && NamesDistinct(fields[1..]))
  }

  lemma {:induction false} InsertKeepsDistinct(fields: seq<Field>, f: Field)
    requires NamesDistinct(fields) && !HasName(fields, f.name)
    ensures NamesDistinct(Insert(fields, f))
  {
    if fields == [] {
      assert [f][1..] == [];
    } else if Before(f.name, fields[0].name) {
      assert ([f] + fields)[1..] == fields;
    } else {
      InsertKeepsDistinct(fields[1..], f);
      NamesAfterInsert(fields[1..], f, fields[0].name);
      assert Insert(fields, f)[1..] == Insert(fields[1..], f);
    }
  }

  lemma {:induction false} ReplaceKeepsDistinct(fields: seq<Field>, f: Field)
    requires NamesDistinct(fields) && HasName(fields, f.name)
    ensures NamesDistinct(Replace(fields, f))
  {
    if fields[0].name == f.name {
      assert Replace(fields, f)[1..] == fields[1..];
    } else {
      ReplaceKeepsDistinct(fields[1..], f);
      NamesAfterReplace(fields[1..], f, fields[0].name);
      assert Replace(fields, f)[1..] == Replace(fields[1..], f);
    }
  }

  lemma {:induction false} NoSuchName(fields: seq<Field>, name: string)
    requires !HasName(fields, name)
    ensures forall g <- fields :: g.name != name
  {
    if fields != [] { NoSuchName(fields[1..], name); }
  }

  lemma {:induction false} ReplaceHolds(fields: seq<Field>, f: Field, names: set<string>, atom: Atom)
    requires NamesDistinct(fields) && HasName(fields, f.name)
    ensures HoldsBut(Replace(fields, f), names, atom)
       <==> (f.name in names || FieldHolds(f, atom)) && HoldsBut(fields, names + {f.name}, atom)
  {
    var rest := fields[1..];
    assert fields == [fields[0]] + rest;
    if fields[0].name == f.name { NoSuchName(rest, f.name); } else { ReplaceHolds(rest, f, names, atom); }
  }

  lemma InsertHolds(fields: seq<Field>, f: Field, names: set<string>, atom: Atom)
    requires !HasName(fields, f.name)
    ensures HoldsBut(Insert(fields, f), names, atom)
       <==> (f.name in names || FieldHolds(f, atom)) && HoldsBut(fields, names + {f.name}, atom)
  {
    NoSuchName(fields, f.name);
    forall g ensures g in Insert(fields, f) <==> g in fields || g == f { InsertHas(fields, f, g); }
  }

  lemma PutHolds(fields: seq<Field>, f: Field, names: set<string>, atom: Atom)
    requires NamesDistinct(fields) && f.name != PROTOTYPE
    ensures HoldsBut(Put(fields, f), names, atom)
       <==> (f.name in names || FieldHolds(f, atom)) && HoldsBut(fields, names + {f.name}, atom)
  {
    if HasName(fields, f.name) { ReplaceHolds(fields, f, names, atom); } else { InsertHolds(fields, f, names, atom); }
  }

  lemma {:induction false} ObjectIsDistinct(filters: seq<WhereItem>)
    ensures NamesDistinct(ObjectOf(filters))
  {
    if filters != [] {
      var fields, f := ObjectOf(filters[..|filters| - 1]), ItemField(filters[|filters| - 1]);
      ObjectIsDistinct(filters[..|filters| - 1]);
      if HasName(fields, f.name) { ReplaceKeepsDistinct(fields, f); } else { InsertKeepsDistinct(fields, f); }
    }
  }

  predicate SurvivorsHold(filters: seq<WhereItem>, names: set<string>, atom: Atom) {
    forall i :: 0 <= i < |filters| && Survives(filters, i) ==> Key(filters[i]) in names || ItemHolds(filters[i], atom)
  }

  lemma SurvivorsOneMore(front: seq<WhereItem>, last: WhereItem, names: set<string>, atom: Atom)
    requires Key(last) != PROTOTYPE
    ensures SurvivorsHold(front + [last], names, atom)
       <==> (Key(last) in names || ItemHolds(last, atom)) && SurvivorsHold(front, names + {Key(last)}, atom)
  {
    var filters := front + [last];
    var n := |front|;
    assert Survives(filters, n);
    forall i | 0 <= i < n ensures Survives(filters, i) <==> Survives(front, i) && Key(front[i]) != Key(last) {
      SurvivesOneMore(front, last, i);
    }
  }

  lemma SurvivesOneMore(front: seq<WhereItem>, last: WhereItem, i: nat)
    requires i < |front|
    ensures Survives(front + [last], i) <==> Survives(front, i) && Key(front[i]) != Key(last)
  {
    var filters := front + [last];
    assert filters[i] == front[i] && filters[|front|] == last;
    if Survives(filters, i) {
      forall j | i < j < |front| ensures Key(front[j]) != Key(front[i]) { assert filters[j] == front[j]; }
    }
  }

  lemma SurvivorsWithPrototype(front: seq<WhereItem>, last: WhereItem, names: set<string>, atom: Atom)
    requires Key(last) == PROTOTYPE
    ensures SurvivorsHold(front + [last], names, atom) <==> SurvivorsHold(front, names, atom)
  {
    var filters := front + [last];
    forall i | 0 <= i < |front| ensures Survives(filters, i) <==> Survives(front, i) {
      SurvivesOneMore(front, last, i);
    }
    forall i | 0 <= i < |front| ensures filters[i] == front[i] { }
  }

  lemma {:induction false} ObjectHoldsBut(filters: seq<WhereItem>, names: set<string>, atom: Atom)
    ensures HoldsBut(ObjectOf(filters), names, atom) <==> SurvivorsHold(filters, names, atom)
  {
    if filters != [] {
      var front, last := filters[..|filters| - 1], filters[|filters| - 1];
      assert filters == front + [last];
      if Key(last) == PROTOTYPE {
        ObjectHoldsBut(front, names, atom);
        SurvivorsWithPrototype(front, last, names, atom);
      } else {
        ObjectIsDistinct(front);
        PutHolds(ObjectOf(front), ItemField(last), names, atom);
        ItemFieldHolds(last, atom);
        ObjectHoldsBut(front, names + {Key(last)}, atom);
        SurvivorsOneMore(front, last, names, atom);
      }
    }
  }

  /** A mutation's condition is the conjunction of the last filter on each column (and the last or-group), but for
      a column `__proto__`: it never excludes a row that all filters accept, and it is all of them when each has a
      property of its own. */
  lemma MutationDenotesSurvivors(filters: seq<WhereItem>, atom: Atom)
    ensures ObjectHolds(ObjectOf(filters), atom)
       <==> forall i :: 0 <= i < |filters| && Survives(filters, i) ==> ItemHolds(filters[i], atom)
    ensures (forall f <- filters :: ItemHolds(f, atom)) ==> ObjectHolds(ObjectOf(filters), atom)
    ensures NothingLost(filters) ==>
              (ObjectHolds(ObjectOf(filters), atom) <==> forall f <- filters :: ItemHolds(f, atom))
  {
    ObjectHoldsBut(filters, {}, atom);
    if NothingLost(filters) {
      forall i | 0 <= i < |filters| ensures Survives(filters, i) { assert filters[i] in filters; }
    }
  }

  /** A filter on `__proto__` is lost, although that is a Name. */
  lemma PrototypeFilterIsLost(value: Value)
    ensures IsName(PROTOTYPE) && ObjectOf([One(FilterItem(PROTOTYPE, "_eq", value))]) == []
  {
    var filters := [One(FilterItem(PROTOTYPE, "_eq", value))];
    assert filters[..0] == [];
  }

  /** A lower and an upper bound on one column: the mutation keeps the upper bound only. */
  lemma RangeLosesItsLowerBound(low: Value, high: Value)
    ensures var filters := [One(FilterItem("age", "_gte", low)), One(FilterItem("age", "_lte", high))];
            ObjectOf(filters) == [Field("age", Obj([Field("_lte", high)]))]
  {
    var filters := [One(FilterItem("age", "_gte", low)), One(FilterItem("age", "_lte", high))];
    assert filters[..1] == [filters[0]] && filters[..1][..0] == [];
    assert ObjectOf(filters[..1]) == [ItemField(filters[0])];
  }
}

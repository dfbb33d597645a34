/**
 From snapshots to change events: diffAndEmit (packages/sdk/src/modules/realtime.ts). A row is its JSON
 text; `idOf` reads the scalar `id` of a row, None standing for null and undefined.
 */
module RealtimeDiff {
  import opened Wrappers

  type Row = string

  datatype Key = Text(s: string) | Scalar(n: int)

  type IdOf = Row -> Option<Key>

  datatype Filter = All | OnlyInsert | OnlyUpdate | OnlyDelete

  datatype Change = Insert(row: Row) | Update(row: Row, before: Row) | Delete(before: Row)

  /** `row.id ?? JSON.stringify(row)`. */
  function KeyOf(idOf: IdOf, row: Row): Key { idOf(row).GetOr(Text(row)) }

  /** A JavaScript Map built from the rows: the last row of a key counts. */
  function Keyed(idOf: IdOf, rows: seq<Row>): map<Key, Row> {
    if rows == [] then map[]
    else Keyed(idOf, rows[..|rows| - 1])[KeyOf(idOf, rows[|rows| - 1]) := rows[|rows| - 1]]
  }

  /** The iteration order of that Map: keys in the order of their first rows. */
  function Order(idOf: IdOf, rows: seq<Row>): seq<Key> {
    if rows == [] then []
    else
      var front := Order(idOf, rows[..|rows| - 1]);
      var k := KeyOf(idOf, rows[|rows| - 1]);
      if k in front then front else front + [k]
  }

  lemma {:induction false} KeyedByKey(idOf: IdOf, rows: seq<Row>)
    ensures forall k <- Keyed(idOf, rows) :: KeyOf(idOf, Keyed(idOf, rows)[k]) == k
  {
    if rows != [] { KeyedByKey(idOf, rows[..|rows| - 1]); }
  }

  lemma {:induction false} OrderIsKeys(idOf: IdOf, rows: seq<Row>)
    ensures Distinct(Order(idOf, rows))
    ensures forall k :: k in Order(idOf, rows) <==> k in Keyed(idOf, rows)
  {
    if rows != [] { OrderIsKeys(idOf, rows[..|rows| - 1]); }
  }

  predicate Distinct<T(==)>(s: seq<T>) { forall i, j :: 0 <= i < j < |s| ==> s[i] != s[j] }

  // ---------------------------------------------------------------- the three passes

  /** The changes of one pass over the entries of a Map, at most one for each key. */
  function Pass(keys: seq<Key>, change: Key -> Option<Change>): seq<Change> {
    if keys == [] then []
    else
      var c := change(keys[|keys| - 1]);
      Pass(keys[..|keys| - 1], change) + if c.Some? then [c.value] else []
  }

  function Inserted(was: map<Key, Row>, now: map<Key, Row>, filter: Filter): Key -> Option<Change> {
    (k: Key) => if k in now && k !in was && (filter == All || filter == OnlyInsert) then Some(Insert(now[k])) else None
  }

  function Updated(was: map<Key, Row>, now: map<Key, Row>, filter: Filter): Key -> Option<Change> {
    (k: Key) => if k in now && k in was && was[k] != now[k] && (filter == All || filter == OnlyUpdate)
                then Some(Update(now[k], was[k])) else None
  }

  function Deleted(was: map<Key, Row>, now: map<Key, Row>, filter: Filter): Key -> Option<Change> {
    (k: Key) => if k in was && k !in now && (filter == All || filter == OnlyDelete) then Some(Delete(was[k])) else None
  }

  function Diff(idOf: IdOf, oldRows: seq<Row>, newRows: seq<Row>, filter: Filter): seq<Change> {
    var was, now := Keyed(idOf, oldRows), Keyed(idOf, newRows);
    Pass(Order(idOf, newRows), Inserted(was, now, filter))
    + Pass(Order(idOf, newRows), Updated(was, now, filter))
    + Pass(Order(idOf, oldRows), Deleted(was, now, filter))
  }

  method EmitPass(keys: seq<Key>, change: Key -> Option<Change>) returns (events: seq<Change>)
    ensures events == Pass(keys, change)
  {
    events := [];
    for i := 0 to |keys|
      invariant events == Pass(keys[..i], change)
    {
      assert keys[..i + 1][..i] == keys[..i];
      var c := change(keys[i]);
      if c.Some? { events := events + [c.value]; }
    }
    assert keys[..|keys|] == keys;
  }

  /** diffAndEmit: three loops over the entries of the two Maps. */
  method DiffAndEmit(idOf: IdOf, oldRows: seq<Row>, newRows: seq<Row>, filter: Filter) returns (events: seq<Change>)
    ensures events == Diff(idOf, oldRows, newRows, filter)
  {
    var was, now := Keyed(idOf, oldRows), Keyed(idOf, newRows);
    var inserts := EmitPass(Order(idOf, newRows), Inserted(was, now, filter));
    var updates := EmitPass(Order(idOf, newRows), Updated(was, now, filter));
    var deletes := EmitPass(Order(idOf, oldRows), Deleted(was, now, filter));
    events := inserts + updates + deletes;
  }

  // ---------------------------------------------------------------- replay

  function ChangeKey(idOf: IdOf, c: Change): Key { KeyOf(idOf, if c.Delete? then c.before else c.row) }

  /** What a subscriber's copy of the table becomes. */
  function ApplyChange(idOf: IdOf, m: map<Key, Row>, c: Change): map<Key, Row> {
    if c.Delete? then m - {ChangeKey(idOf, c)} else m[ChangeKey(idOf, c) := c.row]
  }

  function Replay(idOf: IdOf, m: map<Key, Row>, events: seq<Change>): map<Key, Row> {
    if events == [] then m
    else ApplyChange(idOf, Replay(idOf, m, events[..|events| - 1]), events[|events| - 1])
  }

  lemma {:induction false} ReplayConcat(idOf: IdOf, m: map<Key, Row>, a: seq<Change>, b: seq<Change>)
    ensures Replay(idOf, m, a + b) == Replay(idOf, Replay(idOf, m, a), b)
    decreases |b|
  {
    if b == [] {
      assert a + b == a;
    } else {
      assert (a + b)[..|a + b| - 1] == a + b[..|b| - 1];
      ReplayConcat(idOf, m, a, b[..|b| - 1]);
    }
  }

  function Lookup(m: map<Key, Row>, k: Key): Option<Row> { if k in m then Some(m[k]) else None }

  lemma ReplayOne(idOf: IdOf, m: map<Key, Row>, events: seq<Change>, c: Change)
    ensures Replay(idOf, m, events + [c]) == ApplyChange(idOf, Replay(idOf, m, events), c)
  {
    assert (events + [c])[..|events|] == events;
  }

  /** What a change leaves at its key. */
  function RowLeft(c: Change): Option<Row> { if c.Delete? then None else Some(c.row) }

  lemma LookupApply(idOf: IdOf, m: map<Key, Row>, c: Change, k: Key)
    ensures Lookup(ApplyChange(idOf, m, c), k) == if ChangeKey(idOf, c) == k then RowLeft(c) else Lookup(m, k)
  {
  }

  /** A pass changes what a key maps to if and only if it has a change for that key. */
  lemma {:induction false} ReplayPass(idOf: IdOf, keys: seq<Key>, change: Key -> Option<Change>,
                                      m: map<Key, Row>, k: Key)
    requires forall x :: change(x).Some? ==> ChangeKey(idOf, change(x).value) == x
    ensures Lookup(Replay(idOf, m, Pass(keys, change)), k) ==
            if k in keys && change(k).Some? then RowLeft(change(k).value) else Lookup(m, k)
    decreases |keys|
  {
    if keys != [] {
      var front, last := keys[..|keys| - 1], keys[|keys| - 1];
      ReplayPass(idOf, front, change, m, k);
      assert k in keys <==> k in front || k == last by { assert keys == front + [last]; }
      if change(last).Some? {
        var c := change(last).value;
        ReplayOne(idOf, m, Pass(front, change), c);
        LookupApply(idOf, Replay(idOf, m, Pass(front, change)), c, k);
      } else {
        assert Pass(front, change) + [] == Pass(front, change);
      }
    }
  }

  /** The change that a diff of these two tables makes to one key. */
  lemma ReplayDiffAt(idOf: IdOf, newKeys: seq<Key>, oldKeys: seq<Key>, was: map<Key, Row>, now: map<Key, Row>, k: Key)
    requires forall x <- was :: KeyOf(idOf, was[x]) == x
    requires forall x <- now :: KeyOf(idOf, now[x]) == x
    requires (k in newKeys <==> k in now) && (k in oldKeys <==> k in was)
    ensures var m1 := Replay(idOf, was, Pass(newKeys, Inserted(was, now, All)));
            var m2 := Replay(idOf, m1, Pass(newKeys, Updated(was, now, All)));
            Lookup(Replay(idOf, m2, Pass(oldKeys, Deleted(was, now, All))), k) == Lookup(now, k)
  {
    var ins, upd, del := Inserted(was, now, All), Updated(was, now, All), Deleted(was, now, All);
    var m1 := Replay(idOf, was, Pass(newKeys, ins));
    var m2 := Replay(idOf, m1, Pass(newKeys, upd));
    ReplayPass(idOf, newKeys, ins, was, k);
    ReplayPass(idOf, newKeys, upd, m1, k);
    ReplayPass(idOf, oldKeys, del, m2, k);
  }

  lemma SameLookups(m: map<Key, Row>, n: map<Key, Row>)
    requires forall k :: Lookup(m, k) == Lookup(n, k)
    ensures m == n
  {
    forall k ensures k in m <==> k in n { assert Lookup(m, k) == Lookup(n, k); }
    forall k | k in m ensures m[k] == n[k] { assert Lookup(m, k) == Lookup(n, k); }
  }

  /** Replaying the `*` events of one diff over the old table gives exactly the new table. */
  lemma ReplayDiff(idOf: IdOf, oldRows: seq<Row>, newRows: seq<Row>)
    ensures Replay(idOf, Keyed(idOf, oldRows), Diff(idOf, oldRows, newRows, All)) == Keyed(idOf, newRows)
  {
    var was, now := Keyed(idOf, oldRows), Keyed(idOf, newRows);
    var newKeys, oldKeys := Order(idOf, newRows), Order(idOf, oldRows);
    var ins := Pass(newKeys, Inserted(was, now, All));
    var upd := Pass(newKeys, Updated(was, now, All));
    var del := Pass(oldKeys, Deleted(was, now, All));
    ReplayConcat(idOf, was, ins, upd);
    ReplayConcat(idOf, was, ins + upd, del);
    KeyedByKey(idOf, oldRows);
    KeyedByKey(idOf, newRows);
    OrderIsKeys(idOf, oldRows);
    OrderIsKeys(idOf, newRows);
    var result := Replay(idOf, Replay(idOf, Replay(idOf, was, ins), upd), del);
    forall k ensures Lookup(result, k) == Lookup(now, k) { ReplayDiffAt(idOf, newKeys, oldKeys, was, now, k); }
    SameLookups(result, now);
  }

  // ---------------------------------------------------------------- exactly the differences

  lemma {:induction false} PassIsExact(keys: seq<Key>, change: Key -> Option<Change>, c: Change)
    ensures c in Pass(keys, change) <==> exists k :: k in keys && change(k) == Some(c)
    decreases |keys|
  {
    if keys != [] {
      var front, last := keys[..|keys| - 1], keys[|keys| - 1];
      assert keys == front + [last];
      PassIsExact(front, change, c);
      if k :| k in keys && change(k) == Some(c) { assert k in front || k == last; }
    }
  }

  /** Which events a diff emits, by the two tables and the filter alone. */
  ghost predicate Expected(idOf: IdOf, was: map<Key, Row>, now: map<Key, Row>, filter: Filter, c: Change) {
    var k := ChangeKey(idOf, c);
    match c
    case Insert(row) => (filter == All || filter == OnlyInsert) && k !in was && k in now && now[k] == row
    case Update(row, before) =>
      && (filter == All || filter == OnlyUpdate)
      && k in was && k in now && was[k] == before && now[k] == row && before != row
    case Delete(before) => (filter == All || filter == OnlyDelete) && k in was && k !in now && was[k] == before
  }

  lemma InsertsAreExact(idOf: IdOf, newRows: seq<Row>, was: map<Key, Row>, filter: Filter, c: Change)
    ensures c in Pass(Order(idOf, newRows), Inserted(was, Keyed(idOf, newRows), filter))
       <==> c.Insert? && Expected(idOf, was, Keyed(idOf, newRows), filter, c)
  {
    var now, k := Keyed(idOf, newRows), ChangeKey(idOf, c);
    KeyedByKey(idOf, newRows);
    OrderIsKeys(idOf, newRows);
    PassIsExact(Order(idOf, newRows), Inserted(was, now, filter), c);
    if c.Insert? && Expected(idOf, was, now, filter, c) {
      assert k in Order(idOf, newRows) && Inserted(was, now, filter)(k) == Some(c);
    }
  }

  lemma UpdatesAreExact(idOf: IdOf, newRows: seq<Row>, was: map<Key, Row>, filter: Filter, c: Change)
    ensures c in Pass(Order(idOf, newRows), Updated(was, Keyed(idOf, newRows), filter))
       <==> c.Update? && Expected(idOf, was, Keyed(idOf, newRows), filter, c)
  {
    var now, k := Keyed(idOf, newRows), ChangeKey(idOf, c);
    KeyedByKey(idOf, newRows);
    OrderIsKeys(idOf, newRows);
    PassIsExact(Order(idOf, newRows), Updated(was, now, filter), c);
    if c.Update? && Expected(idOf, was, now, filter, c) {
      assert k in Order(idOf, newRows) && Updated(was, now, filter)(k) == Some(c);
    }
  }

  lemma DeletesAreExact(idOf: IdOf, oldRows: seq<Row>, now: map<Key, Row>, filter: Filter, c: Change)
    ensures c in Pass(Order(idOf, oldRows), Deleted(Keyed(idOf, oldRows), now, filter))
       <==> c.Delete? && Expected(idOf, Keyed(idOf, oldRows), now, filter, c)
  {
    var was, k := Keyed(idOf, oldRows), ChangeKey(idOf, c);
    KeyedByKey(idOf, oldRows);
    OrderIsKeys(idOf, oldRows);
    PassIsExact(Order(idOf, oldRows), Deleted(was, now, filter), c);
    if c.Delete? && Expected(idOf, was, now, filter, c) {
      assert k in Order(idOf, oldRows) && Deleted(was, now, filter)(k) == Some(c);
    }
  }

  lemma DiffIsExact(idOf: IdOf, oldRows: seq<Row>, newRows: seq<Row>, filter: Filter, c: Change)
    ensures c in Diff(idOf, oldRows, newRows, filter)
       <==> Expected(idOf, Keyed(idOf, oldRows), Keyed(idOf, newRows), filter, c)
  {
    InsertsAreExact(idOf, newRows, Keyed(idOf, oldRows), filter, c);
    UpdatesAreExact(idOf, newRows, Keyed(idOf, oldRows), filter, c);
    DeletesAreExact(idOf, oldRows, Keyed(idOf, newRows), filter, c);
  }

  // ---------------------------------------------------------------- a run of snapshots

  /** All events of a connection: the first snapshot is silent, each later one is compared with the one before. */
  function AllEvents(idOf: IdOf, snapshots: seq<seq<Row>>, filter: Filter): seq<Change> {
    if |snapshots| <= 1 then []
    else AllEvents(idOf, snapshots[..|snapshots| - 1], filter)
         + Diff(idOf, snapshots[|snapshots| - 2], snapshots[|snapshots| - 1], filter)
  }

  lemma AllEventsMore(idOf: IdOf, snapshots: seq<seq<Row>>, last: seq<Row>, filter: Filter)
    ensures AllEvents(idOf, snapshots + [last], filter)
         == if snapshots == [] then []
            else AllEvents(idOf, snapshots, filter) + Diff(idOf, snapshots[|snapshots| - 1], last, filter)
  {
    assert (snapshots + [last])[..|snapshots|] == snapshots;
  }

  lemma ReplayMore(idOf: IdOf, first: map<Key, Row>, events: seq<Change>, before: seq<Row>, last: seq<Row>)
    requires Replay(idOf, first, events) == Keyed(idOf, before)
    ensures Replay(idOf, first, events + Diff(idOf, before, last, All)) == Keyed(idOf, last)
  {
    ReplayConcat(idOf, first, events, Diff(idOf, before, last, All));
    ReplayDiff(idOf, before, last);
  }

  /** Over any run of snapshots, the events replayed from the first one give the last one. */
  lemma {:induction false} ReplayRun(idOf: IdOf, snapshots: seq<seq<Row>>)
    requires snapshots != []
    ensures Replay(idOf, Keyed(idOf, snapshots[0]), AllEvents(idOf, snapshots, All))
         == Keyed(idOf, snapshots[|snapshots| - 1])
    decreases |snapshots|
  {
    if |snapshots| > 1 {
      var front, before, last := snapshots[..|snapshots| - 1], snapshots[|snapshots| - 2], snapshots[|snapshots| - 1];
      assert front[0] == snapshots[0] && front[|front| - 1] == before;
      ReplayRun(idOf, front);
      ReplayMore(idOf, Keyed(idOf, snapshots[0]), AllEvents(idOf, front, All), before, last);
    }
  }

  // ---------------------------------------------------------------- one event a key

  predicate OneEach(idOf: IdOf, events: seq<Change>) {
    forall i, j :: 0 <= i < j < |events| ==> ChangeKey(idOf, events[i]) != ChangeKey(idOf, events[j])
  }

  lemma OneEachConcat(idOf: IdOf, a: seq<Change>, b: seq<Change>)
    requires OneEach(idOf, a) && OneEach(idOf, b)
    requires forall x <- a, y <- b :: ChangeKey(idOf, x) != ChangeKey(idOf, y)
    ensures OneEach(idOf, a + b)
  {
  }

  lemma {:induction false} OneEachPass(idOf: IdOf, keys: seq<Key>, change: Key -> Option<Change>)
    requires Distinct(keys)
    requires forall x :: change(x).Some? ==> ChangeKey(idOf, change(x).value) == x
    ensures OneEach(idOf, Pass(keys, change))
    ensures forall c <- Pass(keys, change) :: ChangeKey(idOf, c) in keys && change(ChangeKey(idOf, c)) == Some(c)
    decreases |keys|
  {
    if keys != [] {
      var front, last := keys[..|keys| - 1], keys[|keys| - 1];
      OneEachPass(idOf, front, change);
      if change(last).Some? { OneEachConcat(idOf, Pass(front, change), [change(last).value]); }
    }
  }

  /** A diff speaks of no key twice. */
  lemma OneEventPerKey(idOf: IdOf, oldRows: seq<Row>, newRows: seq<Row>, filter: Filter)
    ensures OneEach(idOf, Diff(idOf, oldRows, newRows, filter))
  {
    var was, now := Keyed(idOf, oldRows), Keyed(idOf, newRows);
    var ins, upd, del := Inserted(was, now, filter), Updated(was, now, filter), Deleted(was, now, filter);
    KeyedByKey(idOf, oldRows);
    KeyedByKey(idOf, newRows);
    OrderIsKeys(idOf, oldRows);
    OrderIsKeys(idOf, newRows);
    OneEachPass(idOf, Order(idOf, newRows), ins);
    OneEachPass(idOf, Order(idOf, newRows), upd);
    OneEachPass(idOf, Order(idOf, oldRows), del);
    OneEachConcat(idOf, Pass(Order(idOf, newRows), ins), Pass(Order(idOf, newRows), upd));
    OneEachConcat(idOf, Pass(Order(idOf, newRows), ins) + Pass(Order(idOf, newRows), upd),
                  Pass(Order(idOf, oldRows), del));
  }
}

/**
 The messages of one session of a realtime channel (packages/sdk/src/modules/realtime.ts): what a subscriber
 hears of a table among everything that is sent and told.
 */
module RealtimeSession {
  import opened Wrappers
  import opened RealtimeDiff
  import opened RealtimeWire

  /** The snapshots of a table among these messages. */
  function Snapshots(messages: seq<Message>, table: string): seq<seq<Row>> {
    if messages == [] then []
    else
      var last := messages[|messages| - 1];
      Seen(Snapshots(messages[..|messages| - 1], table), last, table)
  }

  function Seen(snapshots: seq<seq<Row>>, message: Message, table: string): seq<seq<Row>> {
    if message.Next? && message.table == table then snapshots + [message.rows] else snapshots
  }

  /** The changes of a table among these outputs. */
  function ChangesOf(outputs: seq<Output>, table: string): seq<Change> {
    if outputs == [] then []
    else
      var last := outputs[|outputs| - 1];
      ChangesOf(outputs[..|outputs| - 1], table) + if last.Changed? && last.table == table then [last.change] else []
  }

  lemma {:induction false} ChangesOfConcat(a: seq<Output>, b: seq<Output>, table: string)
    ensures ChangesOf(a + b, table) == ChangesOf(a, table) + ChangesOf(b, table)
    decreases |b|
  {
    if b == [] {
      assert a + b == a;
    } else {
      assert (a + b)[..|a + b| - 1] == a + b[..|b| - 1];
      ChangesOfConcat(a, b[..|b| - 1], table);
    }
  }

  function Changes(table: string, changes: seq<Change>): seq<Output> {
    if changes == [] then [] else Changes(table, changes[..|changes| - 1]) + [Changed(table, changes[|changes| - 1])]
  }

  lemma {:induction false} ChangesOfChanges(t: string, changes: seq<Change>, table: string)
    ensures ChangesOf(Changes(t, changes), table) == if t == table then changes else []
  {
    if changes != [] {
      ChangesOfChanges(t, changes[..|changes| - 1], table);
      assert Changes(t, changes)[..|Changes(t, changes)| - 1] == Changes(t, changes[..|changes| - 1]);
    }
  }

  lemma {:induction false} ChangesAreSteady(w: Wire, t: string, changes: seq<Change>)
    ensures Steady(w, Changes(t, changes))
  {
    if changes != [] { ChangesAreSteady(w, t, changes[..|changes| - 1]); }
  }

  function FindConfig(configs: seq<Config>, table: string): (r: Option<Config>)
    ensures r.None? <==> forall c <- configs :: c.table != table
    ensures r.Some? ==> r.value in configs && r.value.table == table
  {
    if configs == [] then None
    else if configs[0].table == table then Some(configs[0])
    else FindConfig(configs[1..], table)
  }

  /** What is sent and told on a message other than ack and error, over the snapshots so far. */
  function Reply(idOf: IdOf, configs: seq<Config>, m: map<string, seq<Row>>, socket: SocketId,
                 message: Message): seq<Output>
  {
    match message
    case Ping => [Pong(socket)]
    case Next(t, rows) =>
      var config := FindConfig(configs, t);
      if t in m && config.Some? then Changes(t, Diff(idOf, m[t], rows, config.value.filter)) else []
    case _ => []
  }

  /** The snapshots after it; a table without a configuration keeps its first one. */
  function Noted(configs: seq<Config>, m: map<string, seq<Row>>, message: Message): map<string, seq<Row>> {
    if message.Next? && (message.table in m ==> FindConfig(configs, message.table).Some?)
    then m[message.table := message.rows] else m
  }

  /** What a session has said of one table, and what it remembers of it. */
  ghost predicate Followed(idOf: IdOf, filter: Filter, seen: seq<seq<Row>>, said: seq<Change>,
                           m: map<string, seq<Row>>, table: string) {
    && said == AllEvents(idOf, seen, filter)
    && if seen == [] then table !in m else table in m && m[table] == seen[|seen| - 1]
  }

  /** What a session has sent, and the last snapshots of its tables. */
  datatype Session = Session(sent: seq<Output>, tables: map<string, seq<Row>>)

  ghost predicate Answers(idOf: IdOf, configs: seq<Config>, socket: SocketId, message: Message,
                          a: Session, b: Session)
  {
    && b.sent == a.sent + Reply(idOf, configs, a.tables, socket, message)
    && b.tables == Noted(configs, a.tables, message)
  }

  ghost predicate AnswersAt(idOf: IdOf, configs: seq<Config>, socket: SocketId, messages: seq<Message>,
                            run: seq<Session>, i: nat)
    requires i < |messages| < |run|
  {
    Answers(idOf, configs, socket, messages[i], run[i], run[i + 1])
  }

  /** A session after each of its messages. */
  ghost predicate IsSession(idOf: IdOf, configs: seq<Config>, socket: SocketId, messages: seq<Message>,
                            run: seq<Session>)
  {
    && |run| == |messages| + 1 && run[0].sent == []
    && forall i :: 0 <= i < |messages| ==> AnswersAt(idOf, configs, socket, messages, run, i)
  }

  lemma SessionMore(idOf: IdOf, configs: seq<Config>, socket: SocketId, messages: seq<Message>, run: seq<Session>,
                    message: Message, b: Session)
    requires IsSession(idOf, configs, socket, messages, run)
    requires Answers(idOf, configs, socket, message, run[|messages|], b)
    ensures IsSession(idOf, configs, socket, messages + [message], run + [b])
  {
    var more, extended := messages + [message], run + [b];
    assert AnswersAt(idOf, configs, socket, more, extended, |messages|);
    forall i | 0 <= i < |messages| ensures AnswersAt(idOf, configs, socket, more, extended, i) {
      assert AnswersAt(idOf, configs, socket, messages, run, i);
    }
  }

  lemma SessionBefore(idOf: IdOf, configs: seq<Config>, socket: SocketId, messages: seq<Message>,
                      run: seq<Session>, n: nat)
    requires IsSession(idOf, configs, socket, messages, run) && n < |messages|
    ensures IsSession(idOf, configs, socket, messages[..n], run[..n + 1])
    ensures Answers(idOf, configs, socket, messages[n], run[n], run[n + 1])
  {
    assert AnswersAt(idOf, configs, socket, messages, run, n);
    var front, past := messages[..n], run[..n + 1];
    forall i | 0 <= i < n ensures AnswersAt(idOf, configs, socket, front, past, i) {
      assert AnswersAt(idOf, configs, socket, messages, run, i);
    }
  }

  lemma ReplyElsewhere(idOf: IdOf, configs: seq<Config>, m: map<string, seq<Row>>, socket: SocketId,
                       message: Message, table: string)
    requires !message.Next? || message.table != table
    ensures ChangesOf(Reply(idOf, configs, m, socket, message), table) == []
  {
    if message.Next? {
      var config := FindConfig(configs, message.table);
      if message.table in m && config.Some? {
        ChangesOfChanges(message.table, Diff(idOf, m[message.table], message.rows, config.value.filter), table);
      }
    }
  }

  lemma FollowedOther(idOf: IdOf, configs: seq<Config>, socket: SocketId, message: Message, table: string,
                      filter: Filter, seen: seq<seq<Row>>, a: Session, b: Session)
    requires (!message.Next? || message.table != table) && Answers(idOf, configs, socket, message, a, b)
    requires Followed(idOf, filter, seen, ChangesOf(a.sent, table), a.tables, table)
    ensures Followed(idOf, filter, seen, ChangesOf(b.sent, table), b.tables, table)
  {
    ChangesOfConcat(a.sent, Reply(idOf, configs, a.tables, socket, message), table);
    ReplyElsewhere(idOf, configs, a.tables, socket, message, table);
  }

  lemma FollowedNext(idOf: IdOf, configs: seq<Config>, socket: SocketId, message: Message,
                     filter: Filter, seen: seq<seq<Row>>, a: Session, b: Session)
    requires message.Next? && FindConfig(configs, message.table) == Some(Config(message.table, filter))
    requires Answers(idOf, configs, socket, message, a, b)
    requires Followed(idOf, filter, seen, ChangesOf(a.sent, message.table), a.tables, message.table)
    ensures Followed(idOf, filter, seen + [message.rows], ChangesOf(b.sent, message.table), b.tables, message.table)
  {
    var t := message.table;
    ChangesOfConcat(a.sent, Reply(idOf, configs, a.tables, socket, message), t);
    AllEventsMore(idOf, seen, message.rows, filter);
    if t in a.tables { ChangesOfChanges(t, Diff(idOf, a.tables[t], message.rows, filter), t); }
  }

  lemma FollowedOne(idOf: IdOf, configs: seq<Config>, socket: SocketId, message: Message, table: string,
                    filter: Filter, seen: seq<seq<Row>>, a: Session, b: Session)
    requires FindConfig(configs, table) == Some(Config(table, filter))
    requires Answers(idOf, configs, socket, message, a, b)
    requires Followed(idOf, filter, seen, ChangesOf(a.sent, table), a.tables, table)
    ensures Followed(idOf, filter, Seen(seen, message, table), ChangesOf(b.sent, table), b.tables, table)
  {
    if message.Next? && message.table == table {
      FollowedNext(idOf, configs, socket, message, filter, seen, a, b);
    } else {
      FollowedOther(idOf, configs, socket, message, table, filter, seen, a, b);
    }
  }

  /** What a subscriber hears of a table is the events of all its snapshots, whatever comes in between. */
  lemma {:induction false} FollowedAll(idOf: IdOf, configs: seq<Config>, socket: SocketId, messages: seq<Message>,
                                       run: seq<Session>, table: string, filter: Filter)
    requires IsSession(idOf, configs, socket, messages, run)
    requires table !in run[0].tables && FindConfig(configs, table) == Some(Config(table, filter))
    ensures var last := run[|messages|];
            Followed(idOf, filter, Snapshots(messages, table), ChangesOf(last.sent, table), last.tables, table)
    decreases |messages|
  {
    if messages != [] {
      var n := |messages| - 1;
      SessionBefore(idOf, configs, socket, messages, run, n);
      FollowedAll(idOf, configs, socket, messages[..n], run[..n + 1], table, filter);
      var seen := Snapshots(messages[..n], table);
      FollowedOne(idOf, configs, socket, messages[n], table, filter, seen, run[n], run[n + 1]);
    }
  }
}

/**
 What goes over the wire between a realtime channel (packages/sdk/src/modules/realtime.ts) and the other
 side, and what a history of it means: which socket is open, and under whose token.
 */
module RealtimeWire {
  import opened Wrappers
  import opened RealtimeDiff

  type SocketId = nat

  datatype Config = Config(table: string, filter: Filter)

  datatype ChannelStatus = Connecting | Subscribed | Reconnecting | ChannelError | Closed

  datatype TokenResult = Granted(urlValid: bool) | Refused(retryable: bool)

  datatype Message = Garbage | Ping | Ack | ErrorMessage | Next(table: string, rows: seq<Row>) | Other

  /** What happens between the channel and the outside, with the epoch of the token that is used and the
      epoch it is used in. `Lost` is a close from the other side. */
  datatype Output =
    | Emit(status: ChannelStatus)
    | Open(socket: SocketId, token: nat, at: nat)
    | Init(socket: SocketId, token: nat, at: nat)
    | Subscribe(socket: SocketId, id: nat, token: nat, at: nat)
    | Complete(socket: SocketId, id: nat)
    | Pong(socket: SocketId)
    | Close(socket: SocketId)
    | Lost(socket: SocketId)
    | Changed(table: string, change: Change)

  // ---------------------------------------------------------------- what a history means for the wire

  /** No socket is open, or one is, with the epoch of its token; `created` sockets have been created, and are
      numbered from 0. `Broken` is a history that must not happen. */
  datatype Wire = Down(created: nat) | Up(socket: SocketId, token: nat, created: nat) | Broken

  /** A socket is opened only while none is open, under a fresh number and a token of the current epoch; it is
      closed once, by either side; frames go out on the open socket only, under its own, current token. */
  function After(w: Wire, o: Output): Wire {
    match o
    case Open(s, token, at) => if w.Down? && s == w.created && token == at then Up(s, token, s + 1) else Broken
    case Init(s, token, at) => if w.Up? && s == w.socket && token == w.token == at then w else Broken
    case Subscribe(s, _, token, at) => if w.Up? && s == w.socket && token == w.token == at then w else Broken
    case Complete(s, _) => if w.Up? && s == w.socket then w else Broken
    case Pong(s) => if w.Up? && s == w.socket then w else Broken
    case Close(s) => if w.Up? && s == w.socket then Down(w.created) else Broken
    case Lost(s) => if w.Up? && s == w.socket then Down(w.created) else Broken
    case Emit(_) => w
    case Changed(_, _) => w
  }

  /** The wire before and after each entry of the history. */
  ghost predicate IsTrace(trace: seq<Wire>, log: seq<Output>) {
    && |trace| == |log| + 1 && trace[0] == Down(0)
    && forall i :: 0 <= i < |log| ==> trace[i + 1] == After(trace[i], log[i])
  }

  ghost predicate LeadsTo(log: seq<Output>, w: Wire) {
    exists trace :: IsTrace(trace, log) && trace[|log|] == w
  }

  lemma NothingYet()
    ensures LeadsTo([], Down(0))
  {
    assert IsTrace([Down(0)], []);
  }

  lemma LeadsOne(log: seq<Output>, w: Wire, o: Output)
    requires LeadsTo(log, w)
    ensures LeadsTo(log + [o], After(w, o))
  {
    var trace :| IsTrace(trace, log) && trace[|log|] == w;
    assert IsTrace(trace + [After(w, o)], log + [o]);
  }

  /** None of these changes what is open. */
  predicate Steady(w: Wire, more: seq<Output>) { forall o <- more :: After(w, o) == w }

  lemma {:induction false} LeadsSteady(log: seq<Output>, w: Wire, more: seq<Output>)
    requires LeadsTo(log, w) && Steady(w, more)
    ensures LeadsTo(log + more, w)
    decreases |more|
  {
    if more == [] {
      assert log + more == log;
    } else {
      var front, last := more[..|more| - 1], more[|more| - 1];
      LeadsSteady(log, w, front);
      LeadsOne(log + front, w, last);
      assert log + more == (log + front) + [last];
    }
  }

  /** A token goes out only in the epoch in which its request began. */
  predicate Current(o: Output) {
    match o
    case Open(_, token, at) => token == at
    case Init(_, token, at) => token == at
    case Subscribe(_, _, token, at) => token == at
    case _ => true
  }

  predicate AllCurrent(log: seq<Output>) { forall o <- log :: Current(o) }

  /** The socket opened at `i` is closed later, by either side. */
  ghost predicate ClosedAfter(log: seq<Output>, i: nat, socket: SocketId) {
    exists j :: i < j < |log| && (log[j] == Close(socket) || log[j] == Lost(socket))
  }

  /** Every socket that was ever opened has been closed since, or is the one that is up. */
  ghost predicate AllClosedBut(log: seq<Output>, current: Option<SocketId>) {
    forall i :: 0 <= i < |log| && log[i].Open? ==> current == Some(log[i].socket) || ClosedAfter(log, i, log[i].socket)
  }

  function UpSocket(w: Wire): Option<SocketId> { if w.Up? then Some(w.socket) else None }

  /** An unbroken history accounts for every socket, and never shows an old token. */
  lemma {:induction false} TraceMeans(trace: seq<Wire>, log: seq<Output>)
    requires IsTrace(trace, log) && trace[|log|] != Broken
    ensures AllCurrent(log) && AllClosedBut(log, UpSocket(trace[|log|]))
    decreases |log|
  {
    if log != [] {
      var n := |log| - 1;
      var front, last, w := log[..n], log[n], trace[n];
      assert log == front + [last] && trace[n + 1] == After(w, last);
      TraceMeans(trace[..n + 1], front);
      forall i | 0 <= i < |log| && log[i].Open?
        ensures UpSocket(After(w, last)) == Some(log[i].socket) || ClosedAfter(log, i, log[i].socket)
      {
        if i < n { StaysClosed(front, last, w, i); }
      }
    }
  }

  lemma LeadsMeans(log: seq<Output>, w: Wire)
    requires LeadsTo(log, w) && w != Broken
    ensures AllCurrent(log) && AllClosedBut(log, UpSocket(w))
  {
    var trace :| IsTrace(trace, log) && trace[|log|] == w;
    TraceMeans(trace, log);
  }

  /** What is up stays up until it is closed. */
  lemma StaysUp(w: Wire, o: Output)
    requires w.Up? && After(w, o) != Broken
    ensures UpSocket(After(w, o)) == Some(w.socket) || o == Close(w.socket) || o == Lost(w.socket)
  {
  }

  lemma StaysClosed(front: seq<Output>, last: Output, w: Wire, i: nat)
    requires i < |front| && front[i].Open? && After(w, last) != Broken
    requires UpSocket(w) == Some(front[i].socket) || ClosedAfter(front, i, front[i].socket)
    ensures UpSocket(After(w, last)) == Some(front[i].socket) || ClosedAfter(front + [last], i, front[i].socket)
  {
    var log, s := front + [last], front[i].socket;
    if ClosedAfter(front, i, s) {
      var j :| i < j < |front| && (front[j] == Close(s) || front[j] == Lost(s));
      assert log[j] == front[j];
    } else {
      StaysUp(w, last);
      assert log[|front|] == last;
    }
  }
}

/**
 The realtime channel (packages/sdk/src/modules/realtime.ts): its fields, and one method for every call,
 timer, token response and socket event. A handler runs to its end before the next one starts; the events
 may come in any order, stale ones included, with whatever generation and socket they captured.

 `log` is everything the channel ever did to the outside, and what the other side did to its sockets;
 `LeadsTo` is what such a history means for the wire. `epoch` counts identity changes, `requestEpoch` remembers
 in which epoch each token request began, and `handles` are the lifecycles that subscribe has given away.
 `pending` are the requests whose provider has not answered, `settling` those that were answered and whose
 `finally` has not run yet; the JavaScript event loop runs it before any timer or socket event.
 */
module RealtimeChannel {
  import opened Wrappers
  import opened RealtimeDiff
  import opened RealtimeWire
  import opened RealtimeSession

  predicate AtMost(keys: set<nat>, bound: int) { forall k <- keys :: k <= bound }

  predicate Ascending(s: seq<nat>) { forall i, j :: 0 <= i < j < |s| ==> s[i] < s[j] }

  lemma AscendingMore(s: seq<nat>, n: nat)
    requires Ascending(s) && (s != [] ==> s[|s| - 1] < n)
    ensures Ascending(s + [n]) && n !in s
  {
  }

  predicate Extends(m: map<nat, nat>, m': map<nat, nat>) { forall k <- m :: k in m' && m'[k] == m[k] }

  /** The current request began under the current identity. */
  predicate RequestFresh(requestEpoch: map<nat, nat>, current: nat, epoch: nat) {
    AtMost(requestEpoch.Keys, current) && (current in requestEpoch ==> requestEpoch[current] == epoch)
  }

  /** Requests that were neither answered nor finished are known; the one that is waited for is among them. */
  predicate RequestsKnown(pending: set<nat>, settling: set<nat>, begun: set<nat>, request: Option<nat>, current: nat) {
    && pending <= begun
    && (request.Some? ==> request.value == current && current in begun && (current in pending || current in settling))
  }

  /** No two handles are alike, and only the last one can belong to an active lifecycle. */
  predicate HandlesFit(handles: seq<nat>, lifecycle: nat, active: bool) {
    && Ascending(handles)
    && (handles != [] ==> handles[|handles| - 1] <= lifecycle)
    && (active ==> handles != [] && handles[|handles| - 1] == lifecycle)
  }

  datatype View = View(subscribed: bool, ws: Option<SocketId>, tokenRequest: Option<nat>, reconnectTimer: bool,
                       retryHalted: bool, tables: map<string, seq<Row>>, log: seq<Output>)

  class Channel {
    const idOf: IdOf

    var configs: seq<Config>
    var ws: Option<SocketId>
    var snapshot: map<string, seq<Row>>
    var operationCounter: nat
    var generation: nat
    var lifecycleGeneration: nat
    var subscribed: bool
    var disposed: bool
    var retryHalted: bool
    var reconnectAttempt: nat
    var reconnectTimer: bool
    var ackTimer: bool
    var renewalTimer: bool
    var expiryTimer: bool
    var tokenRequest: Option<nat>
    var tokenRequestGeneration: nat
    var hasCallback: bool
    var activeOperationIds: seq<nat>
    var nextSocket: SocketId

    // the event loop's part: outstanding provider calls and `finally` callbacks that are due
    var pending: set<nat>
    var settling: set<nat>

    ghost var epoch: nat
    ghost var socketToken: nat
    ghost var requestEpoch: map<nat, nat>
    ghost var handles: seq<nat>
    ghost var log: seq<Output>

    // ---------------------------------------------------------------- the invariant

    /** The socket that should be open, if any. */
    ghost function OnWire(): Wire
      reads `ws, `socketToken, `nextSocket
    {
      if ws.Some? then Up(ws.value, socketToken, nextSocket) else Down(nextSocket)
    }

    /** The history is unbroken: what is open is the current socket, under a token of the current identity. */
    ghost predicate WireFits()
      reads `log, `ws, `socketToken, `nextSocket, `epoch
    {
      LeadsTo(log, OnWire()) && (ws.Some? ==> socketToken == epoch)
    }

    /** The past is never rewritten. */
    twostate predicate Onward()
      reads this
    {
      && old(log) <= log && old(handles) <= handles
      && lifecycleGeneration >= old(lifecycleGeneration) && epoch >= old(epoch)
      && Extends(old(requestEpoch), requestEpoch)
    }

    /** A subscribed channel that has not given up waits for something that will happen. */
    ghost predicate NeverStuck()
      reads `subscribed, `retryHalted, `ws, `reconnectTimer, `tokenRequest, `pending
    {
      subscribed && !retryHalted ==>
        ws.Some? || reconnectTimer || (tokenRequest.Some? && tokenRequest.value in pending)
    }

    /** Nothing that could wake the channel up. */
    ghost predicate Idle()
      reads `ws, `tokenRequest, `tokenRequestGeneration, `requestEpoch,
            `reconnectTimer, `ackTimer, `renewalTimer, `expiryTimer
    {
      && ws == None && tokenRequest == None && tokenRequestGeneration !in requestEpoch
      && !reconnectTimer && !ackTimer && !renewalTimer && !expiryTimer
    }

    /** An unsubscribed channel is idle and tells nobody. */
    ghost predicate QuietWhenUnsubscribed()
      reads `subscribed, `disposed, `hasCallback, `ws, `tokenRequest, `tokenRequestGeneration, `requestEpoch,
            `reconnectTimer, `ackTimer, `renewalTimer, `expiryTimer
    {
      && (disposed ==> !subscribed)
      && (!subscribed ==> Idle() && !hasCallback)
    }

    ghost predicate BooksButQuiet()
      reads this
    {
      && RequestFresh(requestEpoch, tokenRequestGeneration, epoch)
      && RequestsKnown(pending, settling, requestEpoch.Keys, tokenRequest, tokenRequestGeneration)
      && HandlesFit(handles, lifecycleGeneration, subscribed)
    }

    /** The part of the invariant that does not look at the history. */
    ghost predicate BooksFit()
      reads this
    {
      BooksButQuiet() && QuietWhenUnsubscribed()
    }

    /** What holds at every step within a handler. */
    ghost predicate Consistent()
      reads this
    {
      WireFits() && BooksFit()
    }

    ghost predicate Valid()
      reads this
    {
      Consistent() && NeverStuck()
    }

    constructor (idOf: IdOf)
      ensures Valid() && !subscribed && !disposed && configs == [] && epoch == 0 && log == [] && handles == []
    {
      this.idOf, configs := idOf, [];
      ws, snapshot, operationCounter, generation, lifecycleGeneration := None, map[], 0, 0, 0;
      subscribed, disposed, retryHalted, reconnectAttempt := false, false, false, 0;
      reconnectTimer, ackTimer, renewalTimer, expiryTimer := false, false, false, false;
      tokenRequest, tokenRequestGeneration, hasCallback, activeOperationIds, nextSocket := None, 0, false, [], 0;
      epoch, requestEpoch, socketToken, pending, settling, handles, log := 0, map[], 0, {}, {}, [], [];
      NothingYet();
    }

    // ---------------------------------------------------------------- pieces

    predicate IsSocketCurrent(gen: nat, socket: SocketId)
      reads this
    {
      subscribed && !disposed && gen == generation && ws == Some(socket)
    }

    predicate IsTokenRequestCurrent(gen: nat)
      reads this
    {
      subscribed && !disposed && gen == tokenRequestGeneration
    }

    method EmitStatus(status: ChannelStatus)
      requires WireFits()
      modifies `log
      ensures WireFits() && log == old(log) + Told(hasCallback, status)
    {
      LeadsOne(log, OnWire(), Emit(status));
      if hasCallback { log := log + [Emit(status)]; }
    }

    method ClearSocketTimers()
      modifies `ackTimer, `renewalTimer, `expiryTimer
      ensures !ackTimer && !renewalTimer && !expiryTimer
    {
      ackTimer, renewalTimer, expiryTimer := false, false, false;
    }

    method InvalidateTokenRequest()
      modifies `tokenRequestGeneration, `tokenRequest
      ensures tokenRequest == None && tokenRequestGeneration == old(tokenRequestGeneration) + 1
    {
      tokenRequestGeneration := tokenRequestGeneration + 1;
      tokenRequest := None;
    }

    /** Completes the recorded operations on the socket. */
    method SendCompletes(socket: SocketId, ghost w: Wire)
      requires LeadsTo(log, w) && w.Up? && w.socket == socket
      modifies `log
      ensures LeadsTo(log, w) && log == old(log) + Completions(socket, activeOperationIds)
    {
      for i := 0 to |activeOperationIds|
        invariant LeadsTo(log, w) && log == old(log) + Completions(socket, activeOperationIds[..i])
      {
        assert activeOperationIds[..i + 1][..i] == activeOperationIds[..i];
        LeadsOne(log, w, Complete(socket, activeOperationIds[i]));
        log := log + [Complete(socket, activeOperationIds[i])];
      }
      assert activeOperationIds[..|activeOperationIds|] == activeOperationIds;
    }

    /** Closes the current socket, if there is one; on request it first completes its operations. */
    method InvalidateActiveSocket(sendComplete: bool)
      requires WireFits()
      modifies `generation, `ws, `ackTimer, `renewalTimer, `expiryTimer, `activeOperationIds, `log
      ensures WireFits() && ws == None && generation == old(generation) + 1
      ensures !ackTimer && !renewalTimer && !expiryTimer
      ensures log == old(log) + Closing(old(ws), if sendComplete then old(activeOperationIds) else [])
      ensures activeOperationIds == if old(ws).Some? then [] else old(activeOperationIds)
    {
      var socket := ws;
      ghost var w := OnWire();
      generation := generation + 1;
      ws := None;
      ClearSocketTimers();
      if socket.None? { return; }
      if sendComplete { SendCompletes(socket.value, w); }
      activeOperationIds := [];
      LeadsOne(log, w, Close(socket.value));
      log := log + [Close(socket.value)];
    }

    /** What stopping, disposing and an identity change share: no request, no timer and no socket is left. */
    method Release(sendComplete: bool)
      requires WireFits() && RequestFresh(requestEpoch, tokenRequestGeneration, epoch)
      modifies `tokenRequestGeneration, `tokenRequest, `reconnectTimer, `generation, `ws, `ackTimer, `renewalTimer,
               `expiryTimer, `activeOperationIds, `log
      ensures WireFits() && RequestFresh(requestEpoch, tokenRequestGeneration, epoch) && Idle()
      ensures log == old(log) + Closing(old(ws), if sendComplete then old(activeOperationIds) else [])
    {
      InvalidateTokenRequest();
      ClearSocketTimers();
      reconnectTimer := false;
      InvalidateActiveSocket(sendComplete);
    }

    static function Completions(socket: SocketId, ids: seq<nat>): seq<Output> {
      if ids == [] then [] else Completions(socket, ids[..|ids| - 1]) + [Complete(socket, ids[|ids| - 1])]
    }

    /** What is sent when the socket goes, if there is one: a complete for each id, and the close. */
    static function Closing(ws: Option<SocketId>, ids: seq<nat>): seq<Output> {
      match ws
      case None => []
      case Some(socket) => Completions(socket, ids) + [Close(socket)]
    }

    /** A status, if anybody listens. */
    static function Told(listening: bool, status: ChannelStatus): seq<Output> {
      if listening then [Emit(status)] else []
    }

    /** startConnection: at most one request at a time; the provider is called at once. */
    method StartConnection()
      requires Consistent()
      modifies `tokenRequestGeneration, `tokenRequest, `requestEpoch, `pending
      ensures Consistent()
      ensures if !subscribed || disposed || retryHalted || old(tokenRequest).Some?
              then tokenRequest == old(tokenRequest) && tokenRequestGeneration == old(tokenRequestGeneration)
                   && requestEpoch == old(requestEpoch) && pending == old(pending)
              else && tokenRequestGeneration == old(tokenRequestGeneration) + 1
                   && tokenRequest == Some(tokenRequestGeneration)
                   && requestEpoch == old(requestEpoch)[tokenRequestGeneration := epoch]
                   && pending == old(pending) + {tokenRequestGeneration}
    {
      if !subscribed || disposed || retryHalted || tokenRequest.Some? { return; }
      tokenRequestGeneration := tokenRequestGeneration + 1;
      tokenRequest := Some(tokenRequestGeneration);
      requestEpoch := requestEpoch[tokenRequestGeneration := epoch];
      pending := pending + {tokenRequestGeneration};
    }

    /** scheduleReconnect: afterwards the channel waits for its timer, unless it has given up. */
    method ScheduleReconnect()
      requires Consistent()
      modifies `reconnectAttempt, `reconnectTimer, `log
      ensures Valid()
      ensures if !subscribed || disposed || retryHalted || old(reconnectTimer)
              then reconnectTimer == old(reconnectTimer) && log == old(log) && reconnectAttempt == old(reconnectAttempt)
              else && reconnectTimer && reconnectAttempt == old(reconnectAttempt) + 1
                   && log == old(log) + Told(hasCallback, Reconnecting)
    {
      if !subscribed || disposed || retryHalted || reconnectTimer { return; }
      reconnectAttempt := reconnectAttempt + 1;
      EmitStatus(Reconnecting);
      reconnectTimer := true;
    }

    /** The socket has failed: it is closed without completes, and another try is scheduled. */
    method Retry()
      requires Valid() && subscribed
      modifies this
      ensures Valid() && Onward() && epoch == old(epoch) && ws == None
      ensures old(log) + Closing(old(ws), []) <= log
    {
      DropSocket(false);
      ScheduleReconnect();
    }

    /** The end of retries: a status, and no socket. */
    method HaltRetries()
      requires Consistent() && subscribed
      modifies this
      ensures Valid() && Onward() && unchanged(`epoch, `tokenRequest, `pending, `settling, `requestEpoch)
      ensures retryHalted && ws == None
      ensures log == old(log) + Closing(old(ws), old(activeOperationIds)) + Told(old(hasCallback), ChannelError)
    {
      DropSocket(true);
      retryHalted := true;
      EmitStatus(ChannelError);
    }

    /** A subscribed channel loses its socket, and nothing else. */
    method DropSocket(sendComplete: bool)
      requires Consistent() && subscribed
      modifies this
      ensures Consistent() && Onward() && ws == None
      ensures unchanged(`subscribed, `disposed, `hasCallback, `retryHalted, `reconnectTimer, `reconnectAttempt)
      ensures unchanged(`epoch, `tokenRequest, `tokenRequestGeneration, `pending, `settling, `requestEpoch)
      ensures log == old(log) + Closing(old(ws), if sendComplete then old(activeOperationIds) else [])
    {
      InvalidateActiveSocket(sendComplete);
    }

    /** The first status of a connection, and its request. */
    method Connect()
      requires Consistent() && subscribed && !disposed && !retryHalted && tokenRequest == None
      modifies `log, `tokenRequestGeneration, `tokenRequest, `requestEpoch, `pending
      ensures Valid() && Extends(old(requestEpoch), requestEpoch)
      ensures tokenRequest.Some? && tokenRequest.value in pending && tokenRequest.value !in old(requestEpoch)
      ensures tokenRequest.value in requestEpoch && requestEpoch[tokenRequest.value] == epoch
      ensures log == old(log) + Told(hasCallback, Connecting)
    {
      EmitStatus(Connecting);
      StartConnection();
    }

    // ---------------------------------------------------------------- calls

    /** on: throws on a removed channel; an active one uses the configuration from its next ack on. */
    method On(config: Config) returns (ok: bool)
      requires Valid()
      modifies `configs
      ensures Valid() && (ok <==> !disposed)
      ensures configs == if ok then old(configs) + [config] else old(configs)
    {
      if disposed { return false; }
      configs := configs + [config];
      return true;
    }

    /** subscribe: None is the error for a removed or an active channel; otherwise the lifecycle that the
        returned handle belongs to, which no earlier handle shares. */
    method Subscribe(withCallback: bool) returns (lifecycle: Option<nat>)
      requires Valid()
      modifies this
      ensures Valid()
      ensures lifecycle == None <==> old(disposed || subscribed)
      ensures lifecycle == None ==> unchanged(this)
      ensures Onward() && epoch == old(epoch)
      ensures lifecycle.Some? ==>
                && lifecycle == Some(lifecycleGeneration) && handles == old(handles) + [lifecycleGeneration]
                && lifecycleGeneration !in old(handles) && log == old(log) + Told(hasCallback, Connecting)
                && subscribed && !retryHalted
                && tokenRequest.Some? && tokenRequest.value in pending && requestEpoch[tokenRequest.value] == epoch
    {
      if disposed || subscribed { return None; }
      Activate(withCallback);
      Connect();
      return Some(lifecycleGeneration);
    }

    /** subscribe up to its first status. */
    method Activate(withCallback: bool)
      requires Valid() && !disposed && !subscribed
      modifies `subscribed, `retryHalted, `reconnectAttempt, `lifecycleGeneration, `handles, `hasCallback
      ensures Consistent() && subscribed && !retryHalted && hasCallback == withCallback
      ensures lifecycleGeneration == old(lifecycleGeneration) + 1
      ensures handles == old(handles) + [lifecycleGeneration] && lifecycleGeneration !in old(handles)
    {
      subscribed, retryHalted, reconnectAttempt := true, false, 0;
      lifecycleGeneration := lifecycleGeneration + 1;
      AscendingMore(handles, lifecycleGeneration);
      handles := handles + [lifecycleGeneration];
      hasCallback := withCallback;
    }

    method StopLifecycle()
      requires Valid()
      modifies this
      ensures Valid() && Onward() && epoch == old(epoch)
      ensures !old(subscribed) ==> unchanged(this)
      ensures old(subscribed) ==>
                && !subscribed && disposed == old(disposed) && snapshot == map[]
                && activeOperationIds == [] && lifecycleGeneration == old(lifecycleGeneration) + 1
                && log == old(log) + Closing(old(ws), old(activeOperationIds)) + Told(old(hasCallback), Closed)
    {
      if !subscribed { return; }
      Deactivate();
      retryHalted := false;
      snapshot := map[];
      Silence();
    }

    /** The last status of a lifecycle. */
    method Silence()
      requires WireFits() && BooksButQuiet() && Idle() && !subscribed
      modifies `log, `hasCallback
      ensures Valid() && log == old(log) + Told(old(hasCallback), Closed)
    {
      EmitStatus(Closed);
      hasCallback := false;
    }

    /** stopLifecycle up to its socket. */
    method Deactivate()
      requires Valid() && subscribed
      modifies this
      ensures WireFits() && BooksButQuiet() && Idle() && epoch == old(epoch)
      ensures !subscribed && disposed == old(disposed) && hasCallback == old(hasCallback)
      ensures lifecycleGeneration == old(lifecycleGeneration) + 1 && activeOperationIds == []
      ensures handles == old(handles) && requestEpoch == old(requestEpoch)
      ensures log == old(log) + Closing(old(ws), old(activeOperationIds))
    {
      Release(true);
      subscribed := false;
      lifecycleGeneration := lifecycleGeneration + 1;
      activeOperationIds := [];
    }

    /** The handle's unsubscribe: any handle but the last one does nothing, and that one only while its
        lifecycle lasts. */
    method Unsubscribe(lifecycle: nat)
      requires Valid()
      modifies this
      ensures Valid() && Onward() && epoch == old(epoch)
      ensures !old(subscribed) || lifecycle != old(lifecycleGeneration) ==> unchanged(this)
      ensures old(subscribed) && lifecycle == old(lifecycleGeneration) ==>
                && !subscribed
                && log == old(log) + Closing(old(ws), old(activeOperationIds)) + Told(old(hasCallback), Closed)
    {
      if subscribed && lifecycleGeneration == lifecycle { StopLifecycle(); }
    }

    /** handleIdentityChange: whatever belongs to the old identity is dropped, and a new request begins. */
    method HandleIdentityChange()
      requires Valid()
      modifies this
      ensures Valid() && Onward() && epoch == old(epoch) + 1 && ws == None
      ensures !old(subscribed) ==> log == old(log) && tokenRequest == None
      ensures old(subscribed) ==>
                && subscribed && !retryHalted && snapshot == map[] && !reconnectTimer
                && tokenRequest.Some? && tokenRequest.value in pending && tokenRequest.value !in old(requestEpoch)
                && log == old(log) + Closing(old(ws), old(activeOperationIds)) + Told(hasCallback, Connecting)
    {
      if !subscribed || disposed {
        epoch := epoch + 1;
        return;
      }
      DropIdentity();
      retryHalted, reconnectAttempt := false, 0;
      snapshot := map[];
      Connect();
    }

    /** Nothing that was obtained for the old identity stays in use. */
    method DropIdentity()
      requires Valid() && subscribed
      modifies this
      ensures Consistent() && epoch == old(epoch) + 1 && requestEpoch == old(requestEpoch)
      ensures subscribed && !disposed && !reconnectTimer && tokenRequest == None
      ensures ws == None && hasCallback == old(hasCallback)
      ensures handles == old(handles) && lifecycleGeneration == old(lifecycleGeneration)
      ensures log == old(log) + Closing(old(ws), old(activeOperationIds))
    {
      Release(true);
      epoch := epoch + 1;
    }

    /** dispose of a channel that is not subscribed: there is nothing to close. */
    method ReleaseIdle()
      requires Valid() && !subscribed
      modifies `tokenRequestGeneration, `tokenRequest, `reconnectTimer, `generation, `ws, `ackTimer, `renewalTimer,
               `expiryTimer, `activeOperationIds, `log
      ensures Valid() && ws == None && log == old(log)
    {
      Release(false);
    }

    method Dispose()
      requires Valid()
      modifies this
      ensures Valid() && Onward() && epoch == old(epoch) && disposed && !subscribed && ws == None
      ensures old(disposed) ==> unchanged(this)
      ensures !old(subscribed) ==> log == old(log)
      ensures old(subscribed) ==>
                log == old(log) + Closing(old(ws), old(activeOperationIds)) + Told(old(hasCallback), Closed)
    {
      if disposed { return; }
      if subscribed {
        StopLifecycle();
      } else {
        ReleaseIdle();
      }
      Remove();
    }

    method Remove()
      requires Valid() && !subscribed
      modifies `disposed, `configs, `snapshot
      ensures Valid() && disposed && configs == [] && snapshot == map[]
    {
      disposed := true;
      configs := [];
      snapshot := map[];
    }

    // ---------------------------------------------------------------- token responses

    /** The first half of installSocket: whatever socket there was is closed. */
    method CloseSocket()
      requires Consistent() && subscribed
      modifies `ws, `generation, `log, `ackTimer, `renewalTimer, `expiryTimer, `reconnectTimer
      ensures Consistent() && ws == None && !reconnectTimer
      ensures log == old(log) + Closing(old(ws), [])
    {
      var previousSocket := ws;
      ghost var w := OnWire();
      ClearSocketTimers();
      reconnectTimer := false;
      generation := generation + 1;
      ws := None;
      if previousSocket.Some? {
        LeadsOne(log, w, Close(previousSocket.value));
        log := log + [Close(previousSocket.value)];
      }
    }

    /** The second half: a new socket. */
    method OpenSocket(ghost token: nat)
      requires WireFits() && ws == None && token == epoch
      modifies `ws, `socketToken, `nextSocket, `log
      ensures WireFits() && ws == Some(old(nextSocket)) && log == old(log) + [Open(old(nextSocket), token, epoch)]
    {
      LeadsOne(log, OnWire(), Open(nextSocket, token, epoch));
      log := log + [Open(nextSocket, token, epoch)];
      ws, socketToken := Some(nextSocket), token;
      nextSocket := nextSocket + 1;
    }

    /** installSocket behind the check of the URL; the factory may throw. */
    method InstallSocket(ghost token: nat, factoryThrows: bool)
      requires Consistent() && subscribed && token == epoch
      modifies `ws, `socketToken, `generation, `nextSocket, `log, `ackTimer, `renewalTimer, `expiryTimer,
               `reconnectTimer, `reconnectAttempt
      ensures Consistent()
      ensures if factoryThrows
              then && ws == None && (retryHalted || reconnectTimer)
                   && log == old(log) + Closing(old(ws), []) + Told(hasCallback && !retryHalted, Reconnecting)
              else && ws == Some(old(nextSocket))
                   && log == old(log) + Closing(old(ws), []) + [Open(old(nextSocket), token, epoch)]
    {
      CloseSocket();
      if factoryThrows {
        ScheduleReconnect();
      } else {
        OpenSocket(token);
      }
    }

    /** The answer to token request `g`, up to the end of acquireAndInstall. */
    method TokenSettled(g: nat, result: TokenResult, factoryThrows: bool)
      requires Valid() && g in pending
      modifies this
      ensures Onward() && epoch == old(epoch)
      ensures Valid()
      ensures pending == old(pending) - {g} && settling == old(settling) + {g}
      ensures !old(IsTokenRequestCurrent(g)) ==>
                ws == old(ws) && log == old(log) && generation == old(generation)
                && retryHalted == old(retryHalted) && reconnectTimer == old(reconnectTimer)
      ensures old(IsTokenRequestCurrent(g)) && result == Granted(true) && !factoryThrows ==>
                && ws == Some(old(nextSocket))
                && log == old(log) + Closing(old(ws), []) + [Open(old(nextSocket), old(requestEpoch[g]), epoch)]
      ensures old(IsTokenRequestCurrent(g)) && result == Refused(false) ==> retryHalted && ws == None
      ensures old(IsTokenRequestCurrent(g)) && result == Refused(true) && !old(retryHalted) ==> reconnectTimer
    {
      settling, pending := settling + {g}, pending - {g};
      if IsTokenRequestCurrent(g) { UseAnswer(g, result, factoryThrows); }
    }

    /** A current answer: a socket, another try, or the end of retries. */
    method UseAnswer(g: nat, result: TokenResult, factoryThrows: bool)
      requires Consistent() && IsTokenRequestCurrent(g) && g in requestEpoch
      modifies this
      ensures Valid() && Onward() && epoch == old(epoch)
      ensures pending == old(pending) && settling == old(settling) && requestEpoch == old(requestEpoch)
      ensures result == Granted(true) && !factoryThrows ==>
                && ws == Some(old(nextSocket))
                && log == old(log) + Closing(old(ws), []) + [Open(old(nextSocket), requestEpoch[g], epoch)]
      ensures result == Refused(false) ==> retryHalted && ws == None
      ensures result == Refused(true) && !old(retryHalted) ==> reconnectTimer
    {
      match result {
        case Granted(urlValid) =>
          if urlValid {
            InstallSocket(requestEpoch[g], factoryThrows);
          } else {
            ScheduleReconnect();
          }
        case Refused(retryable) =>
          if !retryable {
            HaltRetries();
          } else {
            ScheduleReconnect();
          }
      }
    }

    /** The `finally` of request `g`. */
    method TokenFinally(g: nat)
      requires Valid() && g in settling && g !in pending
      modifies `tokenRequest, `settling
      ensures Valid() && settling == old(settling) - {g}
      ensures tokenRequest == if old(tokenRequest) == Some(g) then None else old(tokenRequest)
    {
      settling := settling - {g};
      if tokenRequest == Some(g) { tokenRequest := None; }
    }

    // ---------------------------------------------------------------- timers

    method ReconnectTimerFires()
      requires Valid() && reconnectTimer && settling == {}
      modifies this
      ensures Onward() && epoch == old(epoch)
      ensures Valid() && !reconnectTimer && ws == old(ws) && log == old(log)
    {
      reconnectTimer := false;
      StartConnection();
    }

    method AckTimerFires(gen: nat, socket: SocketId)
      requires Valid() && settling == {}
      modifies this
      ensures Onward() && epoch == old(epoch)
      ensures Valid()
      ensures !old(IsSocketCurrent(gen, socket)) ==> unchanged(this)
      ensures old(IsSocketCurrent(gen, socket)) ==> ws == None
    {
      if IsSocketCurrent(gen, socket) { Retry(); }
    }

    method RenewalTimerFires(gen: nat, socket: SocketId)
      requires Valid() && settling == {}
      modifies this
      ensures Onward() && epoch == old(epoch)
      ensures Valid()
      ensures !old(IsSocketCurrent(gen, socket)) ==> unchanged(this)
      ensures old(IsSocketCurrent(gen, socket)) ==> ws == old(ws) && (!retryHalted ==> tokenRequest.Some?)
    {
      if !IsSocketCurrent(gen, socket) { return; }
      StartConnection();
    }

    /** The token of the socket has expired: the socket is closed without completes. */
    method Expire()
      requires Consistent() && subscribed
      modifies this
      ensures Consistent() && Onward() && epoch == old(epoch) && subscribed && ws == None
      ensures tokenRequest == old(tokenRequest) && pending == old(pending) && settling == old(settling)
      ensures retryHalted == old(retryHalted) && reconnectTimer == old(reconnectTimer)
      ensures log == old(log) + Closing(old(ws), []) + Told(hasCallback, Reconnecting)
    {
      DropSocket(false);
      EmitStatus(Reconnecting);
    }

    method ExpiryTimerFires(gen: nat, socket: SocketId)
      requires Valid() && settling == {}
      modifies this
      ensures Onward() && epoch == old(epoch)
      ensures Valid()
      ensures !old(IsSocketCurrent(gen, socket)) ==> unchanged(this)
      ensures old(IsSocketCurrent(gen, socket)) ==> ws == None
    {
      if !IsSocketCurrent(gen, socket) { return; }
      Expire();
      if !reconnectTimer && tokenRequest.None? { StartConnection(); }
    }

    // ---------------------------------------------------------------- socket events

    method OnOpen(gen: nat, socket: SocketId)
      requires Valid() && settling == {}
      modifies `ackTimer, `log
      ensures Valid()
      ensures !old(IsSocketCurrent(gen, socket)) ==> unchanged(this)
      ensures old(IsSocketCurrent(gen, socket)) ==>
                ackTimer && log == old(log) + [Init(socket, old(socketToken), epoch)]
    {
      if !IsSocketCurrent(gen, socket) { return; }
      LeadsOne(log, OnWire(), Init(socket, socketToken, epoch));
      log := log + [Init(socket, socketToken, epoch)];
      ackTimer := true;
    }

    /** The current socket has been closed by the other side. */
    method ForgetSocket(socket: SocketId)
      requires Consistent() && subscribed && ws == Some(socket)
      modifies this
      ensures Consistent() && Onward() && epoch == old(epoch)
      ensures subscribed && ws == None && generation == old(generation) + 1 && tokenRequest == old(tokenRequest)
      ensures log == old(log) + [Lost(socket)]
    {
      LeadsOne(log, OnWire(), Lost(socket));
      ws := None;
      log := log + [Lost(socket)];
      generation := generation + 1;
      ClearSocketTimers();
    }

    method OnClose(gen: nat, socket: SocketId, code: int)
      requires Valid() && settling == {}
      modifies this
      ensures Onward() && epoch == old(epoch)
      ensures Valid()
      ensures !old(IsSocketCurrent(gen, socket)) ==> unchanged(this)
      ensures old(IsSocketCurrent(gen, socket)) ==>
                ws == None && generation == old(generation) + 1 && old(log) + [Lost(socket)] <= log
      ensures old(IsSocketCurrent(gen, socket)) && (code == 4401 || code == 4403) ==>
                retryHalted && tokenRequest == old(tokenRequest)
    {
      if !IsSocketCurrent(gen, socket) { return; }
      ForgetSocket(socket);
      if code == 4401 || code == 4403 {
        retryHalted := true;
        EmitStatus(ChannelError);
        return;
      }
      ScheduleReconnect();
    }

    method OnError(gen: nat, socket: SocketId)
      requires Valid() && settling == {}
      modifies this
      ensures Onward() && epoch == old(epoch)
      ensures Valid()
      ensures !old(IsSocketCurrent(gen, socket)) ==> unchanged(this)
      ensures old(IsSocketCurrent(gen, socket)) ==> ws == None
    {
      if IsSocketCurrent(gen, socket) { Retry(); }
    }

    static function Ids(first: nat, n: nat): seq<nat> {
      if n == 0 then [] else Ids(first, n - 1) + [first + n - 1]
    }

    static function Frames(socket: SocketId, first: nat, n: nat, token: nat): seq<Output> {
      if n == 0 then []
      else Frames(socket, first, n - 1, token) + [Output.Subscribe(socket, first + n - 1, token, token)]
    }

    /** One subscribe frame for each configuration, under fresh operation ids. */
    method SendSubscriptions(socket: SocketId)
      requires WireFits() && ws == Some(socket)
      modifies `operationCounter, `activeOperationIds, `log
      ensures WireFits() && operationCounter == old(operationCounter) + |configs|
      ensures activeOperationIds == old(activeOperationIds) + Ids(old(operationCounter) + 1, |configs|)
      ensures log == old(log) + Frames(socket, old(operationCounter) + 1, |configs|, epoch)
    {
      for k := 0 to |configs|
        invariant WireFits() && operationCounter == old(operationCounter) + k
        invariant activeOperationIds == old(activeOperationIds) + Ids(old(operationCounter) + 1, k)
        invariant log == old(log) + Frames(socket, old(operationCounter) + 1, k, epoch)
      {
        operationCounter := operationCounter + 1;
        activeOperationIds := activeOperationIds + [operationCounter];
        LeadsOne(log, OnWire(), Output.Subscribe(socket, operationCounter, socketToken, epoch));
        log := log + [Output.Subscribe(socket, operationCounter, socketToken, epoch)];
      }
    }

    /** The state in which a connection begins to subscribe. */
    method ResetSession()
      requires Valid() && subscribed && ws.Some?
      modifies `ackTimer, `retryHalted, `reconnectAttempt, `snapshot, `activeOperationIds
      ensures Valid() && !ackTimer && !retryHalted && reconnectAttempt == 0
      ensures snapshot == map[] && activeOperationIds == []
    {
      ackTimer, retryHalted, reconnectAttempt := false, false, 0;
      snapshot := map[];
      activeOperationIds := [];
    }

    /** A connection begins to subscribe. */
    method StartSession(socket: SocketId)
      requires Valid() && subscribed && ws == Some(socket)
      modifies this
      ensures Valid() && Onward() && unchanged(`epoch, `hasCallback, `configs) && subscribed
      ensures !ackTimer && !retryHalted && reconnectAttempt == 0 && snapshot == map[]
      ensures activeOperationIds == Ids(old(operationCounter) + 1, |configs|)
      ensures log == old(log) + Frames(socket, old(operationCounter) + 1, |configs|, epoch)
    {
      ResetSession();
      SendSubscriptions(socket);
    }

    /** scheduleRenewal: both timers of a socket whose token expires. */
    method ScheduleRenewal()
      requires Valid() && subscribed
      modifies `renewalTimer, `expiryTimer
      ensures Valid() && renewalTimer && expiryTimer
    {
      renewalTimer, expiryTimer := true, true;
    }

    /** connection_ack. */
    method OnAck(socket: SocketId)
      requires Valid() && subscribed && ws == Some(socket)
      modifies this
      ensures Valid() && Onward() && epoch == old(epoch)
      ensures !retryHalted && reconnectAttempt == 0 && snapshot == map[] && !ackTimer && renewalTimer && expiryTimer
      ensures activeOperationIds == Ids(old(operationCounter) + 1, |configs|)
      ensures log == old(log) + Frames(socket, old(operationCounter) + 1, |configs|, epoch)
                     + Told(hasCallback, Subscribed)
    {
      StartSession(socket);
      EmitStatus(Subscribed);
      ScheduleRenewal();
    }

    method EmitChanges(table: string, changes: seq<Change>)
      requires Valid()
      modifies `log
      ensures Valid() && log == old(log) + Changes(table, changes)
    {
      ChangesAreSteady(OnWire(), table, changes);
      LeadsSteady(log, OnWire(), Changes(table, changes));
      log := log + Changes(table, changes);
    }

    /** A `next` message: the first snapshot of a table is silent, a later one is compared with the last. */
    method OnNext(table: string, rows: seq<Row>)
      requires Valid()
      modifies `snapshot, `log
      ensures Valid()
      ensures table !in old(snapshot) ==> snapshot == old(snapshot)[table := rows] && log == old(log)
      ensures table in old(snapshot) ==>
                match FindConfig(configs, table)
                case None => snapshot == old(snapshot) && log == old(log)
                case Some(config) =>
                  && snapshot == old(snapshot)[table := rows]
                  && log == old(log) + Changes(table, Diff(idOf, old(snapshot)[table], rows, config.filter))
    {
      if table !in snapshot {
        snapshot := snapshot[table := rows];
        return;
      }
      var config := FindConfig(configs, table);
      if config.None? { return; }
      var events := DiffAndEmit(idOf, snapshot[table], rows, config.value.filter);
      EmitChanges(table, events);
      snapshot := snapshot[table := rows];
    }

    method SendPong(socket: SocketId)
      requires Valid() && ws == Some(socket)
      modifies `log
      ensures Valid() && log == old(log) + [Pong(socket)]
    {
      LeadsOne(log, OnWire(), Pong(socket));
      log := log + [Pong(socket)];
    }

    method OnMessage(gen: nat, socket: SocketId, message: Message)
      requires Valid() && settling == {}
      modifies this
      ensures Onward() && epoch == old(epoch)
      ensures Valid()
      ensures !old(IsSocketCurrent(gen, socket)) ==> unchanged(this)
      ensures old(IsSocketCurrent(gen, socket)) && message == ErrorMessage ==> retryHalted && ws == None
      ensures old(IsSocketCurrent(gen, socket)) && message == Ping ==> log == old(log) + [Pong(socket)]
      ensures message == Garbage || message == Other ==> unchanged(this)
      ensures old(IsSocketCurrent(gen, socket)) && !message.Ack? && !message.ErrorMessage? ==>
                && IsSocketCurrent(gen, socket) && unchanged(`configs, `settling)
                && snapshot == Noted(configs, old(snapshot), message)
                && log == old(log) + Reply(idOf, configs, old(snapshot), socket, message)
      ensures old(IsSocketCurrent(gen, socket)) && message == Ack ==>
                && !retryHalted && snapshot == map[]
                && activeOperationIds == Ids(old(operationCounter) + 1, |configs|)
    {
      if !IsSocketCurrent(gen, socket) { return; }
      match message {
        case Garbage =>
        case Other =>
        case Ping => SendPong(socket);
        case Ack => OnAck(socket);
        case ErrorMessage =>
          HaltRetries();
        case Next(table, rows) => OnNext(table, rows);
      }
    }

    // ---------------------------------------------------------------- any history

    /** One event; what cannot happen now is no event: an answer to no request, a timer that is not armed,
        or a timer or socket event before the event loop has run the `finally` callbacks that are due. */
    method Handle(e: Event)
      requires Valid()
      modifies this
      ensures Valid() && Onward()
      ensures epoch == if e.IdentityChange? then old(epoch) + 1 else old(epoch)
    {
      match e {
        case CallOn(config) => var ok := On(config);
        case CallSubscribe(withCallback) => var lifecycle := Subscribe(withCallback);
        case CallUnsubscribe(lifecycle) => Unsubscribe(lifecycle);
        case IdentityChange => HandleIdentityChange();
        case CallDispose => Dispose();
        case Settled(g, result, factoryThrows) => if g in pending { TokenSettled(g, result, factoryThrows); }
        case Finally(g) => if g in settling && g !in pending { TokenFinally(g); }
        case Reconnect => if settling == {} && reconnectTimer { ReconnectTimerFires(); }
        case SocketOpen(gen, socket) => if settling == {} { OnOpen(gen, socket); }
        case SocketMessage(gen, socket, message) => if settling == {} { OnMessage(gen, socket, message); }
        case SocketClose(gen, socket, code) => if settling == {} { OnClose(gen, socket, code); }
        case SocketError(gen, socket) => if settling == {} { OnError(gen, socket); }
        case AckTimeout(gen, socket) => if settling == {} { AckTimerFires(gen, socket); }
        case Renewal(gen, socket) => if settling == {} { RenewalTimerFires(gen, socket); }
        case Expiry(gen, socket) => if settling == {} { ExpiryTimerFires(gen, socket); }
      }
    }

    /** After any events in any order: every socket ever opened is the current one or has been closed since,
        nothing ever went out under an old identity, the channel is not stuck, an unsubscribed channel is
        quiet, and the past stands as it was. */
    method HandleAll(events: seq<Event>)
      requires Valid()
      modifies this
      ensures Valid() && Onward()
      ensures AllClosedBut(log, ws) && AllCurrent(log)
      ensures NeverStuck() && QuietWhenUnsubscribed()
    {
      for i := 0 to |events|
        invariant Valid() && Onward()
      {
        Handle(events[i]);
      }
      LeadsMeans(log, OnWire());
    }

    /** One message of a session that has sent `sent` so far. */
    method HandleMessage(gen: nat, socket: SocketId, message: Message, ghost sent: seq<Output>)
      returns (ghost session: Session)
      requires Valid() && settling == {} && IsSocketCurrent(gen, socket) && !message.Ack? && !message.ErrorMessage?
      modifies this
      ensures Valid() && IsSocketCurrent(gen, socket) && unchanged(`configs, `settling)
      ensures session.tables == snapshot && sent <= session.sent && log == old(log) + session.sent[|sent|..]
      ensures Answers(idOf, configs, socket, message, Session(sent, old(snapshot)), session)
    {
      OnMessage(gen, socket, message);
      session := Session(sent + log[|old(log)|..], snapshot);
    }

    /** One more message of a session. */
    method ContinueSession(gen: nat, socket: SocketId, message: Message, ghost messages: seq<Message>,
                           ghost run: seq<Session>)
      returns (ghost more: seq<Session>)
      requires Valid() && settling == {} && IsSocketCurrent(gen, socket) && !message.Ack? && !message.ErrorMessage?
      requires IsSession(idOf, configs, socket, messages, run) && run[|messages|].tables == snapshot
      modifies this
      ensures Valid() && IsSocketCurrent(gen, socket) && unchanged(`configs, `settling)
      ensures IsSession(idOf, configs, socket, messages + [message], more) && more[0] == run[0]
      ensures var was, now := run[|messages|], more[|messages| + 1];
              && now.tables == snapshot && was.sent <= now.sent && log == old(log) + now.sent[|was.sent|..]
    {
      ghost var next := HandleMessage(gen, socket, message, run[|messages|].sent);
      SessionMore(idOf, configs, socket, messages, run, message, next);
      more := run + [next];
    }

    /** The messages of a session that is neither renewed nor ended by one of them. */
    method HandleMessages(gen: nat, socket: SocketId, messages: seq<Message>) returns (ghost run: seq<Session>)
      requires Valid() && settling == {} && IsSocketCurrent(gen, socket)
      requires forall message <- messages :: !message.Ack? && !message.ErrorMessage?
      modifies this
      ensures Valid() && IsSession(idOf, old(configs), socket, messages, run)
      ensures run[0].tables == old(snapshot) && run[|messages|].tables == snapshot
      ensures log == old(log) + run[|messages|].sent
    {
      run := [Session([], snapshot)];
      for i := 0 to |messages|
        invariant Valid() && settling == {} && IsSocketCurrent(gen, socket) && configs == old(configs)
        invariant IsSession(idOf, configs, socket, messages[..i], run)
        invariant run[0].tables == old(snapshot) && run[i].tables == snapshot && log == old(log) + run[i].sent
      {
        assert messages[..i + 1] == messages[..i] + [messages[i]];
        run := ContinueSession(gen, socket, messages[i], messages[..i], run);
      }
      assert messages[..|messages|] == messages;
    }

    /** What a subscriber hears of a table in a session keeps its copy up to date. */
    method FollowTable(gen: nat, socket: SocketId, messages: seq<Message>, ghost table: string, ghost filter: Filter)
      returns (ghost heard: seq<Change>)
      requires Valid() && settling == {} && IsSocketCurrent(gen, socket)
      requires forall message <- messages :: !message.Ack? && !message.ErrorMessage?
      requires table !in snapshot && FindConfig(configs, table) == Some(Config(table, filter))
      modifies this
      ensures Valid() && old(log) <= log && heard == ChangesOf(log[|old(log)|..], table)
      ensures heard == AllEvents(idOf, Snapshots(messages, table), filter)
      ensures var seen := Snapshots(messages, table);
              seen != [] && filter == All ==>
                table in snapshot && Replay(idOf, Keyed(idOf, seen[0]), heard) == Keyed(idOf, snapshot[table])
    {
      ghost var run := HandleMessages(gen, socket, messages);
      FollowedAll(idOf, old(configs), socket, messages, run, table, filter);
      assert log[|old(log)|..] == run[|messages|].sent;
      heard := ChangesOf(run[|messages|].sent, table);
      if Snapshots(messages, table) != [] { ReplayRun(idOf, Snapshots(messages, table)); }
    }

    /** What can be seen of the channel. */
    ghost function Visible(): View
      reads this
    {
      View(subscribed, ws, tokenRequest, reconnectTimer, retryHalted, snapshot, log)
    }

    /** A handle that was returned at any time before a later subscribe succeeded changes nothing any more,
        whatever happens in between and afterwards. */
    method ReuseHandle(handle: nat, between: seq<Event>, withCallback: bool, after: seq<Event>)
      returns (newer: Option<nat>, ghost before: View)
      requires Valid() && handle in handles
      modifies this
      ensures Valid() && Onward()
      ensures newer.Some? ==> Visible() == before
    {
      HandleAll(between);
      newer := Subscribe(withCallback);
      before := Visible();
      if newer.None? { return; }
      HandleAll(after);
      before := Visible();
      Unsubscribe(handle);
    }
  }

  datatype Event =
    | CallOn(config: Config) | CallSubscribe(withCallback: bool) | CallUnsubscribe(lifecycle: nat)
    | IdentityChange | CallDispose
    | Settled(g: nat, result: TokenResult, factoryThrows: bool) | Finally(g: nat)
    | Reconnect
    | SocketOpen(gen: nat, socket: SocketId)
    | SocketMessage(gen: nat, socket: SocketId, message: Message)
    | SocketClose(gen: nat, socket: SocketId, code: int)
    | SocketError(gen: nat, socket: SocketId)
    | AckTimeout(gen: nat, socket: SocketId)
    | Renewal(gen: nat, socket: SocketId)
    | Expiry(gen: nat, socket: SocketId)

  /** DruviaRealtime, as far as an identity change reaches its channels. */
  class DruviaRealtime {
    var channels: set<Channel>

    constructor ()
      ensures channels == {}
    {
      channels := {};
    }

    method HandleIdentityChange()
      requires forall c <- channels :: c.Valid()
      modifies channels
      ensures forall c <- channels ::
                && c.Valid() && c.epoch == old(c.epoch) + 1
                && (old(c.subscribed) ==> c.ws == None && c.tokenRequest.Some? && c.tokenRequest.value in c.pending)
    {
      var rest := channels;
      while rest != {}
        invariant rest <= channels
        invariant forall c <- rest :: c.Valid() && unchanged(c)
        invariant forall c <- channels - rest ::
                    && c.Valid() && c.epoch == old(c.epoch) + 1
                    && (old(c.subscribed) ==> c.ws == None && c.tokenRequest.Some? && c.tokenRequest.value in c.pending)
        decreases |rest|
      {
        var c :| c in rest;
        c.HandleIdentityChange();
        rest := rest - {c};
      }
    }
  }
}

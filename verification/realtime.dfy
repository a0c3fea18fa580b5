/**
 The browser's realtime client: a socket, a heartbeat interval and a reconnect timeout driven by the
 events of the environment. A socket fires at most one close event, and opens or delivers a message
 only while it is connecting or open ("Feedback from the protocol", WHATWG WebSockets standard).
 */
module Realtime {
  import opened Wrappers

  datatype Ready = Connecting | Open | Closing | Closed

  datatype Message = Connected | HeartbeatAck | Notified(id: string) | Other

  datatype Call = Online(online: bool) | Refresh | Notification(id: string)

  datatype State = State(
    socket: Option<nat>,
    heartbeat: Option<nat>,
    reconnect: Option<nat>,
    stopped: bool,
    // the environment: sockets handed out, live timers, and the next identifier
    sockets: map<nat, Ready>,
    detached: set<nat>,
    intervals: set<nat>,
    timeouts: set<nat>,
    next: nat,
    // what the handlers were told and what was sent
    calls: seq<Call>,
    acknowledged: seq<string>)

  const EMPTY := State(None, None, None, false, map[], {}, {}, {}, 0, [], [])

  // A handler that unsubscribes from inside the last call of its event is that event, then Unsubscribe.
  datatype Event =
    | SocketOpens(id: nat, leaves: bool)
    | MessageArrives(id: nat, message: Message, leaves: bool)
    | PeerCloses(id: nat)
    | SocketCloses(id: nat, leaves: bool)
    | TimeoutFires(id: nat, hasUrl: bool, leaves: bool)
    | Unsubscribe

  // ---- what each closure does; `leaves` says that the first handler it calls unsubscribes ----

  function AfterClearHeartbeat(s: State): State {
    match s.heartbeat
    case None => s
    case Some(id) => s.(intervals := s.intervals - {id}, heartbeat := None)
  }

  function AfterSetTimeout(s: State): State {
    s.(timeouts := s.timeouts + {s.next}, reconnect := Some(s.next), next := s.next + 1)
  }

  function AfterConnect(s: State, hasUrl: bool, leaves: bool): State {
    if s.stopped then s
    else if !hasUrl then AfterSetTimeout(AfterCall(s, Online(false), leaves))
    else s.(socket := Some(s.next), sockets := s.sockets[s.next := Connecting], next := s.next + 1)
  }

  function AfterConnectedMessage(s: State, leaves: bool): State {
    var cleared := AfterClearHeartbeat(AfterCall(s, Refresh, leaves));
    cleared.(heartbeat := Some(s.next), intervals := cleared.intervals + {s.next}, next := s.next + 1)
  }

  function AfterMessage(s: State, message: Message, leaves: bool): State {
    match message
    case Connected => AfterConnectedMessage(s, leaves)
    case HeartbeatAck => AfterCall(s, Refresh, leaves)
    case Notified(id) =>
      var told := AfterCall(s.(acknowledged := s.acknowledged + [id]), Notification(id), leaves);
      told.(calls := told.calls + [Refresh])
    case Other => s
  }

  function AfterClose(s: State, id: nat, leaves: bool): State {
    var closed := s.(sockets := s.sockets[id := Closed]);
    if id in s.detached then closed
    else
      var quiet := AfterClearHeartbeat(AfterCall(closed, Online(false), leaves));
      if quiet.stopped then quiet else AfterSetTimeout(quiet)
  }

  function AfterUnsubscribe(s: State): State {
    var cleared := AfterClearHeartbeat(s.(stopped := true));
    var silent := if cleared.reconnect.Some?
      then cleared.(timeouts := cleared.timeouts - {cleared.reconnect.value}) else cleared;
    var shut := match silent.socket
      case None => silent
      case Some(id) =>
        var closing := if id in silent.sockets && silent.sockets[id] != Closed
          then silent.sockets[id := Closing] else silent.sockets;
        silent.(detached := silent.detached + {id}, sockets := closing);
    shut.(calls := shut.calls + [Online(false)])
  }

  function AfterCall(s: State, call: Call, leaves: bool): State {
    var told := s.(calls := s.calls + [call]);
    if leaves then AfterUnsubscribe(told) else told
  }

  // An event the environment cannot produce in this state changes nothing.
  function Step(s: State, e: Event): State {
    match e
    case SocketOpens(id, leaves) =>
      if id in s.sockets && s.sockets[id] == Connecting
      then AfterCall(s.(sockets := s.sockets[id := Open]), Online(true), leaves) else s
    case MessageArrives(id, message, leaves) =>
      if id in s.sockets && s.sockets[id] == Open then AfterMessage(s, message, leaves) else s
    case PeerCloses(id) =>
      if id in s.sockets && s.sockets[id] == Open then s.(sockets := s.sockets[id := Closing]) else s
    case SocketCloses(id, leaves) =>
      if id in s.sockets && s.sockets[id] != Closed then AfterClose(s, id, leaves) else s
    case TimeoutFires(id, hasUrl, leaves) =>
      if id in s.timeouts then AfterConnect(s.(timeouts := s.timeouts - {id}), hasUrl, leaves) else s
    case Unsubscribe => AfterUnsubscribe(s)
  }

  // Subscribing connects at once, before there is anything to unsubscribe with; then the events follow.
  function Run(hasUrl: bool, events: seq<Event>): State {
    if events == [] then AfterConnect(EMPTY, hasUrl, false)
    else Step(Run(hasUrl, events[..|events| - 1]), events[|events| - 1])
  }

  // ---- the closures as code ----

  class Subscription {
    var socket: Option<nat>
    var heartbeat: Option<nat>
    var reconnect: Option<nat>
    var stopped: bool
    var sockets: map<nat, Ready>
    var detached: set<nat>
    var intervals: set<nat>
    var timeouts: set<nat>
    var next: nat
    var calls: seq<Call>
    var acknowledged: seq<string>

    function Snapshot(): State
      reads this
    {
      State(socket, heartbeat, reconnect, stopped, sockets, detached, intervals, timeouts, next, calls, acknowledged)
    }

    constructor (hasUrl: bool)
      ensures Snapshot() == AfterConnect(EMPTY, hasUrl, false)
    {
      socket, heartbeat, reconnect, stopped := None, None, None, false;
      sockets, detached, intervals, timeouts, next := map[], {}, {}, {}, 0;
      calls, acknowledged := [], [];
      new;
      Connect(hasUrl, false);
    }

    method SetTimeout() returns (id: nat)
      modifies this`timeouts, this`next
      ensures id == old(next) && next == id + 1 && timeouts == old(timeouts) + {id}
    {
      id := next;
      timeouts, next := timeouts + {id}, next + 1;
    }

    method ClearHeartbeat()
      modifies this`intervals, this`heartbeat
      ensures Snapshot() == AfterClearHeartbeat(old(Snapshot()))
    {
      if heartbeat.None? {
        return;
      }
      intervals := intervals - {heartbeat.value};
      heartbeat := None;
    }

    method Tell(call: Call, leaves: bool)
      modifies this
      ensures Snapshot() == AfterCall(old(Snapshot()), call, leaves)
    {
      calls := calls + [call];
      if leaves {
        Stop();
      }
    }

    method Connect(hasUrl: bool, leaves: bool)
      modifies this
      ensures Snapshot() == AfterConnect(old(Snapshot()), hasUrl, leaves)
    {
      if stopped {
        return;
      }
      if !hasUrl {
        Tell(Online(false), leaves);
        var id := SetTimeout();
        reconnect := Some(id);
        return;
      }
      socket := Some(next);
      sockets, next := sockets[next := Connecting], next + 1;
    }

    method OnOpen(id: nat, leaves: bool)
      requires id in sockets && sockets[id] == Connecting
      modifies this
      ensures Snapshot() == Step(old(Snapshot()), SocketOpens(id, leaves))
    {
      sockets := sockets[id := Open];
      Tell(Online(true), leaves);
    }

    method OnMessage(id: nat, message: Message, leaves: bool)
      requires id in sockets && sockets[id] == Open
      modifies this
      ensures Snapshot() == Step(old(Snapshot()), MessageArrives(id, message, leaves))
    {
      if message.Connected? {
        Tell(Refresh, leaves);
        ClearHeartbeat();
        heartbeat := Some(next);
        intervals, next := intervals + {next}, next + 1;
      }
      if message.HeartbeatAck? {
        Tell(Refresh, leaves);
      }
      if message.Notified? {
        acknowledged := acknowledged + [message.id];
        Tell(Notification(message.id), leaves);
        calls := calls + [Refresh];
      }
    }

    method OnClose(id: nat, leaves: bool)
      requires id in sockets && sockets[id] != Closed
      modifies this
      ensures Snapshot() == Step(old(Snapshot()), SocketCloses(id, leaves))
    {
      sockets := sockets[id := Closed];
      if id in detached {
        return;
      }
      Tell(Online(false), leaves);
      ClearHeartbeat();
      if !stopped {
        var timer := SetTimeout();
        reconnect := Some(timer);
      }
    }

    method OnTimeout(id: nat, hasUrl: bool, leaves: bool)
      requires id in timeouts
      modifies this
      ensures Snapshot() == Step(old(Snapshot()), TimeoutFires(id, hasUrl, leaves))
    {
      timeouts := timeouts - {id};
      Connect(hasUrl, leaves);
    }

    method Stop()
      modifies this
      ensures Snapshot() == Step(old(Snapshot()), Unsubscribe)
    {
      stopped := true;
      ClearHeartbeat();
      if reconnect.Some? {
        timeouts := timeouts - {reconnect.value};
      }
      if socket.Some? {
        detached := detached + {socket.value};
        if socket.value in sockets && sockets[socket.value] != Closed {
          sockets := sockets[socket.value := Closing];
        }
      }
      calls := calls + [Online(false)];
    }
  }

  // ---- the invariant ----

  // The current socket has not fired its close event.
  predicate LiveSocket(s: State) {
    s.socket.Some? && s.socket.value in s.sockets && s.sockets[s.socket.value] != Closed
  }

  predicate OpenedSocket(s: State) {
    s.socket.Some? && s.socket.value in s.sockets && s.sockets[s.socket.value] in {Open, Closing}
  }

  ghost predicate SocketsSound(s: State) {
    && (s.socket.Some? ==> s.socket.value in s.sockets)
    && (forall id :: id in s.sockets ==> id < s.next && (Some(id) != s.socket ==> s.sockets[id] == Closed))
    && (forall id :: id in s.detached ==> s.stopped)
    && (s.stopped && s.socket.Some? ==> s.socket.value in s.detached && s.sockets[s.socket.value] in {Closing, Closed})
  }

  ghost predicate TimersSound(s: State) {
    && s.intervals == (if s.heartbeat.Some? then {s.heartbeat.value} else {})
    && s.timeouts <= (if s.reconnect.Some? then {s.reconnect.value} else {})
    && (!s.stopped ==> (s.heartbeat.Some? ==> OpenedSocket(s)) && (LiveSocket(s) <==> s.timeouts == {}))
  }

  predicate Quiet(s: State) {
    s.stopped ==> s.intervals == {} && s.timeouts == {}
  }

  // The two calls after which the client still sets a timer without asking whether it was stopped.
  predicate LeavesATimer(s: State, e: Event) {
    || (e.TimeoutFires? && e.id in s.timeouts && !s.stopped && !e.hasUrl && e.leaves)
    || (e.MessageArrives? && e.id in s.sockets && s.sockets[e.id] == Open && e.message.Connected? && e.leaves)
  }

  // The value of the last onOnlineChange call.
  function LastOnline(calls: seq<Call>): bool {
    if calls == [] then false
    else if calls[|calls| - 1].Online? then calls[|calls| - 1].online
    else LastOnline(calls[..|calls| - 1])
  }

  lemma LastOnlineAppend(calls: seq<Call>, c: Call)
    ensures LastOnline(calls + [c]) == if c.Online? then c.online else LastOnline(calls)
  {
    assert (calls + [c])[..|calls|] == calls;
  }

  ghost predicate OnlineSound(s: State) {
    LastOnline(s.calls) <==> OpenedSocket(s) && !s.stopped
  }

  ghost predicate Sound(s: State) {
    SocketsSound(s) && TimersSound(s) && OnlineSound(s)
  }

  lemma UnsubscribeKeepsTimers(s: State)
    requires SocketsSound(s) && TimersSound(s)
    ensures var next := AfterUnsubscribe(s);
      && SocketsSound(next) && TimersSound(next) && next.stopped && next.intervals == {} && next.timeouts == {}
      && next.next == s.next && next.sockets.Keys == s.sockets.Keys
  {
  }

  lemma CallKeepsTimers(s: State, call: Call, leaves: bool)
    requires SocketsSound(s) && TimersSound(s)
    ensures var next := AfterCall(s, call, leaves);
      && SocketsSound(next) && TimersSound(next) && next.next == s.next
      && (leaves ==> next.stopped && next.intervals == {} && next.timeouts == {})
      && (!leaves ==> next == s.(calls := s.calls + [call]))
  {
    hide AfterUnsubscribe;
    UnsubscribeKeepsTimers(s.(calls := s.calls + [call]));
  }

  lemma MessageKeepsTimers(s: State, id: nat, message: Message, leaves: bool)
    requires SocketsSound(s) && TimersSound(s) && id in s.sockets && s.sockets[id] == Open
    ensures var next := AfterMessage(s, message, leaves);
      && SocketsSound(next) && TimersSound(next)
      && (Quiet(next) <==> !(leaves && message.Connected?))
  {
    hide AfterUnsubscribe;
    CallKeepsTimers(s, Refresh, leaves);
    if message.Notified? {
      CallKeepsTimers(s.(acknowledged := s.acknowledged + [message.id]), Notification(message.id), leaves);
    }
  }

  lemma CloseKeepsTimers(s: State, id: nat, leaves: bool)
    requires SocketsSound(s) && TimersSound(s) && id in s.sockets && s.sockets[id] != Closed
    ensures var next := AfterClose(s, id, leaves);
      SocketsSound(next) && TimersSound(next) && (Quiet(s) ==> Quiet(next))
  {
    if leaves && id !in s.detached {
      UnsubscribeKeepsTimers(s.(calls := s.calls + [Online(false)]));
    }
  }

  lemma TimeoutKeepsTimers(s: State, id: nat, hasUrl: bool, leaves: bool)
    requires SocketsSound(s) && TimersSound(s) && id in s.timeouts
    ensures var next := AfterConnect(s.(timeouts := s.timeouts - {id}), hasUrl, leaves);
      && SocketsSound(next) && TimersSound(next)
      && (Quiet(s) ==> (Quiet(next) <==> !(leaves && !hasUrl)))
  {
  }

  lemma OpenKeepsTimers(s: State, id: nat, leaves: bool)
    requires SocketsSound(s) && TimersSound(s) && id in s.sockets && s.sockets[id] == Connecting
    ensures var next := Step(s, SocketOpens(id, leaves));
      SocketsSound(next) && TimersSound(next) && (Quiet(s) ==> Quiet(next))
  {
    hide AfterUnsubscribe;
    CallKeepsTimers(s.(sockets := s.sockets[id := Open]), Online(true), leaves);
  }

  // Whatever happens the timers stay accounted for; a stopped client is left with one exactly by the
  // two calls above.
  lemma StepKeepsTimers(s: State, e: Event)
    requires SocketsSound(s) && TimersSound(s)
    ensures SocketsSound(Step(s, e)) && TimersSound(Step(s, e))
    ensures Quiet(s) ==> (Quiet(Step(s, e)) <==> !LeavesATimer(s, e))
  {
    hide AfterMessage, AfterClose, AfterUnsubscribe, AfterConnect, AfterCall;
    match e
    case SocketOpens(id, leaves) =>
      if id in s.sockets && s.sockets[id] == Connecting {
        OpenKeepsTimers(s, id, leaves);
      }
    case MessageArrives(id, message, leaves) =>
      if id in s.sockets && s.sockets[id] == Open {
        MessageKeepsTimers(s, id, message, leaves);
      }
    case SocketCloses(id, leaves) =>
      if id in s.sockets && s.sockets[id] != Closed {
        CloseKeepsTimers(s, id, leaves);
      }
    case TimeoutFires(id, hasUrl, leaves) =>
      if id in s.timeouts {
        TimeoutKeepsTimers(s, id, hasUrl, leaves);
      }
    case Unsubscribe => UnsubscribeKeepsTimers(s);
    case _ =>
  }

  lemma CallKeepsOnline(s: State, call: Call, leaves: bool)
    ensures var next := AfterCall(s, call, leaves);
      LastOnline(next.calls) <==> !leaves && (if call.Online? then call.online else LastOnline(s.calls))
  {
    LastOnlineAppend(s.calls, call);
    LastOnlineAppend(s.calls + [call], Online(false));
  }

  lemma MessageKeepsOnline(s: State, id: nat, message: Message, leaves: bool)
    requires SocketsSound(s) && OnlineSound(s) && id in s.sockets && s.sockets[id] == Open
    ensures OnlineSound(AfterMessage(s, message, leaves))
  {
    CallKeepsOnline(s, Refresh, leaves);
    if message.Notified? {
      var acked := s.(acknowledged := s.acknowledged + [message.id]);
      CallKeepsOnline(acked, Notification(message.id), leaves);
      LastOnlineAppend(AfterCall(acked, Notification(message.id), leaves).calls, Refresh);
    }
  }

  lemma TimeoutKeepsOnline(s: State, id: nat, hasUrl: bool, leaves: bool)
    requires Sound(s) && id in s.timeouts
    ensures OnlineSound(AfterConnect(s.(timeouts := s.timeouts - {id}), hasUrl, leaves))
  {
    hide LastOnline;
    CallKeepsOnline(s.(timeouts := s.timeouts - {id}), Online(false), leaves);
  }

  lemma StepKeepsOnline(s: State, e: Event)
    requires Sound(s)
    ensures OnlineSound(Step(s, e))
  {
    hide TimersSound, LastOnline, AfterMessage, AfterConnect;
    match e
    case SocketOpens(id, leaves) => CallKeepsOnline(s.(sockets := s.sockets[id := Open]), Online(true), leaves);
    case MessageArrives(id, message, leaves) =>
      if id in s.sockets && s.sockets[id] == Open {
        MessageKeepsOnline(s, id, message, leaves);
      }
    case SocketCloses(id, leaves) => CallKeepsOnline(s.(sockets := s.sockets[id := Closed]), Online(false), leaves);
    case TimeoutFires(id, hasUrl, leaves) =>
      if id in s.timeouts {
        TimeoutKeepsOnline(s, id, hasUrl, leaves);
      }
    case Unsubscribe => LastOnlineAppend(s.calls, Online(false));
    case _ =>
  }

  lemma {:induction false} RunKeepsSound(hasUrl: bool, events: seq<Event>)
    ensures Sound(Run(hasUrl, events))
  {
    if events == [] {
      LastOnlineAppend([], Online(false));
    } else {
      RunKeepsSound(hasUrl, events[..|events| - 1]);
      StepKeepsTimers(Run(hasUrl, events[..|events| - 1]), events[|events| - 1]);
      StepKeepsOnline(Run(hasUrl, events[..|events| - 1]), events[|events| - 1]);
    }
  }

  // In every run, handlers that unsubscribe from inside a call included, there is at most one interval
  // and one timeout; until it is stopped the client has a live socket or a pending reconnect, never
  // both, and a live interval finds a socket that has been open, so its send cannot throw; and it
  // reports online exactly from the open event of its socket to its close event.
  lemma TimersAreUnique(hasUrl: bool, events: seq<Event>)
    ensures var s := Run(hasUrl, events);
      && |s.intervals| <= 1 && |s.timeouts| <= 1
      && (!s.stopped ==> (LiveSocket(s) <==> s.timeouts == {}) && (s.intervals != {} ==> OpenedSocket(s)))
      && (LastOnline(s.calls) <==> OpenedSocket(s) && !s.stopped)
  {
    RunKeepsSound(hasUrl, events);
    var s := Run(hasUrl, events);
    if s.timeouts != {} {
      assert s.timeouts == {s.reconnect.value};
    }
  }

  ghost predicate QuietThroughout(hasUrl: bool, events: seq<Event>) {
    Quiet(Run(hasUrl, events)) && (events != [] ==> QuietThroughout(hasUrl, events[..|events| - 1]))
  }

  ghost predicate NoTimerIsLeft(hasUrl: bool, events: seq<Event>) {
    events != [] ==>
      var init, last := events[..|events| - 1], events[|events| - 1];
      NoTimerIsLeft(hasUrl, init) && !LeavesATimer(Run(hasUrl, init), last)
  }

  // A stopped client never has a live timer exactly when no handler unsubscribes from inside the two
  // calls that are followed by setting one.
  lemma {:induction false} StoppedIsQuietIff(hasUrl: bool, events: seq<Event>)
    ensures QuietThroughout(hasUrl, events) <==> NoTimerIsLeft(hasUrl, events)
  {
    hide Step, SocketsSound, TimersSound, OnlineSound, LeavesATimer;
    if events != [] {
      var init := events[..|events| - 1];
      StoppedIsQuietIff(hasUrl, init);
      RunKeepsSound(hasUrl, init);
      StepKeepsTimers(Run(hasUrl, init), events[|events| - 1]);
    }
  }

  // Either call does leave one: the reconnect timeout, and the heartbeat interval.
  lemma HandlersLeaveTimers()
    ensures Run(false, [TimeoutFires(0, false, true)]).stopped
    ensures 1 in Run(false, [TimeoutFires(0, false, true)]).timeouts
    ensures Run(true, [SocketOpens(0, false), MessageArrives(0, Connected, true)]).stopped
    ensures 1 in Run(true, [SocketOpens(0, false), MessageArrives(0, Connected, true)]).intervals
  {
    var timeout := TimeoutFires(0, false, true);
    assert [timeout][..0] == [];
    var opens, arrives := SocketOpens(0, false), MessageArrives(0, Connected, true);
    assert [opens, arrives][..1] == [opens] && [opens][..0] == [];
  }

  // From a stopped client without timers on, whatever unsubscribed it: no timer is set, no socket is
  // opened and no handler is called, whatever else happens.
  lemma {:induction false} StoppedStaysSilent(hasUrl: bool, before: seq<Event>, after: seq<Event>)
    requires Run(hasUrl, before).stopped && Quiet(Run(hasUrl, before))
    requires forall i :: 0 <= i < |after| ==> !after[i].Unsubscribe?
    ensures var s, end := Run(hasUrl, before), Run(hasUrl, before + after);
      && end.stopped && end.intervals == {} && end.timeouts == {}
      && end.calls == s.calls && end.acknowledged == s.acknowledged
      && end.sockets.Keys == s.sockets.Keys
  {
    hide Step, Sound;
    var all := before + after;
    if after == [] {
      assert all == before;
    } else {
      var rest := after[..|after| - 1];
      StoppedStaysSilent(hasUrl, before, rest);
      assert all[..|all| - 1] == before + rest && all[|all| - 1] == after[|after| - 1];
      RunKeepsSound(hasUrl, before + rest);
      StoppedIsSilent(Run(hasUrl, before + rest), after[|after| - 1]);
    }
  }

  // So after unsubscribing from outside the handlers only further unsubscribe calls reach them.
  lemma NothingAfterUnsubscribe(hasUrl: bool, before: seq<Event>, after: seq<Event>)
    requires forall i :: 0 <= i < |after| ==> !after[i].Unsubscribe?
    ensures var s, end := Run(hasUrl, before + [Unsubscribe]), Run(hasUrl, before + [Unsubscribe] + after);
      && end.stopped && end.intervals == {} && end.timeouts == {}
      && end.calls == s.calls && end.acknowledged == s.acknowledged
      && end.sockets.Keys == s.sockets.Keys
  {
    hide Sound, AfterUnsubscribe;
    var all := before + [Unsubscribe];
    assert all[..|all| - 1] == before && all[|all| - 1] == Unsubscribe;
    RunKeepsSound(hasUrl, before);
    JustUnsubscribed(Run(hasUrl, before));
    StoppedStaysSilent(hasUrl, all, after);
  }

  lemma JustUnsubscribed(s: State)
    requires Sound(s)
    ensures var next := Step(s, Unsubscribe);
      next.stopped && next.intervals == {} && next.timeouts == {}
  {
    UnsubscribeKeepsTimers(s);
  }

  lemma StoppedIsSilent(s: State, e: Event)
    requires Sound(s) && s.stopped && s.timeouts == {} && !e.Unsubscribe?
    ensures var next := Step(s, e);
      && next.stopped && next.intervals == s.intervals && next.timeouts == s.timeouts
      && next.calls == s.calls && next.acknowledged == s.acknowledged && next.sockets.Keys == s.sockets.Keys
  {
    if e.SocketCloses? && e.id in s.sockets && s.sockets[e.id] != Closed {
      assert Some(e.id) == s.socket && e.id in s.detached;
    }
  }

  // ---- every message that arrives is answered ----

  // The messages delivered on an open socket, in order.
  function Arrived(hasUrl: bool, events: seq<Event>): seq<Message> {
    if events == [] then []
    else
      var init, last := events[..|events| - 1], events[|events| - 1];
      var s := Run(hasUrl, init);
      Arrived(hasUrl, init)
      + (if last.MessageArrives? && last.id in s.sockets && s.sockets[last.id] == Open then [last.message] else [])
  }

  function NotifiedIds(messages: seq<Message>): seq<string> {
    if messages == [] then []
    else
      var last := messages[|messages| - 1];
      NotifiedIds(messages[..|messages| - 1]) + (if last.Notified? then [last.id] else [])
  }

  function KnownCount(messages: seq<Message>): nat {
    if messages == [] then 0
    else KnownCount(messages[..|messages| - 1]) + (if messages[|messages| - 1].Other? then 0 else 1)
  }

  function ShownIds(calls: seq<Call>): seq<string> {
    if calls == [] then []
    else
      var last := calls[|calls| - 1];
      ShownIds(calls[..|calls| - 1]) + (if last.Notification? then [last.id] else [])
  }

  function RefreshCount(calls: seq<Call>): nat {
    if calls == [] then 0
    else RefreshCount(calls[..|calls| - 1]) + (if calls[|calls| - 1].Refresh? then 1 else 0)
  }

  lemma CallAppended(calls: seq<Call>, c: Call)
    ensures ShownIds(calls + [c]) == ShownIds(calls) + (if c.Notification? then [c.id] else [])
    ensures RefreshCount(calls + [c]) == RefreshCount(calls) + (if c.Refresh? then 1 else 0)
  {
    assert (calls + [c])[..|calls|] == calls;
  }

  lemma MessageAppended(messages: seq<Message>, m: Message)
    ensures NotifiedIds(messages + [m]) == NotifiedIds(messages) + (if m.Notified? then [m.id] else [])
    ensures KnownCount(messages + [m]) == KnownCount(messages) + (if m.Other? then 0 else 1)
  {
    assert (messages + [m])[..|messages|] == messages;
  }

  // What one step adds to the two accounts.
  predicate Adds(s: State, next: State, shown: seq<string>, refreshes: nat) {
    && next.acknowledged == s.acknowledged + shown
    && ShownIds(next.calls) == ShownIds(s.calls) + shown
    && RefreshCount(next.calls) == RefreshCount(s.calls) + refreshes
  }

  lemma CallAdds(s: State, call: Call, leaves: bool)
    ensures var next := AfterCall(s, call, leaves);
      && next.acknowledged == s.acknowledged
      && ShownIds(next.calls) == ShownIds(s.calls) + (if call.Notification? then [call.id] else [])
      && RefreshCount(next.calls) == RefreshCount(s.calls) + (if call.Refresh? then 1 else 0)
  {
    CallAppended(s.calls, call);
    CallAppended(s.calls + [call], Online(false));
  }

  lemma MessageAdds(s: State, id: nat, message: Message, leaves: bool)
    ensures Adds(s, AfterMessage(s, message, leaves), if message.Notified? then [message.id] else [],
                 if message.Other? then 0 else 1)
  {
    hide AfterCall, ShownIds, RefreshCount;
    CallAdds(s, Refresh, leaves);
    if message.Notified? {
      var acked := s.(acknowledged := s.acknowledged + [message.id]);
      CallAdds(acked, Notification(message.id), leaves);
      CallAppended(AfterCall(acked, Notification(message.id), leaves).calls, Refresh);
    }
  }

  lemma OtherStepAdds(s: State, e: Event)
    requires !e.MessageArrives?
    ensures Adds(s, Step(s, e), [], 0)
  {
    hide AfterCall, ShownIds, RefreshCount;
    match e
    case SocketOpens(id, leaves) => CallAdds(s.(sockets := s.sockets[id := Open]), Online(true), leaves);
    case SocketCloses(id, leaves) => CallAdds(s.(sockets := s.sockets[id := Closed]), Online(false), leaves);
    case TimeoutFires(id, hasUrl, leaves) => CallAdds(s.(timeouts := s.timeouts - {id}), Online(false), leaves);
    case Unsubscribe => CallAppended(s.calls, Online(false));
    case _ =>
  }

  // In every run: each notification that arrives is acknowledged and shown, once and in order, and each
  // known message that arrives refreshes the view once; nothing else does any of it.
  lemma {:induction false} EveryMessageIsAnswered(hasUrl: bool, events: seq<Event>)
    ensures var s, messages := Run(hasUrl, events), Arrived(hasUrl, events);
      && s.acknowledged == NotifiedIds(messages) && ShownIds(s.calls) == NotifiedIds(messages)
      && RefreshCount(s.calls) == KnownCount(messages)
  {
    if events == [] {
      CallAppended([], Online(false));
    } else {
      hide Step, ShownIds, RefreshCount, NotifiedIds, KnownCount;
      var init, last := events[..|events| - 1], events[|events| - 1];
      var s := Run(hasUrl, init);
      EveryMessageIsAnswered(hasUrl, init);
      if last.MessageArrives? {
        MessageStepAdds(s, last);
        MessageAppended(Arrived(hasUrl, init), last.message);
        if last.id !in s.sockets || s.sockets[last.id] != Open {
          assert Arrived(hasUrl, events) == Arrived(hasUrl, init);
        }
      } else {
        OtherStepAdds(s, last);
        assert Arrived(hasUrl, events) == Arrived(hasUrl, init);
      }
    }
  }

  lemma MessageStepAdds(s: State, e: Event)
    requires e.MessageArrives?
    ensures if e.id in s.sockets && s.sockets[e.id] == Open
      then Adds(s, Step(s, e), if e.message.Notified? then [e.message.id] else [], if e.message.Other? then 0 else 1)
      else Step(s, e) == s
  {
    MessageAdds(s, e.id, e.message, e.leaves);
  }

  // An open socket that greets the client is given a new heartbeat, which replaces any earlier one.
  lemma GreetingStartsTheHeartbeat(s: State, id: nat)
    requires Sound(s) && id in s.sockets && s.sockets[id] == Open
    ensures var next := Step(s, MessageArrives(id, Connected, false));
      next.intervals == {s.next} && next.next == s.next + 1 && next.timeouts == s.timeouts
  {
    MessageKeepsTimers(s, id, Connected, false);
  }
}

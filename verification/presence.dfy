/**
 The presence hub: every WebSocket connection of a device writes a connected row, registers in the
 hub, and on its way out unregisters and perhaps writes a disconnected row. These are separate steps,
 and any number of connections interleave.
 */
module Presence {
  import opened Wrappers

  type Device = string
  type Conn = nat

  // Where one connection stands: row written, reading, left the read loop, removed from the hub but
  // its disconnect not yet written, done.
  datatype Phase = Connecting | Reading | Leaving | Disconnecting | Finished

  datatype Connection = Connection(device: Device, phase: Phase)

  datatype State = State(
    clients: map<Device, Conn>,
    connected: map<Device, bool>,
    conns: map<Conn, Connection>,
    replaced: set<Conn>)

  const START := State(map[], map[], map[], {})

  datatype Event =
    | Connect(conn: Conn, device: Device, trusted: bool)
    | Register(conn: Conn)
    | Heartbeat(conn: Conn)
    | Leave(conn: Conn)
    | Unregister(conn: Conn)
    | Disconnect(conn: Conn, written: bool)

  // ---- the hub itself ----

  function Replacing(clients: map<Device, Conn>, device: Device, conn: Conn): map<Device, Conn> {
    clients[device := conn]
  }

  predicate IsCurrent(clients: map<Device, Conn>, device: Device, conn: Conn) {
    device in clients && clients[device] == conn
  }

  class Hub {
    var clients: map<Device, Conn>

    constructor ()
      ensures clients == map[]
    {
      clients := map[];
    }

    // Register answers with the connection it must cancel.
    method Register(device: Device, current: Conn) returns (previous: Option<Conn>)
      modifies this
      ensures clients == Replacing(old(clients), device, current)
      ensures previous == if device in old(clients) then Some(old(clients)[device]) else None
    {
      previous := if device in clients then Some(clients[device]) else None;
      clients := clients[device := current];
    }

    // Only the connection the hub still lists is removed, and only its own entry.
    method Unregister(device: Device, current: Conn) returns (removed: bool)
      modifies this
      ensures removed == IsCurrent(old(clients), device, current)
      ensures clients == if removed then old(clients) - {device} else old(clients)
    {
      if device !in clients || clients[device] != current {
        return false;
      }
      clients := clients - {device};
      return true;
    }
  }

  // ---- the steps ----

  predicate At(s: State, conn: Conn, phase: Phase) {
    conn in s.conns && s.conns[conn].phase == phase
  }

  function Moved(s: State, conn: Conn, phase: Phase): State
    requires conn in s.conns
  {
    s.(conns := s.conns[conn := s.conns[conn].(phase := phase)])
  }

  predicate RowConnected(s: State, device: Device) {
    device in s.connected && s.connected[device]
  }

  function Step(s: State, e: Event): State {
    match e
    case Connect(conn, device, trusted) =>
      if conn in s.conns then s
      else if !trusted then s.(conns := s.conns[conn := Connection(device, Finished)])
      else
        s.(conns := s.conns[conn := Connection(device, Connecting)], connected := s.connected[device := true])
    case Register(conn) =>
      if !At(s, conn, Connecting) then s
      else
        var device := s.conns[conn].device;
        var gone := if device in s.clients then {s.clients[device]} else {};
        Moved(s, conn, Reading).(clients := Replacing(s.clients, device, conn), replaced := s.replaced + gone)
    case Heartbeat(conn) =>
      if At(s, conn, Reading) && (!RowConnected(s, s.conns[conn].device) || conn in s.replaced)
      then Moved(s, conn, Leaving) else s
    case Leave(conn) =>
      if At(s, conn, Reading) then Moved(s, conn, Leaving) else s
    case Unregister(conn) =>
      if !At(s, conn, Leaving) then s
      else
        var device := s.conns[conn].device;
        if IsCurrent(s.clients, device, conn)
        then Moved(s, conn, Disconnecting).(clients := s.clients - {device})
        else Moved(s, conn, Finished)
    case Disconnect(conn, written) =>
      if !At(s, conn, Disconnecting) then s
      else
        var device := s.conns[conn].device;
        var rows := if written && device in s.connected then s.connected[device := false] else s.connected;
        Moved(s, conn, Finished).(connected := rows)
  }

  function Run(s: State, events: seq<Event>): State {
    if events == [] then s else Step(Run(s, events[..|events| - 1]), events[|events| - 1])
  }

  // ---- replaced connections ----

  // A listed connection is reading or leaving, and not replaced; a replaced one is not listed and
  // past the point where it could disconnect.
  ghost predicate HubSound(s: State) {
    && (forall d :: d in s.clients ==>
      && s.clients[d] in s.conns && s.conns[s.clients[d]].device == d
      && s.conns[s.clients[d]].phase in {Reading, Leaving} && s.clients[d] !in s.replaced)
    && (forall c :: c in s.replaced ==> c in s.conns && s.conns[c].phase in {Reading, Leaving, Finished})
    && (forall c :: c in s.conns && s.conns[c].phase in {Reading, Leaving} && c !in s.replaced ==>
      IsCurrent(s.clients, s.conns[c].device, c))
  }

  lemma StepKeepsHub(s: State, e: Event)
    requires HubSound(s)
    ensures HubSound(Step(s, e)) && s.replaced <= Step(s, e).replaced
  {
    hide HubSound;
    if e.Register? {
      RegisterKeepsHub(s, e.conn);
    } else {
      OtherStepKeepsHub(s, e);
    }
  }

  lemma RegisterKeepsHub(s: State, conn: Conn)
    requires HubSound(s)
    ensures HubSound(Step(s, Event.Register(conn))) && s.replaced <= Step(s, Event.Register(conn)).replaced
  {
  }

  lemma OtherStepKeepsHub(s: State, e: Event)
    requires HubSound(s) && !e.Register?
    ensures HubSound(Step(s, e)) && s.replaced <= Step(s, e).replaced
  {
    hide Replacing;
  }

  lemma {:induction false} RunKeepsHub(s: State, events: seq<Event>)
    requires HubSound(s)
    ensures HubSound(Run(s, events)) && s.replaced <= Run(s, events).replaced
  {
    if events != [] {
      RunKeepsHub(s, events[..|events| - 1]);
      StepKeepsHub(Run(s, events[..|events| - 1]), events[|events| - 1]);
    }
  }

  // However late a replaced connection leaves, no step of its own touches the hub or the row.
  lemma ReplacedConnectionTouchesNothing(before: seq<Event>, after: seq<Event>, conn: Conn, e: Event)
    requires conn in Run(START, before).replaced && e.conn == conn
    ensures var s := Run(Run(START, before), after);
      Step(s, e).clients == s.clients && Step(s, e).connected == s.connected
  {
    RunKeepsHub(START, before);
    RunKeepsHub(Run(START, before), after);
  }

  // An entry of the hub changes hands only by a registration for the same device, and goes only by
  // its own connection's unregistration.
  lemma EntryLeavesByItsOwner(s: State, e: Event, device: Device)
    requires HubSound(s) && device in s.clients
    ensures var next := Step(s, e);
      IsCurrent(next.clients, device, s.clients[device])
      || (e == Unregister(s.clients[device]) && device !in next.clients)
      || (e.Register? && At(s, e.conn, Connecting) && s.conns[e.conn].device == device
          && IsCurrent(next.clients, device, e.conn) && s.clients[device] in next.replaced)
  {
  }

  // ---- after the last connection ----

  // What happened to a device's row: never connected, or since it was last connected so many
  // disconnects were attempted and so many of them failed.
  datatype Standing = NeverConnected | Open(attempts: nat, failed: nat)

  function Follow(s: State, e: Event, device: Device, standing: Standing): Standing {
    if e.Connect? && e.device == device && e.trusted && e.conn !in s.conns then Open(0, 0)
    else if e.Disconnect? && At(s, e.conn, Disconnecting) && s.conns[e.conn].device == device && standing.Open?
    then Open(standing.attempts + 1, standing.failed + (if e.written then 0 else 1))
    else standing
  }

  function StandingAfter(events: seq<Event>, device: Device): Standing {
    if events == [] then NeverConnected
    else
      var init := events[..|events| - 1];
      Follow(Run(START, init), events[|events| - 1], device, StandingAfter(init, device))
  }

  // The connection that will still attempt the disconnect of a connected device.
  ghost predicate Answerable(s: State, device: Device, c: Conn) {
    && c in s.conns && s.conns[c].device == device
    && (s.conns[c].phase in {Connecting, Disconnecting} || IsCurrent(s.clients, device, c))
  }

  ghost predicate RowSound(s: State, device: Device, standing: Standing) {
    && (RowConnected(s, device) <==> standing.Open? && standing.failed == standing.attempts)
    && (standing.Open? ==> standing.failed <= standing.attempts && device in s.connected)
    && (standing.Open? && standing.attempts == 0 ==> exists c :: Answerable(s, device, c))
  }

  lemma StepKeepsAnswer(s: State, e: Event, device: Device, standing: Standing)
    requires HubSound(s) && RowSound(s, device, standing)
    requires Follow(s, e, device, standing) == Open(0, 0)
    ensures exists c :: Answerable(Step(s, e), device, c)
  {
    var next := Step(s, e);
    if e.Connect? && e.device == device && e.conn !in s.conns && e.trusted {
      assert Answerable(next, device, e.conn);
    } else {
      var c :| Answerable(s, device, c);
      if e.Register? && At(s, e.conn, Connecting) && s.conns[e.conn].device == device {
        assert Answerable(next, device, e.conn);
      } else {
        assert Answerable(next, device, c);
      }
    }
  }

  lemma StepKeepsRow(s: State, e: Event, device: Device, standing: Standing)
    requires HubSound(s) && RowSound(s, device, standing)
    ensures RowSound(Step(s, e), device, Follow(s, e, device, standing))
  {
    hide HubSound, Answerable;
    var after := Follow(s, e, device, standing);
    if after.Open? && after.attempts == 0 {
      assert after == Open(0, 0);
      StepKeepsAnswer(s, e, device, standing);
    }
  }

  lemma {:induction false} RunKeepsRow(events: seq<Event>, device: Device)
    ensures HubSound(Run(START, events)) && RowSound(Run(START, events), device, StandingAfter(events, device))
  {
    RunKeepsHub(START, events);
    if events != [] {
      hide HubSound, RowSound, Step, Follow;
      var init := events[..|events| - 1];
      RunKeepsRow(init, device);
      StepKeepsRow(Run(START, init), events[|events| - 1], device, StandingAfter(init, device));
    }
  }

  predicate AllFinished(s: State, device: Device) {
    forall c :: c in s.conns && s.conns[c].device == device ==> s.conns[c].phase == Finished
  }

  // Once every connection of a device has finished, the hub does not list it and somebody attempted
  // to disconnect its row since it was last connected; the row is disconnected exactly when it never
  // was connected or one of those attempts succeeded.
  lemma FinishedDeviceIff(events: seq<Event>, device: Device)
    requires AllFinished(Run(START, events), device)
    ensures var s, standing := Run(START, events), StandingAfter(events, device);
      && device !in s.clients
      && (standing.NeverConnected? || standing.attempts > 0)
      && (!RowConnected(s, device) <==> standing.NeverConnected? || standing.failed < standing.attempts)
  {
    RunKeepsRow(events, device);
    var s := Run(START, events);
    assert !exists c :: Answerable(s, device, c);
  }

  // The device's own disconnect writes all succeed.
  ghost predicate OwnWritesSucceed(events: seq<Event>, device: Device) {
    forall i :: 0 <= i < |events| && events[i].Disconnect? && Owns(Run(START, events), device, events[i].conn) ==>
      events[i].written
  }

  predicate Owns(s: State, device: Device, conn: Conn) {
    conn in s.conns && s.conns[conn].device == device
  }

  lemma StepKeepsOwner(s: State, e: Event, device: Device, conn: Conn)
    requires Owns(s, device, conn)
    ensures Owns(Step(s, e), device, conn)
  {
  }

  lemma {:induction false} RunKeepsOwners(events: seq<Event>, n: nat, device: Device, conn: Conn)
    requires n <= |events| && Owns(Run(START, events[..n]), device, conn)
    ensures Owns(Run(START, events), device, conn)
    decreases |events|
  {
    if n == |events| {
      assert events[..n] == events;
    } else {
      hide Step, Owns;
      assert events[..|events| - 1][..n] == events[..n];
      RunKeepsOwners(events[..|events| - 1], n, device, conn);
      StepKeepsOwner(Run(START, events[..|events| - 1]), events[|events| - 1], device, conn);
    }
  }

  lemma {:induction false} NothingFailed(events: seq<Event>, n: nat, device: Device)
    requires OwnWritesSucceed(events, device) && n <= |events|
    ensures StandingAfter(events[..n], device).Open? ==> StandingAfter(events[..n], device).failed == 0
  {
    if n > 0 {
      NothingFailed(events, n - 1, device);
      assert events[..n][..n - 1] == events[..n - 1];
      var s, e := Run(START, events[..n - 1]), events[n - 1];
      if e.Disconnect? && Owns(s, device, e.conn) {
        RunKeepsOwners(events, n - 1, device, e.conn);
      }
    }
  }

  // With its own store calls succeeding, a device nobody is connected to is listed nowhere.
  lemma NobodyLeftMeansDisconnected(events: seq<Event>, device: Device)
    requires OwnWritesSucceed(events, device) && AllFinished(Run(START, events), device)
    ensures device !in Run(START, events).clients && !RowConnected(Run(START, events), device)
  {
    FinishedDeviceIff(events, device);
    NothingFailed(events, |events|, device);
    assert events[..|events|] == events;
  }

  lemma RunNext(events: seq<Event>, n: nat, before: State, after: State)
    requires n < |events| && Run(START, events[..n]) == before && Step(before, events[n]) == after
    ensures Run(START, events[..n + 1]) == after
  {
    assert events[..n + 1][..n] == events[..n];
  }

  // One connection from its first write to its last.
  lemma WholeVisit(events: seq<Event>, device: Device)
    requires |events| >= 4
    requires events[..4] == [Connect(0, device, true), Register(0), Leave(0), Unregister(0)]
    ensures Run(START, events[..4])
         == State(map[], map[device := true], map[0 := Connection(device, Disconnecting)], {})
  {
    assert events[0] == events[..4][0] && events[1] == events[..4][1];
    assert events[2] == events[..4][2] && events[3] == events[..4][3];
    assert events[..0] == [] && Run(START, events[..0]) == START;
    hide Run;
    var rows: map<Device, bool> := map[device := true];
    var s1 := State(map[], rows, map[0 := Connection(device, Connecting)], {});
    var s2 := State(map[device := 0], rows, map[0 := Connection(device, Reading)], {});
    var s3 := State(map[device := 0], rows, map[0 := Connection(device, Leaving)], {});
    RunNext(events, 0, START, s1);
    RunNext(events, 1, s1, s2);
    RunNext(events, 2, s2, s3);
    RunNext(events, 3, s3, State(map[], rows, map[0 := Connection(device, Disconnecting)], {}));
  }

  // The failing case is reachable: a lost disconnect leaves the row connected with nobody connected.
  lemma LostDisconnectLeavesTheRow(device: Device)
    ensures var events := [Connect(0, device, true), Register(0), Leave(0), Unregister(0), Disconnect(0, false)];
      var s := Run(START, events);
      RowConnected(s, device) && s.clients == map[] && AllFinished(s, device)
  {
    var events := [Connect(0, device, true), Register(0), Leave(0), Unregister(0), Disconnect(0, false)];
    WholeVisit(events, device);
    assert events[..5] == events;
    RunNext(events, 4, State(map[], map[device := true], map[0 := Connection(device, Disconnecting)], {}),
            State(map[], map[device := true], map[0 := Connection(device, Finished)], {}));
  }

  // ---- while a connection is current ----

  // No disconnect of the device is under way.
  predicate NoStraggler(s: State, device: Device) {
    forall c :: c in s.conns && s.conns[c].device == device ==> s.conns[c].phase != Disconnecting
  }

  ghost predicate StaysCurrent(s: State, events: seq<Event>, device: Device, conn: Conn) {
    forall n :: 0 <= n <= |events| ==> IsCurrent(Run(s, events[..n]).clients, device, conn)
  }

  lemma QuietStep(s: State, e: Event, device: Device, conn: Conn)
    requires HubSound(s) && IsCurrent(s.clients, device, conn) && IsCurrent(Step(s, e).clients, device, conn)
    requires RowConnected(s, device) && NoStraggler(s, device)
    ensures RowConnected(Step(s, e), device) && NoStraggler(Step(s, e), device)
  {
  }

  lemma {:induction false} QuietRowStays(s: State, events: seq<Event>, device: Device, conn: Conn)
    requires HubSound(s) && StaysCurrent(s, events, device, conn)
    requires RowConnected(s, device) && NoStraggler(s, device)
    ensures RowConnected(Run(s, events), device) && NoStraggler(Run(s, events), device)
  {
    if events != [] {
      var init := events[..|events| - 1];
      forall n | 0 <= n <= |init|
        ensures IsCurrent(Run(s, init[..n]).clients, device, conn)
      {
        assert init[..n] == events[..n];
      }
      QuietRowStays(s, init, device, conn);
      RunKeepsHub(s, init);
      assert events[..|events|] == events;
      QuietStep(Run(s, init), events[|events| - 1], device, conn);
    }
  }

  // The row of the listed connection stays connected through every continuation that keeps it listed
  // exactly when it is connected now and no earlier connection still has its disconnect to write.
  lemma CurrentRowStaysIff(s: State, device: Device, conn: Conn)
    requires HubSound(s) && IsCurrent(s.clients, device, conn)
    ensures (forall events :: StaysCurrent(s, events, device, conn) ==> RowConnected(Run(s, events), device))
      <==> RowConnected(s, device) && NoStraggler(s, device)
  {
    if !NoStraggler(s, device) {
      var c :| c in s.conns && s.conns[c].device == device && s.conns[c].phase == Disconnecting;
      StragglerWrites(s, device, conn, c);
    } else if !RowConnected(s, device) {
      assert StaysCurrent(s, [], device, conn) && !RowConnected(Run(s, []), device);
    } else {
      forall events | StaysCurrent(s, events, device, conn)
        ensures RowConnected(Run(s, events), device)
      {
        QuietRowStays(s, events, device, conn);
      }
    }
  }

  lemma StragglerWrites(s: State, device: Device, conn: Conn, c: Conn)
    requires HubSound(s) && IsCurrent(s.clients, device, conn)
    requires c in s.conns && s.conns[c].device == device && s.conns[c].phase == Disconnecting
    ensures StaysCurrent(s, [Disconnect(c, true)], device, conn)
    ensures !RowConnected(Run(s, [Disconnect(c, true)]), device)
  {
    var late := [Disconnect(c, true)];
    assert late[..0] == [] && late[..1] == late;
    assert Run(s, late) == Step(s, late[0]);
  }

  // The failing case is reachable: a new connection registers before its predecessor's disconnect.
  lemma LiveConnectionLosesItsRow(device: Device)
    ensures var events := [Connect(0, device, true), Register(0), Leave(0), Unregister(0),
                           Connect(1, device, true), Register(1), Disconnect(0, true)];
      var s := Run(START, events);
      HubSound(s) && IsCurrent(s.clients, device, 1) && At(s, 1, Reading) && !RowConnected(s, device)
  {
    var events := [Connect(0, device, true), Register(0), Leave(0), Unregister(0),
                   Connect(1, device, true), Register(1), Disconnect(0, true)];
    WholeVisit(events, device);
    RunKeepsHub(START, events);
    hide Run, Step, HubSound;
    assert events[..7] == events;
    var rows: map<Device, bool> := map[device := true];
    var late := Connection(device, Disconnecting);
    var s4 := State(map[], rows, map[0 := late], {});
    var s5 := State(map[], rows, map[0 := late, 1 := Connection(device, Connecting)], {});
    var s6 := State(map[device := 1], rows, map[0 := late, 1 := Connection(device, Reading)], {});
    SecondVisit(device, s4, s5, s6);
    RunNext(events, 4, s4, s5);
    RunNext(events, 5, s5, s6);
    RunNext(events, 6, s6, s6.(conns := s6.conns[0 := late.(phase := Finished)], connected := map[device := false]));
  }

  lemma SecondVisit(device: Device, s4: State, s5: State, s6: State)
    requires var rows, late := map[device := true], Connection(device, Disconnecting);
      && s4 == State(map[], rows, map[0 := late], {})
      && s5 == State(map[], rows, map[0 := late, 1 := Connection(device, Connecting)], {})
      && s6 == State(map[device := 1], rows, map[0 := late, 1 := Connection(device, Reading)], {})
    ensures Step(s4, Connect(1, device, true)) == s5 && Step(s5, Register(1)) == s6
    ensures Step(s6, Disconnect(0, true))
         == s6.(conns := s6.conns[0 := Connection(device, Finished)], connected := map[device := false])
  {
    assert s5.conns[1 := Connection(device, Reading)] == s6.conns;
    assert s6.connected[device := false] == map[device := false];
  }

  // ---- recovering from a lost row ----

  predicate PastReading(s: State, conn: Conn) {
    conn in s.conns && s.conns[conn].phase in {Leaving, Disconnecting, Finished}
  }

  predicate PastTheHub(s: State, conn: Conn) {
    conn in s.conns && s.conns[conn].phase in {Disconnecting, Finished}
  }

  lemma StepKeepsLeaving(s: State, e: Event, conn: Conn)
    ensures PastReading(s, conn) ==> PastReading(Step(s, e), conn)
    ensures PastTheHub(s, conn) ==> PastTheHub(Step(s, e), conn)
  {
  }

  lemma HeartbeatLeaves(s: State, device: Device, conn: Conn)
    requires HubSound(s) && IsCurrent(s.clients, device, conn) && !RowConnected(s, device)
    ensures PastReading(Step(s, Heartbeat(conn)), conn)
  {
  }

  lemma UnregisterPasses(s: State, conn: Conn)
    requires PastReading(s, conn)
    ensures PastTheHub(Step(s, Unregister(conn)), conn)
  {
  }

  lemma PastTheHubIsUnlisted(s: State, conn: Conn)
    requires HubSound(s) && PastTheHub(s, conn)
    ensures forall d :: !IsCurrent(s.clients, d, conn)
  {
  }

  lemma {:induction false} RunKeepsLeaving(s: State, events: seq<Event>, conn: Conn)
    ensures PastReading(s, conn) ==> PastReading(Run(s, events), conn)
    ensures PastTheHub(s, conn) ==> PastTheHub(Run(s, events), conn)
  {
    hide Step, PastReading, PastTheHub;
    if events != [] {
      RunKeepsLeaving(s, events[..|events| - 1], conn);
      StepKeepsLeaving(Run(s, events[..|events| - 1]), events[|events| - 1], conn);
    }
  }

  lemma {:induction false} RunOver(s: State, a: seq<Event>, b: seq<Event>)
    ensures Run(s, a + b) == Run(Run(s, a), b)
  {
    if b == [] {
      assert a + b == a;
    } else {
      RunOver(s, a, b[..|b| - 1]);
      assert (a + b)[..|a + b| - 1] == a + b[..|b| - 1];
    }
  }

  // A listed connection whose row was lost is out of the hub for good once it has sent its next
  // heartbeat and unregistered, whatever other events come in between and after.
  lemma LostRowLeavesTheHub(
      before: seq<Event>, between: seq<Event>, after: seq<Event>, device: Device, conn: Conn)
    requires var s := Run(START, before);
      IsCurrent(s.clients, device, conn) && !RowConnected(s, device)
    ensures var end := Run(START, before + [Heartbeat(conn)] + between + [Unregister(conn)] + after);
      PastTheHub(end, conn) && forall d :: !IsCurrent(end.clients, d, conn)
  {
    var s := Run(START, before);
    RunKeepsHub(START, before);
    hide HubSound, Step, PastReading, PastTheHub;
    HeartbeatLeaves(s, device, conn);
    var left := before + [Heartbeat(conn)];
    assert left[..|left| - 1] == before;
    assert PastReading(Run(START, left), conn);
    RunKeepsLeaving(Run(START, left), between, conn);
    RunOver(START, left, between);
    var gone := left + between + [Unregister(conn)];
    assert gone[..|gone| - 1] == left + between;
    UnregisterPasses(Run(START, left + between), conn);
    RunKeepsLeaving(Run(START, gone), after, conn);
    RunOver(START, gone, after);
    RunKeepsHub(START, gone + after);
    PastTheHubIsUnlisted(Run(START, gone + after), conn);
  }

  // A heartbeat ends a reading connection exactly when its row was lost or another connection of its
  // device has taken its place.
  lemma HeartbeatEndsIff(before: seq<Event>, conn: Conn)
    requires At(Run(START, before), conn, Reading)
    ensures var s := Run(START, before);
      PastReading(Step(s, Heartbeat(conn)), conn) <==>
        !RowConnected(s, s.conns[conn].device) || !IsCurrent(s.clients, s.conns[conn].device, conn)
  {
    RunKeepsHub(START, before);
  }

  // So a replaced connection finishes with its next heartbeat and its unregistration, whatever comes in
  // between, and has no disconnect to write.
  lemma ReplacedConnectionFinishes(before: seq<Event>, between: seq<Event>, conn: Conn)
    requires conn in Run(START, before).replaced
    ensures var end := Run(START, before + [Heartbeat(conn)] + between + [Unregister(conn)]);
      conn in end.conns && end.conns[conn].phase == Finished
  {
    hide HubSound, Step, PastReading;
    var s := Run(START, before);
    RunKeepsHub(START, before);
    ReplacedHeartbeat(s, conn);
    var left := before + [Heartbeat(conn)];
    assert left[..|left| - 1] == before;
    RunKeepsHub(START, left);
    RunKeepsHub(Run(START, left), between);
    RunKeepsLeaving(Run(START, left), between, conn);
    RunOver(START, left, between);
    var gone := left + between + [Unregister(conn)];
    assert gone[..|gone| - 1] == left + between;
    ReplacedUnregisters(Run(START, left + between), conn);
  }

  lemma ReplacedHeartbeat(s: State, conn: Conn)
    requires HubSound(s) && conn in s.replaced
    ensures PastReading(Step(s, Heartbeat(conn)), conn) && conn in Step(s, Heartbeat(conn)).replaced
  {
  }

  lemma ReplacedUnregisters(s: State, conn: Conn)
    requires HubSound(s) && conn in s.replaced && PastReading(s, conn)
    ensures At(Step(s, Event.Unregister(conn)), conn, Finished)
  {
  }
}

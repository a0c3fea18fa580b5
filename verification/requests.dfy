/**
 A transfer request, its validation, and the rows the service prepares from it
 (internal/transfer/service.go).
 */
module Requests {
  import Text
  import opened Domain
  import opened ChunkMath

  newtype byte = x: int | 0 <= x < 256
  type Bytes = seq<byte>
  type Id = string
  type Time = int

  const DAY := 24 * 60 * 60 * 1_000_000_000
  const MAX_RECIPIENTS := 100

  datatype ContentType = Text | Url | ImageContent | FileContent | Notification
  {
    predicate IsText() { this in {Text, Url, Notification} }
  }

  datatype TargetType = SingleDevice | MultipleDevices | AllDevices | GroupAll | GroupSelected

  datatype File = File(name: string, size: int, sha256: Bytes, chunkSize: int, chunkCount: int)

  datatype Request = Request(
    targetType: TargetType, targetDevices: seq<Id>, group: string, lanAvailable: seq<Id>,
    contentType: ContentType, content: Bytes, files: seq<File>, mode: RouteMode, allowLarge: bool,
    wrappedKeys: map<Id, Bytes>)

  predicate HasDuplicates(values: seq<string>) {
    "" in values || exists i, j :: 0 <= i < j < |values| && values[i] == values[j]
  }

  // strings.TrimSpace leaves the name as it is.
  predicate Trimmed(name: string) {
    name != "" ==> !Text.IsSpace(name[0]) && !Text.IsSpace(name[|name| - 1])
  }

  predicate ValidFile(file: File) {
    && file.name != "" && Trimmed(file.name)
    && '/' !in file.name && '\\' !in file.name && '\0' !in file.name
    && file.name != "." && file.name != ".."
    && file.size >= 0 && |file.sha256| == 32 && file.chunkSize > 0
    && file.chunkCount == ChunkCount(file.size, file.chunkSize)
  }

  predicate ValidRequest(request: Request) {
    && !HasDuplicates(request.targetDevices)
    && (request.targetType in {GroupAll, GroupSelected} <==> request.group != "")
    && (request.targetType == SingleDevice ==> |request.targetDevices| == 1)
    && (request.targetType in {MultipleDevices, GroupSelected} ==> |request.targetDevices| != 0)
    && (if request.contentType.IsText() then request.content != [] && request.files == []
        else request.files != [] && forall f :: f in request.files ==> ValidFile(f))
  }

  // hasDuplicates walks the list with a set of the values seen so far.
  method CheckDuplicates(values: seq<string>) returns (found: bool)
    ensures found == HasDuplicates(values)
  {
    var seen: set<string> := {};
    for i := 0 to |values|
      invariant "" !in values[..i]
      invariant forall v :: v in seen <==> v in values[..i]
      invariant forall j, k :: 0 <= j < k < i ==> values[j] != values[k]
    {
      if values[i] == "" || values[i] in seen {
        return true;
      }
      seen := seen + {values[i]};
    }
    return false;
  }

  datatype PreparedTarget = PreparedTarget(device: Id, route: Route, status: Status)

  datatype PreparedFileTarget = PreparedFileTarget(fileIndex: nat, device: Id, route: Route, status: Status)

  datatype Prepared = Prepared(
    files: seq<File>, targets: seq<PreparedTarget>, fileTargets: seq<PreparedFileTarget>,
    status: Status, createdAt: Time, expiresAt: Time)

  function TextRoute(request: Request, device: Id): Route {
    SelectRoute(RouteRequest(request.mode, device in request.lanAvailable, true, true, 0, false))
  }

  function FileRoute(request: Request, file: File, device: Id): Route {
    SelectRoute(RouteRequest(
      request.mode, device in request.lanAvailable, true, false, file.size, request.allowLarge))
  }

  function OnlyRoute(routes: set<Route>): Route {
    if |routes| != 1 then Mixed
    else
      assert exists r :: r in routes by { if routes == {} { assert false; } }
      assert forall r, s | r in routes && s in routes :: r == s by { Singleton(routes); }
      var r :| r in routes; r
  }

  lemma Singleton<T>(s: set<T>)
    requires |s| == 1
    ensures forall x, y :: x in s && y in s ==> x == y
  {
    forall x, y | x in s && y in s
      ensures x == y
    {
      var rest := s - {x};
      assert |rest| == 0;
    }
  }

  function DeviceRoutes(request: Request, device: Id): set<Route> {
    set f | f in request.files :: FileRoute(request, f, device)
  }

  // The route of the whole target: the one its files agree on, or MIXED.
  function TargetRoute(request: Request, device: Id): Route {
    if request.contentType.IsText() then TextRoute(request, device)
    else OnlyRoute(DeviceRoutes(request, device))
  }

  function TargetRow(request: Request, device: Id): PreparedTarget {
    var route := TargetRoute(request, device);
    PreparedTarget(device, route, InitialStatus(route))
  }

  function TargetRows(request: Request, devices: seq<Id>): seq<PreparedTarget> {
    if devices == [] then []
    else TargetRows(request, devices[..|devices| - 1]) + [TargetRow(request, devices[|devices| - 1])]
  }

  function FileTargetRow(request: Request, fileIndex: nat, device: Id): PreparedFileTarget
    requires fileIndex < |request.files|
  {
    var route := FileRoute(request, request.files[fileIndex], device);
    PreparedFileTarget(fileIndex, device, route, InitialStatus(route))
  }

  // The rows of one device, for the first n files.
  function DeviceFileTargets(request: Request, device: Id, n: nat): seq<PreparedFileTarget>
    requires n <= |request.files|
  {
    if n == 0 then []
    else DeviceFileTargets(request, device, n - 1) + [FileTargetRow(request, n - 1, device)]
  }

  function FileTargetRows(request: Request, devices: seq<Id>): seq<PreparedFileTarget> {
    if devices == [] then []
    else
      var last := DeviceFileTargets(request, devices[|devices| - 1], |request.files|);
      FileTargetRows(request, devices[..|devices| - 1]) + last
  }

  function AggregateStatus(targets: seq<PreparedTarget>): Status {
    if forall t :: t in targets ==> t.status == WaitingForLan then WaitingForLan else Queued
  }

  // What Service.Create hands to the store.
  function Prepare(request: Request, devices: seq<Id>, now: Time): Prepared {
    var text := request.contentType.IsText();
    var targets := TargetRows(request, devices);
    Prepared(
      request.files, targets, if text then [] else FileTargetRows(request, devices),
      AggregateStatus(targets), now, now + (if text then 90 else 7) * DAY)
  }

  lemma PreparedCopies(request: Request, devices: seq<Id>, now: Time)
    ensures Prepare(request, devices, now).createdAt == now
    ensures Prepare(request, devices, now).files == request.files
  {
  }

  // Service.Create refuses an empty or oversized audience and any device without a wrapped key.
  predicate Deliverable(request: Request, devices: seq<Id>) {
    && 0 < |devices| <= MAX_RECIPIENTS
    && forall d :: d in devices ==> d in request.wrappedKeys && request.wrappedKeys[d] != []
  }

  // The inner loop of Service.Create: one device against every file.
  method PrepareDevice(request: Request, device: Id) returns (rows: seq<PreparedFileTarget>, route: Route)
    ensures rows == DeviceFileTargets(request, device, |request.files|)
    ensures route == OnlyRoute(DeviceRoutes(request, device))
  {
    rows := [];
    var routes: set<Route> := {};
    for n := 0 to |request.files|
      invariant rows == DeviceFileTargets(request, device, n)
      invariant routes == set i | 0 <= i < n :: FileRoute(request, request.files[i], device)
    {
      var selected := FileRoute(request, request.files[n], device);
      routes := routes + {selected};
      rows := rows + [PreparedFileTarget(n, device, selected, InitialStatus(selected))];
    }
    assert routes == DeviceRoutes(request, device) by {
      forall f | f in request.files
        ensures FileRoute(request, f, device) in routes
      {
        var i :| 0 <= i < |request.files| && request.files[i] == f;
      }
    }
    route := OnlyRoute(routes);
  }

  // Service.Create fills the rows in nested loops over devices and files.
  method PrepareRows(request: Request, devices: seq<Id>, now: Time) returns (prepared: Prepared)
    ensures prepared == Prepare(request, devices, now)
  {
    hide DeviceFileTargets, TextRoute, DeviceRoutes, OnlyRoute, InitialStatus, AggregateStatus;
    var text := request.contentType.IsText();
    var targets, fileTargets := [], [];
    for i := 0 to |devices|
      invariant targets == TargetRows(request, devices[..i])
      invariant fileTargets == if text then [] else FileTargetRows(request, devices[..i])
    {
      var device := devices[i];
      assert devices[..i + 1] == devices[..i] + [device];
      var route;
      if text {
        route := TextRoute(request, device);
      } else {
        var rows;
        rows, route := PrepareDevice(request, device);
        fileTargets := fileTargets + rows;
      }
      targets := targets + [PreparedTarget(device, route, InitialStatus(route))];
    }
    assert devices[..|devices|] == devices;
    prepared := Prepared(
      request.files, targets, fileTargets, AggregateStatus(targets),
      now, now + (if text then 90 else 7) * DAY);
  }

  lemma {:induction false} DeviceFileTargetsExact(request: Request, device: Id, n: nat)
    requires n <= |request.files|
    ensures |DeviceFileTargets(request, device, n)| == n
    ensures forall i :: 0 <= i < n ==>
      DeviceFileTargets(request, device, n)[i] == FileTargetRow(request, i, device)
  {
    if n > 0 {
      DeviceFileTargetsExact(request, device, n - 1);
    }
  }

  // The prepared file rows are exactly the product of the files and the devices.
  lemma {:induction false} FileTargetsAreFullProduct(request: Request, devices: seq<Id>)
    ensures forall row: PreparedFileTarget :: row in FileTargetRows(request, devices) <==>
      row.fileIndex < |request.files| && row.device in devices
      && row == FileTargetRow(request, row.fileIndex, row.device)
  {
    if devices != [] {
      var init, last := devices[..|devices| - 1], devices[|devices| - 1];
      FileTargetsAreFullProduct(request, init);
      DeviceFileTargetsExact(request, last, |request.files|);
      var rows := DeviceFileTargets(request, last, |request.files|);
      assert devices == init + [last];
      forall row: PreparedFileTarget |
        row.fileIndex < |request.files| && row.device in devices
        && row == FileTargetRow(request, row.fileIndex, row.device)
        ensures row in FileTargetRows(request, devices)
      {
        if row.device == last {
          assert rows[row.fileIndex] == row;
        }
      }
    }
  }
}

/**
 What a created transfer looks like, from the fields of its request: the route and status of every row,
 and how long each is kept.
 */
module Routes {
  import opened Wrappers
  import opened Domain
  import opened Requests
  import opened Tables
  import Accounting
  import ChunkMath
  import Text
  import opened Transactions
  import opened Runs
  import opened Consistency
  import opened Quotas

  // How one device is to get one content: over the LAN when it can be reached there and the request
  // lets it, through the node when the request lets it and the content is not too large.
  predicate RoutedAs(mode: RouteMode, reachable: bool, tooLarge: bool, route: Route) {
    && (route == Lan <==> reachable && mode != NodeOnly)
    && (route == Route.Node <==> !tooLarge && (mode == NodeOnly || (mode == Automatic && !reachable)))
    && (route == WaitingLan <==>
      !reachable && (mode == LanOnly || mode == WaitLan || (mode == Automatic && tooLarge)))
    && (route == NoRoute <==> mode == NodeOnly && tooLarge)
  }

  // More than 100 MiB, and not explicitly allowed through the node.
  predicate TooLarge(request: Request, size: int) {
    size > 104_857_600 && !request.allowLarge
  }

  predicate StartsAs(route: Route, status: Status) {
    match route
    case Lan => status == TransferringLan
    case Node => status == Queued
    case WaitingLan => status == WaitingForLan
    case NoRoute => status == Failed
    case Mixed => status == CheckingRoute
    case Draft => status == WaitingForNode
  }

  predicate IsMessage(request: Request) {
    request.contentType == Text || request.contentType == Url || request.contentType == Notification
  }

  // The four modes by availability, in general.
  lemma SelectedRoute(request: RouteRequest)
    ensures var route := SelectRoute(request);
      var tooLarge := !request.text && request.fileSize > 104_857_600 && !request.allowLarge;
      && (request.nodeAvailable ==> RoutedAs(request.mode, request.lanAvailable, tooLarge, route))
      && (!request.nodeAvailable ==>
        && (route == Lan <==> request.lanAvailable && request.mode != NodeOnly)
        && (route == NoRoute <==> request.mode == NodeOnly)
        && (route == Draft <==>
          request.mode == Automatic && !request.lanAvailable && (request.text || request.fileSize <= 104_857_600))
        && route != Route.Node && route != Mixed)
  {
  }

  lemma StartStatus(route: Route)
    ensures StartsAs(route, InitialStatus(route))
  {
  }

  // The files of the request, as the rows of one device route them.
  predicate FileRowAsRequested(request: Request, i: nat, device: Id, row: FileTarget)
    requires i < |request.files|
  {
    && RoutedAs(request.mode, device in request.lanAvailable, TooLarge(request, request.files[i].size), row.route)
    && StartsAs(row.route, row.status)
  }

  // A message goes one way to the device; files do if they all go the same way, otherwise it is MIXED.
  ghost predicate TargetAsRequested(e: Event, next: Database, device: Id)
    requires e.CreateEvent? && |e.ids| == |e.request.files|
  {
    var k := TargetKey(e.transfer, device);
    && k in next.targets
    && var target := next.targets[k];
       && StartsAs(target.route, target.status)
       && target == Target(target.route, target.status, 0, None, None, None, "")
       && (IsMessage(e.request) ==> RoutedAs(e.request.mode, device in e.request.lanAvailable, false, target.route))
       && (!IsMessage(e.request) ==>
         && (forall i :: 0 <= i < |e.ids| ==> FileKey(e.ids[i], device) in next.fileTargets)
         && (target.route == Mixed <==> TwoRoutes(e, next, device))
         && (target.route != Mixed ==>
           forall i :: 0 <= i < |e.ids| ==> next.fileTargets[FileKey(e.ids[i], device)].route == target.route))
  }

  ghost predicate TwoRoutes(e: Event, next: Database, device: Id)
    requires e.CreateEvent? && forall i :: 0 <= i < |e.ids| ==> FileKey(e.ids[i], device) in next.fileTargets
  {
    exists i, j :: 0 <= i < j < |e.ids| &&
      next.fileTargets[FileKey(e.ids[i], device)].route != next.fileTargets[FileKey(e.ids[j], device)].route
  }

  lemma FileRowIsAsRequested(request: Request, i: nat, device: Id)
    requires i < |request.files|
    ensures FileRowAsRequested(request, i, device, NewFileTarget(request, request.files[i], device))
  {
    SelectedRoute(RouteRequest(request.mode, device in request.lanAvailable, true, false, request.files[i].size,
                               request.allowLarge));
    StartStatus(FileRoute(request, request.files[i], device));
  }

  lemma OneRoute(routes: set<Route>)
    requires routes != {}
    ensures OnlyRoute(routes) == Mixed || OnlyRoute(routes) in routes
    ensures OnlyRoute(routes) != Mixed ==> forall r :: r in routes ==> r == OnlyRoute(routes)
    ensures Mixed !in routes && OnlyRoute(routes) == Mixed ==>
      exists r, s :: r in routes && s in routes && r != s
  {
    if |routes| == 1 {
      Singleton(routes);
    } else {
      var r :| r in routes;
      assert |routes - {r}| == |routes| - 1;
      assert |routes - {r}| > 0;
      var s :| s in routes - {r};
    }
  }

  ghost predicate FilesDisagree(request: Request, device: Id) {
    exists i, j :: 0 <= i < j < |request.files| &&
      FileRoute(request, request.files[i], device) != FileRoute(request, request.files[j], device)
  }

  lemma TargetRouteOfFiles(request: Request, device: Id)
    requires request.files != []
    ensures var route := OnlyRoute(DeviceRoutes(request, device));
      && (route == Mixed <==> FilesDisagree(request, device))
      && (route != Mixed ==>
        forall i :: 0 <= i < |request.files| ==> FileRoute(request, request.files[i], device) == route)
  {
    hide FileRoute, OnlyRoute;
    var routes := DeviceRoutes(request, device);
    assert FileRoute(request, request.files[0], device) in routes;
    forall f | f in request.files
      ensures FileRoute(request, f, device) != Mixed
    {
      NeverMixed(request, f, device);
    }
    OneRoute(routes);
    if OnlyRoute(routes) == Mixed {
      var r, s :| r in routes && s in routes && r != s;
      var f :| f in request.files && FileRoute(request, f, device) == r;
      var g :| g in request.files && FileRoute(request, g, device) == s;
      var i :| 0 <= i < |request.files| && request.files[i] == f;
      var j :| 0 <= j < |request.files| && request.files[j] == g;
      assert i != j;
    }
    forall i | 0 <= i < |request.files|
      ensures FileRoute(request, request.files[i], device) in routes
    {
      assert request.files[i] in request.files;
    }
  }

  lemma NeverMixed(request: Request, file: File, device: Id)
    ensures FileRoute(request, file, device) != Mixed
  {
  }

  // Every created target goes the way its request says, starts in the status of that route with nothing
  // sent, and has a first attempt; so does the row of every file and device.
  lemma CreatedTargetAsRequested(node: Node, db: Database, e: Event, device: Id)
    requires Admitted(node, db, e) && device in e.devices
    ensures |e.ids| == |e.request.files|
    ensures var next := Step(node, db, e);
      && TargetAsRequested(e, next, device)
      && (forall i :: 0 <= i < |e.ids| ==>
        FileKey(e.ids[i], device) in next.fileTargets
        && FileRowAsRequested(e.request, i, device, next.fileTargets[FileKey(e.ids[i], device)]))
      && TargetKey(e.transfer, device) in next.executions
      && next.executions[TargetKey(e.transfer, device)]
        == [Execution(1, next.targets[TargetKey(e.transfer, device)].status, None)]
  {
    hide Accounting.Admits, ValidRequest, Deliverable, AggregateStatus, FileRoute, Create, TargetRoute, Prepare,
         FileRowAsRequested, NewFileTarget;
    CreatedRows(node, db, e.session, e.key, e.request, e.devices, e.transfer, e.ids, e.now);
    PreparedCopies(e.request, e.devices, e.now);
    forall i | 0 <= i < |e.ids|
      ensures FileRowAsRequested(e.request, i, device, NewFileTarget(e.request, e.request.files[i], device))
    {
      FileRowIsAsRequested(e.request, i, device);
    }
    CreatedRoutes(e, Step(node, db, e), device);
  }

  lemma CreatedRoutes(e: Event, next: Database, device: Id)
    requires e.CreateEvent? && |e.ids| == |e.request.files| && ValidRequest(e.request)
    requires TargetKey(e.transfer, device) in next.targets
    requires next.targets[TargetKey(e.transfer, device)] == NewTarget(TargetRow(e.request, device))
    requires forall i :: 0 <= i < |e.ids| ==>
      FileKey(e.ids[i], device) in next.fileTargets
      && next.fileTargets[FileKey(e.ids[i], device)] == NewFileTarget(e.request, e.request.files[i], device)
    ensures TargetAsRequested(e, next, device)
  {
    hide FileRoute, OnlyRoute, DeviceRoutes;
    StartStatus(TargetRoute(e.request, device));
    if IsMessage(e.request) {
      SelectedRoute(RouteRequest(e.request.mode, device in e.request.lanAvailable, true, true, 0, false));
    } else {
      TargetRouteOfFiles(e.request, device);
      if FilesDisagree(e.request, device) {
        var i, j :| 0 <= i < j < |e.request.files| &&
          FileRoute(e.request, e.request.files[i], device) != FileRoute(e.request, e.request.files[j], device);
        assert TwoRoutes(e, next, device);
      }
    }
  }

  const A_DAY: int := 24 * 60 * 60 * 1_000_000_000

  // The task and the files: whose they are, and kept for 90 days if it is a message, else for 7.
  lemma CreatedTaskAsRequested(node: Node, db: Database, e: Event)
    requires Admitted(node, db, e)
    ensures e.session.device.Some? && |e.ids| == |e.request.files| && e.transfer !in db.tasks
    ensures var next := Step(node, db, e);
      var expiresAt := e.now + (if IsMessage(e.request) then 90 * A_DAY else 7 * A_DAY);
      && e.transfer in next.tasks
      && next.tasks[e.transfer] ==
        Task(e.session.user, e.session.device.value, e.request.group, e.key, node.requestHash(e.request),
             next.tasks[e.transfer].status, e.now, expiresAt, {})
      && (if forall d :: d in e.devices ==>
              TargetKey(e.transfer, d) in next.targets && next.targets[TargetKey(e.transfer, d)].status == WaitingForLan
          then next.tasks[e.transfer].status == WaitingForLan else next.tasks[e.transfer].status == Queued)
      && (forall i :: 0 <= i < |e.ids| ==>
        e.ids[i] !in db.files && e.ids[i] in next.files
        && var file := e.request.files[i];
           next.files[e.ids[i]] ==
             FileRow(e.transfer, file.size, file.sha256, file.chunkSize, file.chunkCount, Uploading,
                     "pending/" + e.ids[i], expiresAt))
  {
    hide Accounting.Admits, ValidRequest, Deliverable, FileRoute, Create, TargetRoute, ExecutionEffect,
         FileTargetEffect, FileEffect, TargetEffect, AggregateStatus, TargetRows, FileTargetRows;
    CreatedRows(node, db, e.session, e.key, e.request, e.devices, e.transfer, e.ids, e.now);
    PreparedCopies(e.request, e.devices, e.now);
    var next := Step(node, db, e);
    var expiresAt := e.now + (if IsMessage(e.request) then 90 * A_DAY else 7 * A_DAY);
    CreatedFiles(db, next, e, expiresAt);
    AggregateIff(e.request, e.devices);
    StatusByRoute(db, next, e);
  }

  lemma CreatedFiles(db: Database, next: Database, e: Event, expiresAt: Time)
    requires e.CreateEvent? && |e.ids| == |e.request.files|
    requires FileEffect(db.files, next.files, e.request.files, e.transfer, e.ids, expiresAt)
    ensures forall i :: 0 <= i < |e.ids| ==>
      e.ids[i] in next.files
      && next.files[e.ids[i]] == NewFile(e.ids[i], e.transfer, e.request.files[i], expiresAt)
  {
  }

  lemma StatusByRoute(db: Database, next: Database, e: Event)
    requires e.CreateEvent? && TargetEffect(db.targets, next.targets, e.request, e.devices, e.transfer)
    ensures forall d :: d in e.devices ==>
      TargetKey(e.transfer, d) in next.targets
      && next.targets[TargetKey(e.transfer, d)].status == TargetRow(e.request, d).status
  {
    hide TargetRow;
  }

  lemma {:induction false} AggregateIff(request: Request, devices: seq<Id>)
    ensures AggregateStatus(TargetRows(request, devices)) ==
      if forall d :: d in devices ==> TargetRow(request, d).status == WaitingForLan then WaitingForLan else Queued
  {
    hide TargetRow;
    TargetRowsAre(request, devices);
  }

  lemma {:induction false} TargetRowsAre(request: Request, devices: seq<Id>)
    ensures forall row :: row in TargetRows(request, devices) <==>
      exists d :: d in devices && row == TargetRow(request, d)
  {
    hide TargetRow;
    if devices != [] {
      TargetRowsAre(request, devices[..|devices| - 1]);
      assert devices == devices[..|devices| - 1] + [devices[|devices| - 1]];
    }
  }

  // ---- what is refused before anything is stored ----

  // The count is not the one number of chunks of this size the file takes.
  predicate WrongCount(size: int, chunkSize: int, count: int)
    requires chunkSize > 0
  {
    count * chunkSize < size || (size > 0 && (count - 1) * chunkSize >= size) || (size == 0 && count != 0)
  }

  predicate Malformed(file: File) {
    || file.name == "" || file.name == "." || file.name == ".."
    || (exists c :: c in file.name && (c == '/' || c == '\\' || c == '\0'))
    || (file.name != "" && (Text.Blank(file.name[0]) || Text.Blank(file.name[|file.name| - 1])))
    || file.size < 0 || |file.sha256| != 32 || file.chunkSize <= 0
    || WrongCount(file.size, file.chunkSize, file.chunkCount)
  }

  predicate AddressesWrongly(request: Request) {
    || (exists d :: d in request.targetDevices && d == "")
    || (exists i, j :: 0 <= i < j < |request.targetDevices| && request.targetDevices[i] == request.targetDevices[j])
    || (request.group == "" && (request.targetType == GroupAll || request.targetType == GroupSelected))
    || (request.group != "" && request.targetType != GroupAll && request.targetType != GroupSelected)
    || (request.targetType == SingleDevice && |request.targetDevices| != 1)
    || (request.targetDevices == [] && (request.targetType == MultipleDevices || request.targetType == GroupSelected))
  }

  predicate CarriesWrongly(request: Request) {
    if IsMessage(request) then request.content == [] || request.files != []
    else request.files == [] || exists i :: 0 <= i < |request.files| && Malformed(request.files[i])
  }

  predicate CannotDeliver(request: Request, devices: seq<Id>) {
    || devices == [] || |devices| > 100
    || exists d :: d in devices && (d !in request.wrappedKeys || request.wrappedKeys[d] == [])
  }

  // A request is refused before it reaches the tables exactly for one of these reasons.
  lemma RefusedIff(session: Session, request: Request, devices: seq<Id>)
    ensures !Creatable(session, request, devices) <==>
      || session.device == None || AddressesWrongly(request) || CarriesWrongly(request)
      || CannotDeliver(request, devices)
  {
    hide ValidFile, Malformed;
    forall f
      ensures ValidFile(f) <==> !Malformed(f)
    {
      MalformedIff(f);
    }
    assert (forall f :: f in request.files ==> ValidFile(f))
      <==> forall i :: 0 <= i < |request.files| ==> !Malformed(request.files[i]);
  }

  lemma MalformedIff(file: File)
    ensures ValidFile(file) <==> !Malformed(file)
  {
    if file.size >= 0 && file.chunkSize > 0 {
      ChunkMath.CountBounds(file.size, file.chunkSize);
      if !WrongCount(file.size, file.chunkSize, file.chunkCount) && file.size > 0 {
        ChunkMath.CountUnique(file.size, file.chunkSize, file.chunkCount,
                              ChunkMath.ChunkCount(file.size, file.chunkSize));
      }
    }
  }
}

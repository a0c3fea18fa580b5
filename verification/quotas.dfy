/**
 Quota safety: what one admission adds, and that no run ever leaves a limit exceeded.
 */
module Quotas {
  import opened Wrappers
  import opened Domain
  import opened Requests
  import opened Tables
  import opened SetSum
  import opened Accounting
  import opened Transactions
  import opened Runs
  import opened Consistency

  ghost predicate SizesNonNegative(db: Database) {
    forall f :: f in db.files ==> db.files[f].size >= 0
  }

  ghost predicate Bounded(usage: int, limit: int) {
    usage == 0 || usage <= limit
  }

  // Groups with an empty identifier do not exist: it marks a transfer without a group.
  predicate RealOwner(owner: Owner) {
    owner.GroupOwner? ==> owner.id != ""
  }

  ghost predicate WithinQuotas(settings: Settings, db: Database, now: Time) {
    && Bounded(NodeUsage(db, now), StopLimit(settings))
    && (forall owner :: RealOwner(owner) ==>
      Bounded(Usage(db, owner, now), ByteLimit(settings, owner))
      && Bounded(DailyUsage(db, owner, now), DailyLimit(settings, owner)))
  }

  // ---- usage can only shrink without an admission ----

  ghost predicate Fewer(db: Database, now: Time, next: Database, later: Time) {
    && LiveFiles(next, later) <= LiveFiles(db, now)
    && (forall owner :: OwnedFiles(next, owner, later) <= OwnedFiles(db, owner, now))
    && (forall owner :: TodaysFiles(next, owner, later) <= TodaysFiles(db, owner, now))
    && (forall f :: f in LiveFiles(next, later) ==> SizeIn(next.files)(f) == SizeIn(db.files)(f))
  }

  lemma ShrunkSum(small: set<Id>, large: set<Id>, f: Id -> int, g: Id -> int, limit: int)
    requires small <= large && forall x :: x in large ==> g(x) >= 0
    requires forall x :: x in small ==> f(x) == g(x)
    requires Bounded(Sum(large, g), limit)
    ensures Bounded(Sum(small, f), limit)
  {
    SumEqual(small, f, g);
    SumSubset(small, large, g);
    SumNonNegative(small, g);
  }

  lemma FewerStaysWithin(settings: Settings, db: Database, now: Time, next: Database, later: Time)
    requires SizesNonNegative(db) && WithinQuotas(settings, db, now) && Fewer(db, now, next, later)
    ensures WithinQuotas(settings, next, later)
  {
    hide StopLimit, ByteLimit, DailyLimit, NodeRouted, Bounded;
    ShrunkSum(LiveFiles(next, later), LiveFiles(db, now), SizeIn(next.files), SizeIn(db.files), StopLimit(settings));
    forall owner | RealOwner(owner)
      ensures Bounded(Usage(next, owner, later), ByteLimit(settings, owner))
        && Bounded(DailyUsage(next, owner, later), DailyLimit(settings, owner))
    {
      assert OwnedFiles(next, owner, later) <= LiveFiles(next, later);
      assert TodaysFiles(next, owner, later) <= LiveFiles(next, later);
      ShrunkSum(OwnedFiles(next, owner, later), OwnedFiles(db, owner, now),
                SizeIn(next.files), SizeIn(db.files), ByteLimit(settings, owner));
      ShrunkSum(TodaysFiles(next, owner, later), TodaysFiles(db, owner, now),
                SizeIn(next.files), SizeIn(db.files), DailyLimit(settings, owner));
    }
  }

  lemma StartOfDayMonotone(now: Time, later: Time)
    requires now <= later
    ensures StartOfDay(now) <= StartOfDay(later)
  {
    assert StartOfDay(now) == now / DAY * DAY;
    assert StartOfDay(later) == later / DAY * DAY;
    assert now / DAY <= later / DAY;
  }

  lemma TimeOnlyShrinks(db: Database, now: Time, later: Time)
    requires now <= later
    ensures Fewer(db, now, db, later)
  {
    hide NodeRouted, StartOfDay;
    StartOfDayMonotone(now, later);
  }

  lemma ExpiredFilesStayExpired(node: Node, db: Database, e: Event)
    requires !e.CreateEvent?
    ensures forall f :: f in db.files && f in Step(node, db, e).files && db.files[f].status.FileExpired? ==>
      Step(node, db, e).files[f].status.FileExpired?
  {
    hide Report, ApplyReport, AllTargetsIn, ExpiredTargets, AvailableTargets, WithLatest, KeyUsed, MaxAttempt;
    if e.ReportEvent? {
      ReportCases(node, db, e.session, e.transfer, e.progress, e.now);
    }
  }

  lemma OtherStepsOnlyShrink(node: Node, db: Database, e: Event, now: Time)
    requires !e.CreateEvent?
    ensures Fewer(db, now, Step(node, db, e), now)
    ensures SizesNonNegative(db) ==> SizesNonNegative(Step(node, db, e))
  {
    hide Step, StartOfDay;
    ExpiredFilesStayExpired(node, db, e);
    StepKeepsShape(node, db, e);
    ShapeAndExpiryShrink(db, Step(node, db, e), now);
  }

  lemma ShapeAndExpiryShrink(db: Database, next: Database, now: Time)
    requires SameShape(db, next)
    requires forall f :: f in db.files && f in next.files && db.files[f].status.FileExpired? ==>
      next.files[f].status.FileExpired?
    ensures Fewer(db, now, next, now)
    ensures SizesNonNegative(db) ==> SizesNonNegative(next)
  {
    hide StartOfDay, LiveFiles;
    LiveFilesShrink(db, next, now);
    LiveFilesExist(next, now);
    assert forall f :: f in next.files <==> f in db.files;
    assert forall t :: t in next.tasks <==> t in db.tasks;
  }

  lemma LiveFilesShrink(db: Database, next: Database, now: Time)
    requires SameShape(db, next)
    requires forall f :: f in db.files && f in next.files && db.files[f].status.FileExpired? ==>
      next.files[f].status.FileExpired?
    ensures LiveFiles(next, now) <= LiveFiles(db, now)
  {
    assert forall f :: f in next.files <==> f in db.files;
    assert forall k :: k in next.fileTargets <==> k in db.fileTargets;
    assert forall t :: t in next.tasks <==> t in db.tasks;
    assert forall f :: NodeRouted(next, f) ==> NodeRouted(db, f);
  }

  // ---- what an admission adds ----

  ghost predicate Admitted(node: Node, db: Database, e: Event) {
    e.CreateEvent? && Creatable(e.session, e.request, e.devices)
    && Accepts(node, db, e.session, e.key, e.request.group, Prepare(e.request, e.devices, e.now), e.transfer, e.ids)
  }

  // The identifiers behind a set of file indexes.
  ghost function Named(indexes: set<nat>, ids: seq<Id>): set<Id> {
    set i | i in indexes && i < |ids| :: ids[i]
  }

  lemma NamedSum(indexes: set<nat>, ids: seq<Id>, size: nat -> int, f: Id -> int)
    requires forall i, j :: 0 <= i < j < |ids| ==> ids[i] != ids[j]
    requires forall i :: i in indexes ==> i < |ids| && f(ids[i]) == size(i)
    ensures Sum(Named(indexes, ids), f) == Sum(indexes, size)
  {
    var name := (i: nat) => if i < |ids| then ids[i] else "";
    SumImage(indexes, name, f, size);
    assert Named(indexes, ids) == Image(indexes, name);
  }

  lemma NodeFilesInRange(request: Request, devices: seq<Id>, now: Time)
    ensures forall i :: i in NodeFiles(Prepare(request, devices, now)) ==> i < |request.files|
    ensures !request.contentType.IsText() ==>
      forall i: nat :: i in NodeFiles(Prepare(request, devices, now)) <==>
        i < |request.files| && exists d :: d in devices && FileRoute(request, request.files[i], d).Node?
  {
    hide FileRoute, InitialStatus, TargetRows, AggregateStatus;
    FileTargetsAreFullProduct(request, devices);
    var rows := FileTargetRows(request, devices);
    if !request.contentType.IsText() {
      forall i: nat, d | i < |request.files| && d in devices && FileRoute(request, request.files[i], d).Node?
        ensures i in NodeFiles(Prepare(request, devices, now))
      {
        assert FileTargetRow(request, i, d) in rows;
      }
    }
  }

  ghost predicate AdmittedEffect(db: Database, next: Database, e: Event, prepared: Prepared)
    requires e.CreateEvent? && |e.ids| == |e.request.files|
  {
    && e.session.device.Some?
    && prepared.files == e.request.files
    && prepared.createdAt == e.now < prepared.expiresAt
    && e.transfer !in db.tasks
    && (forall i, j :: 0 <= i < j < |e.ids| ==> e.ids[i] != e.ids[j])
    && (forall i :: 0 <= i < |e.ids| ==> e.ids[i] !in db.files)
    && (exists task: Task ::
      task.senderUser == e.session.user && task.group == e.request.group && task.createdAt == e.now
      && next.tasks == db.tasks[e.transfer := task])
    && FileEffect(db.files, next.files, e.request.files, e.transfer, e.ids, prepared.expiresAt)
    && FileTargetEffect(db.fileTargets, next.fileTargets, e.request, e.devices, e.ids)
    && (forall i :: i in NodeFiles(prepared) ==> i < |e.ids|)
    && (forall i: nat :: i < |e.ids| ==>
      (i in NodeFiles(prepared) <==> exists d :: d in e.devices && FileRoute(e.request, e.request.files[i], d).Node?))
  }

  lemma AdmissionHasEffect(node: Node, db: Database, e: Event)
    requires Admitted(node, db, e)
    ensures |e.ids| == |e.request.files|
    ensures AdmittedEffect(db, Step(node, db, e), e, Prepare(e.request, e.devices, e.now))
  {
    hide Admits, ValidRequest, Deliverable, AggregateStatus, FileRoute, FileEffect, FileTargetEffect, TargetRows,
         FileTargetRows, Inserted, NodeFiles;
    CreatedRows(node, db, e.session, e.key, e.request, e.devices, e.transfer, e.ids, e.now);
    NodeFilesInRange(e.request, e.devices, e.now);
    TextHasNoFiles(e.request);
  }

  lemma NodeRoutedAfterAdmission(db: Database, next: Database, e: Event, prepared: Prepared)
    requires e.CreateEvent? && |e.ids| == |e.request.files| && Consistent(db)
    requires AdmittedEffect(db, next, e, prepared)
    ensures forall f :: f in db.files ==> (NodeRouted(next, f) <==> NodeRouted(db, f))
    ensures forall i: nat :: i < |e.ids| ==> (NodeRouted(next, e.ids[i]) <==> i in NodeFiles(prepared))
  {
    hide FileRoute, NodeFiles;
    forall f | f in db.files
      ensures NodeRouted(next, f) <==> NodeRouted(db, f)
    {
      assert f !in e.ids;
    }
    forall i: nat | i < |e.ids|
      ensures NodeRouted(next, e.ids[i]) <==> i in NodeFiles(prepared)
    {
      assert forall d :: d in e.devices ==> FileKey(e.ids[i], d) in next.fileTargets;
      assert forall k :: k in next.fileTargets && k.file == e.ids[i] ==> k.device in e.devices;
    }
  }

  // The files that count after an admission: those that counted before and the request's node files.
  lemma AdmittedFiles(db: Database, next: Database, e: Event, prepared: Prepared)
    requires e.CreateEvent? && |e.ids| == |e.request.files| && Consistent(db)
    requires AdmittedEffect(db, next, e, prepared)
    ensures LiveFiles(next, e.now) == LiveFiles(db, e.now) + Named(NodeFiles(prepared), e.ids)
    ensures LiveFiles(db, e.now) !! Named(NodeFiles(prepared), e.ids)
    ensures forall f :: f in Named(NodeFiles(prepared), e.ids) ==>
      f in next.files && next.files[f].transfer == e.transfer
  {
    hide FileRoute, NodeFiles, NodeRouted, FileTargetEffect;
    NodeRoutedAfterAdmission(db, next, e, prepared);
    assert forall f :: f in db.files ==> f !in e.ids;
    assert forall i :: 0 <= i < |e.ids| ==> e.ids[i] in next.files;
  }

  // An admission raises each owner's usage by exactly the distinct node files of the request, however
  // many devices share a file, and leaves every other owner's usage alone.
  lemma AdmissionAddsDistinctFiles(node: Node, db: Database, e: Event, owner: Owner)
    requires Consistent(db) && Admitted(node, db, e) && RealOwner(owner)
    ensures var next := Step(node, db, e);
      var added := RequestedBytes(Prepare(e.request, e.devices, e.now));
      var charged := if owner in {UserOwner(e.session.user), GroupOwner(e.request.group)} then added else 0;
      && NodeUsage(next, e.now) == NodeUsage(db, e.now) + added
      && Usage(next, owner, e.now) == Usage(db, owner, e.now) + charged
      && DailyUsage(next, owner, e.now) == DailyUsage(db, owner, e.now) + charged
  {
    hide Step, Accepts, Creatable, Prepare;
    var next := Step(node, db, e);
    var prepared := Prepare(e.request, e.devices, e.now);
    AdmissionHasEffect(node, db, e);
    UsageAfterAdmission(db, next, e, prepared, owner);
  }

  lemma UsageAfterAdmission(db: Database, next: Database, e: Event, prepared: Prepared, owner: Owner)
    requires e.CreateEvent? && |e.ids| == |e.request.files| && Consistent(db) && RealOwner(owner)
    requires AdmittedEffect(db, next, e, prepared)
    ensures var added := RequestedBytes(prepared);
      var charged := if owner in {UserOwner(e.session.user), GroupOwner(e.request.group)} then added else 0;
      && NodeUsage(next, e.now) == NodeUsage(db, e.now) + added
      && Usage(next, owner, e.now) == Usage(db, owner, e.now) + charged
      && DailyUsage(next, owner, e.now) == DailyUsage(db, owner, e.now) + charged
  {
    hide FileRoute, NodeFiles, LiveFiles, OwnedFiles, TodaysFiles, Consistent, FileTargetEffect, TargetEffect;
    var named := Named(NodeFiles(prepared), e.ids);
    CountedFilesAreLive(db, owner, e.now);
    LiveFilesExist(db, e.now);
    OldFilesUntouched(db, next, e, prepared);
    var charged := owner in {UserOwner(e.session.user), GroupOwner(e.request.group)};
    var extra := if charged then named else {};
    AdmittedFiles(db, next, e, prepared);
    AdmittedOwners(db, next, e, prepared, owner);
    NamedSum(NodeFiles(prepared), e.ids, SizeAt(prepared), SizeIn(next.files));
    GrownSum(LiveFiles(db, e.now), named, db.files, next.files);
    GrownSum(OwnedFiles(db, owner, e.now), extra, db.files, next.files);
    GrownSum(TodaysFiles(db, owner, e.now), extra, db.files, next.files);
  }

  lemma CountedFilesAreLive(db: Database, owner: Owner, now: Time)
    ensures TodaysFiles(db, owner, now) <= OwnedFiles(db, owner, now) <= LiveFiles(db, now)
  {
  }

  lemma GrownSum(base: set<Id>, extra: set<Id>, before: map<Id, FileRow>, after: map<Id, FileRow>)
    requires base !! extra
    requires forall f :: f in base ==> f in before && f in after && after[f] == before[f]
    ensures Sum(base + extra, SizeIn(after)) == Sum(base, SizeIn(before)) + Sum(extra, SizeIn(after))
  {
    SumDisjoint(base, extra, SizeIn(after));
    SumEqual(base, SizeIn(after), SizeIn(before));
  }

  lemma AdmittedOwners(db: Database, next: Database, e: Event, prepared: Prepared, owner: Owner)
    requires e.CreateEvent? && |e.ids| == |e.request.files| && Consistent(db) && RealOwner(owner)
    requires AdmittedEffect(db, next, e, prepared)
    ensures var extra := if owner in {UserOwner(e.session.user), GroupOwner(e.request.group)}
                         then Named(NodeFiles(prepared), e.ids) else {};
      && OwnedFiles(next, owner, e.now) == OwnedFiles(db, owner, e.now) + extra
      && TodaysFiles(next, owner, e.now) == TodaysFiles(db, owner, e.now) + extra
  {
    hide FileRoute, NodeFiles, NodeRouted, FileEffect, FileTargetEffect, LiveFiles, Named, Consistent;
    var named := Named(NodeFiles(prepared), e.ids);
    AdmittedFiles(db, next, e, prepared);
    LiveFilesExist(db, e.now);
    OldFilesUntouched(db, next, e, prepared);
    assert StartOfDay(e.now) <= e.now;
  }

  lemma OldFilesUntouched(db: Database, next: Database, e: Event, prepared: Prepared)
    requires e.CreateEvent? && |e.ids| == |e.request.files| && Consistent(db)
    requires AdmittedEffect(db, next, e, prepared)
    ensures forall f :: f in db.files ==>
      f in next.files && next.files[f] == db.files[f] && db.files[f].transfer in db.tasks
      && db.files[f].transfer in next.tasks
      && next.tasks[db.files[f].transfer] == db.tasks[db.files[f].transfer]
  {
    hide FileRoute, NodeFiles, FileTargetEffect, TargetsLinked, FullProduct;
  }

  // ---- safety over whole runs ----

  // Requests arrive at non-decreasing times, none before the given one.
  ghost predicate Clocked(events: seq<Event>, start: Time) {
    && (forall e :: e in events && e.CreateEvent? ==> start <= e.now)
    && (forall i, j :: 0 <= i < j < |events| && events[i].CreateEvent? && events[j].CreateEvent? ==>
      events[i].now <= events[j].now)
  }

  lemma AdmissionStaysWithin(node: Node, db: Database, e: Event)
    requires Consistent(db) && Admitted(node, db, e)
    requires WithinQuotas(node.settings, db, e.now)
    ensures WithinQuotas(node.settings, Step(node, db, e), e.now)
  {
    hide Step, Creatable, Insertable, Reused, Prepare, Usage, DailyUsage, NodeUsage, NodeFiles, SizeAt, StopLimit,
         ByteLimit, DailyLimit;
    var next := Step(node, db, e);
    var prepared := Prepare(e.request, e.devices, e.now);
    PreparedCopies(e.request, e.devices, e.now);
    AdmissionAddsDistinctFiles(node, db, e, UserOwner(e.session.user));
    forall owner | RealOwner(owner)
      ensures Bounded(Usage(next, owner, e.now), ByteLimit(node.settings, owner))
        && Bounded(DailyUsage(next, owner, e.now), DailyLimit(node.settings, owner))
    {
      AdmissionAddsDistinctFiles(node, db, e, owner);
    }
  }

  lemma AdmissionKeepsSizes(node: Node, db: Database, e: Event)
    requires SizesNonNegative(db) && Admitted(node, db, e)
    ensures SizesNonNegative(Step(node, db, e))
  {
    hide Step, Accepts, Prepare, FileEffect, FileTargetEffect, Deliverable, ValidRequest, NodeFiles, SizesNonNegative;
    AdmissionHasEffect(node, db, e);
    RequestedSizes(e.request);
    EffectKeepsSizes(db, Step(node, db, e), e, Prepare(e.request, e.devices, e.now));
  }

  lemma RequestedSizes(request: Request)
    requires ValidRequest(request)
    ensures forall i :: 0 <= i < |request.files| ==> request.files[i].size >= 0
  {
    TextHasNoFiles(request);
    assert forall f :: f in request.files ==> f.size >= 0;
  }

  lemma EffectKeepsSizes(db: Database, next: Database, e: Event, prepared: Prepared)
    requires e.CreateEvent? && |e.ids| == |e.request.files|
    requires SizesNonNegative(db)
    requires FileEffect(db.files, next.files, e.request.files, e.transfer, e.ids, prepared.expiresAt)
    requires forall i :: 0 <= i < |e.request.files| ==> e.request.files[i].size >= 0
    ensures SizesNonNegative(next)
  {
    forall f | f in next.files
      ensures next.files[f].size >= 0
    {
      if f in e.ids {
        var i :| 0 <= i < |e.ids| && e.ids[i] == f;
        assert next.files[e.ids[i]] == NewFile(e.ids[i], e.transfer, e.request.files[i], prepared.expiresAt);
      }
    }
  }

  lemma StepStaysWithin(node: Node, db: Database, e: Event, now: Time)
    requires Consistent(db) && SizesNonNegative(db) && WithinQuotas(node.settings, db, now)
    requires e.CreateEvent? ==> now <= e.now
    ensures SizesNonNegative(Step(node, db, e))
    ensures WithinQuotas(node.settings, Step(node, db, e), if e.CreateEvent? then e.now else now)
  {
    hide WithinQuotas, Fewer, Consistent, SizesNonNegative;
    if e.CreateEvent? {
      TimeOnlyShrinks(db, now, e.now);
      FewerStaysWithin(node.settings, db, now, db, e.now);
      if Admitted(node, db, e) {
        AdmissionStaysWithin(node, db, e);
        AdmissionKeepsSizes(node, db, e);
      }
    } else {
      OtherStepsOnlyShrink(node, db, e, now);
      FewerStaysWithin(node.settings, db, now, Step(node, db, e), now);
    }
  }

  // The time of the last request, or the starting time.
  function Latest(events: seq<Event>, start: Time): Time {
    if events == [] then start
    else if events[|events| - 1].CreateEvent? then events[|events| - 1].now
    else Latest(events[..|events| - 1], start)
  }

  lemma {:induction false} ClockedPrefix(events: seq<Event>, start: Time)
    requires Clocked(events, start) && events != []
    ensures Clocked(events[..|events| - 1], start)
    ensures Latest(events[..|events| - 1], start) <= Latest(events, start)
  {
    var n := |events| - 1;
    LatestIsSomeRequest(events[..n], start);
  }

  lemma {:induction false} LatestIsSomeRequest(events: seq<Event>, start: Time)
    ensures Latest(events, start) == start
      || exists i :: 0 <= i < |events| && events[i].CreateEvent? && events[i].now == Latest(events, start)
  {
    if events != [] && !events[|events| - 1].CreateEvent? {
      LatestIsSomeRequest(events[..|events| - 1], start);
    }
  }

  // In every run with fixed settings and requests at non-decreasing times, at the last request and at
  // every moment after it, the live node bytes respect the user quotas, the group quotas, their daily
  // limits and the node's stop limit.
  lemma RunStaysWithinQuotas(node: Node, db: Database, events: seq<Event>, start: Time, now: Time)
    requires Consistent(db) && SizesNonNegative(db) && WithinQuotas(node.settings, db, start)
    requires Clocked(events, start) && Latest(events, start) <= now
    ensures WithinQuotas(node.settings, Run(node, db, events), now)
  {
    hide WithinQuotas, Fewer;
    RunStaysWithinAtLatest(node, db, events, start);
    var final := Run(node, db, events);
    TimeOnlyShrinks(final, Latest(events, start), now);
    FewerStaysWithin(node.settings, final, Latest(events, start), final, now);
  }

  lemma {:induction false} RunStaysWithinAtLatest(node: Node, db: Database, events: seq<Event>, start: Time)
    requires Consistent(db) && SizesNonNegative(db) && WithinQuotas(node.settings, db, start)
    requires Clocked(events, start)
    ensures SizesNonNegative(Run(node, db, events))
    ensures WithinQuotas(node.settings, Run(node, db, events), Latest(events, start))
  {
    hide WithinQuotas, Step, Clocked, Consistent, SizesNonNegative;
    if events != [] {
      var init, last := events[..|events| - 1], events[|events| - 1];
      ClockedPrefix(events, start);
      RunKeepsConsistent(node, db, init);
      RunStaysWithinAtLatest(node, db, init, start);
      StepStaysWithin(node, Run(node, db, init), last, Latest(init, start));
    }
  }
}

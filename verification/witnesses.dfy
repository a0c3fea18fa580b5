/**
 A run of the store from the empty database in which a completion overtakes the reports: the transfer
 is delivered while one of its two files is still uploading, and completing that file undoes both the
 summary of its task and the finding of the cleanup scan.
 */
module Witnesses {
  import opened Wrappers
  import opened SetSum
  import opened Domain
  import opened Requests
  import opened Tables
  import opened Accounting
  import opened Transactions
  import opened Runs
  import opened Consistency
  import opened Aggregate
  import opened Cleanup

  const SETTINGS := Settings(10, 10, 10, 10, 10, 10, 100, map[])
  const SENDER := Session("ann", Some("laptop"))
  const RECEIVER := Session("bob", Some("phone"))
  const KEY := TargetKey("t", "phone")
  const PIECE := File("a", 1, seq(32, i => 0), 1, 1)
  const REQUEST := Request(SingleDevice, ["phone"], "", [], FileContent, [], [PIECE, PIECE], NodeOnly, false,
                           map["phone" := [1]])

  function Told(status: Status, now: Time): Event {
    ReportEvent(RECEIVER, "t", Progress("", "phone", status, None, 2, ""), now)
  }

  const CREATION := CreateEvent(SENDER, "", REQUEST, ["phone"], "t", ["f", "g"], 0)
  const FIRST := [CREATION, CompleteEvent(SENDER, "f", "file-f")]
  const DELIVERY := FIRST + [Told(Downloading, 1)] + [Told(Verifying, 1)] + [Told(Delivered, 1)]
  const OVERTAKING := CompleteEvent(SENDER, "g", "file-g")

  lemma RunAppend(node: Node, db: Database, events: seq<Event>, e: Event)
    ensures Run(node, db, events + [e]) == Step(node, Run(node, db, events), e)
  {
    assert (events + [e])[..|events|] == events;
  }

  // The one transfer there is, as far as the run depends on it.
  ghost predicate Scene(db: Database, first: FileStatus, status: Status, completed: Option<Time>, task: Status) {
    && (forall t :: t in db.tasks <==> t == "t")
    && db.tasks["t"].senderUser == "ann" && db.tasks["t"].senderDevice == "laptop" && db.tasks["t"].status == task
    && db.tasks["t"].hiddenFor == {}
    && (forall k :: k in db.targets <==> k == KEY)
    && db.targets[KEY].route == Route.Node && db.targets[KEY].status == status
    && db.targets[KEY].completedAt == completed
    && KEY in db.executions && db.executions[KEY] != []
    && "f" in db.files && db.files["f"].transfer == "t" && db.files["f"].status == first
    && db.files["f"].expiresAt == 7 * DAY
    && "g" in db.files && db.files["g"].transfer == "t" && db.files["g"].status == Uploading
    && FileKey("f", "phone") in db.fileTargets && db.fileTargets[FileKey("f", "phone")].route == Route.Node
  }

  lemma NodeRoute()
    ensures TargetRow(REQUEST, "phone") == PreparedTarget("phone", Route.Node, Queued)
    ensures FileRoute(REQUEST, PIECE, "phone") == Route.Node
    ensures NewFileTarget(REQUEST, PIECE, "phone") == FileTarget(Route.Node, Queued)
  {
    assert REQUEST.files[0] == PIECE;
    assert FileRoute(REQUEST, PIECE, "phone") == Route.Node;
    assert DeviceRoutes(REQUEST, "phone") == {Route.Node};
  }

  lemma RequestIsValid()
    ensures Creatable(SENDER, REQUEST, ["phone"])
  {
    assert ValidFile(PIECE);
  }

  lemma PreparedRows()
    ensures var prepared := Prepare(REQUEST, ["phone"], 0);
      && prepared.files == [PIECE, PIECE]
      && prepared.targets == [TargetRow(REQUEST, "phone")]
      && prepared.fileTargets == [FileTargetRow(REQUEST, 0, "phone"), FileTargetRow(REQUEST, 1, "phone")]
      && prepared.createdAt == 0 && prepared.expiresAt == 7 * DAY
      && prepared.status == AggregateStatus([TargetRow(REQUEST, "phone")])
  {
    hide FileRoute, TargetRoute, InitialStatus, AggregateStatus, DeviceFileTargets;
    var rows := DeviceFileTargets(REQUEST, "phone", 2);
    assert ["phone"][..0] == [];
    assert TargetRows(REQUEST, ["phone"]) == [TargetRow(REQUEST, "phone")];
    assert FileTargetRows(REQUEST, []) == [];
    assert FileTargetRows(REQUEST, ["phone"]) == rows;
    DeviceFileTargetsExact(REQUEST, "phone", 2);
    assert rows == [rows[0], rows[1]];
  }

  lemma TwoBytesAreRequested(prepared: Prepared)
    requires prepared.files == [PIECE, PIECE]
    requires prepared.fileTargets == [FileTargetRow(REQUEST, 0, "phone"), FileTargetRow(REQUEST, 1, "phone")]
    ensures RequestedBytes(prepared) == 2
    ensures forall i :: i in NodeFiles(prepared) ==> SizeAt(prepared)(i) == 1
  {
    hide FileRoute;
    NodeRoute();
    assert REQUEST.files[0] == PIECE && REQUEST.files[1] == PIECE;
    var rows := prepared.fileTargets;
    assert rows[0] in rows && rows[1] in rows;
    assert rows[0].route.Node? && rows[1].route.Node?;
    var both: set<nat>, second: set<nat> := {0, 1}, {1};
    assert NodeFiles(prepared) == both;
    SumRemove(both, SizeAt(prepared), 0);
    assert both - {0} == second;
    SumRemove(second, SizeAt(prepared), 1);
    assert second - {1} == {};
  }

  lemma RequestIsAdmitted()
    ensures Admits(SETTINGS, EMPTY, "ann", "", Prepare(REQUEST, ["phone"], 0))
  {
    hide Prepare, RequestedBytes, NodeFiles;
    PreparedRows();
    TwoBytesAreRequested(Prepare(REQUEST, ["phone"], 0));
    assert LiveFiles(EMPTY, 0) == {};
    assert Usage(EMPTY, UserOwner("ann"), 0) == 0;
    assert DailyUsage(EMPTY, UserOwner("ann"), 0) == 0;
    assert NodeUsage(EMPTY, 0) == 0;
  }

  lemma RowsAreInsertable()
    ensures Insertable(EMPTY, Prepare(REQUEST, ["phone"], 0), "t", ["f", "g"])
  {
    hide Prepare, FileRoute, TargetRoute, InitialStatus;
    PreparedRows();
  }

  lemma CreationIsAccepted(node: Node)
    requires node.settings == SETTINGS
    ensures Creatable(SENDER, REQUEST, ["phone"])
    ensures Accepts(node, EMPTY, SENDER, "", "", Prepare(REQUEST, ["phone"], 0), "t", ["f", "g"])
  {
    hide Admits, Insertable, Creatable, Prepare;
    RequestIsValid();
    RequestIsAdmitted();
    RowsAreInsertable();
  }

  lemma CreatedScene(node: Node)
    requires node.settings == SETTINGS
    ensures Scene(Run(node, EMPTY, [CREATION]), Uploading, Queued, None, Queued)
  {
    hide Accepts, Creatable, Create, Prepare, Scene;
    CreationIsAccepted(node);
    CreatedRows(node, EMPTY, SENDER, "", REQUEST, ["phone"], "t", ["f", "g"], 0);
    PreparedRows();
    RunAppend(node, EMPTY, [], CREATION);
    assert [] + [CREATION] == [CREATION];
    EffectScene(Run(node, EMPTY, [CREATION]), NewTask(SENDER, "", node.requestHash(REQUEST), "",
                                                      Prepare(REQUEST, ["phone"], 0)));
  }

  lemma EffectScene(next: Database, task: Task)
    requires CreateEffect(EMPTY, next, REQUEST, ["phone"], task, "t", ["f", "g"], 7 * DAY)
    requires task.senderUser == "ann" && task.senderDevice == "laptop" && task.hiddenFor == {}
    requires task.status == AggregateStatus([TargetRow(REQUEST, "phone")])
    ensures Scene(next, Uploading, Queued, None, Queued)
  {
    hide TargetRow, FileRoute, NewFileTarget, FileEffect, FileTargetEffect;
    NodeRoute();
    EffectFiles(next);
    assert [TargetRow(REQUEST, "phone")][0].status == Queued;
  }

  lemma EffectFiles(next: Database)
    requires FileEffect(EMPTY.files, next.files, REQUEST.files, "t", ["f", "g"], 7 * DAY)
    requires FileTargetEffect(EMPTY.fileTargets, next.fileTargets, REQUEST, ["phone"], ["f", "g"])
    ensures "f" in next.files && next.files["f"] == NewFile("f", "t", PIECE, 7 * DAY)
    ensures "g" in next.files && next.files["g"] == NewFile("g", "t", PIECE, 7 * DAY)
    ensures FileKey("f", "phone") in next.fileTargets
    ensures next.fileTargets[FileKey("f", "phone")] == NewFileTarget(REQUEST, PIECE, "phone")
  {
    hide NewFileTarget;
    assert ["f", "g"][0] == "f" && ["f", "g"][1] == "g";
  }

  lemma CompletedScene(node: Node, db: Database)
    requires Scene(db, Uploading, Queued, None, Queued)
    ensures Scene(Step(node, db, CompleteEvent(SENDER, "f", "file-f")), OnNode, AvailableOnNode, None, Queued)
  {
  }

  // When a report that brings a target here completes it.
  function Completion(status: Status): Option<Time> {
    if status.Delivered? then Some(1) else None
  }

  predicate Follows(before: Status, after: Status) {
    match after
    case Downloading => before == AvailableOnNode
    case Verifying => before == Downloading
    case Delivered => before == Verifying
    case _ => false
  }

  lemma ReportedScene(node: Node, db: Database, before: Status, after: Status, task: Status)
    requires Scene(db, OnNode, before, None, task) && Follows(before, after)
    ensures Scene(Step(node, db, Told(after, 1)), OnNode, after, Completion(after), after)
  {
    hide Step, Scene;
    ReportedRows(db, before, after, task);
    ReportIsApplied(node, db, before, after, task);
  }

  lemma ReportedRows(db: Database, before: Status, after: Status, task: Status)
    requires Scene(db, OnNode, before, None, task) && Follows(before, after)
    ensures Scene(ReportedDatabase(db, "t", Told(after, 1).progress, 1), OnNode, after,
                  Completion(after), after)
  {
  }

  lemma AcceptedReport(node: Node, db: Database, p: Progress)
    requires p.key == "" && ValidProgress(RECEIVER, "t", p) && MayReport(db, "phone", "t", p.device)
    requires var current := db.targets[TargetKey("t", p.device)].status;
      !Repeats(current, p.status) && !Refuses(current, p.status)
    requires Visible(ReportedDatabase(db, "t", p, 1), RECEIVER, "t")
    ensures Report(node, db, RECEIVER, "t", p, 1).0 == ReportedDatabase(db, "t", p, 1)
  {
    hide ReportedDatabase, ReportFresh, CompleteRecord, ValidProgress, Repeats, Refuses, Visible, ViewOf;
    assert GetTransfer(ReportedDatabase(db, "t", p, 1), RECEIVER, "t").Ok?;
  }

  lemma ReportIsAcceptable(db: Database, before: Status, after: Status, task: Status)
    requires Scene(db, OnNode, before, None, task) && Follows(before, after)
    ensures var p := Told(after, 1).progress;
      && ValidProgress(RECEIVER, "t", p) && MayReport(db, "phone", "t", "phone")
      && !Repeats(before, after) && !Refuses(before, after) && db.targets[KEY].status == before
      && Visible(ReportedDatabase(db, "t", p, 1), RECEIVER, "t")
  {
    hide ReportedDatabase;
    ReportedRows(db, before, after, task);
  }

  lemma ReportIsApplied(node: Node, db: Database, before: Status, after: Status, task: Status)
    requires Scene(db, OnNode, before, None, task) && Follows(before, after)
    ensures Step(node, db, Told(after, 1)) == ReportedDatabase(db, "t", Told(after, 1).progress, 1)
  {
    hide ReportedDatabase, Report, Visible, Scene;
    ReportIsAcceptable(db, before, after, task);
    AcceptedReport(node, db, Told(after, 1).progress);
  }

  lemma DeliveredScene(node: Node)
    requires node.settings == SETTINGS
    ensures Scene(Run(node, EMPTY, DELIVERY), OnNode, Delivered, Some(1), Delivered)
  {
    hide Scene, Step, Run, Follows;
    CreatedScene(node);
    RunAppend(node, EMPTY, [CREATION], CompleteEvent(SENDER, "f", "file-f"));
    assert [CREATION] + [CompleteEvent(SENDER, "f", "file-f")] == FIRST;
    CompletedScene(node, Run(node, EMPTY, [CREATION]));
    ThreeReports(node, Run(node, EMPTY, FIRST));
    RunAppend(node, EMPTY, FIRST, Told(Downloading, 1));
    RunAppend(node, EMPTY, FIRST + [Told(Downloading, 1)], Told(Verifying, 1));
    RunAppend(node, EMPTY, FIRST + [Told(Downloading, 1)] + [Told(Verifying, 1)], Told(Delivered, 1));
  }

  lemma ThreeReports(node: Node, db: Database)
    requires Scene(db, OnNode, AvailableOnNode, None, Queued)
    ensures var downloading := Step(node, db, Told(Downloading, 1));
      var verifying := Step(node, downloading, Told(Verifying, 1));
      Scene(Step(node, verifying, Told(Delivered, 1)), OnNode, Delivered, Some(1), Delivered)
  {
    hide Scene, Step;
    var downloading := Step(node, db, Told(Downloading, 1));
    ReportedScene(node, db, AvailableOnNode, Downloading, Queued);
    ReportedScene(node, downloading, Downloading, Verifying, Downloading);
    ReportedScene(node, Step(node, downloading, Told(Verifying, 1)), Verifying, Delivered, Verifying);
  }

  lemma OvertakenScene(node: Node, db: Database)
    requires Consistent(db) && Scene(db, OnNode, Delivered, Some(1), Delivered)
    ensures Summarised(db) && !Summarised(Step(node, db, OVERTAKING))
    ensures !Received(Step(node, db, OVERTAKING), "f")
  {
    hide Consistent, Step;
    SceneIsReceived(db);
    assert HasNodeTarget(db.targets, "t");
    assert BreaksSummary(db, OVERTAKING);
    assert KEY in NodeReceivers(db, "f") && TakesAway(db, OVERTAKING, "f");
    StepKeepsSummaryIff(node, db, OVERTAKING);
    StepKeepsReceivedIff(node, db, OVERTAKING, "f");
  }

  lemma SceneIsReceived(db: Database)
    requires Scene(db, OnNode, Delivered, Some(1), Delivered)
    ensures Received(db, "f") && Expirable(db, "f", 1 + DAY)
  {
    assert NodeRouted(db, "f") by {
      assert FileKey("f", "phone") in db.fileTargets;
    }
    assert KEY in NodeReceivers(db, "f");
  }

  // Both conditions are met in a reachable state: the task shows DELIVERED and the scan a day later
  // picks the first file, then the second file completes; the task is no summary of its targets any
  // more, and the first file may be marked although its one receiver is back to AVAILABLE_ON_NODE.
  lemma CompletionOvertakesDelivery(node: Node)
    requires node.settings == SETTINGS
    ensures var before := Run(node, EMPTY, DELIVERY);
      var after := Run(node, EMPTY, DELIVERY + [OVERTAKING]);
      && Consistent(before) && Summarised(before) && !Summarised(after)
      && Expirable(before, "f", 1 + DAY) && 1 + DAY < before.files["f"].expiresAt
      && !Received(after, "f")
  {
    hide Run, Step, Consistent, Summarised, Received, DeliveredLongAgo, NodeReceivers;
    var before := Run(node, EMPTY, DELIVERY);
    assert Consistent(EMPTY) by { EmptyIsConsistent(); }
    RunKeepsConsistent(node, EMPTY, DELIVERY);
    DeliveredScene(node);
    SceneIsReceived(before);
    OvertakenScene(node, before);
    RunAppend(node, EMPTY, DELIVERY, OVERTAKING);
  }

  lemma EmptyIsConsistent()
    ensures Consistent(EMPTY)
  {
  }
}

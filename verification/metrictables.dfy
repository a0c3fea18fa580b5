/** The metrics on offer and the values their labels may take, with the bound that follows. */
module MetricTables {
  import opened Metrics

  const ROUTES: seq<string> := ["NONE", "LAN", "NODE", "MIXED", "WAITING_LAN", "LOCAL_DRAFT"]

  const STATUSES: seq<string> := [
    "CREATED", "CHECKING_ROUTE", "WAITING_FOR_TARGET", "WAITING_FOR_NODE", "WAITING_FOR_LAN",
    "QUEUED", "UPLOADING_TO_NODE", "AVAILABLE_ON_NODE", "DOWNLOADING_FROM_NODE",
    "TRANSFERRING_LAN", "PAUSED", "VERIFYING", "DELIVERED", "READ", "FAILED",
    "CANCELLED", "EXPIRED", "SOURCE_FILE_MISSING", "SOURCE_FILE_CHANGED", "UNKNOWN"]

  const ERROR_CODES: seq<string> := [
    "NONE", "OTHER", "HASH_MISMATCH", "CHECKSUM_MISMATCH", "STORAGE_FULL", "DATABASE_UNAVAILABLE",
    "NETWORK_UNAVAILABLE", "TLS_AUTH_FAILED", "CONNECTION_RESET", "TIMEOUT",
    "SOURCE_FILE_MISSING", "SOURCE_FILE_CHANGED", "QUOTA_EXCEEDED"]

  const WORKERS: seq<string> := ["cleanup", "transfer", "analytics", "recovery"]

  const OPERATIONS: seq<string> := [
    "request", "handshake", "heartbeat", "upload", "download", "complete",
    "query", "lock", "write", "cleanup", "recovery", "delivery"]

  const RESULTS: seq<string> := [
    "success", "failure", "replay", "conflict", "connected", "replaced", "disconnected", "retry", "rejected"]

  const BOUNDED: map<string, seq<string>> := map[
    "route" := ROUTES, "status" := STATUSES, "error_code" := ERROR_CODES,
    "worker" := WORKERS, "operation" := OPERATIONS, "result" := RESULTS]

  const API_REQUESTS := Definition("nexdrop_api_requests_total", Counter, ["operation", "result", "error_code"])
  const API_SECONDS := Definition("nexdrop_api_request_seconds", Summary, ["operation", "result"])
  const ROUTE_SELECTION := Definition("nexdrop_route_selection_total", Counter, ["route", "result"])
  const HANDSHAKE := Definition("nexdrop_direct_handshake_seconds", Summary, ["result", "error_code"])
  const CONNECTION := Definition("nexdrop_websocket_connection_total", Counter, ["result"])
  const HEARTBEAT_GAP := Definition("nexdrop_websocket_heartbeat_gap_total", Counter, ["result"])
  const CHUNK_RETRY := Definition("nexdrop_chunk_retry_total", Counter, ["route", "result", "error_code"])
  const CHECKSUM_FAILURE := Definition("nexdrop_checksum_failure_total", Counter, ["operation", "result"])
  const STORAGE_REJECTION := Definition("nexdrop_storage_rejection_total", Counter, ["error_code", "result"])
  const DELIVERY := Definition("nexdrop_transfer_delivery_seconds", Summary, ["route", "result"])
  const THROUGHPUT := Definition("nexdrop_transfer_throughput_bytes_per_second", Summary, ["route"])
  const DATABASE := Definition("nexdrop_database_operation_seconds", Summary, ["operation", "result"])
  const STORAGE := Definition("nexdrop_storage_operation_seconds", Summary, ["operation", "result"])
  const WORKER_RECOVERY := Definition("nexdrop_worker_recovery_total", Counter, ["worker", "result"])
  const WORKER_RUNS := Definition("nexdrop_worker_runs_total", Counter, ["worker", "result"])
  const TRANSFER_STATE := Definition("nexdrop_transfer_state_total", Counter, ["status"])
  const QUEUE := Definition("nexdrop_transfer_queue_current", Gauge, ["status"])
  const STALLED := Definition("nexdrop_transfer_stalled_current", Gauge, ["status"])
  const UNACKNOWLEDGED := Definition("nexdrop_transfer_unacknowledged_current", Gauge, ["status"])
  const DEAD_LETTER := Definition("nexdrop_dead_letter_current", Gauge, ["worker"])

  const CATALOGUE: seq<Definition> := [
    API_REQUESTS, API_SECONDS, ROUTE_SELECTION, HANDSHAKE, CONNECTION, HEARTBEAT_GAP, CHUNK_RETRY,
    CHECKSUM_FAILURE, STORAGE_REJECTION, DELIVERY, THROUGHPUT, DATABASE, STORAGE, WORKER_RECOVERY,
    WORKER_RUNS, TRANSFER_STATE, QUEUE, STALLED, UNACKNOWLEDGED, DEAD_LETTER]

  // As the registry indexes them: by name.
  function Indexed(definitions: seq<Definition>): map<string, Definition> {
    if definitions == [] then map[]
    else
      var last := definitions[|definitions| - 1];
      Indexed(definitions[..|definitions| - 1])[last.name := last]
  }

  const OPERATIONAL := Tables(Indexed(CATALOGUE), BOUNDED)

  lemma {:induction false} IndexedByName(definitions: seq<Definition>, name: string)
    requires name in Indexed(definitions)
    ensures Indexed(definitions)[name] in definitions && Indexed(definitions)[name].name == name
  {
    var n := |definitions| - 1;
    if definitions[n].name != name {
      IndexedByName(definitions[..n], name);
    }
  }

  ghost predicate CleanAll(values: seq<string>) {
    forall i :: 0 <= i < |values| ==> Clean(values[i])
  }

  lemma CleanPair(a: seq<string>, b: seq<string>)
    requires CleanAll(a) && CleanAll(b)
    ensures CleanAll(a + b)
  {
  }

  lemma Names1()
    ensures Clean("nexdrop_api_requests_total")
    ensures Clean("nexdrop_api_request_seconds")
    ensures Clean("nexdrop_route_selection_total")
  {
  }

  lemma Names2()
    ensures Clean("nexdrop_direct_handshake_seconds")
    ensures Clean("nexdrop_websocket_connection_total")
    ensures Clean("nexdrop_websocket_heartbeat_gap_total")
  {
  }

  lemma Names3()
    ensures Clean("nexdrop_chunk_retry_total")
    ensures Clean("nexdrop_checksum_failure_total")
    ensures Clean("nexdrop_storage_rejection_total")
  {
  }

  lemma Names4()
    ensures Clean("nexdrop_transfer_delivery_seconds")
    ensures Clean("nexdrop_transfer_throughput_bytes_per_second")
    ensures Clean("nexdrop_database_operation_seconds")
  {
  }

  lemma Names5()
    ensures Clean("nexdrop_storage_operation_seconds")
    ensures Clean("nexdrop_worker_recovery_total")
    ensures Clean("nexdrop_worker_runs_total")
  {
  }

  lemma Names6()
    ensures Clean("nexdrop_transfer_state_total")
    ensures Clean("nexdrop_transfer_queue_current")
    ensures Clean("nexdrop_transfer_stalled_current")
  {
  }

  lemma Names7()
    ensures Clean("nexdrop_transfer_unacknowledged_current")
    ensures Clean("nexdrop_dead_letter_current")
  {
  }

  lemma Statuses1()
    ensures CleanAll(["CREATED", "CHECKING_ROUTE", "WAITING_FOR_TARGET", "WAITING_FOR_NODE"])
  {
    assert Clean("CREATED") && Clean("CHECKING_ROUTE") && Clean("WAITING_FOR_TARGET") && Clean("WAITING_FOR_NODE");
  }

  lemma Statuses2()
    ensures CleanAll(["WAITING_FOR_LAN", "QUEUED", "UPLOADING_TO_NODE", "AVAILABLE_ON_NODE"])
  {
    assert Clean("WAITING_FOR_LAN") && Clean("QUEUED") && Clean("UPLOADING_TO_NODE") && Clean("AVAILABLE_ON_NODE");
  }

  lemma Statuses3()
    ensures CleanAll(["DOWNLOADING_FROM_NODE", "TRANSFERRING_LAN", "PAUSED", "VERIFYING"])
  {
    assert Clean("DOWNLOADING_FROM_NODE") && Clean("TRANSFERRING_LAN") && Clean("PAUSED") && Clean("VERIFYING");
  }

  lemma Statuses4()
    ensures CleanAll(["DELIVERED", "READ", "FAILED", "CANCELLED"])
  {
    assert Clean("DELIVERED") && Clean("READ") && Clean("FAILED") && Clean("CANCELLED");
  }

  lemma Statuses5()
    ensures CleanAll(["EXPIRED", "SOURCE_FILE_MISSING", "SOURCE_FILE_CHANGED", "UNKNOWN"])
  {
    assert Clean("EXPIRED") && Clean("SOURCE_FILE_MISSING") && Clean("SOURCE_FILE_CHANGED") && Clean("UNKNOWN");
  }

  lemma Errors1()
    ensures CleanAll(["NONE", "OTHER", "HASH_MISMATCH", "CHECKSUM_MISMATCH", "STORAGE_FULL"])
  {
    assert Clean("NONE") && Clean("OTHER") && Clean("HASH_MISMATCH");
    assert Clean("CHECKSUM_MISMATCH") && Clean("STORAGE_FULL");
  }

  lemma Errors2()
    ensures CleanAll(["DATABASE_UNAVAILABLE", "NETWORK_UNAVAILABLE", "TLS_AUTH_FAILED", "CONNECTION_RESET", "TIMEOUT"])
  {
    assert Clean("DATABASE_UNAVAILABLE") && Clean("NETWORK_UNAVAILABLE") && Clean("TLS_AUTH_FAILED");
    assert Clean("CONNECTION_RESET") && Clean("TIMEOUT");
  }

  lemma Errors3()
    ensures CleanAll(["SOURCE_FILE_MISSING", "SOURCE_FILE_CHANGED", "QUOTA_EXCEEDED"])
  {
    assert Clean("SOURCE_FILE_MISSING") && Clean("SOURCE_FILE_CHANGED") && Clean("QUOTA_EXCEEDED");
  }

  lemma Statuses()
    ensures CleanAll(STATUSES)
  {
    hide Clean;
    var part1 := ["CREATED", "CHECKING_ROUTE", "WAITING_FOR_TARGET", "WAITING_FOR_NODE"];
    var part2 := ["WAITING_FOR_LAN", "QUEUED", "UPLOADING_TO_NODE", "AVAILABLE_ON_NODE"];
    var part3 := ["DOWNLOADING_FROM_NODE", "TRANSFERRING_LAN", "PAUSED", "VERIFYING"];
    var part4 := ["DELIVERED", "READ", "FAILED", "CANCELLED"];
    var part5 := ["EXPIRED", "SOURCE_FILE_MISSING", "SOURCE_FILE_CHANGED", "UNKNOWN"];
    Statuses1();
    Statuses2();
    Statuses3();
    Statuses4();
    Statuses5();
    CleanPair(part1, part2);
    CleanPair(part1 + part2, part3);
    CleanPair(part1 + part2 + part3, part4);
    CleanPair(part1 + part2 + part3 + part4, part5);
    assert STATUSES == part1 + part2 + part3 + part4 + part5;
  }

  lemma Errors()
    ensures CleanAll(ERROR_CODES)
  {
    hide Clean;
    var part1 := ["NONE", "OTHER", "HASH_MISMATCH", "CHECKSUM_MISMATCH", "STORAGE_FULL"];
    var part2 := ["DATABASE_UNAVAILABLE", "NETWORK_UNAVAILABLE", "TLS_AUTH_FAILED", "CONNECTION_RESET", "TIMEOUT"];
    var part3 := ["SOURCE_FILE_MISSING", "SOURCE_FILE_CHANGED", "QUOTA_EXCEEDED"];
    Errors1();
    Errors2();
    Errors3();
    CleanPair(part1, part2);
    CleanPair(part1 + part2, part3);
    assert ERROR_CODES == part1 + part2 + part3;
  }

  lemma OtherValues()
    ensures CleanAll(ROUTES) && CleanAll(WORKERS)
  {
  }

  lemma Operations()
    ensures CleanAll(OPERATIONS)
  {
  }

  lemma Results()
    ensures CleanAll(RESULTS)
  {
  }

  lemma Labels()
    ensures Clean("route") && Clean("status") && Clean("error_code")
    ensures Clean("worker") && Clean("operation") && Clean("result")
  {
  }
  lemma CatalogueNamesAreClean()
    ensures forall i :: 0 <= i < |CATALOGUE| ==> Clean(CATALOGUE[i].name)
  {
    hide Clean;
    Names1();
    Names2();
    Names3();
    Names4();
    Names5();
    Names6();
    Names7();
  }

  lemma ValuesAreClean()
    ensures CleanAll(STATUSES) && CleanAll(ERROR_CODES) && CleanAll(ROUTES) && CleanAll(WORKERS)
    ensures CleanAll(OPERATIONS) && CleanAll(RESULTS)
  {
    hide CleanAll;
    Statuses();
    Errors();
    OtherValues();
    Operations();
    Results();
  }

  // ---- the tables are proper ----

  lemma BoundedLabels()
    ensures BOUNDED.Keys == {"route", "status", "error_code", "worker", "operation", "result"}
    ensures BOUNDED["route"] == ROUTES && BOUNDED["status"] == STATUSES && BOUNDED["error_code"] == ERROR_CODES
    ensures BOUNDED["worker"] == WORKERS && BOUNDED["operation"] == OPERATIONS && BOUNDED["result"] == RESULTS
  {
  }

  ghost predicate GoodLabels(labels: seq<string>) {
    && (forall i :: 0 <= i < |labels| ==> labels[i] in BOUNDED)
    && (forall i, j :: 0 <= i < j < |labels| ==> labels[i] != labels[j])
  }

  lemma LabelShapes()
    ensures GoodLabels(["operation", "result", "error_code"]) && GoodLabels(["route", "result", "error_code"])
    ensures GoodLabels(["operation", "result"]) && GoodLabels(["route", "result"]) && GoodLabels(["worker", "result"])
    ensures GoodLabels(["result", "error_code"]) && GoodLabels(["error_code", "result"])
    ensures GoodLabels(["result"]) && GoodLabels(["route"]) && GoodLabels(["status"]) && GoodLabels(["worker"])
  {
  }

  lemma CatalogueLabelsAreGood()
    ensures forall i :: 0 <= i < |CATALOGUE| ==> GoodLabels(CATALOGUE[i].labels)
  {
    hide GoodLabels;
    LabelShapes();
  }

  lemma CatchAlls()
    ensures "OTHER" in ERROR_CODES && "UNKNOWN" in STATUSES
  {
    assert ERROR_CODES[1] == "OTHER" && STATUSES[19] == "UNKNOWN";
  }

  lemma BoundedIsClean()
    ensures forall l :: l in BOUNDED ==> Clean(l) && forall v :: v in BOUNDED[l] ==> Clean(v)
  {
    hide Clean;
    Labels();
    ValuesAreClean();
    BoundedLabels();
    forall l | l in BOUNDED
      ensures Clean(l) && CleanAll(BOUNDED[l])
    {
    }
    forall l, v | l in BOUNDED && v in BOUNDED[l]
      ensures Clean(v)
    {
      assert CleanAll(BOUNDED[l]);
    }
  }

  // The registry's own tables meet what its guarantees need.
  lemma OperationalIsProper()
    ensures ProperTables(OPERATIONAL)
    ensures forall n :: n in OPERATIONAL.definitions ==> OPERATIONAL.definitions[n] in CATALOGUE
  {
    hide Clean, GoodLabels;
    CatalogueNamesAreClean();
    CatalogueLabelsAreGood();
    BoundedLabels();
    BoundedIsClean();
    CatchAlls();
    forall n | n in OPERATIONAL.definitions
      ensures var d := OPERATIONAL.definitions[n];
        d in CATALOGUE && d.name == n && Clean(n) && GoodLabels(d.labels)
    {
      IndexedByName(CATALOGUE, n);
    }
    Assembled();
  }

  lemma Assembled()
    requires forall n :: n in OPERATIONAL.definitions ==>
      var d := OPERATIONAL.definitions[n]; d in CATALOGUE && d.name == n && Clean(n) && GoodLabels(d.labels)
    requires forall l :: l in BOUNDED ==> Clean(l) && forall v :: v in BOUNDED[l] ==> Clean(v)
    requires "OTHER" in ERROR_CODES && "UNKNOWN" in STATUSES
    ensures ProperTables(OPERATIONAL)
  {
    hide Clean;
    BoundedLabels();
  }

  // ---- the bound ----

  lemma Sizes()
    ensures |ROUTES| == 6 && |STATUSES| == 20 && |ERROR_CODES| == 13
    ensures |WORKERS| == 4 && |OPERATIONS| == 12 && |RESULTS| == 9
  {
  }

  lemma ProductCons(first: string, rest: seq<string>, labels: seq<string>)
    requires first in BOUNDED && labels == [first] + rest
    ensures Product(BOUNDED, labels) == Product(BOUNDED, rest) * |BOUNDED[first]|
  {
    assert labels[1..] == rest;
  }

  lemma Products()
    ensures Product(BOUNDED, API_REQUESTS.labels) == 1404 && Product(BOUNDED, CHUNK_RETRY.labels) == 702
    ensures Product(BOUNDED, API_SECONDS.labels) == 108 && Product(BOUNDED, ROUTE_SELECTION.labels) == 54
    ensures Product(BOUNDED, HANDSHAKE.labels) == 117 && Product(BOUNDED, STORAGE_REJECTION.labels) == 117
    ensures Product(BOUNDED, WORKER_RUNS.labels) == 36 && Product(BOUNDED, CONNECTION.labels) == 9
    ensures Product(BOUNDED, THROUGHPUT.labels) == 6 && Product(BOUNDED, QUEUE.labels) == 20
    ensures Product(BOUNDED, DEAD_LETTER.labels) == 4
  {
    hide Product;
    BoundedLabels();
    Sizes();
    ProductNone();
    ProductCons("error_code", [], ["error_code"]);
    ProductCons("result", [], ["result"]);
    ProductCons("route", [], ["route"]);
    ProductCons("status", [], ["status"]);
    ProductCons("worker", [], ["worker"]);
    ProductCons("result", ["error_code"], ["result", "error_code"]);
    ProductCons("error_code", ["result"], ["error_code", "result"]);
    ProductCons("operation", ["result"], ["operation", "result"]);
    ProductCons("route", ["result"], ["route", "result"]);
    ProductCons("worker", ["result"], ["worker", "result"]);
    ProductCons("operation", ["result", "error_code"], ["operation", "result", "error_code"]);
    ProductCons("route", ["result", "error_code"], ["route", "result", "error_code"]);
  }

  lemma ProductNone()
    ensures Product(BOUNDED, []) == 1
  {
  }

  lemma {:induction false} BoundJoin(a: seq<Definition>, b: seq<Definition>)
    ensures SeriesBound(BOUNDED, a + b) == SeriesBound(BOUNDED, a) + SeriesBound(BOUNDED, b)
  {
    hide Product;
    if a == [] {
      assert [] + b == b;
    } else {
      BoundJoin(a[1..], b);
      assert (a + b)[1..] == a[1..] + b;
    }
  }

  lemma Bound1()
    ensures SeriesBound(BOUNDED, [API_REQUESTS, API_SECONDS, ROUTE_SELECTION, HANDSHAKE, CONNECTION]) == 1692
  {
    Products();
    hide Product;
    BoundOne(API_REQUESTS, [API_SECONDS, ROUTE_SELECTION, HANDSHAKE, CONNECTION], [API_REQUESTS, API_SECONDS,
        ROUTE_SELECTION, HANDSHAKE, CONNECTION]);
    BoundOne(API_SECONDS, [ROUTE_SELECTION, HANDSHAKE, CONNECTION], [API_SECONDS, ROUTE_SELECTION, HANDSHAKE,
        CONNECTION]);
    BoundOne(ROUTE_SELECTION, [HANDSHAKE, CONNECTION], [ROUTE_SELECTION, HANDSHAKE, CONNECTION]);
    BoundOne(HANDSHAKE, [CONNECTION], [HANDSHAKE, CONNECTION]);
    BoundOne(CONNECTION, [], [CONNECTION]);
    BoundNone();
  }

  lemma Bound2()
    ensures SeriesBound(BOUNDED, [HEARTBEAT_GAP, CHUNK_RETRY, CHECKSUM_FAILURE, STORAGE_REJECTION, DELIVERY]) == 990
  {
    Products();
    hide Product;
    BoundOne(HEARTBEAT_GAP, [CHUNK_RETRY, CHECKSUM_FAILURE, STORAGE_REJECTION, DELIVERY], [HEARTBEAT_GAP,
        CHUNK_RETRY, CHECKSUM_FAILURE, STORAGE_REJECTION, DELIVERY]);
    BoundOne(CHUNK_RETRY, [CHECKSUM_FAILURE, STORAGE_REJECTION, DELIVERY], [CHUNK_RETRY, CHECKSUM_FAILURE,
        STORAGE_REJECTION, DELIVERY]);
    BoundOne(CHECKSUM_FAILURE, [STORAGE_REJECTION, DELIVERY], [CHECKSUM_FAILURE, STORAGE_REJECTION, DELIVERY]);
    BoundOne(STORAGE_REJECTION, [DELIVERY], [STORAGE_REJECTION, DELIVERY]);
    BoundOne(DELIVERY, [], [DELIVERY]);
    BoundNone();
  }

  lemma Bound3()
    ensures SeriesBound(BOUNDED, [THROUGHPUT, DATABASE, STORAGE, WORKER_RECOVERY, WORKER_RUNS]) == 294
  {
    Products();
    hide Product;
    BoundOne(THROUGHPUT, [DATABASE, STORAGE, WORKER_RECOVERY, WORKER_RUNS], [THROUGHPUT, DATABASE, STORAGE,
        WORKER_RECOVERY, WORKER_RUNS]);
    BoundOne(DATABASE, [STORAGE, WORKER_RECOVERY, WORKER_RUNS], [DATABASE, STORAGE, WORKER_RECOVERY, WORKER_RUNS]);
    BoundOne(STORAGE, [WORKER_RECOVERY, WORKER_RUNS], [STORAGE, WORKER_RECOVERY, WORKER_RUNS]);
    BoundOne(WORKER_RECOVERY, [WORKER_RUNS], [WORKER_RECOVERY, WORKER_RUNS]);
    BoundOne(WORKER_RUNS, [], [WORKER_RUNS]);
    BoundNone();
  }

  lemma Bound4()
    ensures SeriesBound(BOUNDED, [TRANSFER_STATE, QUEUE, STALLED, UNACKNOWLEDGED, DEAD_LETTER]) == 84
  {
    Products();
    hide Product;
    BoundOne(TRANSFER_STATE, [QUEUE, STALLED, UNACKNOWLEDGED, DEAD_LETTER], [TRANSFER_STATE, QUEUE, STALLED,
        UNACKNOWLEDGED, DEAD_LETTER]);
    BoundOne(QUEUE, [STALLED, UNACKNOWLEDGED, DEAD_LETTER], [QUEUE, STALLED, UNACKNOWLEDGED, DEAD_LETTER]);
    BoundOne(STALLED, [UNACKNOWLEDGED, DEAD_LETTER], [STALLED, UNACKNOWLEDGED, DEAD_LETTER]);
    BoundOne(UNACKNOWLEDGED, [DEAD_LETTER], [UNACKNOWLEDGED, DEAD_LETTER]);
    BoundOne(DEAD_LETTER, [], [DEAD_LETTER]);
    BoundNone();
  }

  lemma BoundNone()
    ensures SeriesBound(BOUNDED, []) == 0
  {
  }

  lemma BoundOne(first: Definition, rest: seq<Definition>, all: seq<Definition>)
    requires all == [first] + rest
    ensures SeriesBound(BOUNDED, all) == Product(BOUNDED, first.labels) + SeriesBound(BOUNDED, rest)
  {
    hide Product;
    assert all[1..] == rest;
  }

  // The server's registry never holds more than this many series, however long it runs.
  lemma OperationalSeriesBound(log: seq<Entry>)
    requires ProperLog(OPERATIONAL, log)
    ensures |Replay(OPERATIONAL, log)| <= 3060
  {
    OperationalIsProper();
    SeriesStayBounded(OPERATIONAL, CATALOGUE, log);
    CatalogueBound();
  }

  lemma CatalogueBound()
    ensures SeriesBound(BOUNDED, CATALOGUE) == 3060
  {
    hide SeriesBound;
    var a := [API_REQUESTS, API_SECONDS, ROUTE_SELECTION, HANDSHAKE, CONNECTION];
    var b := [HEARTBEAT_GAP, CHUNK_RETRY, CHECKSUM_FAILURE, STORAGE_REJECTION, DELIVERY];
    var c := [THROUGHPUT, DATABASE, STORAGE, WORKER_RECOVERY, WORKER_RUNS];
    var d := [TRANSFER_STATE, QUEUE, STALLED, UNACKNOWLEDGED, DEAD_LETTER];
    Bound1();
    Bound2();
    Bound3();
    Bound4();
    BoundJoin(a, b);
    BoundJoin(a + b, c);
    BoundJoin(a + b + c, d);
    assert CATALOGUE == a + b + c + d;
  }
}

/**
 Statuses, routes and the transition table of a transfer target.
 */
module Domain {

  datatype Status =
    | Created | CheckingRoute | WaitingForTarget | WaitingForNode | WaitingForLan | Queued
    | UploadingToNode | AvailableOnNode | Downloading | TransferringLan | Paused | Verifying
    | Delivered | Read | Failed | Cancelled | Expired | SourceFileMissing | SourceFileChanged
  {
    predicate IsTerminal() {
      this in {Read, Failed, Cancelled, Expired}
    }

    // Statuses that CancelTransfer leaves alone.
    predicate IsSettled() {
      this in {Delivered, Read, Failed, Cancelled, Expired}
    }

    predicate CanTransitionTo(next: Status) {
      next in Successors()
    }

    function Successors(): set<Status> {
      match this
      case Created => {CheckingRoute}
      case CheckingRoute =>
        {TransferringLan, Queued, WaitingForTarget, WaitingForNode, WaitingForLan, Failed, Cancelled}
      case Queued => {UploadingToNode, Cancelled, Expired}
      case UploadingToNode => {AvailableOnNode, Paused, Failed, Cancelled}
      case AvailableOnNode => {Downloading, Expired, Cancelled}
      case TransferringLan => {Verifying, Paused, Failed, Cancelled}
      case Downloading => {Verifying, Paused, Failed, Cancelled}
      case Verifying => {Delivered, Failed}
      case Delivered => {Read}
      case WaitingForLan =>
        {CheckingRoute, SourceFileMissing, SourceFileChanged, Paused, Cancelled, Expired}
      case SourceFileMissing => {CheckingRoute}
      case SourceFileChanged => {CheckingRoute}
      case _ => {}
    }
  }

  datatype RouteMode = Automatic | LanOnly | NodeOnly | WaitLan

  datatype Route = NoRoute | Lan | Node | WaitingLan | Draft | Mixed

  const LARGE_FILE_THRESHOLD := 100 * 1024 * 1024

  datatype RouteRequest = RouteRequest(
    mode: RouteMode, lanAvailable: bool, nodeAvailable: bool, text: bool, fileSize: int, allowLarge: bool)

  function SelectRoute(request: RouteRequest): Route {
    var isLarge := !request.text && request.fileSize > LARGE_FILE_THRESHOLD;
    match request.mode
    case LanOnly => if request.lanAvailable then Lan else WaitingLan
    case WaitLan => if request.lanAvailable then Lan else WaitingLan
    case NodeOnly =>
      if !request.nodeAvailable || (isLarge && !request.allowLarge) then NoRoute else Node
    case Automatic =>
      if request.lanAvailable then Lan
      else if request.nodeAvailable then
        if !isLarge || request.allowLarge then Node else WaitingLan
      else if isLarge then WaitingLan
      else Draft
  }

  function InitialStatus(route: Route): Status {
    match route
    case Lan => TransferringLan
    case Node => Queued
    case WaitingLan => WaitingForLan
    case Draft => WaitingForNode
    case NoRoute => Failed
    case Mixed => CheckingRoute
  }

  // A progress report names one of these statuses, or it is refused as invalid.
  predicate Reportable(status: Status) {
    status !in {Created, Cancelled, Expired}
  }

  predicate ReportableRoute(route: Route) {
    route in {Lan, Node, WaitingLan, Draft}
  }
}

/** The words both planes share: plans, box statuses, operations and slugs. */
module Vocabulary {
  import opened Tables

  datatype BoxPlan = Air | Pro

  function SnapshotCap(plan: BoxPlan): nat {
    match plan case Air => 3 case Pro => 5
  }

  predicate AllowsManualSnapshots(plan: BoxPlan) {
    plan.Pro?
  }

  datatype BoxStatus =
    | Creating | CreateFailed | Running | Stopping | Stopped | Starting
    | Resetting | ResetFailed | Repairing | RepairFailed | Updating | UpdateFailed
    | Restoring | RestoreFailed | Suspending | Suspended | Unsuspending
    | Deleting | DeleteFailed | Deleted

  /** Every status except `Deleted`, in the order a box moves through them. */
  const LIVE_STATUSES: seq<BoxStatus> := [
    Creating, CreateFailed, Running, Stopping, Stopped, Starting,
    Resetting, ResetFailed, Repairing, RepairFailed, Updating, UpdateFailed,
    Restoring, RestoreFailed, Suspending, Suspended, Unsuspending,
    Deleting, DeleteFailed
  ]

  datatype OperationType =
    | CreateBox | DeleteBox | ResetBox | StopBox | StartBox | ChangePassword | ChangeSlug
    | ChangeConfig | SuspendBox | UnsuspendBox | RestoreBox | CaptureSnapshot | RepairBox | UpdateBox

  /** The statuses an operation may begin from. */
  predicate IsOperationAllowed(status: BoxStatus, op: OperationType) {
    match op
    case CreateBox => status in {Creating, CreateFailed}
    case DeleteBox => status !in {Deleting, Deleted}
    case ResetBox => status in {Running, ResetFailed, RestoreFailed, UpdateFailed}
    case StopBox => status == Running
    case StartBox => status == Stopped
    case ChangePassword => status in {Running, ResetFailed}
    case ChangeSlug => status == Running
    case ChangeConfig => status == Running
    case SuspendBox => status in {Running, Stopped}
    case UnsuspendBox => status == Suspended
    case RestoreBox => status in {Running, RestoreFailed}
    case CaptureSnapshot => status == Running
    case RepairBox => status in {Running, ResetFailed, RestoreFailed, RepairFailed, UpdateFailed}
    case UpdateBox => status in {Running, UpdateFailed}
  }

  /** The status a box has while an operation runs, where the operation moves it. */
  function StatusDuring(op: OperationType): Option<BoxStatus> {
    match op
    case CreateBox => Some(Creating)
    case DeleteBox => Some(Deleting)
    case ResetBox => Some(Resetting)
    case StopBox => Some(Stopping)
    case StartBox => Some(Starting)
    case SuspendBox => Some(Suspending)
    case UnsuspendBox => Some(Unsuspending)
    case RestoreBox => Some(Restoring)
    case RepairBox => Some(Repairing)
    case UpdateBox => Some(Updating)
    case ChangePassword => None
    case ChangeSlug => None
    case ChangeConfig => None
    case CaptureSnapshot => None
  }

  datatype OperationStatus = OpPending | OpRunning | OpSucceeded | OpFailed

  const ACTIVE_OPERATION_STATUSES: seq<OperationStatus> := [OpPending, OpRunning]

  predicate IsActiveStatus(status: OperationStatus) {
    status in {OpPending, OpRunning}
  }

  const RESERVED_SLUGS: set<string> := {
    "www", "api", "app", "admin", "auth", "login", "signin", "signup", "billing", "status",
    "support", "help", "docs", "mail", "dashboard", "console", "portal", "account", "settings",
    "cloud", "box", "boxes", "workspace", "workspaces", "security", "trust", "legal", "privacy",
    "terms", "dev", "staging", "test", "qa", "prod", "production", "demo", "sandbox", "forum"
  }

  predicate IsSlugLetter(c: char) {
    'a' <= c <= 'z' || '0' <= c <= '9'
  }

  /** A DNS label: letters, digits and inner hyphens, 3 to 63 of them, not punycode. */
  predicate IsValidSlugFormat(slug: string) {
    && 3 <= |slug| <= 63
    && !("xn--" <= slug)
    && IsSlugLetter(slug[0])
    && IsSlugLetter(slug[|slug| - 1])
    && forall i :: 0 <= i < |slug| ==> IsSlugLetter(slug[i]) || slug[i] == '-'
  }

  predicate IsValidSlug(slug: string) {
    IsValidSlugFormat(slug) && slug !in RESERVED_SLUGS
  }

  /** A slug is valid when it is 3 to 63 lower-case letters, digits and hyphens, no hyphen
    * at either end, no punycode prefix, and not one of the names kept back. */
  lemma ValidSlugExactly(slug: string)
    ensures IsValidSlug(slug) <==>
            && |slug| >= 3 && |slug| < 64
            && (forall i :: 0 <= i < |slug| ==> slug[i] == '-' || 'a' <= slug[i] <= 'z' || '0' <= slug[i] <= '9')
            && slug[0] != '-' && slug[|slug| - 1] != '-'
            && slug[..Prefix(slug)] != "xn--"
            && slug !in RESERVED_SLUGS
  {}

  function Prefix(slug: string): nat {
    if |slug| < 4 then |slug| else 4
  }

  /** The listed live statuses are exactly the statuses other than `Deleted`. */
  lemma LiveStatusesListed(status: BoxStatus)
    ensures status in LIVE_STATUSES <==> status != Deleted
    ensures forall i, j :: 0 <= i < j < |LIVE_STATUSES| ==> LIVE_STATUSES[i] != LIVE_STATUSES[j]
  {
    match status
    case Creating => assert LIVE_STATUSES[0] == status;
    case CreateFailed => assert LIVE_STATUSES[1] == status;
    case Running => assert LIVE_STATUSES[2] == status;
    case Stopping => assert LIVE_STATUSES[3] == status;
    case Stopped => assert LIVE_STATUSES[4] == status;
    case Starting => assert LIVE_STATUSES[5] == status;
    case Resetting => assert LIVE_STATUSES[6] == status;
    case ResetFailed => assert LIVE_STATUSES[7] == status;
    case Repairing => assert LIVE_STATUSES[8] == status;
    case RepairFailed => assert LIVE_STATUSES[9] == status;
    case Updating => assert LIVE_STATUSES[10] == status;
    case UpdateFailed => assert LIVE_STATUSES[11] == status;
    case Restoring => assert LIVE_STATUSES[12] == status;
    case RestoreFailed => assert LIVE_STATUSES[13] == status;
    case Suspending => assert LIVE_STATUSES[14] == status;
    case Suspended => assert LIVE_STATUSES[15] == status;
    case Unsuspending => assert LIVE_STATUSES[16] == status;
    case Deleting => assert LIVE_STATUSES[17] == status;
    case DeleteFailed => assert LIVE_STATUSES[18] == status;
    case Deleted =>
  }
}

/** The rows the checkout protocol reads and writes, and who holds a slug.
  *
  * Ids handed out by Polar, Clerk or the database are numbers; an optional one is
  * present exactly when the program's truthiness test on it succeeds.
  */
module Store {
  import opened Tables
  import opened Vocabulary

  datatype IntentStatus = Active | Converted | Released | Expired

  /** Why a reservation ended. The four named reasons are the ones a paid order
    * cannot be fulfilled for; every other text is `OtherReason`. */
  datatype ReleaseReason =
    | AccountDeleted
    | CapacityUnavailable
    | OrderFullyRefunded
    | SlugConflict
    | OtherReason(text: string)

  datatype Intent = Intent(
    user: nat,
    slug: string,
    plan: BoxPlan,
    status: IntentStatus,
    checkout: Option<nat>,
    checkoutUrl: Option<nat>,
    checkoutExpiresAt: Option<int>,
    customer: Option<nat>,
    subscription: Option<nat>,
    order: Option<nat>,
    termsAcceptedAt: Option<int>,
    releaseReason: Option<ReleaseReason>,
    box: Option<nat>)

  datatype Box = Box(user: nat, slug: string, plan: BoxPlan, status: BoxStatus, subscription: Option<nat>)

  datatype OperationKey = CreateOf(box: nat) | Keyed(text: string)

  datatype Operation = Operation(
    box: nat,
    kind: OperationType,
    status: OperationStatus,
    key: OperationKey,
    reservedSlug: Option<string>,
    createdAt: int)

  datatype SnapshotStatus = CapturePending | CaptureCreating | CaptureComplete | CaptureFailed | SnapshotDeleting

  /** What capacity reads of a snapshot row. */
  datatype SnapshotImage = SnapshotImage(box: nat, image: Option<nat>, status: SnapshotStatus)

  datatype Settings = Settings(
    checkoutEnabled: bool,
    serverLimit: Option<nat>,
    snapshotLimit: Option<nat>,
    certificateLimit: Option<nat>,
    maxActiveIntents: nat)

  datatype Db = Db(
    intents: seq<Intent>,
    boxes: seq<Box>,
    operations: seq<Operation>,
    snapshots: seq<SnapshotImage>,
    settings: Settings,
    created: nat)

  predicate IsLive(box: Box) {
    box.status != Deleted
  }

  predicate IsActiveOperation(op: Operation) {
    IsActiveStatus(op.status)
  }

  // ---- Index keys ----

  function OfUser(user: nat): Intent -> bool {
    (row: Intent) => row.user == user && row.status == Active
  }

  function OfUserSlug(user: nat, slug: string): Intent -> bool {
    (row: Intent) => row.user == user && row.slug == slug && row.status == Active
  }

  function ActiveWithSlug(slug: string): Intent -> bool {
    (row: Intent) => row.slug == slug && row.status == Active
  }

  function WithCheckout(checkout: nat): Intent -> bool {
    (row: Intent) => row.checkout == Some(checkout)
  }

  /** Active reservations that are not yet a box. */
  function OpenReservation(): Intent -> bool {
    (row: Intent) => row.status == Active && row.box.None?
  }

  function ExpiredBy(now: int): Intent -> bool {
    (row: Intent) => row.status == Active && row.checkoutExpiresAt.Some? && 0 < row.checkoutExpiresAt.value <= now
  }

  function BoxWith(slug: string, status: BoxStatus): Box -> bool {
    (row: Box) => row.slug == slug && row.status == status
  }

  function InStatus(status: BoxStatus): Box -> bool {
    (row: Box) => row.status == status
  }

  function LiveBox(): Box -> bool {
    (row: Box) => IsLive(row)
  }

  function Reserving(slug: string, status: OperationStatus): Operation -> bool {
    (row: Operation) => row.reservedSlug == Some(slug) && row.status == status
  }

  function OfKindSince(kind: OperationType, since: int): Operation -> bool {
    (row: Operation) => row.kind == kind && since <= row.createdAt
  }

  // ---- Who holds a slug ----

  /** A live box, an active reservation, or an operation renaming a box. */
  datatype Holder = BoxHolder(id: nat) | IntentHolder(id: nat) | OperationHolder(id: nat)

  predicate Holds(db: Db, h: Holder, slug: string) {
    match h
    case BoxHolder(b) => b < |db.boxes| && IsLive(db.boxes[b]) && db.boxes[b].slug == slug
    case IntentHolder(i) => i < |db.intents| && db.intents[i].status == Active && db.intents[i].slug == slug
    case OperationHolder(o) =>
      && o < |db.operations|
      && IsActiveOperation(db.operations[o])
      && db.operations[o].reservedSlug == Some(slug)
  }

  datatype Owner = OwnerBox(id: nat) | OwnerIntent(id: nat) | NoOwner

  /** A box and the operation renaming it are one owner. */
  function OwnerOf(db: Db, h: Holder): Owner {
    match h
    case BoxHolder(b) => OwnerBox(b)
    case IntentHolder(i) => OwnerIntent(i)
    case OperationHolder(o) => if o < |db.operations| then OwnerBox(db.operations[o].box) else NoOwner
  }

  /** No slug has two owners. */
  ghost predicate Exclusive(db: Db) {
    forall h1: Holder, h2: Holder, slug: string ::
      Holds(db, h1, slug) && Holds(db, h2, slug) ==> OwnerOf(db, h1) == OwnerOf(db, h2)
  }

  ghost predicate HeldOnlyBy(db: Db, slug: string, owner: Owner) {
    forall h: Holder :: Holds(db, h, slug) ==> OwnerOf(db, h) == owner
  }
}

/** The record types of the capacity ledger and the values that describe a status change. */
module Domain {

  datatype Option<+T> = None | Some(value: T)

  /** A UUID read as its big-endian value; module UuidOrder shows that this order is the order of
      the bytes and of the text. */
  type Id = nat
  type Time = int
  type Customer = string
  type Kind = string

  const DEFAULT_QUOTA_LIMIT: int := 10_000
  const EXPIRE_BATCH_SIZE: nat := 100
  const MAX_LINES_PER_REQUEST: nat := 50
  const MAX_QUANTITY: int := 1000
  const MAX_AMOUNT: int := 0x1F_FFFF_FFFF_FFFF
  const MAX_INT64: int := 0x7FFF_FFFF_FFFF_FFFF

  datatype Status = Reserved | Rejected | Completed | Cancelled | Expired

  datatype HoldStatus = Active | Released | Dedicated | Lapsed

  datatype Event =
    | EventReserved
    | EventRejected
    | EventConfirmed
    | EventCancelled
    | EventExpired
    | EventExtended

  datatype Reason =
    | InsufficientCapacity
    | QuotaExceeded
    | InvalidResourceKind
    | ProductNotFound
    | MissingIdempotency
    | ReservationExpired
    | ExtensionLimit
    | NotFound
    | Conflict
    | Unavailable
    | IdempotencyKeyReused
    | TooManyActiveHolds
    | InvalidInput

  /** `effective` is floor(total * oversubscribe_factor), which the service never changes. */
  datatype Pool = Pool(kind: Kind, effective: int, dedicated: int, reserved: int, minGrain: int) {
    function Available(): int {
      var avail := effective - dedicated - reserved;
      if avail < 0 then 0 else avail
    }
  }

  datatype Quota = Quota(limit: int, used: int) {
    function Remaining(): int {
      if limit - used < 0 then 0 else limit - used
    }
  }

  datatype QuotaKey = QuotaKey(customer: Customer, kind: Kind)

  datatype IdemKey = IdemKey(customer: Customer, key: string)

  datatype LineInput = LineInput(kind: Kind, amount: int)

  /** What the body hash is computed from. The hash is taken as injective, so a request stores the
      fingerprint itself. */
  datatype Fingerprint =
    | ProductBody(code: string, quantity: int)
    | LinesBody(lines: seq<LineInput>)

  datatype Line = Line(poolId: Id, kind: Kind, amount: int)

  datatype HoldId = HoldId(request: Id, index: nat)

  datatype Hold = Hold(id: HoldId, poolId: Id, amount: int, status: HoldStatus)

  datatype Dedication = Dedication(holdId: HoldId, poolId: Id, amount: int)

  datatype Request = Request(
    customer: Customer,
    key: string,
    fingerprint: Fingerprint,
    status: Status,
    rejectReason: Option<Reason>,
    expiresAt: Option<Time>,
    extensionCount: nat,
    createdAt: Time)

  /** A request with the rows of the child tables that carry its id. */
  datatype Entry = Entry(
    req: Request,
    lines: seq<Line>,
    holds: seq<Hold>,
    dedications: seq<Dedication>,
    events: seq<Event>)

  type Pools = map<Id, Pool>
  type Quotas = map<QuotaKey, Quota>
  type Rows = map<Id, Entry>

  datatype Db = Db(pools: Pools, quotas: Quotas, rows: Rows, idem: map<IdemKey, Id>)

  datatype Config = Config(ttl: Time, maxExtensions: nat, wallTime: Time, maxActiveHolds: nat)

  predicate ValidateTransition(from: Status, to: Status) {
    from == Reserved && to in {Completed, Cancelled, Expired, Reserved}
  }

  function KeyOf(r: Request): IdemKey {
    IdemKey(r.customer, r.key)
  }
}

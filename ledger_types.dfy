/** Entities of the point ledger: users' balances, transaction records, the
    type catalog, the audit log, and the requests and errors of the engine. */
module LedgerTypes {

  type UserId = int
  type TxId = nat
  type TypeId = int

  datatype Option<+T> = None | Some(value: T) {
    function GetOr(default: T): T {
      match this
      case Some(v) => v
      case None => default
    }
  }

  /** A request id field as JavaScript tests it with `!x`: absent, null and 0
      all count as missing. */
  predicate Present(o: Option<int>) {
    o.Some? && o.value != 0
  }

  /** Semantic kind of a transaction type, decided by the type's name. */
  datatype Kind = Direct | Deferred | Cancellation | Other

  const DirectName := "San điểm"
  const DeferredName := "Giao lịch"
  const CancellationName := "Hủy lịch"

  function KindOfName(name: string): Kind {
    if name == DirectName then Direct
    else if name == DeferredName then Deferred
    else if name == CancellationName then Cancellation
    else Other
  }

  /** The type catalog maps a type id to its name. */
  type Catalog = map<TypeId, string>

  /** Kind of a stored record, read through the catalog; a type id the catalog
      does not hold has no name, which no check matches (like Other). */
  function KindOf(types: Catalog, id: TypeId): Kind {
    if id in types then KindOfName(types[id]) else Other
  }

  /** `chua_chot` and `da_chot`. */
  datatype Status = Pending | Settled

  /** One row of `giao_dich`. */
  datatype Tx = Tx(
    sender: UserId,
    receiver: UserId,
    typeId: TypeId,
    amount: int,
    counter: Option<TxId>,
    note: Option<string>,
    status: Status,
    senderAfter: Option<int>,
    receiverAfter: Option<int>)

  /** One audit-log row: the points left to the receiver and to the sender. */
  datatype LogEntry = LogEntry(txId: TxId, receiverLeft: int, senderLeft: int)

  /** The body of a create request. */
  datatype Request = Request(
    sender: Option<UserId>,
    receiver: Option<UserId>,
    typeId: Option<TypeId>,
    amount: Option<int>,
    counter: Option<TxId>,
    note: Option<string>)

  /** The body of an update request; None is a field left undefined. */
  datatype Patch = Patch(
    sender: Option<UserId>,
    receiver: Option<UserId>,
    typeId: Option<TypeId>,
    amount: Option<int>,
    note: Option<string>)

  /** Every early rollback of the controller, as a typed error. */
  datatype Error =
    | MissingField
    | SameParty
    | UnknownType
    | UserNotFound
    | MissingCounter
    | CounterNotFound
    | CounterNotDeferred
    | CounterUserNotFound
    | TxNotFound
    | CancellationLocked
    | AlreadySettled
    | NotDeferred
    | EmptyBatch
    | ItemFailed(index: nat, cause: Error)
    | NothingSettled(failed: seq<TxId>)

  datatype Result<T> = Ok(value: T) | Err(error: Error)

  /** What batch settle reports when it commits. */
  datatype BatchReport = BatchReport(count: nat, total: nat, failed: seq<TxId>)

  /** The persisted state the engine reads and writes: balances of the user
      directory, the transaction table, the audit log and the next
      auto-increment id. */
  datatype Books = Books(
    balances: map<UserId, int>,
    txs: map<TxId, Tx>,
    log: seq<LogEntry>,
    nextId: TxId)
}

/** Each handler of the transaction controller as a function from the books
    before the request to the books after it, or to the error it rolls back
    with. These are the specifications the `Ledger` methods are proved
    against. */
module Steps {
  import opened LedgerTypes
  import opened Rules
  import opened Balances

  /** The counter id as stored: `id_giao_dich_doi_chung || null`. */
  function StoredCounter(q: Request): Option<TxId> {
    if Present(q.counter) then q.counter else None
  }

  /** The note as stored: `noi_dung_giao_dich || null`, so an empty note
      is stored as null. */
  function StoredNote(q: Request): Option<string> {
    if q.note.Some? && q.note.value != "" then q.note else None
  }

  /** INSERT of a record under the next auto-increment id, then its log row. */
  function Insert(b: Books, bal: map<UserId, int>, t: Tx, e: LogEntry): Books {
    Books(bal, b.txs[b.nextId := t], b.log + [e], b.nextId + 1)
  }

  /** The request passes `create`'s checks: the required fields are
      present, the two users differ and exist and the type is known. */
  predicate Validated(b: Books, types: Catalog, q: Request) {
    Present(q.sender) && Present(q.receiver) && Present(q.typeId) && q.amount.Some?
    && q.sender.value != q.receiver.value && q.typeId.value in types
    && q.sender.value in b.balances && q.receiver.value in b.balances
  }

  /** `create`: validation, then dispatch on the kind of the requested type. */
  function CreateStep(b: Books, types: Catalog, q: Request): Result<Books> {
    if !Present(q.sender) || !Present(q.receiver) || !Present(q.typeId) || q.amount.None? then
      Err(MissingField)
    else if q.sender.value == q.receiver.value then Err(SameParty)
    else if q.typeId.value !in types then Err(UnknownType)
    else if q.sender.value !in b.balances || q.receiver.value !in b.balances then Err(UserNotFound)
    else
      var s, r, ty, a := q.sender.value, q.receiver.value, q.typeId.value, q.amount.value;
      var kind := KindOfName(types[ty]);
      var preS, preR := b.balances[s], b.balances[r];
      var status := CreatedStatus(kind);
      match kind
      case Direct =>
        Ok(Insert(b, Move(b.balances, s, r, a),
                  Tx(s, r, ty, a, StoredCounter(q), StoredNote(q), status, Some(preS - a), Some(preR + a)),
                  LogEntry(b.nextId, preR + a, preS - a)))
      case Deferred =>
        Ok(Insert(b, b.balances,
                  Tx(s, r, ty, a, StoredCounter(q), StoredNote(q), status, None, None),
                  LogEntry(b.nextId, preR, preS)))
      case Other =>
        // the pre-read balances are written back unchanged
        Ok(Insert(b, b.balances,
                  Tx(s, r, ty, a, StoredCounter(q), StoredNote(q), status, Some(preS), Some(preR)),
                  LogEntry(b.nextId, preR, preS)))
      case Cancellation =>
        if !Present(q.counter) then Err(MissingCounter)
        else if q.counter.value !in b.txs then Err(CounterNotFound)
        else
          var d := b.txs[q.counter.value];
          if KindOf(types, d.typeId) != Deferred then Err(CounterNotDeferred)
          else if d.status == Settled && (d.sender !in b.balances || d.receiver !in b.balances) then
            Err(CounterUserNotFound)
          else
            // a settled counter is reversed: its sender pays back, its receiver is refunded
            var bal := if d.status == Settled then Overwrite(b.balances, d.sender, d.receiver, d.amount)
                       else b.balances;
            Ok(Insert(b, bal,
                      Tx(d.sender, d.receiver, ty, d.amount, StoredCounter(q), StoredNote(q), status, Some(preS), Some(preR)),
                      LogEntry(b.nextId, preR, preS)))
  }

  /** The items of `createMany` one after the other; the first failing item
      decides the error. */
  function CreateSeq(b: Books, types: Catalog, qs: seq<Request>): Result<Books>
    decreases |qs|
  {
    if qs == [] then Ok(b)
    else
      match CreateSeq(b, types, qs[..|qs| - 1])
      case Err(e) => Err(e)
      case Ok(b1) =>
        match CreateStep(b1, types, qs[|qs| - 1])
        case Err(e) => Err(ItemFailed(|qs| - 1, e))
        case Ok(b2) => Ok(b2)
  }

  /** `createMany`: an empty batch is refused; otherwise all items or none. */
  function CreateAll(b: Books, types: Catalog, qs: seq<Request>): Result<Books> {
    if qs == [] then Err(EmptyBatch) else CreateSeq(b, types, qs)
  }

  /** The auto-increment ids a failed `createMany` used up: the rollback
      removes the rows inserted before item `i` failed, but not the ids
      they took. */
  function IdsTaken(e: Error): nat {
    if e.ItemFailed? then e.index else 0
  }

  /** The record as update stores it: the patch's fields over the old ones
      and the status the new kind calls for. */
  function Revised(types: Catalog, t: Tx, p: Patch): Tx
    requires p.typeId.GetOr(t.typeId) in types
  {
    var ty := p.typeId.GetOr(t.typeId);
    t.(sender := p.sender.GetOr(t.sender), receiver := p.receiver.GetOr(t.receiver), typeId := ty,
       amount := p.amount.GetOr(t.amount), note := if p.note.Some? then p.note else t.note,
       status := StatusAfterUpdate(KindOfName(types[ty]), KindOf(types, t.typeId), t.status))
  }

  /** The balances after update: the old record's effect taken back if it
      was applied, then the revised record's effect if the rule applies it. */
  function Rebalanced(bal: map<UserId, int>, types: Catalog, t: Tx, t': Tx): map<UserId, int> {
    var oldKind, newKind := KindOf(types, t.typeId), KindOf(types, t'.typeId);
    var bal1 := if EffectApplied(oldKind, t.status)
                then Move(bal, t.sender, t.receiver, -Signed(oldKind, t.amount))
                else bal;
    if AppliesNew(newKind, oldKind, t.status) then Move(bal1, t'.sender, t'.receiver, Signed(newKind, t'.amount))
    else bal1
  }

  /** `update`: reverse the old effect if it was applied, apply the new one
      if the rule says so, then store the merged fields and the new status. */
  function UpdateStep(b: Books, types: Catalog, id: TxId, p: Patch): Result<Books> {
    if id !in b.txs then Err(TxNotFound)
    else
      var t := b.txs[id];
      if KindOf(types, t.typeId) == Cancellation then Err(CancellationLocked)
      else if p.typeId.GetOr(t.typeId) !in types then Err(UnknownType)
      else
        var s, r := p.sender.GetOr(t.sender), p.receiver.GetOr(t.receiver);
        if s == r then Err(SameParty)
        else if s !in b.balances || r !in b.balances then Err(UserNotFound)
        else
          var t' := Revised(types, t, p);
          Ok(b.(balances := Rebalanced(b.balances, types, t, t'), txs := b.txs[id := t']))
  }

  /** `delete`: reverse an applied effect when both parties still exist,
      then remove the record. */
  function DeleteStep(b: Books, types: Catalog, id: TxId): Result<Books> {
    if id !in b.txs then Err(TxNotFound)
    else
      var t := b.txs[id];
      var kind := KindOf(types, t.typeId);
      if kind == Cancellation then Err(CancellationLocked)
      else
        var bal := if EffectApplied(kind, t.status) && t.sender in b.balances && t.receiver in b.balances
                   then Overwrite(b.balances, t.sender, t.receiver, -Signed(kind, t.amount))
                   else b.balances;
        Ok(b.(balances := bal, txs := b.txs - {id}))
  }

  /** `chotGiaoDich`: settle one pending Deferred record. */
  function SettleStep(b: Books, types: Catalog, id: TxId): Result<Books> {
    if id !in b.txs then Err(TxNotFound)
    else
      var t := b.txs[id];
      if t.status == Settled then Err(AlreadySettled)
      else if KindOf(types, t.typeId) != Deferred then Err(NotDeferred)
      else if t.sender !in b.balances || t.receiver !in b.balances then Err(UserNotFound)
      else
        var senderLeft, receiverLeft := b.balances[t.sender] + t.amount, b.balances[t.receiver] - t.amount;
        Ok(Books(Overwrite(b.balances, t.sender, t.receiver, -t.amount),
                 b.txs[id := t.(status := Settled, senderAfter := Some(senderLeft), receiverAfter := Some(receiverLeft))],
                 b.log + [LogEntry(id, receiverLeft, senderLeft)],
                 b.nextId))
  }

  /** Some Cancellation record refers to `id`. */
  predicate Cancelled(txs: map<TxId, Tx>, types: Catalog, id: TxId) {
    exists c :: c in txs && KindOf(types, txs[c].typeId) == Cancellation && txs[c].counter == Some(id)
  }

  /** The rows the batch settle query selects. */
  predicate Eligible(txs: map<TxId, Tx>, types: Catalog, id: TxId) {
    id in txs && KindOf(types, txs[id].typeId) == Deferred && txs[id].status == Pending
    && !Cancelled(txs, types, id)
  }

  /** The eligible ids below `n`, in increasing order. */
  function EligibleBelow(txs: map<TxId, Tx>, types: Catalog, n: nat): (ids: seq<TxId>)
    ensures forall i, j :: 0 <= i < j < |ids| ==> ids[i] < ids[j]
    ensures forall k: TxId :: k in ids <==> k < n && Eligible(txs, types, k)
  {
    if n == 0 then []
    else
      var lower := EligibleBelow(txs, types, n - 1);
      assert forall i :: 0 <= i < |lower| ==> lower[i] < n - 1 by {
        forall i | 0 <= i < |lower| ensures lower[i] < n - 1 {
          assert lower[i] in lower;
        }
      }
      lower + (if Eligible(txs, types, n - 1) then [n - 1] else [])
  }

  /** The batch settle query: ids increase with creation, so id order is
      creation order. */
  function Selection(b: Books, types: Catalog): seq<TxId> {
    EligibleBelow(b.txs, types, b.nextId)
  }

  predicate PartiesKnown(b: Books, id: TxId)
    requires id in b.txs
  {
    b.txs[id].sender in b.balances && b.txs[id].receiver in b.balances
  }

  /** Two records that differ at most in status and balance-after values. */
  predicate SameIdentity(t1: Tx, t2: Tx) {
    t1.sender == t2.sender && t1.receiver == t2.receiver && t1.typeId == t2.typeId
    && t1.amount == t2.amount && t1.counter == t2.counter && t1.note == t2.note
  }

  predicate SameRecords(m1: map<TxId, Tx>, m2: map<TxId, Tx>) {
    m1.Keys == m2.Keys && forall k :: k in m1 ==> SameIdentity(m1[k], m2[k])
  }

  /** One item of the batch: check both users, increment the sender and
      decrement the receiver atomically, read the balances back, mark the
      record settled and log it. */
  function SettleItem(b: Books, id: TxId): Result<Books>
    requires id in b.txs
  {
    var t := b.txs[id];
    if !PartiesKnown(b, id) then Err(UserNotFound)
    else
      var bal := Move(b.balances, t.receiver, t.sender, t.amount);
      var senderLeft, receiverLeft := bal[t.sender], bal[t.receiver];
      Ok(Books(bal,
               b.txs[id := t.(status := Settled, senderAfter := Some(senderLeft), receiverAfter := Some(receiverLeft))],
               b.log + [LogEntry(id, receiverLeft, senderLeft)],
               b.nextId))
  }

  /** One turn of the batch loop: settle `id` on the books the earlier
      turns left and count it, or record it as failed. */
  function BatchStep(run: (Books, nat, seq<TxId>), id: TxId): (r: (Books, nat, seq<TxId>))
    requires id in run.0.txs
    ensures r.1 + |r.2| == run.1 + |run.2| + 1
    ensures r.0.txs.Keys == run.0.txs.Keys
    ensures r.0.balances.Keys == run.0.balances.Keys && r.0.nextId == run.0.nextId
  {
    match SettleItem(run.0, id)
    case Err(_) => (run.0, run.1, run.2 + [id])
    case Ok(b2) => (b2, run.1 + 1, run.2)
  }

  /** The loop of `chotTatCaGiaoDich` over the selected ids: the books, the
      success count and the ids that failed. */
  function BatchRun(b: Books, types: Catalog, ids: seq<TxId>): (r: (Books, nat, seq<TxId>))
    requires forall k :: k in ids ==> k in b.txs
    ensures r.1 + |r.2| == |ids|
    ensures r.0.txs.Keys == b.txs.Keys
    ensures r.0.balances.Keys == b.balances.Keys && r.0.nextId == b.nextId
    decreases |ids|
  {
    if ids == [] then (b, 0, [])
    else
      var prefix := ids[..|ids| - 1];
      assert forall k :: k in prefix ==> k in ids;
      BatchStep(BatchRun(b, types, prefix), ids[|ids| - 1])
  }

  /** `chotTatCaGiaoDich`: nothing selected changes nothing; a run where no
      item succeeded and some failed is rolled back; otherwise it commits. */
  function BatchSettle(b: Books, types: Catalog): (Books, Result<BatchReport>) {
    var ids := Selection(b, types);
    if ids == [] then (b, Ok(BatchReport(0, 0, [])))
    else
      var (b1, n, failed) := BatchRun(b, types, ids);
      if n == 0 && |failed| > 0 then (b, Err(NothingSettled(failed)))
      else (b1, Ok(BatchReport(n, |ids|, failed)))
  }
}

/** What each handler promises about balances, records and errors, stated
    on the step functions and proved for all inputs. */
module Properties {
  import opened LedgerTypes
  import opened Rules
  import opened Balances
  import opened Steps
  import opened Accounting
  import opened Settlement

  // ---------------------------------------------------------------- create

  /** Create checks its input in a fixed order and names the first problem. */
  lemma CreateRejects(b: Books, types: Catalog, q: Request)
    ensures !Present(q.sender) || !Present(q.receiver) || !Present(q.typeId) || q.amount.None?
            ==> CreateStep(b, types, q) == Err(MissingField)
    ensures Present(q.sender) && Present(q.receiver) && Present(q.typeId) && q.amount.Some? ==>
            && (q.sender.value == q.receiver.value ==> CreateStep(b, types, q) == Err(SameParty))
            && (q.sender.value != q.receiver.value && q.typeId.value !in types
                ==> CreateStep(b, types, q) == Err(UnknownType))
            && (q.sender.value != q.receiver.value && q.typeId.value in types
                && (q.sender.value !in b.balances || q.receiver.value !in b.balances)
                ==> CreateStep(b, types, q) == Err(UserNotFound))
  {
  }

  /** A committed create stores one new record under the next id, leaves
      every other record as it was and appends one log entry. */
  lemma CreateAppends(b: Books, types: Catalog, q: Request)
    requires CreateStep(b, types, q).Ok?
    ensures var b' := CreateStep(b, types, q).value;
      && b'.nextId == b.nextId + 1
      && b'.txs.Keys == b.txs.Keys + {b.nextId}
      && (forall k :: k in b.txs && k != b.nextId ==> b'.txs[k] == b.txs[k])
      && b'.txs[b.nextId].typeId == q.typeId.value
      && b'.txs[b.nextId].counter == StoredCounter(q)
      && |b'.log| == |b.log| + 1 && b'.log[..|b.log|] == b.log && b'.log[|b.log|].txId == b.nextId
  {
  }

  /** A Direct create moves the amount from the sender to the receiver at
      once, is settled, and records the new balances of both. */
  lemma CreateDirectTransfers(b: Books, types: Catalog, q: Request)
    requires CreateStep(b, types, q).Ok? && KindOf(types, q.typeId.value) == Direct
    ensures var b', s, r, a := CreateStep(b, types, q).value, q.sender.value, q.receiver.value, q.amount.value;
      var t := b'.txs[b.nextId];
      && b'.balances[s] == b.balances[s] - a && b'.balances[r] == b.balances[r] + a
      && (forall u :: u in b.balances && u != s && u != r ==> b'.balances[u] == b.balances[u])
      && t.sender == s && t.receiver == r && t.amount == a && t.status == Settled
      && t.senderAfter == Some(b'.balances[s]) && t.receiverAfter == Some(b'.balances[r])
  {
  }

  /** A Deferred create moves nothing, is pending and has no balance-after
      values. */
  lemma CreateDeferredHolds(b: Books, types: Catalog, q: Request)
    requires CreateStep(b, types, q).Ok? && KindOf(types, q.typeId.value) == Deferred
    ensures var b' := CreateStep(b, types, q).value;
      var t := b'.txs[b.nextId];
      && b'.balances == b.balances
      && t.sender == q.sender.value && t.receiver == q.receiver.value && t.amount == q.amount.value
      && t.status == Pending && t.senderAfter.None? && t.receiverAfter.None?
  {
  }

  /** A Cancellation needs an existing Deferred counter. It takes the
      counter's parties and amount, not the request's, and stays pending.
      A settled counter is reversed exactly; a pending one moves nothing. */
  lemma CreateCancellation(b: Books, types: Catalog, q: Request)
    requires WellFormed(b)
    requires CreateStep(b, types, q).Ok? && KindOf(types, q.typeId.value) == Cancellation
    ensures Present(q.counter) && q.counter.value in b.txs
    ensures var b', d := CreateStep(b, types, q).value, b.txs[q.counter.value];
      var t := b'.txs[b.nextId];
      && KindOf(types, d.typeId) == Deferred
      && t.sender == d.sender && t.receiver == d.receiver && t.amount == d.amount
      && t.counter == q.counter && t.status == Pending
      && (d.status == Settled ==> b'.balances == Move(b.balances, d.sender, d.receiver, d.amount))
      && (d.status == Pending ==> b'.balances == b.balances)
  {
  }

  /** The balance-after values of a Cancellation are the request's users'
      balances read before the reversal, whoever the counter's parties are. */
  lemma CancellationAftersFromRequest(b: Books, types: Catalog, q: Request)
    requires CreateStep(b, types, q).Ok? && KindOf(types, q.typeId.value) == Cancellation
    ensures var t := CreateStep(b, types, q).value.txs[b.nextId];
      t.senderAfter == Some(b.balances[q.sender.value]) && t.receiverAfter == Some(b.balances[q.receiver.value])
  {
  }

  /** A Cancellation is refused, with the books untouched, when its counter
      is missing, unknown or not Deferred. */
  lemma CancellationRejects(b: Books, types: Catalog, q: Request)
    requires Present(q.sender) && Present(q.receiver) && Present(q.typeId) && q.amount.Some?
    requires q.sender.value != q.receiver.value && q.typeId.value in types
    requires q.sender.value in b.balances && q.receiver.value in b.balances
    requires KindOf(types, q.typeId.value) == Cancellation
    ensures !Present(q.counter) ==> CreateStep(b, types, q) == Err(MissingCounter)
    ensures Present(q.counter) && q.counter.value !in b.txs ==> CreateStep(b, types, q) == Err(CounterNotFound)
    ensures Present(q.counter) && q.counter.value in b.txs && KindOf(types, b.txs[q.counter.value].typeId) != Deferred
            ==> CreateStep(b, types, q) == Err(CounterNotDeferred)
  {
  }

  /** A request that cancels record `id`, from two existing users. */
  predicate CancelsRequest(b: Books, types: Catalog, q: Request, id: TxId) {
    Present(q.sender) && Present(q.receiver) && Present(q.typeId) && q.amount.Some?
    && q.sender.value != q.receiver.value && q.typeId.value in types
    && q.sender.value in b.balances && q.receiver.value in b.balances
    && KindOf(types, q.typeId.value) == Cancellation
    && id != 0 && q.counter == Some(id)
  }

  /** Settling a Deferred record and then cancelling it puts every balance
      back where it was before the settle. */
  lemma {:induction false} SettleThenCancelRestores(b: Books, types: Catalog, id: TxId, q: Request)
    requires WellFormed(b)
    requires SettleStep(b, types, id).Ok?
    requires CancelsRequest(b, types, q, id)
    ensures CreateStep(SettleStep(b, types, id).value, types, q).Ok?
    ensures CreateStep(SettleStep(b, types, id).value, types, q).value.balances == b.balances
  {
    var t := b.txs[id];
    var b1 := SettleStep(b, types, id).value;
    assert b1.balances == Move(b.balances, t.sender, t.receiver, -t.amount);
    assert b1.txs[id].status == Settled && b1.txs[id].sender == t.sender && b1.txs[id].receiver == t.receiver;
    assert CreateStep(b1, types, q).value.balances == Move(b1.balances, t.sender, t.receiver, t.amount);
    MoveBack(b.balances, t.sender, t.receiver, -t.amount);
  }

  // ---------------------------------------------------------- create many

  /** Once a prefix of the items fails, the whole batch fails with the same
      error: the first failing item decides. */
  lemma {:induction false} CreateSeqFirstFailure(b: Books, types: Catalog, qs: seq<Request>, i: nat)
    requires i <= |qs| && CreateSeq(b, types, qs[..i]).Err?
    ensures CreateSeq(b, types, qs) == CreateSeq(b, types, qs[..i])
    decreases |qs| - i
  {
    if i < |qs| {
      var prefix := qs[..i + 1];
      assert prefix[..|prefix| - 1] == qs[..i];
      assert CreateSeq(b, types, prefix) == CreateSeq(b, types, qs[..i]);
      CreateSeqFirstFailure(b, types, qs, i + 1);
    } else {
      assert qs[..i] == qs;
    }
  }

  /** If item `i` fails on the books the earlier items produced, the batch
      fails on item `i` and commits nothing. */
  lemma CreateAllRollsBack(b: Books, types: Catalog, qs: seq<Request>, i: nat, b1: Books)
    requires i < |qs| && CreateSeq(b, types, qs[..i]) == Ok(b1) && CreateStep(b1, types, qs[i]).Err?
    ensures CreateAll(b, types, qs) == Err(ItemFailed(i, CreateStep(b1, types, qs[i]).error))
  {
    assert qs[..i + 1][..i] == qs[..i];
    CreateSeqFirstFailure(b, types, qs, i + 1);
  }

  /** One more item of createMany on the books the earlier items left. */
  lemma CreateSeqNext(b: Books, types: Catalog, qs: seq<Request>, i: nat, b1: Books)
    requires i < |qs| && CreateSeq(b, types, qs[..i]) == Ok(b1) && CreateStep(b1, types, qs[i]).Ok?
    ensures CreateSeq(b, types, qs[..i + 1]) == CreateStep(b1, types, qs[i])
  {
    assert qs[..i + 1][..i] == qs[..i];
  }

  /** A committed batch adds one record and one log entry per item. */
  lemma {:induction false} CreateSeqCounts(b: Books, types: Catalog, qs: seq<Request>)
    requires CreateSeq(b, types, qs).Ok?
    ensures CreateSeq(b, types, qs).value.nextId == b.nextId + |qs|
    ensures |CreateSeq(b, types, qs).value.log| == |b.log| + |qs|
    decreases |qs|
  {
    if qs != [] {
      CreateSeqCounts(b, types, qs[..|qs| - 1]);
    }
  }

  // ---------------------------------------------------------------- settle

  /** Settle commits exactly for an existing pending Deferred record whose
      users exist; then the receiver pays the amount to the sender, the
      record is settled and carries both new balances, and one log entry
      is appended. */
  lemma SettleOutcome(b: Books, types: Catalog, id: TxId)
    requires WellFormed(b)
    ensures SettleStep(b, types, id).Ok? <==>
      id in b.txs && b.txs[id].status == Pending && KindOf(types, b.txs[id].typeId) == Deferred
      && b.txs[id].sender in b.balances && b.txs[id].receiver in b.balances
    ensures SettleStep(b, types, id).Ok? ==>
      var b', t := SettleStep(b, types, id).value, b.txs[id];
      && b'.balances == Move(b.balances, t.sender, t.receiver, -t.amount)
      && b'.balances[t.sender] == b.balances[t.sender] + t.amount
      && b'.balances[t.receiver] == b.balances[t.receiver] - t.amount
      && b'.txs == b.txs[id := t.(status := Settled, senderAfter := Some(b'.balances[t.sender]),
                                  receiverAfter := Some(b'.balances[t.receiver]))]
      && b'.log == b.log + [LogEntry(id, b'.balances[t.receiver], b'.balances[t.sender])]
  {
  }

  /** A record can be settled once: settling it again is refused. */
  lemma SettleTwiceFails(b: Books, types: Catalog, id: TxId)
    requires SettleStep(b, types, id).Ok?
    ensures SettleStep(SettleStep(b, types, id).value, types, id) == Err(AlreadySettled)
  {
  }

  /** Single settle does not look for a Cancellation of the record, while
      batch settle never picks such a record. */
  lemma SettleIgnoresCancellation(b: Books, types: Catalog, id: TxId)
    requires Cancelled(b.txs, types, id)
    requires id in b.txs && b.txs[id].status == Pending && KindOf(types, b.txs[id].typeId) == Deferred
    requires b.txs[id].sender in b.balances && b.txs[id].receiver in b.balances
    ensures SettleStep(b, types, id).Ok?
    ensures id !in Selection(b, types)
  {
    BatchSkipsCancelled(b, types, id);
  }

  // ---------------------------------------------------------------- update

  /** Update refuses a Cancellation record, an unknown type and a new
      sender equal to the new receiver. */
  lemma UpdateRejects(b: Books, types: Catalog, id: TxId, p: Patch)
    requires id in b.txs
    ensures KindOf(types, b.txs[id].typeId) == Cancellation ==> UpdateStep(b, types, id, p) == Err(CancellationLocked)
    ensures KindOf(types, b.txs[id].typeId) != Cancellation && p.typeId.GetOr(b.txs[id].typeId) in types
            && p.sender.GetOr(b.txs[id].sender) == p.receiver.GetOr(b.txs[id].receiver)
            ==> UpdateStep(b, types, id, p) == Err(SameParty)
    ensures KindOf(types, b.txs[id].typeId) != Cancellation && p.typeId.GetOr(b.txs[id].typeId) !in types
            ==> UpdateStep(b, types, id, p) == Err(UnknownType)
  {
  }

  /** Fields the patch leaves out keep their values; the record's counter
      and balance-after values are never touched. */
  lemma UpdateMergesFields(b: Books, types: Catalog, id: TxId, p: Patch)
    requires UpdateStep(b, types, id, p).Ok?
    ensures var t, t' := b.txs[id], UpdateStep(b, types, id, p).value.txs[id];
      && (p.sender.None? ==> t'.sender == t.sender) && (p.sender.Some? ==> t'.sender == p.sender.value)
      && (p.receiver.None? ==> t'.receiver == t.receiver) && (p.receiver.Some? ==> t'.receiver == p.receiver.value)
      && (p.typeId.None? ==> t'.typeId == t.typeId) && (p.typeId.Some? ==> t'.typeId == p.typeId.value)
      && (p.amount.None? ==> t'.amount == t.amount) && (p.amount.Some? ==> t'.amount == p.amount.value)
      && (p.note.None? ==> t'.note == t.note) && (p.note.Some? ==> t'.note == p.note)
      && t'.counter == t.counter && t'.senderAfter == t.senderAfter && t'.receiverAfter == t.receiverAfter
    ensures UpdateStep(b, types, id, p).value.txs == b.txs[id := UpdateStep(b, types, id, p).value.txs[id]]
  {
  }

  /** A record that is settled if it is Direct: the half of the effect rule
      that an update of a record's type could break. */
  predicate Consistent(types: Catalog, t: Tx) {
    KindOf(types, t.typeId) == Direct ==> t.status == Settled
  }

  /** Update keeps records consistent: a Direct record ends settled. */
  lemma UpdateKeepsConsistent(b: Books, types: Catalog, id: TxId, p: Patch)
    requires UpdateStep(b, types, id, p).Ok?
    ensures Consistent(types, UpdateStep(b, types, id, p).value.txs[id])
  {
  }

  /** Every stored record has a type the catalog holds and is consistent:
      `create` checks the type and stores a Direct record settled, and no
      handler breaks either fact afterwards. */
  predicate Typed(b: Books, types: Catalog) {
    forall k :: k in b.txs ==> b.txs[k].typeId in types && Consistent(types, b.txs[k])
  }

  lemma CreateKeepsTyped(b: Books, types: Catalog, q: Request)
    requires Typed(b, types) && CreateStep(b, types, q).Ok?
    ensures Typed(CreateStep(b, types, q).value, types)
  {
    var t := CreateStep(b, types, q).value.txs[b.nextId];
    assert t.typeId == q.typeId.value && t.status == CreatedStatus(KindOf(types, t.typeId));
  }

  lemma UpdateKeepsTyped(b: Books, types: Catalog, id: TxId, p: Patch)
    requires Typed(b, types) && UpdateStep(b, types, id, p).Ok?
    ensures Typed(UpdateStep(b, types, id, p).value, types)
  {
    UpdateKeepsConsistent(b, types, id, p);
  }

  lemma DeleteKeepsTyped(b: Books, types: Catalog, id: TxId)
    requires Typed(b, types) && DeleteStep(b, types, id).Ok?
    ensures Typed(DeleteStep(b, types, id).value, types)
  {
  }

  lemma SettleKeepsTyped(b: Books, types: Catalog, id: TxId)
    requires Typed(b, types) && SettleStep(b, types, id).Ok?
    ensures Typed(SettleStep(b, types, id).value, types)
  {
  }

  lemma {:induction false} BatchKeepsTyped(b: Books, types: Catalog)
    requires Typed(b, types)
    ensures Typed(BatchSettle(b, types).0, types)
  {
    var ids := Selection(b, types);
    if ids != [] {
      BatchRunOutcome(b, types, ids);
      BatchRunKeepsRecords(b, types, ids);
      var b' := BatchRun(b, types, ids).0;
      forall k | k in b'.txs
        ensures b'.txs[k].typeId in types && Consistent(types, b'.txs[k])
      {
        assert k in b.txs && SameIdentity(b.txs[k], b'.txs[k]);
      }
    }
  }

  /** An update that changes nothing on a consistent record leaves the books
      exactly as they were: the effect taken back is the effect re-applied. */
  lemma {:induction false} UpdateNoChange(b: Books, types: Catalog, id: TxId)
    requires id in b.txs && Consistent(types, b.txs[id])
    requires KindOf(types, b.txs[id].typeId) != Cancellation && b.txs[id].typeId in types
    requires b.txs[id].sender != b.txs[id].receiver
    requires b.txs[id].sender in b.balances && b.txs[id].receiver in b.balances
    ensures UpdateStep(b, types, id, Patch(None, None, None, None, None)) == Ok(b)
  {
    var t := b.txs[id];
    var kind := KindOf(types, t.typeId);
    var x := Signed(kind, t.amount);
    var bal1 := if EffectApplied(kind, t.status) then Move(b.balances, t.sender, t.receiver, -x) else b.balances;
    MoveBack(b.balances, t.sender, t.receiver, -x);
    assert AppliesNew(kind, kind, t.status) == EffectApplied(kind, t.status);
    assert t.(sender := t.sender, receiver := t.receiver, typeId := t.typeId, amount := t.amount,
              note := t.note, status := StatusAfterUpdate(kind, kind, t.status)) == t;
    assert b.txs[id := t] == b.txs;
  }

  /** On well-formed, typed books an update that changes nothing leaves
      the books as they were, for every record but a Cancellation. */
  lemma UpdateNoChangeWhenTyped(b: Books, types: Catalog, id: TxId)
    requires WellFormed(b) && Typed(b, types)
    requires id in b.txs && KindOf(types, b.txs[id].typeId) != Cancellation
    ensures UpdateStep(b, types, id, Patch(None, None, None, None, None)) == Ok(b)
  {
    UpdateNoChange(b, types, id);
  }

  /** An edit that sends back the stored values, or leaves a field out,
      is an update with no fields: the books stay as they were. */
  lemma UpdateResubmitNoChange(b: Books, types: Catalog, id: TxId, p: Patch)
    requires WellFormed(b) && Typed(b, types)
    requires id in b.txs && KindOf(types, b.txs[id].typeId) != Cancellation
    requires p.sender.GetOr(b.txs[id].sender) == b.txs[id].sender
    requires p.receiver.GetOr(b.txs[id].receiver) == b.txs[id].receiver
    requires p.typeId.GetOr(b.txs[id].typeId) == b.txs[id].typeId
    requires p.amount.GetOr(b.txs[id].amount) == b.txs[id].amount
    requires p.note.Some? ==> p.note == b.txs[id].note
    ensures UpdateStep(b, types, id, p) == Ok(b)
  {
    var t := b.txs[id];
    UpdateNoChangeWhenTyped(b, types, id);
    assert Revised(types, t, p) == Revised(types, t, Patch(None, None, None, None, None));
  }

  // ---------------------------------------------------------------- delete

  /** Delete refuses a missing record and a Cancellation. Otherwise it
      removes the record and nothing else, and changes balances exactly
      when the record's effect is on them and both parties exist: a Direct
      record's receiver gives the amount back to the sender, a settled
      Deferred record's sender gives it back to the receiver. */
  lemma DeleteOutcome(b: Books, types: Catalog, id: TxId)
    requires WellFormed(b)
    ensures id !in b.txs ==> DeleteStep(b, types, id) == Err(TxNotFound)
    ensures id in b.txs && KindOf(types, b.txs[id].typeId) == Cancellation
            ==> DeleteStep(b, types, id) == Err(CancellationLocked)
    ensures DeleteStep(b, types, id).Ok? ==>
      var b', t, kind := DeleteStep(b, types, id).value, b.txs[id], KindOf(types, b.txs[id].typeId);
      && b'.txs == b.txs - {id} && b'.log == b.log && b'.nextId == b.nextId
      && (!EffectApplied(kind, t.status) ==> b'.balances == b.balances)
      && (kind == Direct ==>
            b'.balances == Move(b.balances, t.sender, t.receiver, -t.amount)
            && b'.balances[t.receiver] == b.balances[t.receiver] - t.amount
            && b'.balances[t.sender] == b.balances[t.sender] + t.amount)
      && (kind == Deferred && t.status == Settled ==>
            b'.balances == Move(b.balances, t.sender, t.receiver, t.amount)
            && b'.balances[t.receiver] == b.balances[t.receiver] + t.amount
            && b'.balances[t.sender] == b.balances[t.sender] - t.amount)
  {
  }

  /** Delete skips the reversal, and still removes the record, when a party
      of the record no longer exists. */
  lemma DeleteSkipsMissingParty(b: Books, types: Catalog, id: TxId)
    requires id in b.txs && KindOf(types, b.txs[id].typeId) != Cancellation
    requires b.txs[id].sender !in b.balances || b.txs[id].receiver !in b.balances
    ensures DeleteStep(b, types, id) == Ok(b.(txs := b.txs - {id}))
  {
  }

  /** Creating a Direct record and deleting it gives back the same balances
      and the same records. */
  lemma {:induction false} CreateThenDeleteRestores(b: Books, types: Catalog, q: Request)
    requires WellFormed(b)
    requires CreateStep(b, types, q).Ok? && KindOf(types, q.typeId.value) == Direct
    ensures DeleteStep(CreateStep(b, types, q).value, types, b.nextId).Ok?
    ensures var b2 := DeleteStep(CreateStep(b, types, q).value, types, b.nextId).value;
      b2.balances == b.balances && b2.txs == b.txs
  {
    var s, r, a := q.sender.value, q.receiver.value, q.amount.value;
    var b1 := CreateStep(b, types, q).value;
    assert b1.balances == Move(b.balances, s, r, a);
    assert b1.txs[b.nextId].sender == s && b1.txs[b.nextId].receiver == r;
    MoveBack(b.balances, s, r, a);
    assert b.nextId !in b.txs;
    assert b1.txs - {b.nextId} == b.txs;
  }

  /** Deleting a settled Deferred record after a Cancellation has already
      reversed it reverses it a second time, and leaves the Cancellation
      behind with a counter that no longer exists. */
  lemma {:induction false} DeleteAfterCancelReversesTwice(b: Books, types: Catalog, id: TxId, q: Request)
    requires WellFormed(b)
    requires id in b.txs && KindOf(types, b.txs[id].typeId) == Deferred && b.txs[id].status == Settled
    requires CancelsRequest(b, types, q, id)
    ensures CreateStep(b, types, q).Ok?
    ensures var b1 := CreateStep(b, types, q).value;
      var t := b.txs[id];
      && DeleteStep(b1, types, id).Ok?
      && DeleteStep(b1, types, id).value.balances == Move(b.balances, t.sender, t.receiver, 2 * t.amount)
      && b.nextId in DeleteStep(b1, types, id).value.txs
      && DeleteStep(b1, types, id).value.txs[b.nextId].counter == Some(id)
      && id !in DeleteStep(b1, types, id).value.txs
  {
    var t := b.txs[id];
    var b1 := CreateStep(b, types, q).value;
    assert b1.balances == Move(b.balances, t.sender, t.receiver, t.amount);
    assert b1.txs[id] == t;
    assert DeleteStep(b1, types, id).value.balances == Move(b1.balances, t.sender, t.receiver, t.amount);
    MoveTwice(b.balances, t.sender, t.receiver, t.amount, t.amount);
  }
}

/** The transaction controller as an object over the store: the users'
    balances, the transaction table, the audit log and the next id. Each
    handler updates these step by step as the controller does, and is
    proved to end in the state its step function describes (or, on an
    early rollback, in the state it started from), keeping the books sound. */
module LedgerEngine {
  import opened LedgerTypes
  import opened Rules
  import opened Balances
  import opened Steps
  import opened Accounting
  import opened Settlement
  import opened Invariants
  import opened Properties

  class Ledger {
    const types: Catalog
    var balances: map<UserId, int>
    var txs: map<TxId, Tx>
    var log: seq<LogEntry>
    var nextId: TxId
    /** Every user's balance when the ledger was opened. */
    ghost var base: map<UserId, int>
    /** The Cancellations that reversed a settled counter. */
    ghost var reversed: set<TxId>

    function State(): Books
      reads this
    {
      Books(balances, txs, log, nextId)
    }

    ghost predicate Valid()
      reads this
    {
      Sound(State(), types, base, reversed) && Typed(State(), types)
    }

    /** An empty transaction table over the given users and catalog. */
    constructor (catalog: Catalog, users: map<UserId, int>)
      ensures Valid()
      ensures types == catalog && State() == Books(users, map[], [], 1) && base == users
    {
      types := catalog;
      balances := users;
      txs := map[];
      log := [];
      nextId := 1;
      base := users;
      reversed := {};
    }

    /** `create`: validate, then dispatch on the kind of the requested type,
        insert the record under the next id and log it. */
    method Create(q: Request) returns (res: Result<TxId>)
      requires Valid()
      modifies this
      ensures Valid() && base == old(base)
      ensures CreateStep(old(State()), types, q).Ok? ==>
                State() == CreateStep(old(State()), types, q).value && res == Ok(old(nextId))
      ensures CreateStep(old(State()), types, q).Err? ==>
                State() == old(State()) && res == Err(CreateStep(old(State()), types, q).error)
    {
      ghost var b0, rev0 := State(), reversed;
      if !Present(q.sender) || !Present(q.receiver) || !Present(q.typeId) || q.amount.None? {
        return Err(MissingField);
      }
      if q.sender.value == q.receiver.value {
        return Err(SameParty);
      }
      if q.typeId.value !in types {
        return Err(UnknownType);
      }
      if q.sender.value !in balances || q.receiver.value !in balances {
        return Err(UserNotFound);
      }
      if KindOfName(types[q.typeId.value]) == Cancellation {
        res := RecordReversal(q);
      } else {
        res := RecordTransfer(q);
      }
      if res.Ok? {
        reversed := TrackedAfterCreate(b0, types, q, rev0);
        CreateKeepsSound(b0, types, base, rev0, q);
        CreateKeepsTyped(b0, types, q);
      }
    }

    /** The part of `create` after validation for every type but a
        Cancellation: move the points of a Direct transfer, insert the
        record and log it. */
    method RecordTransfer(q: Request) returns (res: Result<TxId>)
      requires Validated(State(), types, q) && KindOfName(types[q.typeId.value]) != Cancellation
      modifies this
      ensures CreateStep(old(State()), types, q).Ok?
      ensures State() == CreateStep(old(State()), types, q).value && res == Ok(old(nextId))
      ensures base == old(base) && reversed == old(reversed)
    {
      var s, r, ty, a := q.sender.value, q.receiver.value, q.typeId.value, q.amount.value;
      var kind := KindOfName(types[ty]);
      var leftS, leftR := balances[s], balances[r];
      var afterS, afterR := Some(leftS), Some(leftR);
      if kind == Deferred {
        // nothing moves until the record is settled
        afterS, afterR := None, None;
      } else if kind == Direct {
        // atomic increments: the receiver's row, then the sender's
        balances := Move(balances, s, r, a);
        leftS, leftR := balances[s], balances[r];
        afterS, afterR := Some(leftS), Some(leftR);
      } else {
        // any other type writes the balances it read back unchanged
        balances := balances[s := leftS];
        balances := balances[r := leftR];
      }
      var id := nextId;
      txs := txs[id := Tx(s, r, ty, a, StoredCounter(q), StoredNote(q), CreatedStatus(kind), afterS, afterR)];
      nextId := nextId + 1;
      log := log + [LogEntry(id, leftR, leftS)];
      res := Ok(id);
    }

    /** The part of `create` after validation for a Cancellation: check the
        counter record, reverse it when it is settled, insert the record
        with the counter's parties and amount and log it. */
    method RecordReversal(q: Request) returns (res: Result<TxId>)
      requires Validated(State(), types, q) && KindOfName(types[q.typeId.value]) == Cancellation
      modifies this
      ensures CreateStep(old(State()), types, q).Ok? ==>
                State() == CreateStep(old(State()), types, q).value && res == Ok(old(nextId))
      ensures CreateStep(old(State()), types, q).Err? ==>
                State() == old(State()) && res == Err(CreateStep(old(State()), types, q).error)
      ensures base == old(base) && reversed == old(reversed)
    {
      var s, r, ty := q.sender.value, q.receiver.value, q.typeId.value;
      var leftS, leftR := balances[s], balances[r];
      if !Present(q.counter) {
        return Err(MissingCounter);
      }
      if q.counter.value !in txs {
        return Err(CounterNotFound);
      }
      var d := txs[q.counter.value];
      if KindOf(types, d.typeId) != Deferred {
        return Err(CounterNotDeferred);
      }
      if d.status == Settled {
        if d.sender !in balances || d.receiver !in balances {
          return Err(CounterUserNotFound);
        }
        // a settled counter is reversed: its sender pays back, its receiver is refunded
        var senderLeft, receiverLeft := balances[d.sender] - d.amount, balances[d.receiver] + d.amount;
        balances := balances[d.sender := senderLeft];
        balances := balances[d.receiver := receiverLeft];
      }
      var id := nextId;
      txs := txs[id := Tx(d.sender, d.receiver, ty, d.amount, StoredCounter(q), StoredNote(q), Pending, Some(leftS), Some(leftR))];
      nextId := nextId + 1;
      log := log + [LogEntry(id, leftR, leftS)];
      res := Ok(id);
    }

    /** `createMany`: every item as `create` inside one transaction; the
        first item that fails rolls back all the earlier ones, and the ids
        they were given stay used. */
    method CreateMany(qs: seq<Request>) returns (res: Result<seq<TxId>>)
      requires Valid()
      modifies this
      ensures Valid() && base == old(base)
      ensures CreateAll(old(State()), types, qs).Ok? ==>
                State() == CreateAll(old(State()), types, qs).value && res.Ok? && |res.value| == |qs|
                && forall j :: 0 <= j < |qs| ==> res.value[j] == old(nextId) + j
      ensures CreateAll(old(State()), types, qs).Err? ==>
                res == Err(CreateAll(old(State()), types, qs).error)
                && State() == old(State()).(nextId := old(nextId) + IdsTaken(CreateAll(old(State()), types, qs).error))
    {
      if |qs| == 0 {
        return Err(EmptyBatch);
      }
      var saved := State();
      ghost var rev0 := reversed;
      var ids: seq<TxId> := [];
      var i := 0;
      while i < |qs|
        invariant 0 <= i <= |qs|
        invariant Valid() && base == old(base)
        invariant CreateSeq(saved, types, qs[..i]) == Ok(State())
        invariant Sound(saved, types, base, rev0) && Typed(saved, types)
        invariant nextId == saved.nextId + i
        invariant |ids| == i && forall j :: 0 <= j < i ==> ids[j] == saved.nextId + j
      {
        ghost var before := State();
        var created := Create(qs[i]);
        if created.Err? {
          CreateAllRollsBack(saved, types, qs, i, before);
          Restore(saved, rev0, i);
          return Err(ItemFailed(i, created.error));
        }
        assert CreateStep(before, types, qs[i]).Ok? && created.value == before.nextId;
        CreateSeqNext(saved, types, qs, i, before);
        CreateAppends(before, types, qs[i]);
        ids := ids + [created.value];
        i := i + 1;
      }
      assert qs[..|qs|] == qs;
      res := Ok(ids);
    }

    /** The rollback of `createMany`: the rows the batch inserted go, the
        auto-increment ids they took do not. */
    method Restore(saved: Books, ghost rev0: set<TxId>, n: nat)
      requires Sound(saved, types, base, rev0) && Typed(saved, types)
      modifies this
      ensures Valid() && base == old(base)
      ensures State() == saved.(nextId := saved.nextId + n)
    {
      balances, txs, log, nextId := saved.balances, saved.txs, saved.log, saved.nextId + n;
      reversed := rev0;
      IdsSkippedKeepSound(saved, types, base, rev0, n);
    }

    /** `update`: take back the old effect if it is on the balances, apply
        the new one if the rule says so, then store the merged fields and
        the new status. */
    method Update(id: TxId, p: Patch) returns (res: Result<Tx>)
      requires Valid()
      modifies this
      ensures Valid() && base == old(base)
      ensures UpdateStep(old(State()), types, id, p).Ok? ==>
                State() == UpdateStep(old(State()), types, id, p).value && id in txs && res == Ok(txs[id])
      ensures UpdateStep(old(State()), types, id, p).Err? ==>
                State() == old(State()) && res == Err(UpdateStep(old(State()), types, id, p).error)
    {
      if id !in txs {
        return Err(TxNotFound);
      }
      var t := txs[id];
      if KindOf(types, t.typeId) == Cancellation {
        return Err(CancellationLocked);
      }
      var ty := p.typeId.GetOr(t.typeId);
      if ty !in types {
        return Err(UnknownType);
      }
      var s, r := p.sender.GetOr(t.sender), p.receiver.GetOr(t.receiver);
      if s == r {
        return Err(SameParty);
      }
      if s !in balances || r !in balances {
        return Err(UserNotFound);
      }
      ghost var b0 := State();
      var t' := Rewrite(id, p);
      UpdateKeepsSound(b0, types, base, reversed, id, p);
      UpdateKeepsTyped(b0, types, id, p);
      res := Ok(t');
    }

    /** The writes of `update` once its checks have passed. */
    method Rewrite(id: TxId, p: Patch) returns (t': Tx)
      requires UpdateStep(State(), types, id, p).Ok?
      modifies this
      ensures State() == UpdateStep(old(State()), types, id, p).value && id in txs && t' == txs[id]
      ensures base == old(base) && reversed == old(reversed)
    {
      var t := txs[id];
      t' := Revised(types, t, p);
      var oldKind, newKind := KindOf(types, t.typeId), KindOf(types, t'.typeId);
      // both pairs of atomic increments: the receiver's row first, then the sender's
      if EffectApplied(oldKind, t.status) {
        balances := Move(balances, t.sender, t.receiver, -Signed(oldKind, t.amount));
      }
      if AppliesNew(newKind, oldKind, t.status) {
        balances := Move(balances, t'.sender, t'.receiver, Signed(newKind, t'.amount));
      }
      txs := txs[id := t'];
    }

    /** `delete`: take back an applied effect when both parties still exist,
        then remove the record. */
    method Delete(id: TxId) returns (res: Result<()>)
      requires Valid()
      modifies this
      ensures Valid() && base == old(base)
      ensures DeleteStep(old(State()), types, id).Ok? ==>
                State() == DeleteStep(old(State()), types, id).value && res == Ok(())
      ensures DeleteStep(old(State()), types, id).Err? ==>
                State() == old(State()) && res == Err(DeleteStep(old(State()), types, id).error)
    {
      if id !in txs {
        return Err(TxNotFound);
      }
      if KindOf(types, txs[id].typeId) == Cancellation {
        return Err(CancellationLocked);
      }
      ghost var b0 := State();
      Remove(id);
      DeleteKeepsSound(b0, types, base, reversed, id);
      DeleteKeepsTyped(b0, types, id);
      res := Ok(());
    }

    /** The writes of `delete` once its checks have passed. */
    method Remove(id: TxId)
      requires DeleteStep(State(), types, id).Ok?
      modifies this
      ensures State() == DeleteStep(old(State()), types, id).value
      ensures base == old(base) && reversed == old(reversed)
    {
      var t := txs[id];
      var kind := KindOf(types, t.typeId);
      if EffectApplied(kind, t.status) && t.sender in balances && t.receiver in balances {
        var senderLeft, receiverLeft := balances[t.sender], balances[t.receiver];
        if kind == Direct {
          receiverLeft, senderLeft := receiverLeft - t.amount, senderLeft + t.amount;
        } else {
          receiverLeft, senderLeft := receiverLeft + t.amount, senderLeft - t.amount;
        }
        balances := balances[t.sender := senderLeft];
        balances := balances[t.receiver := receiverLeft];
      }
      txs := txs - {id};
    }

    /** `chotGiaoDich`: settle one pending Deferred record. */
    method Settle(id: TxId) returns (res: Result<Tx>)
      requires Valid()
      modifies this
      ensures Valid() && base == old(base)
      ensures SettleStep(old(State()), types, id).Ok? ==>
                State() == SettleStep(old(State()), types, id).value && id in txs && res == Ok(txs[id])
      ensures SettleStep(old(State()), types, id).Err? ==>
                State() == old(State()) && res == Err(SettleStep(old(State()), types, id).error)
    {
      if id !in txs {
        return Err(TxNotFound);
      }
      var t := txs[id];
      if t.status == Settled {
        return Err(AlreadySettled);
      }
      if KindOf(types, t.typeId) != Deferred {
        return Err(NotDeferred);
      }
      if t.sender !in balances || t.receiver !in balances {
        return Err(UserNotFound);
      }
      ghost var b0 := State();
      var t' := MarkSettled(id);
      SettleKeepsSound(b0, types, base, reversed, id);
      SettleKeepsTyped(b0, types, id);
      res := Ok(t');
    }

    /** The writes of `chotGiaoDich` once its checks have passed: the two
        balances as read plus and minus the amount, the record settled with
        the new balances, one log row. */
    method MarkSettled(id: TxId) returns (t': Tx)
      requires SettleStep(State(), types, id).Ok?
      modifies this
      ensures State() == SettleStep(old(State()), types, id).value && id in txs && t' == txs[id]
      ensures base == old(base) && reversed == old(reversed)
    {
      var t := txs[id];
      var senderLeft, receiverLeft := balances[t.sender] + t.amount, balances[t.receiver] - t.amount;
      balances := balances[t.sender := senderLeft];
      balances := balances[t.receiver := receiverLeft];
      t' := t.(status := Settled, senderAfter := Some(senderLeft), receiverAfter := Some(receiverLeft));
      txs := txs[id := t'];
      log := log + [LogEntry(id, receiverLeft, senderLeft)];
    }

    /** The loop of `chotTatCaGiaoDich` over the selected ids: each record
        whose users both exist is settled, every other one is reported. */
    method SettleEach(ids: seq<TxId>) returns (count: nat, failed: seq<TxId>)
      requires forall k :: k in ids ==> k in txs
      modifies this
      ensures (State(), count, failed) == BatchRun(old(State()), types, ids)
      ensures base == old(base) && reversed == old(reversed)
    {
      ghost var saved := State();
      count, failed := 0, [];
      var i := 0;
      while i < |ids|
        invariant 0 <= i <= |ids|
        invariant base == old(base) && reversed == old(reversed) && saved == old(State())
        invariant (State(), count, failed) == BatchRun(saved, types, ids[..i])
      {
        BatchRunNext(saved, types, ids, i);
        count, failed := SettleNext(ids[i], count, failed);
        i := i + 1;
      }
      assert ids[..|ids|] == ids;
    }

    /** One item of the batch: if both users exist, increment the sender and
        decrement the receiver atomically, read the balances back, mark the
        record settled, log it and count it; otherwise change nothing and
        report the id as failed. */
    method SettleNext(id: TxId, count: nat, failed: seq<TxId>) returns (count': nat, failed': seq<TxId>)
      requires id in txs
      modifies this
      ensures (State(), count', failed') == BatchStep((old(State()), count, failed), id)
      ensures base == old(base) && reversed == old(reversed)
    {
      var t := txs[id];
      if t.sender !in balances || t.receiver !in balances {
        return count, failed + [id];
      }
      // atomic increments: the sender's row, then the receiver's
      balances := Move(balances, t.receiver, t.sender, t.amount);
      var senderLeft, receiverLeft := balances[t.sender], balances[t.receiver];
      txs := txs[id := t.(status := Settled, senderAfter := Some(senderLeft), receiverAfter := Some(receiverLeft))];
      log := log + [LogEntry(id, receiverLeft, senderLeft)];
      count', failed' := count + 1, failed;
    }

    /** `chotTatCaGiaoDich`: settle every eligible record in creation order,
        counting successes and collecting the ids that failed; roll back
        when nothing succeeded and something failed. The books stay sound. */
    method SettleAll() returns (res: Result<BatchReport>)
      requires Valid()
      modifies this
      ensures Valid() && base == old(base)
      ensures res == BatchSettle(old(State()), types).1 && State() == BatchSettle(old(State()), types).0
    {
      ghost var b0 := State();
      res := RunBatch();
      BatchKeepsSound(b0, types, base, reversed);
      BatchKeepsTyped(b0, types);
    }

    /** The body of `chotTatCaGiaoDich`: select, run the loop, then commit
        or roll back. */
    method RunBatch() returns (res: Result<BatchReport>)
      modifies this
      ensures res == BatchSettle(old(State()), types).1 && State() == BatchSettle(old(State()), types).0
      ensures base == old(base) && reversed == old(reversed)
    {
      var saved := State();
      var ids := Selection(saved, types);
      if |ids| == 0 {
        return Ok(BatchReport(0, 0, []));
      }
      var count, failed := SettleEach(ids);
      if count == 0 && |failed| > 0 {
        balances, txs, log, nextId := saved.balances, saved.txs, saved.log, saved.nextId;
        return Err(NothingSettled(failed));
      }
      res := Ok(BatchReport(count, |ids|, failed));
    }
  }
}

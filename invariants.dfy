/** Every handler keeps the books sound: records stay well formed and each
    balance stays its starting value plus the flows of the stored records. */
module Invariants {
  import opened LedgerTypes
  import opened Rules
  import opened Balances
  import opened Steps
  import opened Accounting
  import opened Settlement

  /** The request is a Cancellation of a settled counter, so create reverses
      that counter and the new record carries the reversal. */
  predicate ReversesCounter(b: Books, types: Catalog, q: Request) {
    Present(q.typeId) && q.typeId.value in types && KindOfName(types[q.typeId.value]) == Cancellation
    && Present(q.counter) && q.counter.value in b.txs && b.txs[q.counter.value].status == Settled
  }

  function TrackedAfterCreate(b: Books, types: Catalog, q: Request, rev: set<TxId>): set<TxId> {
    if ReversesCounter(b, types, q) then rev + {b.nextId} else rev
  }

  /** Create stores one new record under the next id, with two distinct
      existing parties, and moves each balance by exactly that record's
      share. */
  lemma {:induction false} CreateMovesFlow(b: Books, types: Catalog, rev: set<TxId>, q: Request)
    requires WellFormed(b) && Tracked(b, types, rev) && CreateStep(b, types, q).Ok?
    ensures var b', k := CreateStep(b, types, q).value, b.nextId;
      var rev' := TrackedAfterCreate(b, types, q, rev);
      && k !in b.txs && k in b'.txs && b'.txs == b.txs[k := b'.txs[k]]
      && b'.nextId == k + 1 && b'.balances.Keys == b.balances.Keys
      && b'.txs[k].sender != b'.txs[k].receiver
      && b'.txs[k].sender in b.balances && b'.txs[k].receiver in b.balances
      && (k in rev' ==> KindOf(types, b'.txs[k].typeId) == Cancellation)
      && forall u :: u in b.balances ==> b'.balances[u] == b.balances[u] + ShareOf(u, b'.txs, types, rev', k)
  {
    var b' := CreateStep(b, types, q).value;
    var rev' := TrackedAfterCreate(b, types, q, rev);
    var k := b.nextId;
    var t := b'.txs[k];
    var kind := KindOfName(types[q.typeId.value]);
    assert k !in b.txs && k !in rev;
    if kind == Cancellation {
      var d := b.txs[q.counter.value];
      assert t.sender == d.sender && t.receiver == d.receiver && t.amount == d.amount && t.status == Pending;
      if d.status == Settled {
        assert k in rev';
        assert b'.balances == Move(b.balances, d.sender, d.receiver, d.amount);
        MoveAt(b.balances, d.sender, d.receiver, d.amount);
      } else {
        assert k !in rev' && b'.balances == b.balances;
      }
    } else if kind == Direct {
      var s, r, a := q.sender.value, q.receiver.value, q.amount.value;
      assert t.sender == s && t.receiver == r && t.amount == a && t.status == Settled;
      assert b'.balances == Move(b.balances, s, r, a);
      MoveAt(b.balances, s, r, a);
    } else {
      assert t.status == Pending && b'.balances == b.balances && k !in rev';
    }
  }

  lemma {:induction false} CreateKeepsSound(b: Books, types: Catalog, base: map<UserId, int>, rev: set<TxId>, q: Request)
    requires Sound(b, types, base, rev) && CreateStep(b, types, q).Ok?
    ensures Sound(CreateStep(b, types, q).value, types, base, TrackedAfterCreate(b, types, q, rev))
  {
    var b' := CreateStep(b, types, q).value;
    var rev' := TrackedAfterCreate(b, types, q, rev);
    var k := b.nextId;
    CreateMovesFlow(b, types, rev, q);
    assert k !in rev && rev' <= rev + {k};
    assert forall j :: j in b.txs ==> b'.txs[j] == b.txs[j];
    PutKeepsAccounts(b, b', types, base, rev, rev', k, b'.txs[k]);
  }

  /** A rollback that keeps the ids the undone inserts used up keeps the
      books sound. */
  lemma IdsSkippedKeepSound(b: Books, types: Catalog, base: map<UserId, int>, rev: set<TxId>, n: nat)
    requires Sound(b, types, base, rev)
    ensures Sound(b.(nextId := b.nextId + n), types, base, rev)
  {
  }

  /** A transfer taken back when `undo` holds, then a transfer made when
      `redo` holds: each balance moves by the difference of the two shares. */
  lemma TwoMoves(bal: map<UserId, int>, p1: UserId, q1: UserId, undo: bool, x: int,
                 p2: UserId, q2: UserId, redo: bool, y: int)
    ensures var bal1 := if undo then Move(bal, p1, q1, -x) else bal;
      var bal2 := if redo then Move(bal1, p2, q2, y) else bal1;
      && bal2.Keys == bal.Keys
      && forall u :: u in bal ==>
           bal2[u] == bal[u] - Shift(u, p1, q1, if undo then x else 0) + Shift(u, p2, q2, if redo then y else 0)
  {
    var bal1 := if undo then Move(bal, p1, q1, -x) else bal;
    MoveAt(bal, p1, q1, -x);
    MoveAt(bal1, p2, q2, y);
  }

  /** Update's balances: each user loses its share of the old record's flow
      and gains its share of the revised record's flow. */
  lemma {:induction false} RebalancedMovesFlows(bal: map<UserId, int>, types: Catalog, t: Tx, t': Tx)
    requires t'.status == StatusAfterUpdate(KindOf(types, t'.typeId), KindOf(types, t.typeId), t.status)
    ensures Rebalanced(bal, types, t, t').Keys == bal.Keys
    ensures forall u :: u in bal ==>
      Rebalanced(bal, types, t, t')[u] == bal[u] - Shift(u, t.sender, t.receiver, Flow(t, KindOf(types, t.typeId), false))
                                          + Shift(u, t'.sender, t'.receiver, Flow(t', KindOf(types, t'.typeId), false))
  {
    var oldKind, newKind := KindOf(types, t.typeId), KindOf(types, t'.typeId);
    UpdateKeepsEffectRule(newKind, oldKind, t.status);
    var undo, redo := EffectApplied(oldKind, t.status), AppliesNew(newKind, oldKind, t.status);
    assert Flow(t, oldKind, false) == if undo then Signed(oldKind, t.amount) else 0;
    assert Flow(t', newKind, false) == if redo then Signed(newKind, t'.amount) else 0;
    TwoMoves(bal, t.sender, t.receiver, undo, Signed(oldKind, t.amount),
             t'.sender, t'.receiver, redo, Signed(newKind, t'.amount));
  }

  /** Update moves every balance by exactly taking back the old record's
      flow and adding the new record's flow. */
  lemma {:induction false} UpdateMovesFlows(b: Books, types: Catalog, id: TxId, p: Patch)
    requires UpdateStep(b, types, id, p).Ok?
    ensures var b' := UpdateStep(b, types, id, p).value;
      var t, t' := b.txs[id], b'.txs[id];
      && b'.balances.Keys == b.balances.Keys
      && forall u :: u in b.balances ==>
           b'.balances[u] == b.balances[u] - Shift(u, t.sender, t.receiver, Flow(t, KindOf(types, t.typeId), false))
                             + Shift(u, t'.sender, t'.receiver, Flow(t', KindOf(types, t'.typeId), false))
  {
    var t := b.txs[id];
    RebalancedMovesFlows(b.balances, types, t, Revised(types, t, p));
  }

  lemma {:induction false} UpdateKeepsSound(b: Books, types: Catalog, base: map<UserId, int>, rev: set<TxId>,
                                            id: TxId, p: Patch)
    requires Sound(b, types, base, rev) && UpdateStep(b, types, id, p).Ok?
    ensures Sound(UpdateStep(b, types, id, p).value, types, base, rev)
  {
    var b' := UpdateStep(b, types, id, p).value;
    var t, t' := b.txs[id], b'.txs[id];
    assert id !in rev;
    assert b'.txs == b.txs[id := t'];
    UpdateMovesFlows(b, types, id, p);
    PutKeepsAccounts(b, b', types, base, rev, rev, id, t');
  }

  /** Delete of a well-formed record takes back exactly its flow. */
  lemma {:induction false} DeleteMovesFlow(b: Books, types: Catalog, id: TxId)
    requires DeleteStep(b, types, id).Ok?
    requires b.txs[id].sender != b.txs[id].receiver
    requires b.txs[id].sender in b.balances && b.txs[id].receiver in b.balances
    ensures var b' := DeleteStep(b, types, id).value;
      var t := b.txs[id];
      && b'.balances.Keys == b.balances.Keys && b'.txs == b.txs - {id}
      && forall u :: u in b.balances ==>
           b'.balances[u] == b.balances[u] - Shift(u, t.sender, t.receiver, Flow(t, KindOf(types, t.typeId), false))
  {
    var t := b.txs[id];
    var kind := KindOf(types, t.typeId);
    var undo := Flow(t, kind, false);
    assert undo == if EffectApplied(kind, t.status) then Signed(kind, t.amount) else 0;
    if EffectApplied(kind, t.status) {
      assert DeleteStep(b, types, id).value.balances == Move(b.balances, t.sender, t.receiver, -undo);
    }
  }

  lemma {:induction false} DeleteKeepsSound(b: Books, types: Catalog, base: map<UserId, int>, rev: set<TxId>, id: TxId)
    requires Sound(b, types, base, rev) && DeleteStep(b, types, id).Ok?
    ensures Sound(DeleteStep(b, types, id).value, types, base, rev)
  {
    var b' := DeleteStep(b, types, id).value;
    assert id !in rev;
    DeleteMovesFlow(b, types, id);
    DropKeepsAccounts(b, b', types, base, rev, id);
  }

  /** Settling a record whose parties differ moves each balance by the
      settled record's flow. */
  lemma {:induction false} SettleMovesFlow(b: Books, types: Catalog, id: TxId)
    requires SettleStep(b, types, id).Ok? && b.txs[id].sender != b.txs[id].receiver
    ensures var b' := SettleStep(b, types, id).value;
      var t := b.txs[id];
      && b'.balances.Keys == b.balances.Keys && b'.txs == b.txs[id := b'.txs[id]]
      && forall u :: u in b.balances ==>
           b'.balances[u] == b.balances[u] + Shift(u, t.sender, t.receiver, Flow(b'.txs[id], Deferred, false))
  {
    var t := b.txs[id];
    MoveAt(b.balances, t.sender, t.receiver, -t.amount);
  }

  lemma {:induction false} SettleKeepsSound(b: Books, types: Catalog, base: map<UserId, int>, rev: set<TxId>, id: TxId)
    requires Sound(b, types, base, rev) && SettleStep(b, types, id).Ok?
    ensures Sound(SettleStep(b, types, id).value, types, base, rev)
  {
    var b' := SettleStep(b, types, id).value;
    assert id !in rev;
    SettleMovesFlow(b, types, id);
    PutKeepsAccounts(b, b', types, base, rev, rev, id, b'.txs[id]);
  }

  /** One batch item moves each balance by the settled record's flow. */
  lemma {:induction false} SettleItemMovesFlow(b: Books, types: Catalog, id: TxId)
    requires id in b.txs && KindOf(types, b.txs[id].typeId) == Deferred
    requires SettleItem(b, id).Ok?
    ensures var b' := SettleItem(b, id).value;
      var t := b.txs[id];
      && b'.balances.Keys == b.balances.Keys
      && b'.txs == b.txs[id := b'.txs[id]] && b'.txs[id].status == Settled && SameIdentity(t, b'.txs[id])
      && forall u :: u in b.balances ==>
           b'.balances[u] == b.balances[u] + Shift(u, t.sender, t.receiver, Flow(b'.txs[id], Deferred, false))
  {
    var t := b.txs[id];
    MoveFlip(b.balances, t.sender, t.receiver, t.amount);
  }

  /** One batch item on a pending Deferred record keeps the books sound. */
  lemma {:induction false} SettleItemKeepsSound(b: Books, types: Catalog, base: map<UserId, int>, rev: set<TxId>, id: TxId)
    requires Sound(b, types, base, rev) && id in b.txs
    requires KindOf(types, b.txs[id].typeId) == Deferred && b.txs[id].status == Pending
    requires SettleItem(b, id).Ok?
    ensures Sound(SettleItem(b, id).value, types, base, rev)
  {
    var b' := SettleItem(b, id).value;
    var t' := b'.txs[id];
    assert id !in rev;
    SettleItemMovesFlow(b, types, id);
    PutKeepsAccounts(b, b', types, base, rev, rev, id, t');
  }

  /** The batch loop over distinct pending Deferred records keeps the books
      sound. */
  lemma {:induction false} BatchRunKeepsSound(b: Books, types: Catalog, base: map<UserId, int>, rev: set<TxId>, ids: seq<TxId>)
    requires Sound(b, types, base, rev)
    requires forall i, j :: 0 <= i < j < |ids| ==> ids[i] < ids[j]
    requires forall k :: k in ids ==> k in b.txs && KindOf(types, b.txs[k].typeId) == Deferred && b.txs[k].status == Pending
    ensures Sound(BatchRun(b, types, ids).0, types, base, rev)
    decreases |ids|
  {
    if ids != [] {
      var prefix, id := ids[..|ids| - 1], ids[|ids| - 1];
      assert forall k :: k in ids <==> k in prefix || k == id;
      assert id !in prefix;
      BatchRunKeepsSound(b, types, base, rev, prefix);
      BatchRunOutcome(b, types, prefix);
      var b1 := BatchRun(b, types, prefix).0;
      assert b1.txs[id] == b.txs[id];
      if SettleItem(b1, id).Ok? {
        SettleItemKeepsSound(b1, types, base, rev, id);
      }
    }
  }

  lemma BatchKeepsSound(b: Books, types: Catalog, base: map<UserId, int>, rev: set<TxId>)
    requires Sound(b, types, base, rev)
    ensures Sound(BatchSettle(b, types).0, types, base, rev)
  {
    var ids := Selection(b, types);
    if ids != [] {
      BatchRunKeepsSound(b, types, base, rev, ids);
    }
  }
}

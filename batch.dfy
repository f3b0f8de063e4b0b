/** What batch settle (`chotTatCaGiaoDich`) promises: which records it picks,
    what happens to each, what it reports and what a second run finds. */
module Settlement {
  import opened LedgerTypes
  import opened Steps

  /** A non-empty sequence has a member; stated without a precondition so
      that it can be used where the sequence turns out to be empty. */
  lemma FirstIsMember(s: seq<TxId>)
    ensures s != [] ==> s[0] in s
  {
  }

  /** The batch loop changes only status and balance-after values. */
  lemma {:induction false} BatchRunKeepsRecords(b: Books, types: Catalog, ids: seq<TxId>)
    requires forall k :: k in ids ==> k in b.txs
    ensures SameRecords(b.txs, BatchRun(b, types, ids).0.txs)
    decreases |ids|
  {
    if ids != [] {
      var prefix := ids[..|ids| - 1];
      assert forall k :: k in prefix ==> k in ids;
      BatchRunKeepsRecords(b, types, prefix);
    }
  }

  /** PartiesKnown only looks at the parties and at which users exist. */
  lemma PartiesKnownStable(b: Books, b': Books, k: TxId)
    requires k in b.txs && SameRecords(b.txs, b'.txs) && b'.balances.Keys == b.balances.Keys
    ensures PartiesKnown(b', k) == PartiesKnown(b, k)
  {
    assert SameIdentity(b.txs[k], b'.txs[k]);
  }

  /** One more item of the batch loop: settle it on the books the earlier
      items left, or record it as failed. */
  lemma BatchRunNext(b: Books, types: Catalog, ids: seq<TxId>, i: nat)
    requires i < |ids| && forall k :: k in ids ==> k in b.txs
    ensures ids[i] in BatchRun(b, types, ids[..i]).0.txs
    ensures BatchRun(b, types, ids[..i + 1]) == BatchStep(BatchRun(b, types, ids[..i]), ids[i])
  {
    assert ids[..i + 1][..i] == ids[..i];
  }

  /** Each selected record is either settled or left as it was and reported
      as failed, and it fails exactly when one of its users is missing;
      records outside the run are not touched. */
  lemma {:induction false} BatchRunOutcome(b: Books, types: Catalog, ids: seq<TxId>)
    requires forall k :: k in ids ==> k in b.txs
    ensures var r := BatchRun(b, types, ids);
      && (forall k :: k in b.txs && k !in ids ==> r.0.txs[k] == b.txs[k])
      && (forall k :: k in r.2 ==> k in ids && r.0.txs[k] == b.txs[k])
      && (forall k :: k in ids ==> (k in r.2 <==> !PartiesKnown(b, k)))
      && (forall k :: k in ids && k !in r.2 ==> r.0.txs[k].status == Settled)
    decreases |ids|
  {
    if ids != [] {
      var prefix, id := ids[..|ids| - 1], ids[|ids| - 1];
      assert forall k :: k in ids <==> k in prefix || k == id;
      BatchRunOutcome(b, types, prefix);
      BatchRunKeepsRecords(b, types, prefix);
      var run := BatchRun(b, types, prefix);
      var b1 := run.0;
      PartiesKnownStable(b, b1, id);
      var r := BatchRun(b, types, ids);
      if SettleItem(b1, id).Err? {
        assert r == (b1, run.1, run.2 + [id]);
        assert !PartiesKnown(b, id);
        assert forall k :: k in r.2 <==> k in run.2 || k == id;
      } else {
        var t := b1.txs[id];
        assert PartiesKnown(b, id);
        assert id !in run.2;
        assert r.2 == run.2;
        assert r.0.txs == b1.txs[id := t.(status := Settled, senderAfter := r.0.txs[id].senderAfter,
                                          receiverAfter := r.0.txs[id].receiverAfter)];
      }
    }
  }

  /** A run in which nothing succeeded reports every id, in order. */
  lemma {:induction false} BatchRunAllFailed(b: Books, types: Catalog, ids: seq<TxId>)
    requires forall k :: k in ids ==> k in b.txs
    ensures BatchRun(b, types, ids).1 == 0 ==> BatchRun(b, types, ids).2 == ids
    decreases |ids|
  {
    if ids != [] {
      var prefix := ids[..|ids| - 1];
      assert forall k :: k in prefix ==> k in ids;
      BatchRunAllFailed(b, types, prefix);
      assert ids == prefix + [ids[|ids| - 1]];
    }
  }

  /** Every selected record is counted once: successes plus failures make
      the total the report gives. */
  lemma BatchCounts(b: Books, types: Catalog)
    requires BatchSettle(b, types).1.Ok?
    ensures var rep := BatchSettle(b, types).1.value;
      rep.count + |rep.failed| == rep.total && rep.total == |Selection(b, types)|
  {
  }

  /** The batch is rolled back exactly when something was selected and
      nothing could be settled; then the books are unchanged and every
      selected record is reported. */
  lemma {:induction false} BatchRollsBackIff(b: Books, types: Catalog)
    ensures var (b', out) := BatchSettle(b, types);
      && (out.Err? <==> Selection(b, types) != [] && BatchRun(b, types, Selection(b, types)).1 == 0)
      && (out.Err? ==> b' == b && |out.error.failed| == |Selection(b, types)|)
      && (out.Err? ==> out.error.failed == Selection(b, types))
  {
    BatchRunAllFailed(b, types, Selection(b, types));
  }

  /** A record that a Cancellation refers to is never selected. */
  lemma BatchSkipsCancelled(b: Books, types: Catalog, id: TxId)
    requires Cancelled(b.txs, types, id)
    ensures id !in Selection(b, types)
  {
  }

  /** Settling in a batch only changes status and balance-after values, so
      which records are Cancellations, and what they refer to, is kept. */
  lemma CancelledStable(m1: map<TxId, Tx>, m2: map<TxId, Tx>, types: Catalog, id: TxId)
    requires SameRecords(m1, m2)
    ensures Cancelled(m1, types, id) == Cancelled(m2, types, id)
  {
    if Cancelled(m1, types, id) {
      var c :| c in m1 && KindOf(types, m1[c].typeId) == Cancellation && m1[c].counter == Some(id);
      assert SameIdentity(m1[c], m2[c]);
    }
    if Cancelled(m2, types, id) {
      var c :| c in m2 && KindOf(types, m2[c].typeId) == Cancellation && m2[c].counter == Some(id);
      assert SameIdentity(m1[c], m2[c]);
    }
  }

  /** After a committed run, a second run selects exactly the records that
      failed in the first; in particular a run without failures leaves
      nothing to settle. */
  lemma RerunSelectsFailures(b: Books, types: Catalog)
    requires forall k :: k in b.txs ==> k < b.nextId
    requires BatchSettle(b, types).1.Ok?
    ensures var (b', out) := BatchSettle(b, types);
      forall k :: k in Selection(b', types) <==> k in out.value.failed
  {
    var ids := Selection(b, types);
    if ids != [] {
      BatchRunOutcome(b, types, ids);
      BatchRunKeepsRecords(b, types, ids);
      var b' := BatchRun(b, types, ids).0;
      forall k: TxId
        ensures Eligible(b'.txs, types, k) <==> k in BatchRun(b, types, ids).2
      {
        CancelledStable(b.txs, b'.txs, types, k);
        if k in b.txs {
          assert SameIdentity(b.txs[k], b'.txs[k]);
        }
      }
    }
  }

  /** Corollary: a committed run that reports no failures leaves nothing
      eligible. */
  lemma RerunFindsNothing(b: Books, types: Catalog)
    requires forall k :: k in b.txs ==> k < b.nextId
    requires BatchSettle(b, types).1.Ok? && BatchSettle(b, types).1.value.failed == []
    ensures Selection(BatchSettle(b, types).0, types) == []
  {
    RerunSelectsFailures(b, types);
    FirstIsMember(Selection(BatchSettle(b, types).0, types));
  }

  /** When every record's users exist, no item fails: the batch settles
      every selected record and is never rolled back. */
  lemma BatchSettlesAll(b: Books, types: Catalog)
    requires forall k :: k in b.txs ==> b.txs[k].sender in b.balances && b.txs[k].receiver in b.balances
    ensures BatchSettle(b, types).1.Ok?
    ensures BatchSettle(b, types).1.value.failed == []
    ensures BatchSettle(b, types).1.value.count == |Selection(b, types)|
  {
    var ids := Selection(b, types);
    if ids != [] {
      BatchRunOutcome(b, types, ids);
      var run := BatchRun(b, types, ids);
      assert forall k :: k in ids ==> PartiesKnown(b, k);
      FirstIsMember(run.2);
    }
  }
}

/** Where every point of every balance comes from: a user's balance is its
    starting value plus the flows of the records currently stored. A record's
    flow is the signed amount it has moved from its sender to its receiver
    and not yet taken back; for a Cancellation it is the reversal it made at
    creation, which the record itself does not show, so a ghost set
    `rev` names the Cancellations that did reverse their counter. */
module Accounting {
  import opened LedgerTypes
  import opened Rules
  import opened Balances
  import opened Steps

  /** Points a record currently carries from its sender to its receiver. */
  function Flow(t: Tx, kind: Kind, reversal: bool): int {
    if EffectApplied(kind, t.status) then Signed(kind, t.amount)
    else if kind == Cancellation && reversal then t.amount
    else 0
  }

  function ShareOf(u: UserId, txs: map<TxId, Tx>, types: Catalog, rev: set<TxId>, k: TxId): int
    requires k in txs
  {
    Shift(u, txs[k].sender, txs[k].receiver, Flow(txs[k], KindOf(types, txs[k].typeId), k in rev))
  }

  /** The sum of user `u`'s shares over the records named by `keys`. */
  ghost function NetOver(u: UserId, txs: map<TxId, Tx>, types: Catalog, rev: set<TxId>, keys: set<TxId>): int
    requires keys <= txs.Keys
    decreases keys
  {
    if keys == {} then 0
    else
      var k :| k in keys;
      NetOver(u, txs, types, rev, keys - {k}) + ShareOf(u, txs, types, rev, k)
  }

  ghost function Net(u: UserId, txs: map<TxId, Tx>, types: Catalog, rev: set<TxId>): int {
    NetOver(u, txs, types, rev, txs.Keys)
  }

  /** The sum does not depend on the order the records are taken in: any
      record can be taken out first. */
  lemma {:induction false} NetOverRemove(u: UserId, txs: map<TxId, Tx>, types: Catalog, rev: set<TxId>,
                                         keys: set<TxId>, k: TxId)
    requires keys <= txs.Keys && k in keys
    ensures NetOver(u, txs, types, rev, keys)
         == NetOver(u, txs, types, rev, keys - {k}) + ShareOf(u, txs, types, rev, k)
    decreases keys
  {
    var j :| j in keys && NetOver(u, txs, types, rev, keys)
                          == NetOver(u, txs, types, rev, keys - {j}) + ShareOf(u, txs, types, rev, j);
    if j != k {
      NetOverRemove(u, txs, types, rev, keys - {j}, k);
      NetOverRemove(u, txs, types, rev, keys - {k}, j);
      assert keys - {j} - {k} == keys - {k} - {j};
    }
  }

  /** Two stores whose records give `u` the same shares give the same sum. */
  lemma {:induction false} NetOverAgree(u: UserId, m1: map<TxId, Tx>, rev1: set<TxId>,
                                        m2: map<TxId, Tx>, rev2: set<TxId>, types: Catalog, keys: set<TxId>)
    requires keys <= m1.Keys && keys <= m2.Keys
    requires forall k :: k in keys ==> ShareOf(u, m1, types, rev1, k) == ShareOf(u, m2, types, rev2, k)
    ensures NetOver(u, m1, types, rev1, keys) == NetOver(u, m2, types, rev2, keys)
    decreases keys
  {
    if keys != {} {
      var j :| j in keys && NetOver(u, m1, types, rev1, keys)
                            == NetOver(u, m1, types, rev1, keys - {j}) + ShareOf(u, m1, types, rev1, j);
      NetOverRemove(u, m2, types, rev2, keys, j);
      NetOverAgree(u, m1, rev1, m2, rev2, types, keys - {j});
    }
  }

  /** Storing record `t` under id `k` replaces `k`'s old share by `t`'s. */
  lemma NetPut(u: UserId, txs: map<TxId, Tx>, types: Catalog, rev: set<TxId>, rev': set<TxId>, k: TxId, t: Tx)
    requires rev - {k} == rev' - {k}
    ensures Net(u, txs[k := t], types, rev')
         == Net(u, txs, types, rev) - (if k in txs then ShareOf(u, txs, types, rev, k) else 0)
            + ShareOf(u, txs[k := t], types, rev', k)
  {
    var m := txs[k := t];
    NetOverRemove(u, m, types, rev', m.Keys, k);
    assert m.Keys - {k} == txs.Keys - {k};
    forall j | j in txs.Keys - {k}
      ensures ShareOf(u, m, types, rev', j) == ShareOf(u, txs, types, rev, j)
    {
      assert m[j] == txs[j];
      assert (j in rev') == (j in rev) by {
        assert j in rev' <==> j in rev' - {k};
        assert j in rev <==> j in rev - {k};
      }
    }
    NetOverAgree(u, m, rev', txs, rev, types, txs.Keys - {k});
    if k in txs {
      NetOverRemove(u, txs, types, rev, txs.Keys, k);
    } else {
      assert txs.Keys - {k} == txs.Keys;
    }
  }

  /** Removing record `k` removes its share. */
  lemma NetDrop(u: UserId, txs: map<TxId, Tx>, types: Catalog, rev: set<TxId>, k: TxId)
    requires k in txs
    ensures Net(u, txs - {k}, types, rev) == Net(u, txs, types, rev) - ShareOf(u, txs, types, rev, k)
  {
    var m := txs - {k};
    assert m.Keys == txs.Keys - {k};
    NetOverAgree(u, m, rev, txs, rev, types, txs.Keys - {k});
    NetOverRemove(u, txs, types, rev, txs.Keys, k);
  }

  /** Every stored record has an id below the next one and two distinct
      parties that are users. */
  predicate WellFormed(b: Books) {
    forall k :: k in b.txs ==>
      k < b.nextId && b.txs[k].sender != b.txs[k].receiver
      && b.txs[k].sender in b.balances && b.txs[k].receiver in b.balances
  }

  /** `rev` names only stored Cancellation records. */
  predicate Tracked(b: Books, types: Catalog, rev: set<TxId>) {
    forall k :: k in rev ==> k in b.txs && KindOf(types, b.txs[k].typeId) == Cancellation
  }

  /** Each balance is its starting value plus the user's shares of all flows. */
  ghost predicate Accounted(b: Books, types: Catalog, base: map<UserId, int>, rev: set<TxId>) {
    base.Keys == b.balances.Keys
    && forall u {:trigger base[u]} :: u in b.balances ==> b.balances[u] == base[u] + Net(u, b.txs, types, rev)
  }

  ghost predicate Sound(b: Books, types: Catalog, base: map<UserId, int>, rev: set<TxId>) {
    WellFormed(b) && Tracked(b, types, rev) && Accounted(b, types, base, rev)
  }

  /** A step that stores `t` under `k` and moves each balance by exactly the
      change of `k`'s share keeps the accounts. */
  lemma PutKeepsAccounts(b: Books, b': Books, types: Catalog, base: map<UserId, int>,
                         rev: set<TxId>, rev': set<TxId>, k: TxId, t: Tx)
    requires Accounted(b, types, base, rev)
    requires rev - {k} == rev' - {k}
    requires b'.txs == b.txs[k := t] && b'.balances.Keys == b.balances.Keys
    requires forall u :: u in b.balances ==>
      b'.balances[u] == b.balances[u] - (if k in b.txs then ShareOf(u, b.txs, types, rev, k) else 0)
                        + ShareOf(u, b'.txs, types, rev', k)
    ensures Accounted(b', types, base, rev')
  {
    forall u | u in b'.balances
      ensures b'.balances[u] == base[u] + Net(u, b'.txs, types, rev')
    {
      NetPut(u, b.txs, types, rev, rev', k, t);
    }
  }

  /** A step that removes `k` and takes back exactly its share keeps the
      accounts. */
  lemma DropKeepsAccounts(b: Books, b': Books, types: Catalog, base: map<UserId, int>, rev: set<TxId>, k: TxId)
    requires Accounted(b, types, base, rev)
    requires k in b.txs && b'.txs == b.txs - {k} && b'.balances.Keys == b.balances.Keys
    requires forall u :: u in b.balances ==> b'.balances[u] == b.balances[u] - ShareOf(u, b.txs, types, rev, k)
    ensures Accounted(b', types, base, rev)
  {
    forall u | u in b'.balances
      ensures b'.balances[u] == base[u] + Net(u, b'.txs, types, rev)
    {
      NetDrop(u, b.txs, types, rev, k);
    }
  }
}

/** `createMany` as written. Its lookups of types, users and the counter
    record go through the connection pool, outside the open transaction, so
    they see only the books committed before the batch; its writes go
    through the transaction and see the batch's own earlier items. `create`
    does the same, but with nothing written before its reads the two views
    agree. */
module PoolReads {
  import opened LedgerTypes
  import opened Rules
  import opened Balances
  import opened Steps

  /** One item of `createMany` on the books `b` the earlier items left,
      with every read answered from the committed books `snap`. */
  function CreateFrom(snap: Books, b: Books, types: Catalog, q: Request): (r: Result<Books>)
    requires b.balances.Keys == snap.balances.Keys
    ensures r.Ok? ==> r.value.balances.Keys == b.balances.Keys && r.value.nextId == b.nextId + 1
  {
    if !Present(q.sender) || !Present(q.receiver) || !Present(q.typeId) || q.amount.None? then
      Err(MissingField)
    else if q.sender.value == q.receiver.value then Err(SameParty)
    else if q.typeId.value !in types then Err(UnknownType)
    else if q.sender.value !in snap.balances || q.receiver.value !in snap.balances then Err(UserNotFound)
    else
      var s, r, ty, a := q.sender.value, q.receiver.value, q.typeId.value, q.amount.value;
      var kind := KindOfName(types[ty]);
      var preS, preR := snap.balances[s], snap.balances[r];
      var status := CreatedStatus(kind);
      match kind
      case Direct =>
        // the atomic increments run in the transaction and return its values
        var bal := Move(b.balances, s, r, a);
        Ok(Insert(b, bal,
                  Tx(s, r, ty, a, StoredCounter(q), StoredNote(q), status, Some(bal[s]), Some(bal[r])),
                  LogEntry(b.nextId, bal[r], bal[s])))
      case Deferred =>
        Ok(Insert(b, b.balances,
                  Tx(s, r, ty, a, StoredCounter(q), StoredNote(q), status, None, None),
                  LogEntry(b.nextId, preR, preS)))
      case Other =>
        // the committed balances are written back over the batch's own
        Ok(Insert(b, b.balances[s := preS][r := preR],
                  Tx(s, r, ty, a, StoredCounter(q), StoredNote(q), status, Some(preS), Some(preR)),
                  LogEntry(b.nextId, preR, preS)))
      case Cancellation =>
        if !Present(q.counter) then Err(MissingCounter)
        else if q.counter.value !in snap.txs then Err(CounterNotFound)
        else
          var d := snap.txs[q.counter.value];
          if KindOf(types, d.typeId) != Deferred then Err(CounterNotDeferred)
          else if d.status == Settled && (d.sender !in snap.balances || d.receiver !in snap.balances) then
            Err(CounterUserNotFound)
          else
            var bal := if d.status == Settled
                       then b.balances[d.sender := snap.balances[d.sender] - d.amount]
                                      [d.receiver := snap.balances[d.receiver] + d.amount]
                       else b.balances;
            Ok(Insert(b, bal,
                      Tx(d.sender, d.receiver, ty, d.amount, StoredCounter(q), StoredNote(q), status,
                         Some(preS), Some(preR)),
                      LogEntry(b.nextId, preR, preS)))
  }

  /** The items of `createMany` one after the other, all reading `snap`. */
  function CreateSeqFrom(snap: Books, types: Catalog, qs: seq<Request>): (r: Result<Books>)
    ensures r.Ok? ==> r.value.balances.Keys == snap.balances.Keys && r.value.nextId == snap.nextId + |qs|
    decreases |qs|
  {
    if qs == [] then Ok(snap)
    else
      match CreateSeqFrom(snap, types, qs[..|qs| - 1])
      case Err(e) => Err(e)
      case Ok(b1) =>
        match CreateFrom(snap, b1, types, qs[|qs| - 1])
        case Err(e) => Err(ItemFailed(|qs| - 1, e))
        case Ok(b2) => Ok(b2)
  }

  /** `createMany` as written: an empty batch is refused; otherwise all
      items or none, every item reading the books as they were before the
      batch. */
  function CreateManyAsWritten(b: Books, types: Catalog, qs: seq<Request>): Result<Books> {
    if qs == [] then Err(EmptyBatch) else CreateSeqFrom(b, types, qs)
  }

  /** With nothing written before the reads, reading the committed books is
      reading the current ones: a single item is `create`. */
  lemma CreateFromSelf(b: Books, types: Catalog, q: Request)
    ensures CreateFrom(b, b, types, q) == CreateStep(b, types, q)
  {
    if CreateStep(b, types, q).Ok? {
      var s, r := q.sender.value, q.receiver.value;
      match KindOfName(types[q.typeId.value])
      case Direct =>
        MoveAt(b.balances, s, r, q.amount.value);
      case Other =>
        assert b.balances[s := b.balances[s]][r := b.balances[r]] == b.balances;
      case Deferred =>
      case Cancellation =>
    }
  }

  /** A batch of one item behaves as written exactly as the model's
      `createMany` does. */
  lemma SingleItemAgrees(b: Books, types: Catalog, q: Request)
    ensures CreateManyAsWritten(b, types, [q]) == CreateAll(b, types, [q])
  {
    assert [q][..0] == [];
    assert CreateSeqFrom(b, types, []) == Ok(b) && CreateSeq(b, types, []) == Ok(b);
    CreateFromSelf(b, types, q);
  }

  /** Users 10 and 20 with 100 and 50 points, no records yet. */
  function Opening(): Books {
    Books(map[10 := 100, 20 := 50], map[], [], 1)
  }

  /** A Deferred record and, in the same batch, its Cancellation: the
      Cancellation looks for its counter among the committed records, does
      not find it, and the whole batch is refused; read inside the
      transaction it finds the counter and the batch commits. */
  lemma BatchMissesOwnCounter()
    ensures var types := map[1 := DeferredName, 2 := CancellationName];
      var qs := [Request(Some(10), Some(20), Some(1), Some(30), None, None),
                 Request(Some(10), Some(20), Some(2), Some(30), Some(1), None)];
      && CreateManyAsWritten(Opening(), types, qs) == Err(ItemFailed(1, CounterNotFound))
      && CreateAll(Opening(), types, qs).Ok?
  {
    var types := map[1 := DeferredName, 2 := CancellationName];
    var q0 := Request(Some(10), Some(20), Some(1), Some(30), None, None);
    var q1 := Request(Some(10), Some(20), Some(2), Some(30), Some(1), None);
    var qs := [q0, q1];
    assert qs[..1] == [q0] && [q0][..0] == [];
    assert KindOfName(DeferredName) == Deferred && KindOfName(CancellationName) == Cancellation;
    var a1 := CreateFrom(Opening(), Opening(), types, q0);
    assert a1.Ok? && CreateSeqFrom(Opening(), types, qs[..1]) == a1;
    assert CreateFrom(Opening(), a1.value, types, q1) == Err(CounterNotFound);
    var b1 := CreateStep(Opening(), types, q0);
    assert b1.Ok? && CreateSeq(Opening(), types, qs[..1]) == b1;
    assert b1.value.txs[1].typeId == 1 && b1.value.txs[1].status == Pending;
    assert CreateStep(b1.value, types, q1).Ok?;
  }

  /** A Direct transfer followed, in the same batch, by an item of another
      type between the same users: the second item writes back the balances
      committed before the batch, and the transfer's 10 points vanish from
      the balances while its record stays; read inside the transaction the
      balances end at 90 and 60. */
  lemma BatchOverwritesTransfer()
    ensures var types := map[1 := DirectName, 3 := "Thưởng"];
      var qs := [Request(Some(10), Some(20), Some(1), Some(10), None, None),
                 Request(Some(10), Some(20), Some(3), Some(0), None, None)];
      && CreateManyAsWritten(Opening(), types, qs).Ok?
      && CreateManyAsWritten(Opening(), types, qs).value.balances == map[10 := 100, 20 := 50]
      && CreateManyAsWritten(Opening(), types, qs).value.txs[1].amount == 10
      && CreateManyAsWritten(Opening(), types, qs).value.txs[1].status == Settled
      && CreateAll(Opening(), types, qs).Ok?
      && CreateAll(Opening(), types, qs).value.balances == map[10 := 90, 20 := 60]
  {
    var types := map[1 := DirectName, 3 := "Thưởng"];
    var q0 := Request(Some(10), Some(20), Some(1), Some(10), None, None);
    var q1 := Request(Some(10), Some(20), Some(3), Some(0), None, None);
    var qs := [q0, q1];
    assert qs[..1] == [q0] && [q0][..0] == [];
    assert KindOfName(DirectName) == Direct && KindOfName("Thưởng") == Other;
    var m := Move(Opening().balances, 10, 20, 10);
    MoveAt(Opening().balances, 10, 20, 10);
    assert m == map[10 := 90, 20 := 60];
    var a1 := CreateFrom(Opening(), Opening(), types, q0);
    assert a1.Ok? && a1.value.balances == m && CreateSeqFrom(Opening(), types, qs[..1]) == a1;
    assert a1.value.txs[1].amount == 10 && a1.value.txs[1].status == Settled;
    var a2 := CreateFrom(Opening(), a1.value, types, q1);
    assert a2.Ok? && a2.value.balances == m[10 := 100][20 := 50];
    assert m[10 := 100][20 := 50] == map[10 := 100, 20 := 50];
    assert a2.value.txs[1] == a1.value.txs[1];
    var b1 := CreateStep(Opening(), types, q0);
    assert b1.Ok? && b1.value.balances == m && CreateSeq(Opening(), types, qs[..1]) == b1;
    var b2 := CreateStep(b1.value, types, q1);
    assert b2.Ok? && b2.value.balances == m;
  }
}

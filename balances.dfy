/** The two ways the controller changes a user's `so_diem`: an atomic
    increment done by the store (`updateDiemAtomic`, `so_diem = so_diem + ?`)
    and an absolute write of a value computed from balances read earlier
    (`updateDiem`). */
module Balances {
  import opened LedgerTypes

  /** What a transfer of `amt` points from `payer` to `payee` does to user `v`. */
  function Shift(v: UserId, payer: UserId, payee: UserId, amt: int): int {
    (if v == payee then amt else 0) - (if v == payer then amt else 0)
  }

  /** Atomic increment of one balance; an UPDATE that matches no row changes
      nothing. */
  function Credit(bal: map<UserId, int>, u: UserId, d: int): (r: map<UserId, int>)
    ensures r.Keys == bal.Keys
  {
    if u in bal then bal[u := bal[u] + d] else bal
  }

  /** Two atomic increments in the controller's order: the payee gains `amt`,
      then the payer loses it. */
  function Move(bal: map<UserId, int>, payer: UserId, payee: UserId, amt: int): (r: map<UserId, int>)
    ensures r.Keys == bal.Keys
  {
    Credit(Credit(bal, payee, amt), payer, -amt)
  }

  /** A transfer shifts every balance by that user's share of it. */
  lemma MoveAt(bal: map<UserId, int>, payer: UserId, payee: UserId, amt: int)
    ensures forall v :: v in bal ==> Move(bal, payer, payee, amt)[v] == bal[v] + Shift(v, payer, payee, amt)
  {
  }

  /** Both balances read first, then written back as absolute values, the
      payer's row before the payee's. When the two parties differ this is
      the same as the atomic transfer; when they coincide the second write
      wins. */
  function Overwrite(bal: map<UserId, int>, payer: UserId, payee: UserId, amt: int): (r: map<UserId, int>)
    requires payer in bal && payee in bal
    ensures r.Keys == bal.Keys
    ensures payer != payee ==> r == Move(bal, payer, payee, amt)
    ensures payer == payee ==> r[payer] == bal[payer] + amt
  {
    var r := bal[payer := bal[payer] - amt][payee := bal[payee] + amt];
    MoveAt(bal, payer, payee, amt);
    assert payer != payee ==> forall v :: v in bal ==> r[v] == Move(bal, payer, payee, amt)[v];
    r
  }

  /** Moving points and moving them back restores every balance. */
  lemma {:induction false} MoveBack(bal: map<UserId, int>, payer: UserId, payee: UserId, amt: int)
    ensures Move(Move(bal, payer, payee, amt), payer, payee, -amt) == bal
  {
    var m := Move(Move(bal, payer, payee, amt), payer, payee, -amt);
    assert forall v :: v in bal ==> m[v] == bal[v];
  }

  /** Two transfers between the same parties add up. */
  lemma {:induction false} MoveTwice(bal: map<UserId, int>, payer: UserId, payee: UserId, x: int, y: int)
    ensures Move(Move(bal, payer, payee, x), payer, payee, y) == Move(bal, payer, payee, x + y)
  {
    var m := Move(Move(bal, payer, payee, x), payer, payee, y);
    assert forall v :: v in bal ==> m[v] == Move(bal, payer, payee, x + y)[v];
  }

  /** A transfer the other way is a transfer of the opposite amount. */
  lemma {:induction false} MoveFlip(bal: map<UserId, int>, payer: UserId, payee: UserId, amt: int)
    ensures Move(bal, payee, payer, amt) == Move(bal, payer, payee, -amt)
  {
    var m := Move(bal, payee, payer, amt);
    assert forall v :: v in bal ==> m[v] == Move(bal, payer, payee, -amt)[v];
  }
}

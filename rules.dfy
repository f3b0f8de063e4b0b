/** The small boolean rules of the controller: whether a record's effect is on
    the balances, whether update re-applies it, and which status a record
    gets. */
module Rules {
  import opened LedgerTypes

  /** `canHoanLaiDiemCu` / `canHoanLaiDiem`: a Direct record always moved
      points at creation; a Deferred one only once settled. */
  predicate EffectApplied(kind: Kind, status: Status) {
    kind == Direct || (status == Settled && kind == Deferred)
  }

  /** `canApDungDiemMoi`: update applies the new effect for Direct, and for
      Deferred only when the record was settled and was not Direct before. */
  predicate AppliesNew(newKind: Kind, oldKind: Kind, status: Status) {
    newKind == Direct || (status == Settled && newKind == Deferred && oldKind != Direct)
  }

  /** Status of a newly created record: only Direct is settled at once. */
  function CreatedStatus(kind: Kind): Status {
    if kind == Direct then Settled else Pending
  }

  /** Status after update: Direct is settled, a change from Direct to
      Deferred is pending again, anything else keeps its status. */
  function StatusAfterUpdate(newKind: Kind, oldKind: Kind, status: Status): Status {
    if newKind == Direct then Settled
    else if newKind == Deferred && oldKind == Direct then Pending
    else status
  }

  /** Signed points a kind's effect carries from the sender to the receiver:
      Direct pays the receiver, a settled Deferred pays the sender. */
  function Signed(kind: Kind, amt: int): int {
    if kind == Direct then amt
    else if kind == Deferred then -amt
    else 0
  }

  /** Update re-applies the new effect exactly when the record's new kind
      and status say that the effect is on the balances. */
  lemma UpdateKeepsEffectRule(newKind: Kind, oldKind: Kind, status: Status)
    ensures AppliesNew(newKind, oldKind, status)
        <==> EffectApplied(newKind, StatusAfterUpdate(newKind, oldKind, status))
  {
  }

  /** Create moves points for a non-Cancellation record exactly when its
      kind and created status say that the effect is on the balances. */
  lemma CreateKeepsEffectRule(kind: Kind)
    requires kind != Cancellation
    ensures (kind == Direct) <==> EffectApplied(kind, CreatedStatus(kind))
  {
  }
}

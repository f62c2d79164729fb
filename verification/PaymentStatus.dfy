/**
 The payment lifecycle: statuses, the two transition tables, and what counts as paid.
 */
module PaymentStatus {
  /** `Rejected` marks a failed verification; it is in neither table. */
  datatype Status = Pending | Submitted | Success | Failed | Disputed | RefundPending | Refunded | Invalid | Rejected

  function Transitions(from: Status): set<Status>
  {
    match from
    case Success => {Disputed, RefundPending}
    case RefundPending => {Refunded, Success}
    case Pending => {Success, Failed}
    case Submitted => {Failed}
    case _ => {}
  }

  function AdminTransitions(from: Status): set<Status>
  {
    match from
    case Success => {Disputed, RefundPending, Refunded}
    case RefundPending => {Refunded, Success}
    case Pending => {Success, Failed}
    case Submitted => {Failed}
    case Disputed => {Refunded}
    case Failed => {Success, Disputed}
    case _ => {}
  }

  predicate TransitionAllowed(from: Status, to: Status, adminOverride: bool)
  {
    to in (if adminOverride then AdminTransitions(from) else Transitions(from))
  }

  predicate CountedAsPaid(s: Status) { s == Success }

  datatype Confirmation = Confirmed | NotConfirmed | PendingConfirmation

  function DeriveConfirmation(s: Status): Confirmation
  {
    if s == Success || s == Refunded then Confirmed
    else if s == Failed || s == Invalid then NotConfirmed
    else PendingConfirmation
  }

  /** One move along the admin table, or none. */
  predicate Moves(from: Status, to: Status) { to == from || TransitionAllowed(from, to, true) }

  /** A walk along the admin table. */
  ghost predicate Walk(path: seq<Status>)
  {
    forall i :: 0 < i < |path| ==> Moves(path[i - 1], path[i])
  }

  /** Where a walk can lead: refunds are final, so money once refunded is never counted again; the two
      initial statuses are left and never entered; and an invalid or rejected row never moves. */
  lemma {:induction false} WalksAreSafe(path: seq<Status>, i: nat, j: nat)
    requires Walk(path) && i <= j < |path|
    ensures path[i] in {Refunded, Invalid, Rejected} ==> path[j] == path[i]
    ensures path[i] == Refunded ==> !CountedAsPaid(path[j])
    ensures path[j] in {Pending, Submitted} ==> path[i] == path[j]
    decreases j - i
  {
    if i < j {
      WalksAreSafe(path, i, j - 1);
      assert Moves(path[j - 1], path[j]);
    }
  }

  /** The two tables read backwards: from where each status may be entered, by an ordinary and by an
      admin transition. */
  lemma EnteredExactly(from: Status, to: Status, adminOverride: bool)
    ensures TransitionAllowed(from, to, adminOverride) <==>
              || (to == Success && (from in {Pending, RefundPending} || (adminOverride && from == Failed)))
              || (to == Failed && from in {Pending, Submitted})
              || (to == Disputed && (from == Success || (adminOverride && from == Failed)))
              || (to == RefundPending && from == Success)
              || (to == Refunded && (from == RefundPending || (adminOverride && from in {Success, Disputed})))
  {
  }

  /** Money counts in success and nowhere else; it was confirmed once it was received, refunded or not,
      failed for good reasons in two statuses, and is pending in all others. */
  lemma CountsExactlyInSuccess(s: Status)
    ensures CountedAsPaid(s) <==> s == Success
    ensures DeriveConfirmation(s) == Confirmed <==> s in {Success, Refunded}
    ensures DeriveConfirmation(s) == NotConfirmed <==> s in {Failed, Invalid}
  {
  }

  // ---------------------------------------------------------------- where a walk can lead

  function Reach(from: Status): set<Status>
  {
    match from
    case Success => {Success, RefundPending, Disputed, Refunded}
    case RefundPending => {Success, RefundPending, Disputed, Refunded}
    case Pending => {Pending, Success, Failed, RefundPending, Disputed, Refunded}
    case Submitted => {Submitted, Success, Failed, RefundPending, Disputed, Refunded}
    case Failed => {Failed, Success, RefundPending, Disputed, Refunded}
    case Disputed => {Disputed, Refunded}
    case _ => {from}
  }

  ghost predicate Leads(path: seq<Status>, from: Status, to: Status)
  {
    path != [] && path[0] == from && path[|path| - 1] == to && Walk(path)
  }

  lemma {:induction false} WalkStaysInReach(path: seq<Status>, i: nat)
    requires Walk(path) && i < |path|
    ensures path[i] in Reach(path[0])
  {
    if i > 0 {
      WalkStaysInReach(path, i - 1);
      assert Moves(path[i - 1], path[i]);
    }
  }

  /** A walk to each status in reach, through success or failure where there is no edge. */
  lemma WalkTo(from: Status, to: Status) returns (path: seq<Status>)
    requires to in Reach(from)
    ensures Leads(path, from, to)
  {
    path := if from == to then [from]
            else if TransitionAllowed(from, to, true) then [from, to]
            else if from == Submitted && to != Success && to != Disputed then [Submitted, Failed, Success, to]
            else if from == Submitted then [Submitted, Failed, to]
            else [from, Success, to];
  }

  /** Exactly these statuses can ever be reached by any number of admin transitions. */
  lemma {:induction false} ReachExactly(from: Status, to: Status)
    ensures to in Reach(from) <==> exists path :: Leads(path, from, to)
  {
    if to in Reach(from) {
      var path := WalkTo(from, to);
    }
    if path :| Leads(path, from, to) { WalkStaysInReach(path, |path| - 1); }
  }

  /** The ordinary table is part of the admin table, and whatever either one settles on is settled
      for the derived confirmation as well: only a failed payment can become confirmed later on. */
  lemma TablesAgree(from: Status, to: Status)
    ensures Transitions(from) <= AdminTransitions(from)
    ensures TransitionAllowed(from, to, true) && DeriveConfirmation(from) == NotConfirmed ==> from == Failed
    ensures !TransitionAllowed(from, from, true)
  {
  }
}

/** The conventional optional value, used for nullable columns. */
module Options {
  datatype Option<+T> = None | Some(value: T)

  function Max(a: int, b: int): int { if a < b then b else a }

  function Min(a: int, b: int): int { if a < b then a else b }
}

/** Lifecycle states of an outbound message, and the transport outcomes that drive them. */
module MessageLifecycle {

  datatype State = Draft | Scheduled | Queued | Sending | Sent | Delivered | Failed | Cancelled

  datatype TransportResult = Accepted | Rejected | TemporaryFailure | PermanentFailure | ConfigurationFailure

  function AllowedTransitions(s: State): set<State> {
    match s
    case Draft => {Scheduled, Queued}
    case Scheduled => {Scheduled, Draft, Queued, Cancelled}
    case Queued => {Sending, Cancelled}
    case Sending => {Sent, Failed, Queued}
    case Sent => {Delivered, Failed}
    case Failed => {Queued}
    case Delivered => {}
    case Cancelled => {}
  }

  predicate CanTransitionTo(s: State, t: State) {
    t in AllowedTransitions(s)
  }

  /** The states before a message is handed to delivery. */
  predicate Unsent(s: State) {
    s == Draft || s == Scheduled
  }

  function ToMessageState(r: TransportResult, scheduleRetry: bool): State {
    match r
    case Accepted => Sent
    case TemporaryFailure => if scheduleRetry then Queued else Failed
    case _ => Failed
  }

  /** A walk through the table: each state is the one before it, or an allowed successor. */
  ghost predicate Walk(p: seq<State>) {
    forall i | 0 <= i < |p| - 1 :: p[i + 1] == p[i] || CanTransitionTo(p[i], p[i + 1])
  }

  /** No walk of any length leads from a queued message back to editing or scheduling,
      and a walk that reached a terminal state stays there. */
  lemma {:induction false} WalksNeverTurnBack(p: seq<State>, i: nat, j: nat)
    requires Walk(p) && i <= j < |p|
    ensures !Unsent(p[i]) ==> !Unsent(p[j])
    ensures p[i] == Cancelled || p[i] == Delivered ==> p[j] == p[i]
  {
    if i < j {
      WalksNeverTurnBack(p, i, j - 1);
      assert p[j] == p[j - 1] || CanTransitionTo(p[j - 1], p[j]);
    }
  }
}

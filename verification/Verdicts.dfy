/** What each request of a run is told, and that it is told the truth. */
module Verdicts {
  import opened Wrappers
  import opened Model
  import opened Protocol
  import opened Service

  /** The repository has replied well to this request. */
  predicate RepliedWell(hub: State, c: CallId) {
    ReplyOf(hub, c).Some? && !ReplyOf(hub, c).value.Failed?
  }

  /**
   * The status of a request is what the gate, the repository and the queue made of it: refused with the gate's
   * error, failed with the repository's, failed at a poisoned queue though the repository did its part, or done.
   */
  predicate IsTrue(gate: Gate, hub: State, poisoned: bool, c: CallId, entry: Entry) {
    match entry.status
    case Working => gate(entry.request).Ok?
    case Succeeded => gate(entry.request).Ok? && RepliedWell(hub, c)
    case Errored(error) =>
      || gate(entry.request) == Err(error)
      || (gate(entry.request).Ok? && ReplyOf(hub, c) == Some(Failed(error)))
      || (gate(entry.request).Ok? && RepliedWell(hub, c) && poisoned && error == Database && !entry.request.UnyankRequest?)
  }

  ghost predicate AllTrue(gate: Gate, s: ServiceState) {
    forall c | c in s.entries :: IsTrue(gate, s.hub, s.poisoned, c, s.entries[c])
  }

  lemma ReplyStays(hub: State, l: Label, c: CallId)
    requires CanTake(hub, l) && ReplyOf(hub, c).Some?
    ensures ReplyOf(Take(hub, l), c) == ReplyOf(hub, c)
  {
  }

  lemma StepKeepsTrue(gate: Gate, s: ServiceState, l: Label)
    requires AllTrue(gate, s) && CanTake(s.hub, l)
    ensures AllTrue(gate, s.(hub := Take(s.hub, l)))
  {
    forall c | c in s.entries ensures IsTrue(gate, Take(s.hub, l), s.poisoned, c, s.entries[c]) {
      assert IsTrue(gate, s.hub, s.poisoned, c, s.entries[c]);
      if ReplyOf(s.hub, c).Some? {
        ReplyStays(s.hub, l, c);
      }
    }
  }

  lemma AnswerIsTrue(gate: Gate, s: ServiceState, c: CallId)
    requires AllTrue(gate, s) && CanDo(s, Deliver(c))
    ensures AllTrue(gate, Do(gate, s, Deliver(c)))
  {
    var after := Do(gate, s, Deliver(c));
    forall d | d in after.entries ensures IsTrue(gate, after.hub, after.poisoned, d, after.entries[d]) {
      assert IsTrue(gate, s.hub, s.poisoned, d, s.entries[d]);
    }
  }

  lemma ArriveIsTrue(gate: Gate, s: ServiceState, c: CallId, request: Request)
    requires AllTrue(gate, s) && CanDo(s, Arrive(c, request))
    ensures AllTrue(gate, Do(gate, s, Arrive(c, request)))
  {
    if gate(request).Ok? {
      StepKeepsTrue(gate, s, Invoke(c, gate(request).value));
    }
  }

  /** In every state of every run, what a request has been told is true. */
  lemma {:induction false} VerdictsAreTrue(gate: Gate, states: seq<ServiceState>, labels: seq<ServiceLabel>, n: nat)
    requires IsServiceRun(gate, states, labels) && n < |states|
    ensures AllTrue(gate, states[n])
  {
    if n > 0 {
      var s := states[n - 1];
      VerdictsAreTrue(gate, states, labels, n - 1);
      match labels[n - 1] {
        case Arrive(c, request) => ArriveIsTrue(gate, s, c, request);
        case Hub(step) => StepKeepsTrue(gate, s, step);
        case Deliver(c) => AnswerIsTrue(gate, s, c);
        case Poison =>
      }
    }
  }
}

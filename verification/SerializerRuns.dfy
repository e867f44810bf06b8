/** Mutual exclusion, arrival order and progress of the serializer in every interleaving. */
module SerializerRuns {
  import opened Serializer

  /** The promise a handler is chained to, and the promise of its run. */
  function GateOf(k: nat): nat { 2 * k }

  function RunOf(k: nat): nat { 2 * k + 1 }

  function Outcome(ok: bool): Promise {
    if ok then Fulfilled else Rejected
  }

  /** Handler k is behind others: its gate is closed and both chained reactions are in place. */
  predicate Waiting(e: Engine, k: nat)
    requires 2 * k + 2 < |e.promises| && k < |e.phases|
  {
    && e.phases[k] == Queued
    && e.promises[GateOf(k)] == Pending([RunHandler(k, RunOf(k))])
    && e.promises[RunOf(k)] == Pending([Swallow(GateOf(k + 1))])
  }

  /** Handler k is through, and its caller's promise has its own outcome. */
  predicate Through(e: Engine, k: nat)
    requires 2 * k + 2 < |e.promises| && k < |e.phases|
  {
    && e.phases[k].Settled?
    && e.promises[GateOf(k)] == Fulfilled
    && e.promises[RunOf(k)] == Outcome(e.phases[k].ok)
  }

  /** Handler k is the one whose gate is open: about to start, at work, or being wound up. */
  predicate AtFront(e: Engine, k: nat)
    requires 2 * k + 2 < |e.promises| && k < |e.phases|
  {
    && e.promises[GateOf(k)] == Fulfilled
    && match e.phases[k]
       case Queued =>
         && e.jobs == [RunHandler(k, RunOf(k))]
         && e.promises[RunOf(k)] == Pending([Swallow(GateOf(k + 1))])
       case Running(p) =>
         p == RunOf(k) && e.jobs == [] && e.promises[RunOf(k)] == Pending([Swallow(GateOf(k + 1))])
       case Answered(p, _) =>
         p == RunOf(k) && e.jobs == [] && e.promises[RunOf(k)] == Pending([Swallow(GateOf(k + 1))])
       case Settled(ok) =>
         e.jobs == [Swallow(GateOf(k + 1))] && e.promises[RunOf(k)] == Outcome(ok)
  }

  function Upto(n: nat): seq<nat> {
    seq(n, i requires 0 <= i => i)
  }

  /** Handlers before `front` are through, those after it wait, and nothing else is going on. */
  ghost predicate Orderly(e: Engine, front: nat) {
    var n := |e.phases|;
    && front <= n
    && |e.promises| == 2 * n + 1
    && e.queue == GateOf(n)
    && (forall k | 0 <= k < front :: Through(e, k))
    && (forall k | front < k < n :: Waiting(e, k))
    && (if front < n then AtFront(e, front) && e.promises[GateOf(n)] == Pending([])
        else e.promises[GateOf(n)] == Fulfilled && e.jobs == [])
    && e.started == Upto(if front < n && !e.phases[front].Queued? then front + 1 else front)
  }

  /** What submitting handler n adds: its gate's reaction or job, its run, and the next gate. */
  ghost predicate HandlerAdded(e: Engine, t: Engine, front: nat) {
    var n := |e.phases|;
    && |e.promises| == 2 * n + 1 && |t.promises| == 2 * n + 3
    && t.phases == e.phases + [Queued]
    && (forall i | 0 <= i < 2 * n :: t.promises[i] == e.promises[i])
    && t.promises[RunOf(n)] == Pending([Swallow(GateOf(n + 1))])
    && t.promises[GateOf(n + 1)] == Pending([])
    && t.promises[GateOf(n)] == (if front < n then Pending([RunHandler(n, RunOf(n))]) else Fulfilled)
    && t.jobs == (if front < n then e.jobs else [RunHandler(n, RunOf(n))])
    && t.queue == GateOf(n + 1) && t.started == e.started
  }

  lemma SubmitAdds(e: Engine, front: nat)
    requires Orderly(e, front)
    ensures HandlerAdded(e, Submit(e), front)
  {
  }

  lemma AddedOrderly(e: Engine, t: Engine, front: nat)
    requires Orderly(e, front) && HandlerAdded(e, t, front)
    ensures Orderly(t, front)
  {
    forall k | 0 <= k < front
      ensures Through(t, k)
    {
      assert Through(e, k);
    }
    forall k | front < k < |t.phases|
      ensures Waiting(t, k)
    {
      assert k < |e.phases| ==> Waiting(e, k);
    }
  }

  lemma SubmitOrderly(e: Engine, front: nat)
    requires Orderly(e, front)
    ensures Orderly(Submit(e), front)
  {
    SubmitAdds(e, front);
    AddedOrderly(e, Submit(e), front);
  }

  lemma JobOrderly(e: Engine, front: nat)
    requires Orderly(e, front) && e.jobs != []
    ensures Orderly(Step(e, NextJob), if e.jobs[0].Swallow? then front + 1 else front)
  {
    var t, n := Step(e, NextJob), |e.phases|;
    if e.jobs[0].Swallow? {
      assert forall i | 0 <= i < |e.promises| && i != GateOf(front + 1) :: t.promises[i] == e.promises[i];
      forall k | 0 <= k < front
        ensures Through(t, k)
      {
        assert Through(e, k);
      }
      forall k | front + 1 < k < n
        ensures Waiting(t, k)
      {
        assert Waiting(e, k);
      }
      assert front + 1 < n ==> Waiting(e, front + 1);
    } else {
      forall k | 0 <= k < front
        ensures Through(t, k)
      {
        assert Through(e, k);
      }
      forall k | front < k < n
        ensures Waiting(t, k)
      {
        assert Waiting(e, k);
      }
    }
  }

  lemma HandlerOrderly(e: Engine, front: nat, m: Move)
    requires Orderly(e, front) && Enabled(e, m) && (m.Answer? || m.Resolve?)
    ensures m.handler == front && Orderly(Step(e, m), front)
  {
    var t, n, h := Step(e, m), |e.phases|, m.handler;
    assert h < front ==> Through(e, h);
    assert h > front ==> Waiting(e, h);
    forall k | 0 <= k < front
      ensures Through(t, k)
    {
      assert Through(e, k);
    }
    forall k | front < k < n
      ensures Waiting(t, k)
    {
      assert Waiting(e, k);
    }
  }

  /** Every possible move keeps the order; the front only moves forward. */
  lemma StepOrderly(e: Engine, front: nat, m: Move) returns (next: nat)
    requires Orderly(e, front) && Enabled(e, m)
    ensures Orderly(Step(e, m), next) && front <= next
  {
    match m
    case Arrive => SubmitOrderly(e, front); next := front;
    case NextJob => JobOrderly(e, front); next := if e.jobs[0].Swallow? then front + 1 else front;
    case _ => HandlerOrderly(e, front, m); next := front;
  }

  lemma {:induction false} RunOrderly(e: Engine, front: nat, moves: seq<Move>) returns (end: nat)
    requires Orderly(e, front) && Possible(e, moves)
    ensures Orderly(Run(e, moves), end) && front <= end
    decreases |moves|
  {
    end := front;
    if moves != [] {
      var next := StepOrderly(e, front, moves[0]);
      end := RunOrderly(Step(e, moves[0]), next, moves[1..]);
    }
  }

  /**
   Safety in every interleaving of arrivals, answers and rejections: at most one handler is at work,
   handlers start in arrival order, once each, one starts only when all before it are settled, and each
   caller's promise ends up as its own handler did.
   */
  lemma OneAtATimeInOrder(moves: seq<Move>)
    requires Possible(FRESH, moves)
    ensures var e := Run(FRESH, moves);
      && (forall i, j | 0 <= i < j < |e.phases| :: !(e.phases[i].Running? && e.phases[j].Running?))
      && (forall i, j | 0 <= i < j < |e.phases| && !e.phases[j].Queued? :: e.phases[i].Settled?)
      && e.started == Upto(|e.started|)
      && (forall k | 0 <= k < |e.phases| :: k < |e.started| <==> !e.phases[k].Queued?)
      && (forall k | 0 <= k < |e.phases| && e.phases[k].Settled? ::
            RunOf(k) < |e.promises| && e.promises[RunOf(k)] == Outcome(e.phases[k].ok))
  {
    var front := RunOrderly(FRESH, 0, moves);
    OrderlyPhases(Run(FRESH, moves), front);
  }

  lemma OrderlyPhases(e: Engine, front: nat)
    requires Orderly(e, front)
    ensures forall k | 0 <= k < front :: e.phases[k].Settled?
    ensures forall k | front < k < |e.phases| :: e.phases[k] == Queued
    ensures forall k | 0 <= k < |e.phases| && e.phases[k].Settled? ::
      RunOf(k) < |e.promises| && e.promises[RunOf(k)] == Outcome(e.phases[k].ok)
  {
    forall k | 0 <= k < front
      ensures e.phases[k].Settled? && e.promises[RunOf(k)] == Outcome(e.phases[k].ok)
    {
      assert Through(e, k);
    }
    forall k | front < k < |e.phases|
      ensures e.phases[k] == Queued
    {
      assert Waiting(e, k);
    }
  }

  // ---- progress ----

  function Cost(p: Phase): nat {
    match p
    case Queued => 4
    case Running(_) => 3
    case Answered(_, _) => 2
    case Settled(_) => 0
  }

  function Costs(phases: seq<Phase>): nat {
    if phases == [] then 0 else Cost(phases[0]) + Costs(phases[1..])
  }

  /** Moves left, at most: what unfinished handlers still need, and the hand-over to the next one. */
  function Measure(e: Engine): nat {
    Costs(e.phases) + (if e.jobs != [] && e.jobs[0].Swallow? then 1 else 0)
  }

  lemma {:induction false} CostsUpdate(phases: seq<Phase>, k: nat, p: Phase)
    requires k < |phases|
    ensures Costs(phases[k := p]) + Cost(phases[k]) == Costs(phases) + Cost(p)
  {
    if k > 0 {
      CostsUpdate(phases[1..], k - 1, p);
      assert phases[k := p][1..] == phases[1..][k - 1 := p];
    }
  }

  predicate AllSettled(e: Engine) {
    forall k | 0 <= k < |e.phases| :: e.phases[k].Settled?
  }

  /** Never stuck: while a handler is unfinished, the engine or a handler can move. */
  lemma NeverStuck(e: Engine, front: nat)
    requires Orderly(e, front) && !AllSettled(e)
    ensures exists m: Move :: !m.Arrive? && Enabled(e, m)
  {
    OrderlyPhases(e, front);
    assert front < |e.phases| && AtFront(e, front);
    match e.phases[front]
    case Running(_) => assert Enabled(e, Answer(front, true));
    case Answered(_, _) => assert Enabled(e, Resolve(front));
    case _ => assert Enabled(e, NextJob);
  }

  /** Every move other than an arrival brings the end nearer, whether handlers return or throw. */
  lemma MoveDecreases(e: Engine, front: nat, m: Move)
    requires Orderly(e, front) && Enabled(e, m) && !m.Arrive?
    ensures Measure(Step(e, m)) < Measure(e)
  {
    if m.NextJob? {
      if e.jobs[0].RunHandler? {
        CostsUpdate(e.phases, front, Running(RunOf(front)));
      } else {
        assert front + 1 < |e.phases| ==> Waiting(e, front + 1);
      }
    } else {
      HandlerOrderly(e, front, m);
      var p := e.phases[front];
      CostsUpdate(e.phases, front, if m.Answer? then Answered(p.result, m.ok) else Settled(p.ok));
    }
  }

  /**
   Progress: from any reachable state, without new arrivals, a run is no longer than the measure, and
   when it can go no further every handler is settled.  So no rejection leaves a queued handler stuck.
   */
  lemma {:induction false} Drains(e: Engine, front: nat, moves: seq<Move>)
    requires Orderly(e, front) && Possible(e, moves) && forall m | m in moves :: !m.Arrive?
    ensures |moves| + Measure(Run(e, moves)) <= Measure(e)
    ensures AllSettled(Run(e, moves)) || exists m: Move :: !m.Arrive? && Enabled(Run(e, moves), m)
    decreases |moves|
  {
    if moves == [] {
      if !AllSettled(e) {
        NeverStuck(e, front);
      }
    } else {
      MoveDecreases(e, front, moves[0]);
      var next := StepOrderly(e, front, moves[0]);
      Drains(Step(e, moves[0]), next, moves[1..]);
    }
  }

  /** Progress after any history at all. */
  lemma NoHandlerWedges(history: seq<Move>, moves: seq<Move>)
    requires Possible(FRESH, history) && Possible(Run(FRESH, history), moves)
    requires forall m | m in moves :: !m.Arrive?
    ensures var e := Run(FRESH, history);
      && |moves| <= Measure(e)
      && (AllSettled(Run(e, moves)) || exists m: Move :: !m.Arrive? && Enabled(Run(e, moves), m))
  {
    var front := RunOrderly(FRESH, 0, history);
    Drains(Run(FRESH, history), front, moves);
  }
}

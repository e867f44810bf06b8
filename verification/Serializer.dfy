/**
 Server.serialize: handlers and state reads are chained through one promise.  Promises follow section
 27.2.5.4 of ECMA-262: `then` on a pending promise adds a reaction to it, `then` on a settled one
 enqueues the reaction as a job at once, and settling a promise enqueues all its reactions.
 */
module Serializer {

  /** A reaction, and the job it becomes. Both act alike on fulfilment and rejection. */
  datatype Reaction =
    | RunHandler(handler: nat, result: nat) // queue.then(fn, fn), whose promise is `result`
    | Swallow(result: nat)                  // run.then(() => undefined, () => undefined)

  datatype Promise = Pending(reactions: seq<Reaction>) | Fulfilled | Rejected

  /** A submitted handler: still queued, at work, answered but its promise pending, or settled. */
  datatype Phase = Queued | Running(result: nat) | Answered(result: nat, ok: bool) | Settled(ok: bool)

  /** The promises by id, the job queue, the server's `queue` field, the handlers, the start order. */
  datatype Engine = Engine(
    promises: seq<Promise>,
    jobs: seq<Reaction>,
    queue: nat,
    phases: seq<Phase>,
    started: seq<nat>)

  /** A new server: `queue` is an already fulfilled promise. */
  const FRESH: Engine := Engine([Fulfilled], [], 0, [], [])

  function Then(e: Engine, p: nat, r: Reaction): Engine {
    if p >= |e.promises| then e
    else
      match e.promises[p]
      case Pending(reactions) => e.(promises := e.promises[p := Pending(reactions + [r])])
      case _ => e.(jobs := e.jobs + [r])
  }

  function Settle(e: Engine, p: nat, ok: bool): Engine {
    if p < |e.promises| && e.promises[p].Pending? then
      e.(jobs := e.jobs + e.promises[p].reactions,
         promises := e.promises[p := if ok then Fulfilled else Rejected])
    else e
  }

  /** serialize(fn) for the next handler. */
  function Submit(e: Engine): Engine {
    var handler, run := |e.phases|, |e.promises|;
    var e := e.(phases := e.phases + [Queued], promises := e.promises + [Pending([])]);
    var e := Then(e, e.queue, RunHandler(handler, run));
    var tail := |e.promises|;
    var e := e.(promises := e.promises + [Pending([])]);
    Then(e, run, Swallow(tail)).(queue := tail)
  }

  /** The server's `queue` and the engine state around it. */
  class Server {
    var promises: seq<Promise>
    var jobs: seq<Reaction>
    var queue: nat
    var phases: seq<Phase>
    var started: seq<nat>

    ghost function Contents(): Engine
      reads this
    {
      Engine(promises, jobs, queue, phases, started)
    }

    constructor ()
      ensures Contents() == FRESH
    {
      promises, jobs, queue, phases, started := [Fulfilled], [], 0, [], [];
    }

    method NewPromise() returns (p: nat)
      modifies `promises
      ensures p == |old(promises)| && promises == old(promises) + [Pending([])]
    {
      p := |promises|;
      promises := promises + [Pending([])];
    }

    method AddReaction(p: nat, r: Reaction)
      requires p < |promises|
      modifies `promises, `jobs
      ensures Contents() == Then(old(Contents()), p, r)
    {
      match promises[p] {
        case Pending(reactions) => promises := promises[p := Pending(reactions + [r])];
        case _ => jobs := jobs + [r];
      }
    }

    /** serialize: chain fn behind the queue, and make the queue a promise that cannot reject. */
    method Serialize() returns (run: nat)
      requires queue < |promises|
      modifies this
      ensures Contents() == Submit(old(Contents())) && run == |old(promises)|
    {
      var handler := |phases|;
      phases := phases + [Queued];
      run := NewPromise();
      AddReaction(queue, RunHandler(handler, run));
      var tail := NewPromise();
      AddReaction(run, Swallow(tail));
      queue := tail;
    }
  }

  // ---- all interleavings ----

  datatype Move =
    | Arrive                        // a request calls serialize
    | NextJob                       // the engine takes the first job
    | Answer(handler: nat, ok: bool) // a handler returns or throws
    | Resolve(handler: nat)         // its promise follows

  predicate Enabled(e: Engine, m: Move) {
    match m
    case Arrive => true
    case NextJob => e.jobs != []
    case Answer(k, _) => k < |e.phases| && e.phases[k].Running?
    case Resolve(k) => k < |e.phases| && e.phases[k].Answered?
  }

  function Step(e: Engine, m: Move): Engine
    requires Enabled(e, m)
  {
    match m
    case Arrive => Submit(e)
    case NextJob =>
      var rest := e.(jobs := e.jobs[1..]);
      (match e.jobs[0]
       case RunHandler(k, run) =>
         if k < |e.phases| then rest.(phases := e.phases[k := Running(run)], started := e.started + [k])
         else rest
       case Swallow(tail) => Settle(rest, tail, true))
    case Answer(k, ok) => e.(phases := e.phases[k := Answered(e.phases[k].result, ok)])
    case Resolve(k) =>
      var p := e.phases[k];
      Settle(e.(phases := e.phases[k := Settled(p.ok)]), p.result, p.ok)
  }

  /** A run in which every move is possible when it is made. */
  predicate Possible(e: Engine, moves: seq<Move>)
    decreases |moves|
  {
    moves != [] ==> Enabled(e, moves[0]) && Possible(Step(e, moves[0]), moves[1..])
  }

  function Run(e: Engine, moves: seq<Move>): Engine
    requires Possible(e, moves)
    decreases |moves|
  {
    if moves == [] then e else Run(Step(e, moves[0]), moves[1..])
  }
}

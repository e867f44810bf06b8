/** The committed amount, from the owner's call to the ledger row: where the amounts of rows come from. */
module Committed {
  import opened Prelude
  import opened Registry
  import opened RegistryRuns
  import opened RegistryEffects
  import opened GuardianSystem

  /** The registry calls among the steps of a run. */
  function Transactions(steps: seq<Step>): seq<(Env, Call)> {
    if steps == [] then []
    else (match steps[0] case Transact(e, call) => [(e, call)] case _ => []) + Transactions(steps[1..])
  }

  lemma ExecuteFirst(c: Chain, s: Storage, e: Env, call: Call, rest: seq<(Env, Call)>, k: nat)
    requires 0 < k <= |rest| + 1
    ensures Execute(c, s, ([(e, call)] + rest)[..k]) == Execute(c, After(c, s, e, call), rest[..k - 1])
  {
    assert ([(e, call)] + rest)[..k][1..] == rest[..k - 1];
  }

  /** What holds of the run from the next system holds of the whole run, one call later. */
  lemma CallFirst(c: Chain, s: Storage, before: seq<Storage>, history: seq<Storage>, e: Env, call: Call,
                  rest: seq<(Env, Call)>, k: nat)
    requires before != [] && s == Last(before) && k <= |rest| + 1 && before <= history
    requires |history| == |before| + 1 + |rest|
    requires k > 0 ==> history[|before| + (k - 1)] == Execute(c, After(c, s, e, call), rest[..k - 1])
    ensures history[|before| - 1 + k] == Execute(c, s, ([(e, call)] + rest)[..k])
  {
    if k > 0 {
      ExecuteFirst(c, s, e, call, rest, k);
    }
  }

  /** State k of this history, counted from the last state before, is what the first k calls made of that one. */
  ghost predicate Executes(c: Chain, before: seq<Storage>, history: seq<Storage>, txs: seq<(Env, Call)>, k: nat) {
    && before != [] && k <= |txs| && before <= history && |history| == |before| + |txs|
    && history[|before| - 1 + k] == Execute(c, Last(before), txs[..k])
  }

  lemma ExecutesCall(c: Chain, before: seq<Storage>, history: seq<Storage>, e: Env, call: Call,
                     rest: seq<(Env, Call)>, k: nat)
    requires before != [] && k <= |rest| + 1
    requires Executes(c, before + [After(c, Last(before), e, call)], history, rest, if k == 0 then 0 else k - 1)
    ensures Executes(c, before, history, [(e, call)] + rest, k)
  {
    CallFirst(c, Last(before), before, history, e, call, rest, k);
  }

  /** State k of a run's history is what the first k of its calls made of the first state. */
  lemma {:induction false} HistoryIsExecution(c: Chain, sys: System, steps: seq<Step>, k: nat)
    requires sys.history != [] && k <= |Transactions(steps)|
    ensures Executes(c, sys.history, Run(c, sys, steps).history, Transactions(steps), k)
    decreases |steps|
  {
    if steps != [] {
      var next, rest := Next(c, sys, steps[0]), Transactions(steps[1..]);
      if steps[0].Transact? {
        HistoryIsExecution(c, next, steps[1..], if k == 0 then 0 else k - 1);
        ExecutesCall(c, sys.history, Run(c, next, steps[1..]).history, steps[0].env, steps[0].call, rest, k);
      } else {
        assert Transactions(steps) == rest;
        HistoryIsExecution(c, next, steps[1..], k);
      }
    }
  }

  /**
   Every row carries the amount that its guard's owner had last set, by an accepted setPolicy or at
   registration, among the calls before the state that the enclave read.
   */
  lemma RowsCarryLastPolicy(c: Chain, owner: Address, steps: seq<Step>, id: uint256, k: nat)
    requires UnforgedRun(c, Genesis(owner), steps)
    requires k < |Now(Run(c, Genesis(owner), steps)).Ledger(id)|
    ensures var sys, txs := Run(c, Genesis(owner), steps), Transactions(steps);
      exists event ::
        && event in sys.events
        && BackedBy(sys.history, Now(sys).Ledger(id), id, k, event)
        && event.read <= |txs|
        && SetsAmount(c, owner, txs[..event.read], id, Now(sys).Ledger(id)[k].amount)
  {
    var sys, txs := Run(c, Genesis(owner), steps), Transactions(steps);
    LedgersBacked(c, owner, steps, id, k);
    var event :| event in sys.events && BackedBy(sys.history, Now(sys).Ledger(id), id, k, event);
    HistoryIsExecution(c, Genesis(owner), steps, 0);
    AmountWasSet(c, owner, steps, id, event.read);
  }

  /** The last accepted policy of guard id among these calls commits to this amount. */
  predicate SetsAmount(c: Chain, owner: Address, txs: seq<(Env, Call)>, id: uint256, amount: uint256) {
    var last := LastSet(c, Deployed(owner), txs, PolicySetter(id));
    last.Some? && last.value.1 == amount
  }

  lemma AmountWasSet(c: Chain, owner: Address, steps: seq<Step>, id: uint256, k: nat)
    requires k <= |Transactions(steps)|
    requires |Run(c, Genesis(owner), steps).history| == 1 + |Transactions(steps)|
    requires Run(c, Genesis(owner), steps).history[k].GuardAt(id).topUpAmountWei > 0
    ensures SetsAmount(c, owner, Transactions(steps)[..k], id,
                       Run(c, Genesis(owner), steps).history[k].GuardAt(id).topUpAmountWei)
  {
    HistoryIsExecution(c, Genesis(owner), steps, k);
    PolicyIsLastSet(c, owner, Transactions(steps)[..k], id);
    RunKeepsInvariant(c, Deployed(owner), Transactions(steps)[..k]);
  }
}

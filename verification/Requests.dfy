/**
 What a check request decides.  The enclave takes the vault from the request and the policy from the guard
 it names; whether the two belong together is up to whoever asks.
 */
module Requests {
  import opened Prelude
  import opened Registry
  import opened Enclave
  import opened GuardianSystem
  import opened RelayRuns
  import opened Pipeline

  /** The i-th step of a run is the check that gave rise to this event. */
  ghost predicate CameFrom(c: Chain, sys: System, steps: seq<Step>, i: nat, event: Event)
    requires sys.history != []
  {
    i < |steps| && steps[i].GuardCheck? && Signing(Run(c, sys, steps[..i]), steps[i]) == Some(event)
  }

  lemma CameLater(c: Chain, sys: System, steps: seq<Step>, i: nat, event: Event)
    requires sys.history != [] && steps != [] && CameFrom(c, Next(c, sys, steps[0]), steps[1..], i, event)
    ensures CameFrom(c, sys, steps, i + 1, event)
  {
    assert steps[..i + 1][1..] == steps[1..][..i];
  }

  /** Every event of a run comes from a check in it. */
  lemma {:induction false} EventCameFrom(c: Chain, sys: System, steps: seq<Step>, event: Event)
    requires sys.history != [] && event in Run(c, sys, steps).events && event !in sys.events
    ensures exists i :: CameFrom(c, sys, steps, i, event)
    decreases |steps|
  {
    var next := Next(c, sys, steps[0]);
    if event in next.events {
      assert steps[..0] == [] && CameFrom(c, sys, steps, 0, event);
    } else {
      EventCameFrom(c, next, steps[1..], event);
      var i :| CameFrom(c, next, steps[1..], i, event);
      CameLater(c, sys, steps, i, event);
    }
  }

  /** What the event tells about its request. */
  lemma EventTells(sys: System, ask: Step, event: Event)
    requires ask.GuardCheck? && Signing(sys, ask) == Some(event)
    ensures ask.request == Enclave.Request(Some(event.vault), ask.request.guardId)
    ensures ask.request.guardId == event.signed.guardId
    ensures ask.answers.factors.Some?
    ensures var f := ask.answers.factors.value; event.factors == (f.0, f.1)
    ensures event.read == ask.read && event.at == |sys.history|
  {
  }

  lemma {:induction false} HistoryOfRun(c: Chain, sys: System, steps: seq<Step>)
    requires sys.history != []
    ensures sys.history <= Run(c, sys, steps).history
    decreases |steps|
  {
    if steps != [] {
      HistoryOfRun(c, Next(c, sys, steps[0]), steps[1..]);
    }
  }

  lemma SplitRun(c: Chain, sys: System, steps: seq<Step>, i: nat)
    requires sys.history != [] && i <= |steps|
    ensures Run(c, sys, steps) == Run(c, Run(c, sys, steps[..i]), steps[i..])
    ensures Run(c, sys, steps[..i]).history <= Run(c, sys, steps).history
  {
    assert steps == steps[..i] + steps[i..];
    RunConcat(c, sys, steps[..i], steps[i..]);
    HistoryOfRun(c, Run(c, sys, steps[..i]), steps[i..]);
  }

  lemma LastOfPrefix(before: seq<Storage>, history: seq<Storage>)
    requires before != [] && before <= history
    ensures history[|before| - 1] == Last(before)
  {
  }

  /** The state in which the check of an event was made, told by the event's date. */
  lemma StateAtCheck(c: Chain, sys: System, steps: seq<Step>, i: nat, event: Event)
    requires sys.history != [] && CameFrom(c, sys, steps, i, event)
    ensures 0 < event.at <= |Run(c, sys, steps).history|
    ensures Run(c, sys, steps).history[event.at - 1] == Now(Run(c, sys, steps[..i]))
  {
    var before := Run(c, sys, steps[..i]);
    SigningTells(before, steps[i], event);
    SplitRun(c, sys, steps, i);
    LastOfPrefix(before.history, Run(c, sys, steps).history);
  }

  /**
   Step i is a check that stands behind row k: it was made while the ledger held the rows before it, and
   the danger it saw was that of the vault its request named, so the guard's own exactly if the request
   named the guard's own.
   */
  ghost predicate StandsBehind(c: Chain, sys: System, steps: seq<Step>, id: uint256, k: nat, i: nat, event: Event)
    requires sys.history != [] && k < |Now(Run(c, sys, steps)).Ledger(id)|
  {
    var end := Run(c, sys, steps);
    && CameFrom(c, sys, steps, i, event)
    && BackedBy(end.history, Now(end).Ledger(id), id, k, event)
    && Now(Run(c, sys, steps[..i])).Ledger(id) == Now(end).Ledger(id)[..k]
    && steps[i].request == Enclave.Request(Some(event.vault), id)
    && (event.vault == Now(end).GuardAt(id).agentVault <==>
          steps[i].request.agentVault == Some(Now(end).GuardAt(id).agentVault))
  }

  lemma CheckStandsBehind(c: Chain, sys: System, steps: seq<Step>, id: uint256, k: nat, i: nat, event: Event)
    requires sys.history != [] && k < |Now(Run(c, sys, steps)).Ledger(id)| && CameFrom(c, sys, steps, i, event)
    requires BackedBy(Run(c, sys, steps).history, Now(Run(c, sys, steps)).Ledger(id), id, k, event)
    ensures StandsBehind(c, sys, steps, id, k, i, event)
  {
    StateAtCheck(c, sys, steps, i, event);
    EventTells(Run(c, sys, steps[..i]), steps[i], event);
  }

  /** Behind every row of every run stands a check, by anyone. */
  lemma RowsGoBackToRequests(c: Chain, owner: Address, steps: seq<Step>, id: uint256, k: nat)
    requires UnforgedRun(c, Genesis(owner), steps)
    requires k < |Now(Run(c, Genesis(owner), steps)).Ledger(id)|
    ensures exists i: nat, event: Event :: StandsBehind(c, Genesis(owner), steps, id, k, i, event)
  {
    LedgersBacked(c, owner, steps, id, k);
    CheckBehindRow(c, Genesis(owner), steps, id, k);
  }

  lemma CheckBehindRow(c: Chain, sys: System, steps: seq<Step>, id: uint256, k: nat)
    requires sys.history != [] && sys.events == [] && k < |Now(Run(c, sys, steps)).Ledger(id)|
    requires Backed(Run(c, sys, steps), Now(Run(c, sys, steps)).Ledger(id), id, k)
    ensures exists i: nat, event: Event :: StandsBehind(c, sys, steps, id, k, i, event)
  {
    var end := Run(c, sys, steps);
    var event :| event in end.events && BackedBy(end.history, Now(end).Ledger(id), id, k, event);
    EventCameFrom(c, sys, steps, event);
    var i: nat :| CameFrom(c, sys, steps, i, event);
    CheckStandsBehind(c, sys, steps, id, k, i, event);
  }

  /** A check of the present state about any vault in danger. */
  ghost predicate AsksAbout(sys: System, ask: Step, id: uint64, vault: Address, key: Key) {
    && ask.GuardCheck? && sys.history != [] && ask.read == |sys.history| - 1
    && ask.request == Enclave.Request(Some(vault), id) && ask.keyEnv == Loaded(key)
    && HealthOf(vault, ask.answers).Success?
    && (ask.answers.factors.value.0 > 0 || ask.answers.factors.value.1 > 0)
  }

  /** The next action of guard id, by this key. */
  function NextAction(c: Chain, s: Storage, id: uint64, key: Key): SignedAction
    requires c.id < POW64 && s.GuardAt(id).lastActionNonce + 1 < POW64
  {
    var g := s.GuardAt(id);
    ActionSignedBy(key, c.id, id, ACTION_VAULT_TOP_UP, g.topUpAmountWei, g.lastActionNonce + 1)
  }

  lemma CheckSigns(req: Request, answers: VaultReads, g: Guard, key: Key, chainEnv: string,
                   r: Result<Response, CheckError>)
    requires req.agentVault.Some? && HealthOf(req.agentVault.value, answers).Success? && g.active
    requires answers.factors.value.0 > 0 || answers.factors.value.1 > 0
    requires r == Check(req, answers, Some(g), Loaded(key), chainEnv)
    ensures r.Success? && r.value.signed == Some(
      ActionSignedBy(key, ChainIdFrom(chainEnv), req.guardId, ACTION_VAULT_TOP_UP, g.topUpAmountWei,
                     NextNonce(g.lastActionNonce)))
  {
    SignsOnlyActiveInDanger(req, answers, g, Loaded(key), chainEnv);
  }

  lemma SigningIs(sys: System, ask: Step, g: Guard, key: Key)
    requires ask.GuardCheck? && ask.read < |sys.history| && ask.keyEnv == Loaded(key)
    requires g == sys.history[ask.read].GuardAt(ask.request.guardId) && g.active
    requires ask.request.agentVault.Some? && HealthOf(ask.request.agentVault.value, ask.answers).Success?
    requires ask.answers.factors.value.0 > 0 || ask.answers.factors.value.1 > 0
    ensures Signing(sys, ask).Some?
    ensures Signing(sys, ask).value.signed
      == ActionSignedBy(key, ChainIdFrom(ask.chainEnv), ask.request.guardId, ACTION_VAULT_TOP_UP, g.topUpAmountWei,
                        NextNonce(g.lastActionNonce))
  {
    CheckSigns(ask.request, ask.answers, g, key, ask.chainEnv,
               Check(ask.request, ask.answers, Some(g), ask.keyEnv, ask.chainEnv));
  }

  lemma NextIsSigned(signed: SignedAction, c: Chain, s: Storage, id: uint64, key: Key, chainEnv: string)
    requires c.id == ChainIdFrom(chainEnv) && s.GuardAt(id).lastActionNonce + 1 < POW64
    requires var g := s.GuardAt(id);
      signed == ActionSignedBy(key, ChainIdFrom(chainEnv), id, ACTION_VAULT_TOP_UP, g.topUpAmountWei,
                               NextNonce(g.lastActionNonce))
    ensures signed == NextAction(c, s, id, key)
  {
    assert NextNonce(s.GuardAt(id).lastActionNonce) == s.GuardAt(id).lastActionNonce + 1;
  }

  lemma NamedVaultSigns(c: Chain, sys: System, ask: Step, id: uint64, vault: Address, key: Key)
    requires AsksAbout(sys, ask, id, vault, key) && c.id == ChainIdFrom(ask.chainEnv)
    requires Now(sys).GuardAt(id).active && Now(sys).GuardAt(id).lastActionNonce + 1 < POW64
    ensures Signing(sys, ask).Some? && Signing(sys, ask).value.signed == NextAction(c, Now(sys), id, key)
  {
    var g, signing := Now(sys).GuardAt(id), Signing(sys, ask);
    SigningIs(sys, ask, g, key);
    NextIsSigned(signing.value.signed, c, Now(sys), id, key, ask.chainEnv);
  }

  /**
   The request decides: danger of whatever vault it names, the guard's own or another, leads without
   forgery to one more row for the guard.  That is why the own vault has to be asked about.
   */
  lemma NamedVaultDecides(c: Chain, sys: System, ask: Step, e: Env, id: uint64, vault: Address, key: Key, call: Call)
    requires AsksAbout(sys, ask, id, vault, key) && Selects(ask.chainEnv, c.id)
    requires Now(sys).GuardAt(id).active && Now(sys).GuardAt(id).agentVault != ZERO_ADDRESS && !Now(sys).paused
    requires Now(sys).GuardAt(id).lastActionNonce + 1 < POW64
    requires SoundKey(c, key) && Now(sys).guardianSigner == key.address
    requires var g := Now(sys).GuardAt(id);
      call == PostAction(id, ACTION_VAULT_TOP_UP, g.topUpAmountWei, g.lastActionNonce + 1,
                         NextAction(c, Now(sys), id, key).signature)
    ensures UnforgedRun(c, sys, [ask, Transact(e, call)])
    ensures Now(Run(c, sys, [ask, Transact(e, call)])).Ledger(id)
      == Now(sys).Ledger(id) + [Action(ACTION_VAULT_TOP_UP, call.amount, call.nonce, Truncate64(e.timestamp))]
  {
    SelectsOne(ask.chainEnv, c.id);
    var a := NextAction(c, Now(sys), id, key);
    NamedVaultSigns(c, sys, ask, id, vault, key);
    AnswerUnforged(c, sys, ask, a, key, e, call);
    AskThenPost(c, sys, ask, Transact(e, call));
    SignedByKey(c, key, key.address, id, call.amount, call.nonce);
    PostGainsRow(c, Now(sys), e, id, a.signature);
  }

  lemma AnswerUnforged(c: Chain, sys: System, ask: Step, a: SignedAction, key: Key, e: Env, call: Call)
    requires sys.history != [] && ask.GuardCheck? && Signing(sys, ask).Some? && Signing(sys, ask).value.signed == a
    requires SoundKey(c, key) && a.signature == key.sign(a.digest) && a.signer == key.address && Reposts(c, a, call)
    ensures Unforged(c, Next(c, sys, ask), Transact(e, call))
  {
    assert SignsWell(c, key, a.digest);
    RecoversKey(c, key, a.digest);
    RepostUnforged(c, Next(c, sys, ask), Signing(sys, ask).value, e, call);
  }

  lemma AskThenPost(c: Chain, sys: System, ask: Step, post: Step)
    requires sys.history != [] && ask.GuardCheck? && post.Transact? && Unforged(c, Next(c, sys, ask), post)
    ensures UnforgedRun(c, sys, [ask, post])
    ensures Now(Run(c, sys, [ask, post])) == After(c, Now(sys), post.env, post.call)
  {
    OneStep(c, sys, ask);
    OneStep(c, Next(c, sys, ask), post);
    assert Forgeless(c, sys, [ask] + [post]) by {
      ForgelessConcat(c, sys, [ask], [post]);
    }
    RunConcat(c, sys, [ask], [post]);
    assert [ask] + [post] == [ask, post];
  }

  lemma PostGainsRow(c: Chain, s: Storage, e: Env, id: uint256, signature: seq<uint8>)
    requires !s.paused && s.GuardAt(id).agentVault != ZERO_ADDRESS && s.GuardAt(id).lastActionNonce + 1 < POW64
    requires var g := s.GuardAt(id);
      SignedBy(c, s.guardianSigner, id, ACTION_VAULT_TOP_UP, g.topUpAmountWei, g.lastActionNonce + 1, signature)
    ensures var g := s.GuardAt(id);
      After(c, s, e, PostAction(id, ACTION_VAULT_TOP_UP, g.topUpAmountWei, g.lastActionNonce + 1, signature))
        .Ledger(id)
      == s.Ledger(id) + [Action(ACTION_VAULT_TOP_UP, g.topUpAmountWei, g.lastActionNonce + 1,
                                Truncate64(e.timestamp))]
  {
  }
}

/** What the relay services guarantee together, however their moves and those of others interleave. */
module LiveRelayRuns {
  import opened Prelude
  import opened Registry
  import opened Enclave
  import opened GuardianSystem
  import opened Relay
  import opened RelayRuns
  import opened Pipeline
  import opened LiveRelays
  import RegistryRuns
  import Digest
  import JsonNumber

  /**
   What is taken for granted of each move.  Others forge nothing, though they may ask the enclave about
   any guard and vault; enclave keys are sound; and a post that does not carry what was signed, for its
   nonce was rounded or the enclave signed for another chain, is no forgery.
   */
  ghost predicate Granted(c: Chain, live: Live, move: Move)
    requires live.sys.history != []
  {
    match move
    case Elsewhere(step) => Unforged(c, live.sys, step)
    case Question(_, _, _, _, keyEnv, _) => keyEnv.Loaded? ==> SoundKey(c, keyEnv.key)
    case Mine(k, env) =>
      k < |live.outbox| && !Reposts(c, live.outbox[k].action, live.outbox[k].call)
      ==> Unforged(c, live.sys, Transact(env, live.outbox[k].call))
    case _ => true
  }

  ghost predicate GrantedRun(c: Chain, live: Live, moves: seq<Move>)
    requires live.sys.history != []
    decreases |moves|
  {
    moves != [] ==> Granted(c, live, moves[0]) && GrantedRun(c, Perform(c, live, moves[0]), moves[1..])
  }

  /** The checks requested elsewhere are asked for as relay services ask. */
  ghost predicate AskedElsewhere(live: Live, move: Move) {
    move.Elsewhere? ==> AskedByTick(live.sys, move.step)
  }

  ghost predicate AskedElsewhereRun(c: Chain, live: Live, moves: seq<Move>)
    requires live.sys.history != []
    decreases |moves|
  {
    moves != [] ==> AskedElsewhere(live, moves[0]) && AskedElsewhereRun(c, Perform(c, live, moves[0]), moves[1..])
  }

  /** A post carries what was signed exactly when the chain is the signed one and the nonce survived. */
  lemma CarriesSignedIff(c: Chain, key: Key, chainId: uint64, id: uint64, amount: uint256, nonce: uint64,
                         call: Call)
    requires CallFor(id, ActionSignedBy(key, chainId, id, ACTION_VAULT_TOP_UP, amount, nonce)) == Some(call)
    ensures Reposts(c, ActionSignedBy(key, chainId, id, ACTION_VAULT_TOP_UP, amount, nonce), call)
            <==> chainId == c.id && JsonNumber.ToDouble(nonce) == nonce
  {
    var a := ActionSignedBy(key, chainId, id, ACTION_VAULT_TOP_UP, amount, nonce);
    if Reposts(c, a, call) {
      Digest.DigestInjective(chainId, id, ACTION_VAULT_TOP_UP, amount, nonce,
                             c.id, call.guardId, call.actionType, call.amount, call.nonce);
    }
    if JsonNumber.ToDouble(nonce) == nonce {
      CallCarriesAction(key, chainId, id, amount, nonce);
    }
  }

  /** Every action a service holds or has sent is on record and recovers to its signer. */
  ghost predicate AllOnRecord(c: Chain, live: Live) {
    && live.sys.history != []
    && (forall r | 0 <= r < |live.services| && live.services[r].holding.Some? ::
          OnRecord(c, live.sys, live.services[r].holding.value))
    && (forall k | 0 <= k < |live.outbox| ::
          && OnRecord(c, live.sys, live.outbox[k].action)
          && CallFor(live.outbox[k].id, live.outbox[k].action) == Some(live.outbox[k].call))
  }

  /** The step of a move, if any, forges nothing. */
  lemma MoveUnforged(c: Chain, live: Live, move: Move)
    requires AllOnRecord(c, live) && Granted(c, live, move)
    requires Enabled(live, move) && StepOf(live, move).Some?
    ensures Unforged(c, live.sys, StepOf(live, move).value)
  {
    if move.Mine? {
      MineUnforged(c, live, move.k, move.env);
    }
  }

  /** A service asks about the vault it read for the guard it is at. */
  lemma MoveAsked(live: Live, move: Move)
    requires AskedElsewhere(live, move) && Enabled(live, move) && StepOf(live, move).Some?
    ensures AskedByTick(live.sys, StepOf(live, move).value)
  {
  }

  lemma MineUnforged(c: Chain, live: Live, k: nat, e: Env)
    requires AllOnRecord(c, live) && Granted(c, live, Mine(k, e)) && k < |live.outbox|
    ensures Unforged(c, live.sys, Transact(e, live.outbox[k].call))
  {
    var a, call := live.outbox[k].action, live.outbox[k].call;
    if Reposts(c, a, call) {
      var i :| 0 <= i < |live.sys.events| && Signatures(live.sys.events)[i] == a;
      RepostUnforged(c, live.sys, live.sys.events[i], e, call);
    }
  }

  /** A check that signs does so with its key. */
  lemma SignedByItsKey(sys: System, ask: Step)
    requires ask.GuardCheck? && Signing(sys, ask).Some?
    ensures var a := Signing(sys, ask).value.signed;
      ask.keyEnv.Loaded? && a.signer == ask.keyEnv.key.address && a.signature == ask.keyEnv.key.sign(a.digest)
  {
  }

  lemma AnswerOnRecord(c: Chain, sys: System, ask: Step)
    requires sys.history != [] && ask.GuardCheck? && Signing(sys, ask).Some?
    requires ask.keyEnv.Loaded? ==> SoundKey(c, ask.keyEnv.key)
    ensures OnRecord(c, Next(c, sys, ask), Signing(sys, ask).value.signed)
  {
    var a, next := Signing(sys, ask).value.signed, Next(c, sys, ask);
    SignedByItsKey(sys, ask);
    assert SignsWell(c, ask.keyEnv.key, a.digest);
    RecoversKey(c, ask.keyEnv.key, a.digest);
    assert Signatures(next.events)[|sys.events|] == a;
  }

  lemma SystemKeepsRecord(c: Chain, live: Live, move: Move, a: SignedAction)
    requires live.sys.history != [] && OnRecord(c, live.sys, a)
    ensures OnRecord(c, Perform(c, live, move).sys, a)
  {
    if Enabled(live, move) && StepOf(live, move).Some? {
      RecordKept(c, live.sys, StepOf(live, move).value, a);
    }
  }

  /** A service holds what it held before, what it was just answered, or nothing. */
  lemma HeldNow(live: Live, move: Move, r: nat)
    requires Enabled(live, move) && r < |live.services|
    ensures var held := Served(live, move)[r].holding;
      held.Some? && held != live.services[r].holding ==>
        && move.Question? && Signing(live.sys, StepOf(live, move).value).Some?
        && held.value == Signing(live.sys, StepOf(live, move).value).value.signed
  {
  }

  lemma ServicesKeepRecord(c: Chain, live: Live, move: Move, r: nat)
    requires AllOnRecord(c, live) && Granted(c, live, move) && Enabled(live, move)
    requires r < |live.services| && Served(live, move)[r].holding.Some?
    ensures OnRecord(c, Perform(c, live, move).sys, Served(live, move)[r].holding.value)
  {
    var held := Served(live, move)[r].holding;
    HeldNow(live, move, r);
    if held == live.services[r].holding {
      SystemKeepsRecord(c, live, move, held.value);
    } else {
      AnswerOnRecord(c, live.sys, StepOf(live, move).value);
    }
  }

  lemma OutboxKeepsRecord(c: Chain, live: Live, move: Move, k: nat)
    requires AllOnRecord(c, live) && k < |Perform(c, live, move).outbox|
    ensures var next := Perform(c, live, move);
      && OnRecord(c, next.sys, next.outbox[k].action)
      && CallFor(next.outbox[k].id, next.outbox[k].action) == Some(next.outbox[k].call)
  {
    SystemKeepsRecord(c, live, move, Perform(c, live, move).outbox[k].action);
  }

  lemma MoveKeepsRecord(c: Chain, live: Live, move: Move)
    requires AllOnRecord(c, live) && Granted(c, live, move)
    ensures AllOnRecord(c, Perform(c, live, move))
  {
    var next := Perform(c, live, move);
    if Enabled(live, move) {
      forall r | 0 <= r < |live.services| && Served(live, move)[r].holding.Some?
        ensures OnRecord(c, next.sys, Served(live, move)[r].holding.value)
      {
        ServicesKeepRecord(c, live, move, r);
      }
    }
    forall k | 0 <= k < |next.outbox|
      ensures OnRecord(c, next.sys, next.outbox[k].action)
      ensures CallFor(next.outbox[k].id, next.outbox[k].action) == Some(next.outbox[k].call)
    {
      OutboxKeepsRecord(c, live, move, k);
    }
  }

  lemma MoveTraced(c: Chain, live: Live, move: Move)
    requires AllOnRecord(c, live) && Granted(c, live, move)
    ensures Forgeless(c, live.sys, StepsOf(live, move))
    ensures AskedElsewhere(live, move) ==> RelayAsked(c, live.sys, StepsOf(live, move))
    ensures Run(c, live.sys, StepsOf(live, move)) == Perform(c, live, move).sys
  {
    if Enabled(live, move) && StepOf(live, move).Some? {
      MoveUnforged(c, live, move);
      if AskedElsewhere(live, move) {
        MoveAsked(live, move);
      }
      OneStep(c, live.sys, StepOf(live, move).value);
    }
  }

  /**
   Any number of services, with any other moves between their reads, their questions, their posts and
   the blocks these are mined in, are together one run of the system without forgery.  It asks only about
   the guards' own vaults if nobody else asks otherwise.
   */
  lemma {:induction false} LiveIsRun(c: Chain, live: Live, moves: seq<Move>)
    requires AllOnRecord(c, live) && GrantedRun(c, live, moves)
    ensures UnforgedRun(c, live.sys, Trace(c, live, moves))
    ensures AskedElsewhereRun(c, live, moves) ==> AskedByTickRun(c, live.sys, Trace(c, live, moves))
    ensures Run(c, live.sys, Trace(c, live, moves)) == PerformAll(c, live, moves).sys
    ensures AllOnRecord(c, PerformAll(c, live, moves))
    decreases |moves|
  {
    if moves == [] {
      assert Proper(c, live.sys, []);
    } else {
      var next, first := Perform(c, live, moves[0]), StepsOf(live, moves[0]);
      MoveTraced(c, live, moves[0]);
      MoveKeepsRecord(c, live, moves[0]);
      LiveIsRun(c, next, moves[1..]);
      ConcatRun(c, live.sys, first, Trace(c, next, moves[1..]));
    }
  }

  lemma ConcatRun(c: Chain, sys: System, first: seq<Step>, rest: seq<Step>)
    requires sys.history != [] && Forgeless(c, sys, first) && Forgeless(c, Run(c, sys, first), rest)
    ensures Forgeless(c, sys, first + rest)
    ensures RelayAsked(c, sys, first) && RelayAsked(c, Run(c, sys, first), rest) ==> RelayAsked(c, sys, first + rest)
    ensures Run(c, sys, first + rest) == Run(c, Run(c, sys, first), rest)
  {
    ForgelessConcat(c, sys, first, rest);
    if RelayAsked(c, sys, first) && RelayAsked(c, Run(c, sys, first), rest) {
      RelayAskedConcat(c, sys, first, rest);
    }
    RunConcat(c, sys, first, rest);
  }

  lemma StartOnRecord(c: Chain, owner: Address, services: nat)
    ensures AllOnRecord(c, Start(owner, services))
  {
  }

  /** Every ledger stays gap-free. */
  lemma LiveLedgersGapFree(c: Chain, owner: Address, services: nat, moves: seq<Move>, id: uint256)
    requires GrantedRun(c, Start(owner, services), moves)
    ensures var s := Now(PerformAll(c, Start(owner, services), moves).sys);
      && GapFree(s.Ledger(id))
      && s.GuardAt(id).lastActionNonce == |s.Ledger(id)|
  {
    StartOnRecord(c, owner, services);
    LiveIsRun(c, Start(owner, services), moves);
    LedgersGapFree(c, owner, Trace(c, Start(owner, services), moves), id);
  }

  /** Every row goes back to an enclave signature, whoever asked for it and about whatever vault. */
  lemma LiveLedgersBacked(c: Chain, owner: Address, services: nat, moves: seq<Move>, id: uint256, k: nat)
    requires GrantedRun(c, Start(owner, services), moves)
    requires k < |Now(PerformAll(c, Start(owner, services), moves).sys).Ledger(id)|
    ensures var sys := PerformAll(c, Start(owner, services), moves).sys;
      exists event :: event in sys.events && BackedBy(sys.history, Now(sys).Ledger(id), id, k, event)
  {
    StartOnRecord(c, owner, services);
    LiveIsRun(c, Start(owner, services), moves);
    LedgersBacked(c, owner, Trace(c, Start(owner, services), moves), id, k);
  }

  /** If others ask as relay services do, the danger was read of the guard's own vault. */
  lemma LiveLedgersBackedByOwnDanger(c: Chain, owner: Address, services: nat, moves: seq<Move>, id: uint256, k: nat)
    requires GrantedRun(c, Start(owner, services), moves) && AskedElsewhereRun(c, Start(owner, services), moves)
    requires k < |Now(PerformAll(c, Start(owner, services), moves).sys).Ledger(id)|
    ensures var sys := PerformAll(c, Start(owner, services), moves).sys;
      exists event ::
        && event in sys.events
        && BackedBy(sys.history, Now(sys).Ledger(id), id, k, event)
        && event.vault == Now(sys).GuardAt(id).agentVault
  {
    StartOnRecord(c, owner, services);
    LiveIsRun(c, Start(owner, services), moves);
    LedgersBackedByOwnDanger(c, owner, Trace(c, Start(owner, services), moves), id, k);
  }

  /** What posting a signature that recovers to its signer does to the ledgers. */
  lemma RepostEffect(c: Chain, s: Storage, e: Env, call: Call, a: SignedAction)
    requires Reposts(c, a, call) && Recover(c, a.digest, a.signature) == Success(a.signer)
    ensures var t, g := After(c, s, e, call), s.GuardAt(call.guardId);
      && t.Ledger(call.guardId)
         == (if && !s.paused && g.agentVault != ZERO_ADDRESS && call.actionType <= ACTION_REDEMPTION_HANDLED
                && call.nonce > g.lastActionNonce && s.guardianSigner == a.signer
             then s.Ledger(call.guardId)
                  + [Action(call.actionType, call.amount, call.nonce, Truncate64(e.timestamp))]
             else s.Ledger(call.guardId))
      && forall j: uint256 | j != call.guardId :: t.Ledger(j) == s.Ledger(j)
  {
  }

  /** A post of an action on record is fresh exactly when it is the ledger's next, and then it is a top-up. */
  lemma RepostFreshIff(c: Chain, sys: System, a: SignedAction, call: Call)
    requires Sound(sys) && OnRecord(c, sys, a) && Reposts(c, a, call)
    ensures call.nonce > Now(sys).GuardAt(call.guardId).lastActionNonce
            <==> call.nonce == |Now(sys).Ledger(call.guardId)| + 1
    ensures call.nonce > Now(sys).GuardAt(call.guardId).lastActionNonce ==> call.actionType == ACTION_VAULT_TOP_UP
  {
    var i :| 0 <= i < |sys.events| && Signatures(sys.events)[i] == a;
    if call.nonce > Now(sys).GuardAt(call.guardId).lastActionNonce {
      PostedRow(c, sys, sys.events[i], call.guardId, call.actionType, call.amount, call.nonce);
    }
    assert RegistryRuns.Invariant(Now(sys)) && Ungapped(Now(sys));
    LastNonceCounts(Now(sys), call.guardId);
  }

  lemma RepostRowIff(c: Chain, sys: System, a: SignedAction, call: Call, e: Env)
    requires Sound(sys) && OnRecord(c, sys, a) && Reposts(c, a, call)
    ensures var s, t, id := Now(sys), After(c, Now(sys), e, call), call.guardId;
      && t.Ledger(id)
         == (if && !s.paused && s.GuardAt(id).agentVault != ZERO_ADDRESS && s.guardianSigner == a.signer
                && call.nonce == |s.Ledger(id)| + 1
             then s.Ledger(id) + [Action(ACTION_VAULT_TOP_UP, call.amount, call.nonce, Truncate64(e.timestamp))]
             else s.Ledger(id))
      && forall j: uint256 | j != id :: t.Ledger(j) == s.Ledger(j)
  {
    RepostFreshIff(c, sys, a, call);
    RepostEffect(c, Now(sys), e, call, a);
  }

  lemma MineStep(c: Chain, live: Live, k: nat, e: Env)
    requires live.sys.history != [] && k < |live.outbox|
    ensures Now(Perform(c, live, Mine(k, e)).sys) == After(c, Now(live.sys), e, live.outbox[k].call)
  {
  }

  /**
   Exactly when a mined post gains a row, whatever happened since it was sent: the registry is not paused,
   the guard exists, its key is the signer now, and no row came in since the enclave's read.  Then it is
   the next row, and no other ledger changes.
   */
  lemma MinedRowIff(c: Chain, live: Live, k: nat, e: Env)
    requires AllOnRecord(c, live) && Sound(live.sys) && k < |live.outbox|
    requires Reposts(c, live.outbox[k].action, live.outbox[k].call)
    ensures var o, s, t := live.outbox[k], Now(live.sys), Now(Perform(c, live, Mine(k, e)).sys);
      var id, call := o.call.guardId, o.call;
      && t.Ledger(id)
         == (if && !s.paused && s.GuardAt(id).agentVault != ZERO_ADDRESS && s.guardianSigner == o.action.signer
                && call.nonce == |s.Ledger(id)| + 1
             then s.Ledger(id) + [Action(ACTION_VAULT_TOP_UP, call.amount, call.nonce, Truncate64(e.timestamp))]
             else s.Ledger(id))
      && forall j: uint256 | j != id :: t.Ledger(j) == s.Ledger(j)
  {
    MineStep(c, live, k, e);
    RepostRowIff(c, live.sys, live.outbox[k].action, live.outbox[k].call, e);
  }

  // ---- what a service sends ----

  /** Posts lie in the outbox pass by pass, and within a pass by guard, each guard at most once. */
  ghost predicate Before(a: Outgoing, b: Outgoing) {
    a.service == b.service ==> a.pass < b.pass || (a.pass == b.pass && a.id < b.id)
  }

  /** The post was sent by a service before it came to where it is now. */
  predicate SentBy(services: seq<Service>, o: Outgoing) {
    && o.service < |services|
    && (o.pass < services[o.service].passes
        || (o.pass == services[o.service].passes && o.id < services[o.service].next))
  }

  ghost predicate InOrder(live: Live) {
    && (forall k | 0 <= k < |live.outbox| :: SentBy(live.services, live.outbox[k]))
    && (forall i, j | 0 <= i < j < |live.outbox| :: Before(live.outbox[i], live.outbox[j]))
  }

  lemma StillSent(live: Live, move: Move, o: Outgoing)
    requires Enabled(live, move) && SentBy(live.services, o)
    ensures SentBy(Served(live, move), o)
  {
  }

  lemma NewlySent(live: Live, move: Move)
    requires Enabled(live, move) && Sends(live, move) != []
    ensures |Sends(live, move)| == 1
    ensures var o := Sends(live, move)[0];
      && SentBy(Served(live, move), o)
      && o.id == live.services[o.service].next && o.pass == live.services[o.service].passes
  {
  }

  lemma MoveKeepsOrder(c: Chain, live: Live, move: Move)
    requires live.sys.history != [] && InOrder(live)
    ensures InOrder(Perform(c, live, move))
  {
    if Enabled(live, move) {
      forall k | 0 <= k < |live.outbox|
        ensures SentBy(Served(live, move), live.outbox[k])
      {
        StillSent(live, move, live.outbox[k]);
      }
      if Sends(live, move) != [] {
        NewlySent(live, move);
      }
    }
  }

  /** The signer the service read is one the registry once had. */
  ghost predicate SignerSeen(history: seq<Storage>, signer: Address) {
    exists j :: 0 <= j < |history| && history[j].guardianSigner == signer
  }

  /** The post is its guard's own, under a nonce that was once the next and a signer that was once set. */
  ghost predicate Rechecked(history: seq<Storage>, o: Outgoing) {
    && o.action.guardId == o.id
    && SignerSeen(history, o.action.signer)
    && exists i :: 0 <= i < |history|
         && PassesRecheck(o.action, history[i].GuardAt(o.id).lastActionNonce, o.action.signer)
  }

  ghost predicate Careful(live: Live) {
    && (forall r | 0 <= r < |live.services| :: CarefulService(live.sys.history, live.services[r]))
    && (forall k | 0 <= k < |live.outbox| :: Rechecked(live.sys.history, live.outbox[k]))
  }

  ghost predicate CarefulService(history: seq<Storage>, s: Service) {
    && (s.holding.Some? ==> s.holding.value.guardId == s.next)
    && (Busy(s) ==> SignerSeen(history, s.signer))
  }

  lemma HistoryGrows(c: Chain, live: Live, move: Move)
    requires live.sys.history != []
    ensures live.sys.history <= Perform(c, live, move).sys.history
  {
  }

  lemma SeenLater(history: seq<Storage>, later: seq<Storage>, signer: Address)
    requires history <= later && SignerSeen(history, signer)
    ensures SignerSeen(later, signer)
  {
    var j :| 0 <= j < |history| && history[j].guardianSigner == signer;
    assert later[j] == history[j];
  }

  lemma RecheckedLater(history: seq<Storage>, later: seq<Storage>, o: Outgoing)
    requires history <= later && Rechecked(history, o)
    ensures Rechecked(later, o)
  {
    SeenLater(history, later, o.action.signer);
    var i :| 0 <= i < |history|
      && PassesRecheck(o.action, history[i].GuardAt(o.id).lastActionNonce, o.action.signer);
    assert later[i] == history[i];
  }

  lemma ServedCarefully(live: Live, move: Move, r: nat)
    requires Enabled(live, move) && r < |live.services| && CarefulService(live.sys.history, live.services[r])
    ensures CarefulService(live.sys.history, Served(live, move)[r])
  {
    if move.Question? {
      SigningNamesRequest(live.sys, StepOf(live, move).value);
    }
  }

  lemma SentCarefully(live: Live, move: Move)
    requires Enabled(live, move) && Careful(live) && Sends(live, move) != []
    ensures |Sends(live, move)| == 1 && Rechecked(live.sys.history, Sends(live, move)[0])
  {
    assert CarefulService(live.sys.history, live.services[move.r]);
  }

  lemma MoveKeepsCareful(c: Chain, live: Live, move: Move)
    requires live.sys.history != [] && Careful(live)
    ensures Careful(Perform(c, live, move))
  {
    if Enabled(live, move) {
      var history, later := live.sys.history, Perform(c, live, move).sys.history;
      HistoryGrows(c, live, move);
      forall r | 0 <= r < |live.services|
        ensures CarefulService(later, Served(live, move)[r])
      {
        ServedCarefully(live, move, r);
        CarefulLater(history, later, Served(live, move)[r]);
      }
      if Sends(live, move) != [] {
        SentCarefully(live, move);
      }
      var sent := live.outbox + Sends(live, move);
      forall k | 0 <= k < |sent|
        ensures Rechecked(later, sent[k])
      {
        assert Rechecked(history, sent[k]);
        RecheckedLater(history, later, sent[k]);
      }
    }
  }

  lemma CarefulLater(history: seq<Storage>, later: seq<Storage>, s: Service)
    requires history <= later && CarefulService(history, s)
    ensures CarefulService(later, s)
  {
    if Busy(s) {
      SeenLater(history, later, s.signer);
    }
  }

  lemma {:induction false} RunKeepsCareful(c: Chain, live: Live, moves: seq<Move>)
    requires live.sys.history != [] && InOrder(live) && Careful(live)
    ensures InOrder(PerformAll(c, live, moves)) && Careful(PerformAll(c, live, moves))
    decreases |moves|
  {
    if moves != [] {
      MoveKeepsOrder(c, live, moves[0]);
      MoveKeepsCareful(c, live, moves[0]);
      RunKeepsCareful(c, Perform(c, live, moves[0]), moves[1..]);
    }
  }

  /** In one pass a service sends at most one post per guard, in the order of the guards. */
  lemma OnePostPerGuard(c: Chain, owner: Address, services: nat, moves: seq<Move>, i: nat, j: nat)
    requires i < j < |PerformAll(c, Start(owner, services), moves).outbox|
    ensures var sent := PerformAll(c, Start(owner, services), moves).outbox;
      sent[i].service == sent[j].service ==>
        sent[i].pass < sent[j].pass || (sent[i].pass == sent[j].pass && sent[i].id < sent[j].id)
  {
    RunKeepsCareful(c, Start(owner, services), moves);
    var sent := PerformAll(c, Start(owner, services), moves).outbox;
    assert Before(sent[i], sent[j]);
  }

  /**
   However stale the reads, whatever is sent is for its own guard, under a nonce that was the next in
   some past state, and signed by a key that was the registry's signer in some past state.
   */
  lemma SentAfterRecheck(c: Chain, owner: Address, services: nat, moves: seq<Move>, k: nat)
    requires k < |PerformAll(c, Start(owner, services), moves).outbox|
    ensures var end := PerformAll(c, Start(owner, services), moves);
      var o, history := end.outbox[k], end.sys.history;
      && o.action.guardId == o.id
      && (exists j :: 0 <= j < |history| && history[j].guardianSigner == o.action.signer)
      && exists i :: 0 <= i < |history|
           && JsonNumber.ToDouble(o.action.nonce) == history[i].GuardAt(o.id).lastActionNonce + 1
  {
    RunKeepsCareful(c, Start(owner, services), moves);
    var end := PerformAll(c, Start(owner, services), moves);
    assert Rechecked(end.sys.history, end.outbox[k]);
  }
}

/**
 The relay's pass as a run of the whole system: its steps written out, one check for every answer of
 the enclave and one transaction for every post that is mined, accepted or reverted.  Because the
 service posts only what it has just been given and checks the signer first, these steps meet the
 no-forgery condition by construction.
 */
module Pipeline {
  import opened Prelude
  import opened Registry
  import opened Enclave
  import opened GuardianSystem
  import opened Relay
  import opened RelayRuns
  import Digest
  import JsonNumber

  lemma {:induction false} RunConcat(c: Chain, sys: System, a: seq<Step>, b: seq<Step>)
    ensures sys.history != [] ==> Run(c, sys, a + b) == Run(c, Run(c, sys, a), b)
    decreases |a|
  {
    if sys.history != [] {
      if a == [] {
        assert a + b == b;
      } else {
        assert (a + b)[1..] == a[1..] + b;
        RunConcat(c, Next(c, sys, a[0]), a[1..], b);
      }
    }
  }

  /** The steps forge nothing. */
  ghost predicate Forgeless(c: Chain, sys: System, steps: seq<Step>)
    requires sys.history != []
  {
    UnforgedRun(c, sys, steps)
  }

  /** The checks among the steps are asked for by relay services. */
  ghost predicate RelayAsked(c: Chain, sys: System, steps: seq<Step>)
    requires sys.history != []
  {
    AskedByTickRun(c, sys, steps)
  }

  /** Steps the service can be responsible for: own-vault requests, and posts of enclave signatures. */
  ghost predicate Proper(c: Chain, sys: System, steps: seq<Step>)
    requires sys.history != []
  {
    Forgeless(c, sys, steps) && RelayAsked(c, sys, steps)
  }

  lemma {:induction false} ForgelessConcat(c: Chain, sys: System, a: seq<Step>, b: seq<Step>)
    requires sys.history != [] && Forgeless(c, sys, a) && Forgeless(c, Run(c, sys, a), b)
    ensures Forgeless(c, sys, a + b)
    decreases |a|
  {
    if a == [] {
      assert a + b == b;
    } else {
      assert (a + b)[1..] == a[1..] + b;
      ForgelessConcat(c, Next(c, sys, a[0]), a[1..], b);
    }
  }

  lemma {:induction false} RelayAskedConcat(c: Chain, sys: System, a: seq<Step>, b: seq<Step>)
    requires sys.history != [] && RelayAsked(c, sys, a) && RelayAsked(c, Run(c, sys, a), b)
    ensures RelayAsked(c, sys, a + b)
    decreases |a|
  {
    if a == [] {
      assert a + b == b;
    } else {
      assert (a + b)[1..] == a[1..] + b;
      RelayAskedConcat(c, Next(c, sys, a[0]), a[1..], b);
    }
  }

  lemma ProperConcat(c: Chain, sys: System, a: seq<Step>, b: seq<Step>)
    requires sys.history != [] && Proper(c, sys, a) && Proper(c, Run(c, sys, a), b)
    ensures Proper(c, sys, a + b)
  {
    ForgelessConcat(c, sys, a, b);
    RelayAskedConcat(c, sys, a, b);
  }

  lemma OneStep(c: Chain, sys: System, step: Step)
    requires sys.history != []
    ensures Run(c, sys, [step]) == Next(c, sys, step)
    ensures Unforged(c, sys, step) ==> Forgeless(c, sys, [step])
    ensures AskedByTick(sys, step) ==> RelayAsked(c, sys, [step])
  {
    var next := Next(c, sys, step);
    assert [step][1..] == [] && Run(c, next, []) == next && Proper(c, next, []);
  }

  /** The actions that left the enclave. */
  function Signatures(events: seq<Event>): (signed: seq<SignedAction>)
    ensures |signed| == |events|
  {
    seq(|events|, i requires 0 <= i < |events| => events[i].signed)
  }

  /** Proper steps that end in this storage and add these signatures to those of before. */
  ghost predicate Leads(c: Chain, sys: System, steps: seq<Step>, target: Storage, signed: seq<SignedAction>)
    requires sys.history != []
  {
    && Proper(c, sys, steps)
    && Now(Run(c, sys, steps)) == target
    && Signatures(Run(c, sys, steps).events) == Signatures(sys.events) + signed
  }

  lemma LeadsNowhere(c: Chain, sys: System)
    requires sys.history != []
    ensures Leads(c, sys, [], Now(sys), [])
  {
    assert Run(c, sys, []) == sys;
  }

  lemma LeadsOn(c: Chain, sys: System, first: seq<Step>, rest: seq<Step>, mid: Storage, target: Storage,
                signed: seq<SignedAction>, more: seq<SignedAction>)
    requires sys.history != [] && Leads(c, sys, first, mid, signed)
    requires Leads(c, Run(c, sys, first), rest, target, more)
    ensures Leads(c, sys, first + rest, target, signed + more)
  {
    ProperConcat(c, sys, first, rest);
    RunConcat(c, sys, first, rest);
    Append3(Signatures(sys.events), signed, more);
  }

  lemma Append3<T>(a: seq<T>, b: seq<T>, c: seq<T>)
    ensures a + b + c == a + (b + c)
  {
  }

  // ---- the steps of one visit ----

  /** The service's request about guard id in the present state. */
  function RequestStep(w: World, sys: System, id: uint64): Step
    requires sys.history != []
  {
    var vault := Now(sys).GuardAt(id).agentVault;
    GuardCheck(|sys.history| - 1, Enclave.Request(Some(vault), id), w.vaultAnswers(vault), w.keyEnv, w.chainEnv)
  }

  /** The transaction an answer leads to, if the service posts it and it is mined. */
  function PostSteps(w: World, s: Storage, signer: Address, id: uint64, resp: Response): seq<Step> {
    if resp.signed.None? || resp.decision != TopUpRequired || w.recheckUnread(id) then []
    else if !PassesRecheck(resp.signed.value, s.GuardAt(id).lastActionNonce, signer) then []
    else
      match (w.write(id), CallFor(id, resp.signed.value))
      case (Mined(env, _), Some(call)) => [Transact(env, call)]
      case _ => []
  }

  /** The guard is active and the enclave answers the question about it. */
  predicate Answers(w: World, s: Storage, id: uint64) {
    !w.guardUnread(id) && s.GuardAt(id).active && !w.enclaveDown(id) && Ask(w, s, id).Success?
  }

  function VisitSteps(w: World, sys: System, signer: Address, id: uint64): seq<Step>
    requires sys.history != []
  {
    if !Answers(w, Now(sys), id) then []
    else [RequestStep(w, sys, id)] + PostSteps(w, Now(sys), signer, id, Ask(w, Now(sys), id).value)
  }

  /** What the enclave signs in one visit. */
  function SignedAt(w: World, s: Storage, id: uint64): seq<SignedAction> {
    if Signs(w, s, id) then [Due(w, s, id)] else []
  }

  /** The request as a step gives the answer the service gets. */
  lemma RequestAnswered(w: World, sys: System, id: uint64)
    requires sys.history != [] && Answers(w, Now(sys), id)
    ensures AskedByTick(sys, RequestStep(w, sys, id))
    ensures var e := Signing(sys, RequestStep(w, sys, id));
      var resp := Ask(w, Now(sys), id).value;
      e.Some? == resp.signed.Some? && (e.Some? ==> e.value.signed == resp.signed.value)
  {
    var ask := RequestStep(w, sys, id);
    assert sys.history[|sys.history| - 1].GuardAt(id).active;
    assert Check(ask.request, ask.answers, Some(Now(sys).GuardAt(id)), ask.keyEnv, ask.chainEnv)
           == Ask(w, Now(sys), id);
  }

  lemma AnswerSigned(w: World, s: Storage, id: uint64)
    requires Answers(w, s, id)
    ensures var resp := Ask(w, s, id).value;
      SignedAt(w, s, id) == if resp.signed.Some? then [resp.signed.value] else []
  {
    AskSigns(w, s, id);
    SignedMeansDanger(w, s, id);
  }

  lemma SignedMeansDanger(w: World, s: Storage, id: uint64)
    ensures var r := Ask(w, s, id); r.Success? && r.value.signed.Some? ==> r.value.decision == TopUpRequired
  {
  }

  lemma RequestLeads(w: World, sys: System, id: uint64)
    requires sys.history != [] && Answers(w, Now(sys), id)
    ensures Leads(w.chain, sys, [RequestStep(w, sys, id)], Now(sys), SignedAt(w, Now(sys), id))
  {
    RequestAnswered(w, sys, id);
    AnswerSigned(w, Now(sys), id);
    CheckLeads(w.chain, sys, RequestStep(w, sys, id));
  }

  lemma CheckLeads(c: Chain, sys: System, ask: Step)
    requires sys.history != [] && ask.GuardCheck? && AskedByTick(sys, ask)
    ensures var e := Signing(sys, ask);
      Leads(c, sys, [ask], Now(sys), if e.Some? then [e.value.signed] else [])
  {
    var next := Next(c, sys, ask);
    assert [ask][1..] == [];
    assert Run(c, next, []) == next;
    assert Proper(c, next, []);
  }

  /** A post is a step that signs nothing. */
  lemma PostLeads(c: Chain, sys: System, e: Env, call: Call)
    requires sys.history != [] && Unforged(c, sys, Transact(e, call))
    ensures Leads(c, sys, [Transact(e, call)], After(c, Now(sys), e, call), [])
  {
    var post := Transact(e, call);
    var next := Next(c, sys, post);
    assert [post][1..] == [];
    assert Run(c, next, []) == next;
    assert Proper(c, next, []);
  }

  /** What the enclave signed is what the post claims. */
  lemma DueFields(w: World, s: Storage, id: uint64)
    requires w.keyEnv.Loaded? && w.chain.id == ChainIdFrom(w.chainEnv)
    requires s.GuardAt(id).lastActionNonce + 1 < POW64
    ensures Due(w, s, id).signer == w.keyEnv.key.address
    ensures Due(w, s, id).digest == Digest.GuardDigest(w.chain.id, id, ACTION_VAULT_TOP_UP,
      s.GuardAt(id).topUpAmountWei, s.GuardAt(id).lastActionNonce + 1)
  {
    assert NextNonce(s.GuardAt(id).lastActionNonce) == s.GuardAt(id).lastActionNonce + 1;
  }

  /** Whatever the service sends, accepted or not, the enclave has just signed under the current signer. */
  lemma PostUnforged(w: World, sys: System, id: uint64, event: Event, post: Step)
    requires sys.history != [] && Selects(w.chainEnv, w.chain.id)
    requires Answers(w, Now(sys), id)
    requires post in PostSteps(w, Now(sys), Now(sys).guardianSigner, id, Ask(w, Now(sys), id).value)
    requires event in sys.events && [event.signed] == SignedAt(w, Now(sys), id)
    ensures Unforged(w.chain, sys, post)
  {
    SelectsOne(w.chainEnv, w.chain.id);
    var s := Now(sys);
    AskSigns(w, s, id);
    DueCall(w, s, id);
    DueFields(w, s, id);
    assert event.signed == Due(w, s, id);
  }

  /** Storage after an answer is storage after the transaction it leads to, if any. */
  lemma ReactPosts(w: World, s: Storage, signer: Address, id: uint64, resp: Response, h: Health)
    ensures var steps := PostSteps(w, s, signer, id, resp);
      && |steps| <= 1 && (steps != [] ==> steps[0].Transact?)
      && React(w, s, signer, id, resp, h).storage
         == if steps == [] then s else After(w.chain, s, steps[0].env, steps[0].call)
  {
  }

  lemma VisitPosts(w: World, s: Storage, signer: Address, id: uint64, h: Health)
    requires Answers(w, s, id)
    ensures var steps := PostSteps(w, s, signer, id, Ask(w, s, id).value);
      && |steps| <= 1 && (steps != [] ==> steps[0].Transact?)
      && Visit(w, s, signer, id, h).storage
         == if steps == [] then s else After(w.chain, s, steps[0].env, steps[0].call)
  {
    ReactPosts(w, s, signer, id, Ask(w, s, id).value,
               h.(teeReachable := true, checksPerformed := h.checksPerformed + 1));
  }

  lemma NoAnswerNoEffect(w: World, s: Storage, signer: Address, id: uint64, h: Health)
    requires !Answers(w, s, id)
    ensures Visit(w, s, signer, id, h).storage == s && SignedAt(w, s, id) == []
  {
    if !w.guardUnread(id) && s.GuardAt(id).active && !w.enclaveDown(id) {
      AskSigns(w, s, id);
    }
  }

  /** The post that follows an answer leads on from the system in which its signature was recorded. */
  lemma PostStepsLead(w: World, sys: System, id: uint64, before: seq<SignedAction>, steps: seq<Step>)
    requires sys.history != [] && w.chain.id == ChainIdFrom(w.chainEnv) && Answers(w, Now(sys), id)
    requires Signatures(sys.events) == before + SignedAt(w, Now(sys), id)
    requires steps == PostSteps(w, Now(sys), Now(sys).guardianSigner, id, Ask(w, Now(sys), id).value)
    requires |steps| == 1 && steps[0].Transact?
    ensures Leads(w.chain, sys, steps, After(w.chain, Now(sys), steps[0].env, steps[0].call), [])
  {
    AskSigns(w, Now(sys), id);
    var last := |sys.events| - 1;
    assert SignedAt(w, Now(sys), id) == [Due(w, Now(sys), id)];
    assert Signatures(sys.events)[last] == sys.events[last].signed == Due(w, Now(sys), id);
    PostUnforged(w, sys, id, sys.events[last], steps[0]);
    PostLeads(w.chain, sys, steps[0].env, steps[0].call);
    assert steps == [Transact(steps[0].env, steps[0].call)];
  }

  /** One iteration of the pass, from any system in which its signer is the registry's. */
  lemma VisitLeads(w: World, sys: System, id: uint64, h: Health)
    requires sys.history != [] && w.chain.id == ChainIdFrom(w.chainEnv)
    ensures var s := Now(sys);
      Leads(w.chain, sys, VisitSteps(w, sys, s.guardianSigner, id),
            Visit(w, s, s.guardianSigner, id, h).storage, SignedAt(w, s, id))
  {
    var s, c := Now(sys), w.chain;
    if Answers(w, s, id) {
      var ask, posts := RequestStep(w, sys, id), PostSteps(w, s, s.guardianSigner, id, Ask(w, s, id).value);
      RequestLeads(w, sys, id);
      VisitPosts(w, s, s.guardianSigner, id, h);
      var asked := Run(c, sys, [ask]);
      if posts == [] {
        LeadsNowhere(c, asked);
      } else {
        PostStepsLead(w, asked, id, Signatures(sys.events), posts);
      }
      LeadsOn(c, sys, [ask], posts, s, Visit(w, s, s.guardianSigner, id, h).storage, SignedAt(w, s, id), []);
    } else {
      NoAnswerNoEffect(w, s, s.guardianSigner, id, h);
      LeadsNowhere(c, sys);
    }
  }

  // ---- the steps of a pass ----

  /** The steps of the rest of the pass, from guard id to guard n. */
  function StepsFrom(w: World, sys: System, signer: Address, id: nat, n: nat): seq<Step>
    requires sys.history != [] && n < JsonNumber.POW53
    decreases n + 1 - id
  {
    if id > n then []
    else
      var first := VisitSteps(w, sys, signer, id);
      first + if Stops(w, Now(sys), id) then []
              else StepsFrom(w, Run(w.chain, sys, first), signer, id + 1, n)
  }

  function PassSteps(w: World, sys: System): seq<Step>
    requires sys.history != [] && Now(sys).guardCount < JsonNumber.POW53
  {
    if w.countUnread || w.signerUnread then []
    else StepsFrom(w, sys, Now(sys).guardianSigner, 1, Now(sys).guardCount)
  }

  /** What the enclave signs for the guards from id to n, told from the storage before the pass. */
  function SignedFrom(w: World, s: Storage, id: nat, n: nat): seq<SignedAction>
    requires n < JsonNumber.POW53
    decreases n + 1 - id
  {
    if id > n then []
    else SignedAt(w, s, id) + if Stops(w, s, id) then [] else SignedFrom(w, s, id + 1, n)
  }

  function PassSignatures(w: World, s: Storage): seq<SignedAction>
    requires s.guardCount < JsonNumber.POW53
  {
    if w.countUnread || w.signerUnread then [] else SignedFrom(w, s, 1, s.guardCount)
  }

  /** Only the guards still to come matter. */
  lemma {:induction false} SignedFromSame(w: World, s: Storage, t: Storage, id: nat, n: nat)
    requires n < JsonNumber.POW53
    requires forall j: uint64 | id <= j :: t.GuardAt(j) == s.GuardAt(j)
    ensures SignedFrom(w, t, id, n) == SignedFrom(w, s, id, n)
    decreases n + 1 - id
  {
    if id <= n {
      SignedHereSame(w, s, t, id);
      SignedFromSame(w, s, t, id + 1, n);
    }
  }

  lemma SignedHereSame(w: World, s: Storage, t: Storage, id: uint64)
    requires t.GuardAt(id) == s.GuardAt(id)
    ensures SignedAt(w, t, id) == SignedAt(w, s, id) && (Stops(w, t, id) <==> Stops(w, s, id))
  {
  }

  lemma VisitLeavesOthers(w: World, s: Storage, id: uint64, h: Health)
    ensures var p := Visit(w, s, s.guardianSigner, id, h);
      && p.storage.guardianSigner == s.guardianSigner
      && (forall j: uint64 | id < j :: p.storage.GuardAt(j) == s.GuardAt(j))
      && (p.thrown <==> Stops(w, s, id))
  {
    VisitEffect(w, s, s.guardianSigner, id, h);
  }

  lemma {:induction false} VisitsLead(w: World, sys: System, signer: Address, id: nat, n: nat, h: Health)
    requires sys.history != [] && n < JsonNumber.POW53 && w.chain.id == ChainIdFrom(w.chainEnv)
    requires signer == Now(sys).guardianSigner
    ensures Leads(w.chain, sys, StepsFrom(w, sys, signer, id, n),
                  VisitFrom(w, Now(sys), signer, id, n, h).storage, SignedFrom(w, Now(sys), id, n))
    decreases n + 1 - id
  {
    if id > n {
      LeadsNowhere(w.chain, sys);
    } else {
      var s, c, first := Now(sys), w.chain, VisitSteps(w, sys, signer, id);
      var p, next := Visit(w, s, signer, id, h), Run(c, sys, first);
      VisitLeads(w, sys, id, h);
      VisitLeavesOthers(w, s, id, h);
      if p.thrown {
        assert first + [] == first && SignedAt(w, s, id) + [] == SignedAt(w, s, id);
      } else {
        VisitsLead(w, next, signer, id + 1, n, p.health);
        SignedFromSame(w, s, p.storage, id + 1, n);
        LeadsOn(c, sys, first, StepsFrom(w, next, signer, id + 1, n), p.storage,
                VisitFrom(w, p.storage, signer, id + 1, n, p.health).storage, SignedAt(w, s, id),
                SignedFrom(w, s, id + 1, n));
      }
    }
  }

  /**
   A whole pass, with any failures, is this run of the system.  The run meets the no-forgery condition
   without any assumption about the signature scheme, asks only about the guards' own vaults, ends in the
   storage the pass leaves, and records exactly the signatures the enclave gave away, posted or not.
   */
  lemma PassIsRun(w: World, sys: System, h: Health)
    requires sys.history != [] && Now(sys).guardCount < JsonNumber.POW53
    requires Selects(w.chainEnv, w.chain.id)
    ensures var steps := PassSteps(w, sys);
      var end := Run(w.chain, sys, steps);
      && UnforgedRun(w.chain, sys, steps) && AskedByTickRun(w.chain, sys, steps)
      && Now(end) == Pass(w, Now(sys), h).storage
      && Signatures(end.events) == Signatures(sys.events) + PassSignatures(w, Now(sys))
  {
    SelectsOne(w.chainEnv, w.chain.id);
    var s := Now(sys);
    if w.countUnread || w.signerUnread {
      LeadsNowhere(w.chain, sys);
    } else {
      VisitsLead(w, sys, s.guardianSigner, 1, s.guardCount, h.(guardsWatched := s.guardCount));
    }
  }

  // ---- the steps against the service's own counters ----

  function Checks(steps: seq<Step>): nat {
    if steps == [] then 0 else (if steps[0].GuardCheck? then 1 else 0) + Checks(steps[1..])
  }

  function Posts(steps: seq<Step>): nat {
    if steps == [] then 0 else (if steps[0].Transact? then 1 else 0) + Posts(steps[1..])
  }

  lemma {:induction false} CountsConcat(a: seq<Step>, b: seq<Step>)
    ensures Checks(a + b) == Checks(a) + Checks(b) && Posts(a + b) == Posts(a) + Posts(b)
  {
    if a == [] {
      assert a + b == b;
    } else {
      assert (a + b)[1..] == a[1..] + b;
      CountsConcat(a[1..], b);
    }
  }

  /** The steps explain how these counters moved; a receipt that never came is a post not counted. */
  ghost predicate Explains(w: World, steps: seq<Step>, h: Health, h': Health) {
    && h'.checksPerformed == h.checksPerformed + Checks(steps)
    && h.actionsPosted <= h'.actionsPosted <= h.actionsPosted + Posts(steps)
    && (AllReceipts(w) ==> h'.actionsPosted == h.actionsPosted + Posts(steps))
  }

  ghost predicate AllReceipts(w: World) {
    forall id: nat :: w.write(id).Mined? ==> w.write(id).receipt
  }

  lemma ReactExplained(w: World, s: Storage, signer: Address, id: uint64, resp: Response, h: Health)
    ensures Explains(w, PostSteps(w, s, signer, id, resp), h, React(w, s, signer, id, resp, h).health)
  {
  }

  lemma VisitExplained(w: World, sys: System, signer: Address, id: uint64, h: Health)
    requires sys.history != []
    ensures Explains(w, VisitSteps(w, sys, signer, id), h, Visit(w, Now(sys), signer, id, h).health)
  {
    var s := Now(sys);
    if Answers(w, s, id) {
      var counted := h.(teeReachable := true, checksPerformed := h.checksPerformed + 1);
      var posts := PostSteps(w, s, signer, id, Ask(w, s, id).value);
      ReactExplained(w, s, signer, id, Ask(w, s, id).value, counted);
      CountsConcat([RequestStep(w, sys, id)], posts);
      assert [RequestStep(w, sys, id)][1..] == [];
    }
  }

  lemma ExplainsOn(w: World, a: seq<Step>, b: seq<Step>, h: Health, h': Health, h'': Health)
    requires Explains(w, a, h, h') && Explains(w, b, h', h'')
    ensures Explains(w, a + b, h, h'')
  {
    CountsConcat(a, b);
  }

  lemma {:induction false} VisitsExplained(w: World, sys: System, signer: Address, id: nat, n: nat, h: Health)
    requires sys.history != [] && n < JsonNumber.POW53 && w.chain.id == ChainIdFrom(w.chainEnv)
    requires signer == Now(sys).guardianSigner
    ensures Explains(w, StepsFrom(w, sys, signer, id, n), h, VisitFrom(w, Now(sys), signer, id, n, h).health)
    decreases n + 1 - id
  {
    if id <= n {
      var s, c, first := Now(sys), w.chain, VisitSteps(w, sys, signer, id);
      var p, next := Visit(w, s, signer, id, h), Run(c, sys, first);
      VisitLeads(w, sys, id, h);
      VisitLeavesOthers(w, s, id, h);
      VisitExplained(w, sys, signer, id, h);
      if p.thrown {
        assert first + [] == first;
      } else {
        VisitsExplained(w, next, signer, id + 1, n, p.health);
        ExplainsOn(w, first, StepsFrom(w, next, signer, id + 1, n), h, p.health,
                   VisitFrom(w, p.storage, signer, id + 1, n, p.health).health);
      }
    }
  }

  /**
   The steps of a pass are neither more nor fewer than the service counts: one check for each check
   performed, and one transaction for each action posted or left without a receipt.
   */
  lemma PassCounts(w: World, sys: System, h: Health)
    requires sys.history != [] && Now(sys).guardCount < JsonNumber.POW53
    requires Selects(w.chainEnv, w.chain.id)
    ensures var end, steps := Pass(w, Now(sys), h).health, PassSteps(w, sys);
      && end.checksPerformed == h.checksPerformed + Checks(steps)
      && h.actionsPosted <= end.actionsPosted <= h.actionsPosted + Posts(steps)
      && (AllReceipts(w) ==> end.actionsPosted == h.actionsPosted + Posts(steps))
  {
    SelectsOne(w.chainEnv, w.chain.id);
    if !w.countUnread && !w.signerUnread {
      var s := Now(sys);
      VisitsExplained(w, sys, s.guardianSigner, 1, s.guardCount, h.(guardsWatched := s.guardCount));
    }
  }

  // ---- what may happen to the signatures afterwards ----

  /** The call posts this action with the fields its digest covers. */
  predicate Reposts(c: Chain, a: SignedAction, call: Call) {
    && call.PostAction? && call.signature == a.signature
    && a.digest == Digest.GuardDigest(c.id, call.guardId, call.actionType, call.amount, call.nonce)
  }

  /** A signature that recovers to its signer can be posted by anyone, at any later time. */
  lemma RepostUnforged(c: Chain, sys: System, event: Event, e: Env, call: Call)
    requires sys.history != [] && event in sys.events && Reposts(c, event.signed, call)
    requires Recover(c, event.signed.digest, event.signed.signature) == Success(event.signed.signer)
    ensures Unforged(c, sys, Transact(e, call))
  {
  }

  /** The action is on record and the registry recovers its signer. */
  ghost predicate OnRecord(c: Chain, sys: System, a: SignedAction) {
    && Recover(c, a.digest, a.signature) == Success(a.signer)
    && a in Signatures(sys.events)
  }

  lemma RecordKept(c: Chain, sys: System, step: Step, a: SignedAction)
    requires sys.history != [] && OnRecord(c, sys, a)
    ensures OnRecord(c, Next(c, sys, step), a)
  {
    var i :| 0 <= i < |sys.events| && Signatures(sys.events)[i] == a;
    var later := Next(c, sys, step).events;
    assert sys.events <= later && Signatures(later)[i] == a;
  }

  /** Whatever posts are among these steps, they repost one of the actions. */
  ghost predicate OnlyReposts(c: Chain, signed: seq<SignedAction>, steps: seq<Step>) {
    forall step | step in steps && step.Transact? && step.call.PostAction? ::
      exists a :: a in signed && Reposts(c, a, step.call)
  }

  lemma OneRepostUnforged(c: Chain, sys: System, signed: seq<SignedAction>, step: Step)
    requires sys.history != [] && OnlyReposts(c, signed, [step])
    requires forall a | a in signed :: OnRecord(c, sys, a)
    ensures Unforged(c, sys, step)
  {
    if step.Transact? && step.call.PostAction? {
      assert step in [step];
      var a :| a in signed && Reposts(c, a, step.call);
      var i :| 0 <= i < |sys.events| && Signatures(sys.events)[i] == a;
      RepostUnforged(c, sys, sys.events[i], step.env, step.call);
    }
  }

  lemma {:induction false} RepostsUnforged(c: Chain, sys: System, signed: seq<SignedAction>, steps: seq<Step>)
    requires sys.history != [] && OnlyReposts(c, signed, steps)
    requires forall a | a in signed :: OnRecord(c, sys, a)
    ensures UnforgedRun(c, sys, steps)
    decreases |steps|
  {
    if steps != [] {
      OneRepostUnforged(c, sys, signed, steps[0]);
      forall a | a in signed
        ensures OnRecord(c, Next(c, sys, steps[0]), a)
      {
        RecordKept(c, sys, steps[0], a);
      }
      RepostsUnforged(c, Next(c, sys, steps[0]), signed, steps[1..]);
    }
  }

  lemma {:induction false} SignedByTheKey(w: World, s: Storage, id: nat, n: nat, a: SignedAction)
    requires n < JsonNumber.POW53 && a in SignedFrom(w, s, id, n)
    ensures w.keyEnv.Loaded? && a.signer == w.keyEnv.key.address && a.signature == w.keyEnv.key.sign(a.digest)
    decreases n + 1 - id
  {
    if id <= n && a !in SignedAt(w, s, id) {
      SignedByTheKey(w, s, id + 1, n, a);
    }
  }

  /** What the pass had signed is on record after it and recovers to the enclave's key. */
  lemma PassOnRecord(w: World, sys: System, a: SignedAction)
    requires sys.history != [] && Now(sys).guardCount < JsonNumber.POW53
    requires Selects(w.chainEnv, w.chain.id)
    requires w.keyEnv.Loaded? ==> SoundKey(w.chain, w.keyEnv.key)
    requires a in PassSignatures(w, Now(sys))
    ensures OnRecord(w.chain, Run(w.chain, sys, PassSteps(w, sys)), a)
  {
    SelectsOne(w.chainEnv, w.chain.id);
    PassIsRun(w, sys, Health(0, 0, 0, false));
    SignedByTheKey(w, Now(sys), 1, Now(sys).guardCount, a);
    assert SignsWell(w.chain, w.keyEnv.key, a.digest);
    RecoversKey(w.chain, w.keyEnv.key, a.digest);
  }

  /**
   After a pass anyone may take the signatures it left behind, posted or not, and post them in any order,
   any number of times, between any other calls and relay-asked checks: the whole still meets the
   no-forgery condition, so the ledgers stay gap-free and backed.
   */
  lemma PassThenReposts(w: World, sys: System, later: seq<Step>)
    requires Sound(sys) && Now(sys).guardCount < JsonNumber.POW53
    requires Selects(w.chainEnv, w.chain.id)
    requires w.keyEnv.Loaded? ==> SoundKey(w.chain, w.keyEnv.key)
    requires OnlyReposts(w.chain, PassSignatures(w, Now(sys)), later)
    requires AskedByTickRun(w.chain, Run(w.chain, sys, PassSteps(w, sys)), later)
    ensures var steps := PassSteps(w, sys) + later;
      UnforgedRun(w.chain, sys, steps) && AskedByTickRun(w.chain, sys, steps) && Sound(Run(w.chain, sys, steps))
  {
    SelectsOne(w.chainEnv, w.chain.id);
    var c, signed, steps := w.chain, PassSignatures(w, Now(sys)), PassSteps(w, sys);
    PassIsRun(w, sys, Health(0, 0, 0, false));
    forall a | a in signed
      ensures OnRecord(c, Run(c, sys, steps), a)
    {
      PassOnRecord(w, sys, a);
    }
    RepostsUnforged(c, Run(c, sys, steps), signed, later);
    assert Proper(c, sys, steps + later) by {
      ProperConcat(c, sys, steps, later);
    }
    RunKeepsSound(c, sys, steps + later);
  }
}

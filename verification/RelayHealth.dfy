/** What the service's health endpoint shows after a pass, and when a pass is abandoned. */
module RelayHealth {
  import opened Prelude
  import opened Registry
  import opened Enclave
  import opened Relay
  import opened RelayRuns
  import opened Pipeline
  import JsonNumber

  /** The service gets as far as asking the enclave about the guard. */
  predicate Asks(w: World, g: Guard, id: uint64) {
    !w.guardUnread(id) && g.active
  }

  /** And the enclave answers: it is up, reads the guard and all of the vault, and has a key if it needs one. */
  predicate Responds(w: World, g: Guard, id: uint64) {
    var answers := w.vaultAnswers(g.agentVault);
    && !w.enclaveDown(id) && !w.enclaveGuardUnread(id)
    && answers.factors.Some? && answers.collateral.Some? && answers.feed.Some?
    && (Danger(answers) ==> w.keyEnv.Loaded?)
  }

  lemma AnswersIff(w: World, s: Storage, id: uint64)
    ensures Answers(w, s, id) <==> Asks(w, s.GuardAt(id), id) && Responds(w, s.GuardAt(id), id)
  {
    var g := s.GuardAt(id);
    if HealthOf(g.agentVault, w.vaultAnswers(g.agentVault)).Success? {
      DecisionAgreesWithFlag(g.agentVault, w.vaultAnswers(g.agentVault));
    }
  }

  /**
   One visit: reachable as the enclave just was, one more check if it answered, one more post if a receipt
   came, the guard count untouched.
   */
  lemma VisitHealth(w: World, s: Storage, signer: Address, id: uint64, h: Health)
    ensures var p, g := Visit(w, s, signer, id, h).health, s.GuardAt(id);
      && p.teeReachable == (if Asks(w, g, id) then Responds(w, g, id) else h.teeReachable)
      && p.checksPerformed == h.checksPerformed + (if Asks(w, g, id) && Responds(w, g, id) then 1 else 0)
      && p.guardsWatched == h.guardsWatched
      && p.actionsPosted == h.actionsPosted + (if VisitSends(w, s, signer, id) && w.write(id).receipt then 1 else 0)
  {
    AnswersIff(w, s, id);
    if Answers(w, s, id) {
      ReactReceipt(w, s, signer, id, Ask(w, s, id).value,
                   h.(teeReachable := true, checksPerformed := h.checksPerformed + 1));
    }
  }

  /** The visit sends a transaction, and it is mined. */
  predicate VisitSends(w: World, s: Storage, signer: Address, id: uint64) {
    w.write(id).Mined? && Answers(w, s, id) && PostSteps(w, s, signer, id, Ask(w, s, id).value) != []
  }

  /** A post counts once its receipt has come. */
  lemma ReactReceipt(w: World, s: Storage, signer: Address, id: uint64, resp: Response, h: Health)
    ensures var p, steps := React(w, s, signer, id, resp, h).health, PostSteps(w, s, signer, id, resp);
      && (steps != [] ==> w.write(id).Mined?)
      && p == h.(actionsPosted := h.actionsPosted + if steps != [] && w.write(id).receipt then 1 else 0)
  {
  }

  /** Whether the enclave was reachable when it was last asked, for the guards from id to n. */
  function ReachableAfter(w: World, s: Storage, id: nat, n: nat, before: bool): bool
    requires n < JsonNumber.POW53
    decreases n + 1 - id
  {
    if id > n then before
    else
      var now := if Asks(w, s.GuardAt(id), id) then Responds(w, s.GuardAt(id), id) else before;
      if Stops(w, s, id) then now else ReachableAfter(w, s, id + 1, n, now)
  }

  /** Some guard from id to n makes the pass stop. */
  ghost predicate StopsWithin(w: World, s: Storage, id: nat, n: nat)
    requires n < JsonNumber.POW53
  {
    exists j: nat :: id <= j <= n && Stops(w, s, j)
  }

  lemma {:induction false} ReachableSame(w: World, s: Storage, t: Storage, id: nat, n: nat, before: bool)
    requires n < JsonNumber.POW53 && forall j: uint64 | id <= j :: t.GuardAt(j) == s.GuardAt(j)
    ensures ReachableAfter(w, t, id, n, before) == ReachableAfter(w, s, id, n, before)
    decreases n + 1 - id
  {
    if id <= n {
      SignedHereSame(w, s, t, id);
      var now := if Asks(w, s.GuardAt(id), id) then Responds(w, s.GuardAt(id), id) else before;
      ReachableSame(w, s, t, id + 1, n, now);
    }
  }

  lemma StopsSame(w: World, s: Storage, t: Storage, id: nat, n: nat)
    requires n < JsonNumber.POW53 && forall j: uint64 | id <= j :: t.GuardAt(j) == s.GuardAt(j)
    ensures StopsWithin(w, t, id, n) <==> StopsWithin(w, s, id, n)
  {
    forall j: nat | id <= j <= n
      ensures Stops(w, t, j) <==> Stops(w, s, j)
    {
      SignedHereSame(w, s, t, j);
    }
  }

  lemma {:induction false} VisitsHealth(w: World, s: Storage, id: nat, n: nat, h: Health)
    requires n < JsonNumber.POW53
    ensures var p := VisitFrom(w, s, s.guardianSigner, id, n, h);
      && p.health.teeReachable == ReachableAfter(w, s, id, n, h.teeReachable)
      && p.health.guardsWatched == h.guardsWatched
      && (p.thrown <==> StopsWithin(w, s, id, n))
    decreases n + 1 - id
  {
    if id <= n {
      var p := Visit(w, s, s.guardianSigner, id, h);
      VisitHealth(w, s, s.guardianSigner, id, h);
      VisitLeavesOthers(w, s, id, h);
      if !p.thrown {
        VisitsHealth(w, p.storage, id + 1, n, p.health);
        ReachableSame(w, s, p.storage, id + 1, n, p.health.teeReachable);
        StopsSame(w, s, p.storage, id + 1, n);
      }
      StopsFrom(w, s, id, n);
    }
  }

  lemma StopsFrom(w: World, s: Storage, id: nat, n: nat)
    requires id <= n < JsonNumber.POW53
    ensures StopsWithin(w, s, id, n) <==> Stops(w, s, id) || StopsWithin(w, s, id + 1, n)
  {
  }

  /**
   After a pass the endpoint shows the number of guards and whether the enclave was reachable when last
   asked.  A pass throws if one of its first two reads fails, and then shows what it showed before, or if
   the nonce of a signed action cannot be read again.
   */
  lemma PassHealth(w: World, s: Storage, h: Health)
    requires s.guardCount < JsonNumber.POW53
    ensures var p := Pass(w, s, h);
      if w.countUnread || w.signerUnread then p.thrown && p.health == h && p.storage == s
      else
        && p.health.guardsWatched == s.guardCount
        && p.health.teeReachable == ReachableAfter(w, s, 1, s.guardCount, h.teeReachable)
        && (p.thrown <==> StopsWithin(w, s, 1, s.guardCount))
  {
    if !w.countUnread && !w.signerUnread {
      VisitsHealth(w, s, 1, s.guardCount, h.(guardsWatched := s.guardCount));
    }
  }
}

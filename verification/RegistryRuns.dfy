/** What the registry alone guarantees, whoever calls it and in whatever order. */
module RegistryRuns {
  import opened Prelude
  import opened BigEndian
  import opened Digest
  import opened Registry

  /** Guard ids are 1..guardCount and are in bijection with the registered vaults. */
  ghost predicate IndexConsistent(s: Storage) {
    && (forall id: uint256 :: id in s.guards <==> 1 <= id <= s.guardCount)
    && (forall id: uint256 | id in s.guards ::
          s.guards[id].agentVault != ZERO_ADDRESS && s.IdOf(s.guards[id].agentVault) == id)
    && (forall v: Address | v in s.guardIdOfVault ::
          s.guardIdOfVault[v] in s.guards && s.guards[s.guardIdOfVault[v]].agentVault == v)
  }

  ghost predicate PoliciesNonZero(s: Storage) {
    forall id: uint256 | id in s.guards :: s.guards[id].ratioBIPS > 0 && s.guards[id].topUpAmountWei > 0
  }

  function LastNonce(rows: seq<Action>): uint64 {
    if rows == [] then 0 else rows[|rows| - 1].nonce
  }

  ghost predicate NoncesIncrease(rows: seq<Action>) {
    && (forall i | 0 <= i < |rows| :: rows[i].nonce > 0)
    && (forall i, j | 0 <= i < j < |rows| :: rows[i].nonce < rows[j].nonce)
  }

  /** Every ledger is strictly ordered by nonce, ends at lastActionNonce, and belongs to a guard. */
  ghost predicate LedgersOrdered(s: Storage) {
    forall id: uint256 ::
      && NoncesIncrease(s.Ledger(id))
      && s.GuardAt(id).lastActionNonce == LastNonce(s.Ledger(id))
  }

  ghost predicate Invariant(s: Storage) {
    IndexConsistent(s) && PoliciesNonZero(s) && LedgersOrdered(s)
  }

  /** What one transaction may do to storage, and so what any number of them may do. */
  ghost predicate Evolves(s: Storage, t: Storage) {
    && s.owner == t.owner
    && s.guardCount <= t.guardCount
    && (forall id: uint256 | id in s.guards ::
          && id in t.guards
          && t.guards[id].agentVault == s.guards[id].agentVault
          && t.guards[id].owner == s.guards[id].owner
          && t.guards[id].createdAt == s.guards[id].createdAt
          && t.guards[id].lastActionNonce >= s.guards[id].lastActionNonce)
    && (forall id: uint256 :: s.Ledger(id) <= t.Ledger(id))
    && (s.guardianSigner != ZERO_ADDRESS ==> t.guardianSigner != ZERO_ADDRESS)
  }

  /** Rewriting one guard's policy, flag or nonce touches neither index. */
  lemma GuardRewritten(s: Storage, t: Storage, id: uint256, g: Guard)
    requires IndexConsistent(s) && PoliciesNonZero(s) && id in s.guards
    requires t.guards == s.guards[id := g]
    requires t.guardCount == s.guardCount && t.guardIdOfVault == s.guardIdOfVault
    requires g.agentVault == s.guards[id].agentVault && g.ratioBIPS > 0 && g.topUpAmountWei > 0
    ensures IndexConsistent(t) && PoliciesNonZero(t)
  {
    forall v: Address | v in t.guardIdOfVault
      ensures t.guardIdOfVault[v] in t.guards && t.guards[t.guardIdOfVault[v]].agentVault == v
    {
      assert v in s.guardIdOfVault;
    }
  }

  lemma GuardAppended(s: Storage, t: Storage, g: Guard)
    requires Invariant(s) && s.guardCount + 1 < POW256
    requires g.agentVault != ZERO_ADDRESS && s.IdOf(g.agentVault) == 0
    requires g.ratioBIPS > 0 && g.topUpAmountWei > 0
    requires t.guardCount == s.guardCount + 1
    requires t.guards == s.guards[t.guardCount := g]
    requires t.guardIdOfVault == s.guardIdOfVault[g.agentVault := t.guardCount]
    ensures s.guardCount + 1 !in s.guards && IndexConsistent(t) && PoliciesNonZero(t)
  {
    var id := t.guardCount;
    assert id !in s.guards;
    forall v: Address | v in t.guardIdOfVault
      ensures t.guardIdOfVault[v] in t.guards && t.guards[t.guardIdOfVault[v]].agentVault == v
    {
      if v != g.agentVault {
        assert v in s.guardIdOfVault && s.guardIdOfVault[v] in s.guards;
      }
    }
    forall i: uint256 | i in t.guards
      ensures t.guards[i].agentVault != ZERO_ADDRESS && t.IdOf(t.guards[i].agentVault) == i
    {
      if i != id {
        assert i in s.guards && s.IdOf(s.guards[i].agentVault) == i;
      }
    }
  }

  lemma GuardAdded(s: Storage, e: Env, vault: Address, ratio: uint64, amount: uint256)
    requires Invariant(s) && DoRegister(s, e, vault, ratio, amount).Commit?
    ensures var t := DoRegister(s, e, vault, ratio, amount).next; Invariant(t) && Evolves(s, t)
  {
    var t := DoRegister(s, e, vault, ratio, amount).next;
    GuardAppended(s, t, t.guards[t.guardCount]);
    LedgersUntouched(s, t);
  }

  lemma LedgersUntouched(s: Storage, t: Storage)
    requires LedgersOrdered(s) && t.actions == s.actions
    requires forall id: uint256 :: t.GuardAt(id).lastActionNonce == s.GuardAt(id).lastActionNonce
    ensures LedgersOrdered(t) && forall id: uint256 :: s.Ledger(id) <= t.Ledger(id)
  {
    forall id: uint256
      ensures NoncesIncrease(t.Ledger(id)) && t.GuardAt(id).lastActionNonce == LastNonce(t.Ledger(id))
    {
      assert NoncesIncrease(s.Ledger(id)) && t.Ledger(id) == s.Ledger(id);
      assert s.GuardAt(id).lastActionNonce == LastNonce(s.Ledger(id));
    }
  }

  lemma RowAppended(s: Storage, t: Storage, id: uint256, row: Action)
    requires LedgersOrdered(s) && row.nonce > s.GuardAt(id).lastActionNonce
    requires t.GuardAt(id).lastActionNonce == row.nonce
    requires t.actions == s.actions[id := s.Ledger(id) + [row]]
    requires forall i: uint256 | i != id :: t.GuardAt(i).lastActionNonce == s.GuardAt(i).lastActionNonce
    ensures LedgersOrdered(t) && forall i: uint256 :: s.Ledger(i) <= t.Ledger(i)
  {
    forall i: uint256
      ensures NoncesIncrease(t.Ledger(i)) && t.GuardAt(i).lastActionNonce == LastNonce(t.Ledger(i))
    {
      assert NoncesIncrease(s.Ledger(i)) && s.GuardAt(i).lastActionNonce == LastNonce(s.Ledger(i));
      if i == id {
        assert t.Ledger(i) == s.Ledger(i) + [row];
      } else {
        assert t.Ledger(i) == s.Ledger(i);
      }
    }
  }

  lemma GuardCallKeeps(c: Chain, s: Storage, e: Env, call: Call)
    requires Invariant(s) && (call.SetPolicy? || call.SetGuardActive?)
    requires Invoke(c, s, e, call).Commit?
    ensures Invariant(After(c, s, e, call)) && Evolves(s, After(c, s, e, call))
  {
    var t := After(c, s, e, call);
    var id := call.guardId;
    GuardRewritten(s, t, id, t.guards[id]);
    LedgersUntouched(s, t);
  }

  lemma PostedKeeps(s: Storage, t: Storage, id: uint256, row: Action)
    requires Invariant(s) && id in s.guards && row.nonce > s.guards[id].lastActionNonce
    requires t == s.(guards := s.guards[id := s.guards[id].(lastActionNonce := row.nonce)],
                     actions := s.actions[id := s.Ledger(id) + [row]])
    ensures Invariant(t) && Evolves(s, t)
  {
    GuardRewritten(s, t, id, t.guards[id]);
    RowAppended(s, t, id, row);
  }

  /** What an accepted post did: one row, and the guard's nonce moved up to it. */
  lemma PostEffect(c: Chain, s: Storage, e: Env, id: uint256, actionType: uint8, amount: uint256,
                   nonce: uint64, signature: seq<uint8>)
    requires Invariant(s) && DoPostAction(c, s, e, id, actionType, amount, nonce, signature).Commit?
    ensures id in s.guards && nonce > s.guards[id].lastActionNonce
    ensures var row := Action(actionType, amount, nonce, Truncate64(e.timestamp));
      DoPostAction(c, s, e, id, actionType, amount, nonce, signature).next
      == s.(guards := s.guards[id := s.guards[id].(lastActionNonce := row.nonce)],
            actions := s.actions[id := s.Ledger(id) + [row]])
  {
  }

  lemma PostKeeps(c: Chain, s: Storage, e: Env, id: uint256, actionType: uint8, amount: uint256,
                  nonce: uint64, signature: seq<uint8>)
    requires Invariant(s) && DoPostAction(c, s, e, id, actionType, amount, nonce, signature).Commit?
    ensures var t := DoPostAction(c, s, e, id, actionType, amount, nonce, signature).next;
      && Invariant(t) && Evolves(s, t)
      && id in s.guards && t.GuardAt(id).lastActionNonce == nonce > s.GuardAt(id).lastActionNonce
  {
    PostEffect(c, s, e, id, actionType, amount, nonce, signature);
    PostedKeeps(s, DoPostAction(c, s, e, id, actionType, amount, nonce, signature).next, id,
                Action(actionType, amount, nonce, Truncate64(e.timestamp)));
  }

  /** Every call, accepted or reverted, keeps the invariant and only moves forward. */
  lemma StepKeepsInvariant(c: Chain, s: Storage, e: Env, call: Call)
    requires Invariant(s)
    ensures Invariant(After(c, s, e, call)) && Evolves(s, After(c, s, e, call))
  {
    var t := After(c, s, e, call);
    if Invoke(c, s, e, call).Revert? || call.SetGuardianSigner? || call.SetPaused? {
      LedgersUntouched(s, t);
    } else if call.RegisterAgentVault? {
      GuardAdded(s, e, call.vault, call.ratioBIPS, call.topUpAmountWei);
    } else if call.PostAction? {
      PostKeeps(c, s, e, call.guardId, call.actionType, call.amount, call.nonce, call.signature);
    } else {
      GuardCallKeeps(c, s, e, call);
    }
  }

  // ---- runs ----

  /** A block of transactions: any callers, any arguments, at any times. */
  function Execute(c: Chain, s: Storage, txs: seq<(Env, Call)>): Storage
    decreases |txs|
  {
    if txs == [] then s
    else Execute(c, After(c, s, txs[0].0, txs[0].1), txs[1..])
  }

  lemma EvolvesReflexive(s: Storage)
    ensures Evolves(s, s)
  {
    assert forall id: uint256 :: s.Ledger(id) <= s.Ledger(id);
  }

  lemma EvolvesTransitive(s: Storage, t: Storage, u: Storage)
    requires Evolves(s, t) && Evolves(t, u)
    ensures Evolves(s, u)
  {
    forall id: uint256
      ensures s.Ledger(id) <= u.Ledger(id)
    {
      assert s.Ledger(id) <= t.Ledger(id) && t.Ledger(id) <= u.Ledger(id);
    }
  }

  lemma {:induction false} RunKeepsInvariant(c: Chain, s: Storage, txs: seq<(Env, Call)>)
    requires Invariant(s)
    ensures Invariant(Execute(c, s, txs)) && Evolves(s, Execute(c, s, txs))
    decreases |txs|
  {
    if txs != [] {
      var t := After(c, s, txs[0].0, txs[0].1);
      StepKeepsInvariant(c, s, txs[0].0, txs[0].1);
      RunKeepsInvariant(c, t, txs[1..]);
      EvolvesTransitive(s, t, Execute(c, s, txs));
    } else {
      EvolvesReflexive(s);
    }
  }

  /** In every reachable state the two indexes are mutually inverse and all policies are non-zero. */
  lemma VaultsAndGuardsCorrespond(c: Chain, owner: Address, txs: seq<(Env, Call)>)
    ensures var s := Execute(c, Deployed(owner), txs);
      && (forall id: uint256 :: s.GuardAt(id).agentVault != ZERO_ADDRESS <==> 1 <= id <= s.guardCount)
      && (forall id: uint256 | 1 <= id <= s.guardCount :: s.IdOf(s.GuardAt(id).agentVault) == id)
      && (forall v: Address | s.IdOf(v) != 0 :: s.GuardAt(s.IdOf(v)).agentVault == v)
      && s.IdOf(ZERO_ADDRESS) == 0
      && (forall i: uint256, j: uint256 | 1 <= i < j <= s.guardCount ::
            s.GuardAt(i).agentVault != s.GuardAt(j).agentVault)
      && (forall id: uint256 | 1 <= id <= s.guardCount ::
            s.GuardAt(id).ratioBIPS > 0 && s.GuardAt(id).topUpAmountWei > 0)
  {
    RunKeepsInvariant(c, Deployed(owner), txs);
    var s := Execute(c, Deployed(owner), txs);
    forall i: uint256, j: uint256 | 1 <= i < j <= s.guardCount
      ensures s.GuardAt(i).agentVault != s.GuardAt(j).agentVault
    {
      assert s.IdOf(s.guards[i].agentVault) == i && s.IdOf(s.guards[j].agentVault) == j;
    }
  }

  /** Ledgers are append-only over any further run and always end at the guard's nonce. */
  lemma LedgersAppendOnly(c: Chain, owner: Address, txs: seq<(Env, Call)>, more: seq<(Env, Call)>, id: uint256)
    ensures var s := Execute(c, Deployed(owner), txs);
      var t := Execute(c, s, more);
      && s.Ledger(id) <= t.Ledger(id)
      && NoncesIncrease(t.Ledger(id))
      && t.GuardAt(id).lastActionNonce == LastNonce(t.Ledger(id))
  {
    RunKeepsInvariant(c, Deployed(owner), txs);
    RunKeepsInvariant(c, Execute(c, Deployed(owner), txs), more);
  }

  /**
   No replay: once a nonce was accepted for a guard, every later post for that guard with that nonce
   is rejected, whatever happened in between and whatever it carries.
   */
  lemma NoReplay(c: Chain, owner: Address, txs: seq<(Env, Call)>, s: Storage, e: Env, call: Call,
                 more: seq<(Env, Call)>, e': Env, call': Call)
    requires s == Execute(c, Deployed(owner), txs)
    requires call.PostAction? && Invoke(c, s, e, call).Commit?
    requires call'.PostAction? && call'.guardId == call.guardId && call'.nonce == call.nonce
    ensures Invoke(c, Execute(c, After(c, s, e, call), more), e', call').Revert?
  {
    RunKeepsInvariant(c, Deployed(owner), txs);
    var id := call.guardId;
    PostKeeps(c, s, e, id, call.actionType, call.amount, call.nonce, call.signature);
    var t := After(c, s, e, call);
    RunKeepsInvariant(c, t, more);
    var u := Execute(c, t, more);
    assert id in t.guards && id in u.guards && u.guards[id].lastActionNonce >= call.nonce;
    UsedNonceReverts(c, u, e', id, call'.actionType, call'.amount, call'.nonce, call'.signature);
  }

  lemma UsedNonceReverts(c: Chain, s: Storage, e: Env, id: uint256, actionType: uint8, amount: uint256,
                         nonce: uint64, signature: seq<uint8>)
    requires nonce <= s.GuardAt(id).lastActionNonce
    ensures DoPostAction(c, s, e, id, actionType, amount, nonce, signature).Revert?
  {
  }

  // ---- who may change what ----

  /** The signature is well-formed in every respect the registry insists on, and the guardian's. */
  predicate GuardianSigned(c: Chain, s: Storage, call: Call)
    requires call.PostAction?
  {
    var sig := call.signature;
    && |sig| == 65
    && sig[64] in {0, 1, 27, 28}
    && WordValue(sig[32..64]) <= HALF_ORDER
    && c.ecrecover(GuardDigest(c.id, call.guardId, call.actionType, call.amount, call.nonce),
                   if sig[64] in {0, 27} then 27 else 28, WordValue(sig[0..32]), WordValue(sig[32..64]))
       == s.guardianSigner
  }

  /** Signer and pause switch move only by the owner. */
  lemma OwnerControls(c: Chain, s: Storage, e: Env, call: Call)
    ensures var t := After(c, s, e, call);
      && t.owner == s.owner
      && (t.paused != s.paused || t.guardianSigner != s.guardianSigner ==> e.sender == s.owner)
  {
  }

  /** Over whole runs: the owner stays, and without calls of theirs so do the signer and the pause switch. */
  lemma {:induction false} OwnerControlsRuns(c: Chain, s: Storage, txs: seq<(Env, Call)>)
    ensures var t := Execute(c, s, txs);
      && t.owner == s.owner
      && ((forall i | 0 <= i < |txs| :: txs[i].0.sender != s.owner) ==>
            t.guardianSigner == s.guardianSigner && t.paused == s.paused)
    decreases |txs|
  {
    if txs != [] {
      OwnerControls(c, s, txs[0].0, txs[0].1);
      OwnerControlsRuns(c, After(c, s, txs[0].0, txs[0].1), txs[1..]);
    }
  }

  /** The part of a guard its owner decides. */
  function PolicyOf(g: Guard): (uint64, uint256, bool) {
    (g.ratioBIPS, g.topUpAmountWei, g.active)
  }

  /** What became of one guard is something its sender may do. */
  ghost predicate GuardChangeAllowed(s: Storage, t: Storage, e: Env, id: uint256) {
    var g, g' := s.GuardAt(id), t.GuardAt(id);
    && (PolicyOf(g') != PolicyOf(g) ==> !s.paused && g'.owner == e.sender)
    && (g.agentVault != ZERO_ADDRESS ==> g'.agentVault == g.agentVault && g'.owner == g.owner)
    && (g.agentVault == ZERO_ADDRESS != g'.agentVault ==>
          && id == s.guardCount + 1 && s.IdOf(g'.agentVault) == 0
          && e.vaultOwner == Some(e.sender) && g'.lastActionNonce == 0 && g'.active)
  }

  /**
   A guard appears only for a new vault of the sender, as the AssetManager confirms, and its policy and
   activity change only by its owner; neither happens while the registry is paused.
   */
  lemma GuardOwnersControl(c: Chain, s: Storage, e: Env, call: Call, id: uint256)
    requires Invariant(s)
    ensures GuardChangeAllowed(s, After(c, s, e, call), e, id)
  {
    if Invoke(c, s, e, call).Revert? || call.SetGuardianSigner? || call.SetPaused? {
    } else if call.PostAction? {
      PostAllowed(c, s, e, call, id);
    } else if call.RegisterAgentVault? {
      RegisterAllowed(s, e, call.vault, call.ratioBIPS, call.topUpAmountWei, id);
    } else {
      OwnerCallAllowed(c, s, e, call, id);
    }
  }

  lemma PostAllowed(c: Chain, s: Storage, e: Env, call: Call, id: uint256)
    requires Invariant(s) && call.PostAction? && Invoke(c, s, e, call).Commit?
    ensures GuardChangeAllowed(s, After(c, s, e, call), e, id)
  {
    PostEffect(c, s, e, call.guardId, call.actionType, call.amount, call.nonce, call.signature);
  }

  lemma OwnerCallAllowed(c: Chain, s: Storage, e: Env, call: Call, id: uint256)
    requires call.SetPolicy? || call.SetGuardActive?
    requires Invoke(c, s, e, call).Commit?
    ensures GuardChangeAllowed(s, After(c, s, e, call), e, id)
  {
  }

  lemma RegisterAllowed(s: Storage, e: Env, vault: Address, ratio: uint64, amount: uint256, id: uint256)
    requires Invariant(s) && DoRegister(s, e, vault, ratio, amount).Commit?
    ensures GuardChangeAllowed(s, DoRegister(s, e, vault, ratio, amount).next, e, id)
  {
    assert s.guardCount + 1 !in s.guards;
  }

  lemma SignedByUnfolds(c: Chain, s: Storage, call: Call)
    requires call.PostAction?
    ensures SignedBy(c, s.guardianSigner, call.guardId, call.actionType, call.amount, call.nonce, call.signature)
            <==> GuardianSigned(c, s, call)
  {
  }

  /** The exact condition of acceptance, whatever the signer is set to. */
  lemma PostAcceptedIff(c: Chain, s: Storage, e: Env, call: Call)
    requires call.PostAction?
    ensures Invoke(c, s, e, call).Commit?
      <==> && !s.paused
           && s.GuardAt(call.guardId).agentVault != ZERO_ADDRESS
           && call.actionType <= ACTION_REDEMPTION_HANDLED
           && call.nonce > s.GuardAt(call.guardId).lastActionNonce
           && GuardianSigned(c, s, call)
  {
    SignedByUnfolds(c, s, call);
  }

  /**
   A ledger changes only by one row at its end, while the registry is not paused, for an action type in
   use, under a nonce beyond the last and a well-formed signature over all its fields that recovers to
   guardianSigner.  Until a signer is set that is the zero address, which is also what ecrecover answers
   when it recovers nobody; LedgersSignedOnceSet is about the time after.
   */
  lemma OnlyGuardianWritesLedgers(c: Chain, s: Storage, e: Env, call: Call, id: uint256)
    ensures var t := After(c, s, e, call);
      t.Ledger(id) != s.Ledger(id) ==>
        && call.PostAction? && call.guardId == id && !s.paused
        && GuardianSigned(c, s, call)
        && call.actionType <= ACTION_REDEMPTION_HANDLED
        && call.nonce > s.GuardAt(id).lastActionNonce
        && t.Ledger(id)
           == s.Ledger(id) + [Action(call.actionType, call.amount, call.nonce, Truncate64(e.timestamp))]
  {
    if call.PostAction? {
      PostAcceptedIff(c, s, e, call);
    }
  }

  /** Once a signer was set, in all later states a ledger grows only under a non-zero signer's signature. */
  lemma LedgersSignedOnceSet(c: Chain, owner: Address, txs: seq<(Env, Call)>, more: seq<(Env, Call)>,
                             e: Env, call: Call, id: uint256)
    requires Execute(c, Deployed(owner), txs).guardianSigner != ZERO_ADDRESS
    ensures var t := Execute(c, Execute(c, Deployed(owner), txs), more);
      && t.guardianSigner != ZERO_ADDRESS
      && (After(c, t, e, call).Ledger(id) != t.Ledger(id) ==> call.PostAction? && GuardianSigned(c, t, call))
  {
    RunKeepsInvariant(c, Deployed(owner), txs);
    var s := Execute(c, Deployed(owner), txs);
    RunKeepsInvariant(c, s, more);
    OnlyGuardianWritesLedgers(c, Execute(c, s, more), e, call, id);
  }
}

/** What one pass of the guardian service does to the ledgers, failures included. */
module RelayRuns {
  import opened Prelude
  import opened Registry
  import opened Enclave
  import opened Relay
  import BigEndian
  import Decimal
  import Digest
  import JsonNumber

  // ---- acceptance of one signed action ----

  /** crypto.Sign's promise about one digest: 65 bytes, low s, recovery id 0 or 1, recoverable. */
  predicate SignsWell(c: Chain, key: Key, digest: seq<uint8>) {
    var sig := key.sign(digest);
    && |sig| == 65
    && BigEndian.WordValue(sig[32..64]) <= HALF_ORDER
    && sig[64] <= 1
    && c.ecrecover(digest, sig[64] + 27, BigEndian.WordValue(sig[0..32]), BigEndian.WordValue(sig[32..64]))
       == key.address
  }

  ghost predicate SoundKey(c: Chain, key: Key) {
    forall digest :: SignsWell(c, key, digest)
  }

  /** The registry's checks pass a sound key's signature and recover exactly its address. */
  lemma RecoversKey(c: Chain, key: Key, digest: seq<uint8>)
    requires SignsWell(c, key, digest)
    ensures Recover(c, digest, key.sign(digest)) == Success(key.address)
  {
  }

  /** The call takes the action's fields as they parse; there is none when one does not fit its ABI type. */
  lemma CallIs(id: uint64, a: SignedAction)
    ensures CallFor(id, a).Some? <==>
      && Decimal.Parse(a.amount).Some?
      && Decimal.Parse(a.amount).value
         < 0x1_0000000000000000_0000000000000000_0000000000000000_0000000000000000
      && JsonNumber.ToDouble(a.nonce) < 0x1_0000_0000_0000_0000
    ensures CallFor(id, a).Some? ==>
      var call := CallFor(id, a).value;
      && call.PostAction? && call.guardId == id && call.actionType == a.actionType
      && Decimal.Parse(a.amount) == Some(call.amount) && call.nonce == JsonNumber.ToDouble(a.nonce)
      && call.signature == a.signature
  {
  }

  /** The call survives decimal text and JSON numbers whenever the nonce does. */
  lemma CallCarriesAction(key: Key, chainId: uint64, id: uint64, amount: uint256, nonce: uint64)
    requires JsonNumber.ToDouble(nonce) == nonce
    ensures var a := ActionSignedBy(key, chainId, id, ACTION_VAULT_TOP_UP, amount, nonce);
      CallFor(id, a) == Some(PostAction(id, ACTION_VAULT_TOP_UP, amount, nonce, a.signature))
  {
    Decimal.PrintParse(amount);
  }

  /**
   End-to-end acceptance: an action the enclave signed for any amount below 2^256, carried as decimal
   text and JSON and relayed, is accepted by the registry exactly when the guard exists, the registry
   is not paused, the key is the current signer and the nonce is still fresh.
   */
  lemma SignedActionAccepted(c: Chain, key: Key, s: Storage, e: Env, id: uint64, amount: uint256,
                             nonce: uint64)
    requires c.id < POW64 && SoundKey(c, key) && JsonNumber.ToDouble(nonce) == nonce
    ensures var call := CallFor(id, ActionSignedBy(key, c.id, id, ACTION_VAULT_TOP_UP, amount, nonce));
      && call.Some?
      && (Invoke(c, s, e, call.value).Commit? <==>
            && !s.paused
            && s.GuardAt(id).agentVault != ZERO_ADDRESS
            && s.guardianSigner == key.address
            && nonce > s.GuardAt(id).lastActionNonce)
  {
    CallCarriesAction(key, c.id, id, amount, nonce);
    var digest := Digest.GuardDigest(c.id, id, ACTION_VAULT_TOP_UP, amount, nonce);
    assert SignsWell(c, key, digest);
    RecoversKey(c, key, digest);
    SignedByKey(c, key, s.guardianSigner, id, amount, nonce);
  }

  lemma SignedByKey(c: Chain, key: Key, signer: Address, id: uint64, amount: uint256, nonce: uint64)
    requires c.id < POW64 && SoundKey(c, key)
    ensures var a := ActionSignedBy(key, c.id, id, ACTION_VAULT_TOP_UP, amount, nonce);
      SignedBy(c, signer, id, ACTION_VAULT_TOP_UP, amount, nonce, a.signature) <==> signer == key.address
  {
    var digest := Digest.GuardDigest(c.id, id, ACTION_VAULT_TOP_UP, amount, nonce);
    assert SignsWell(c, key, digest);
    RecoversKey(c, key, digest);
  }

  /** The next nonce can be relayed exactly when it did not wrap and is a binary64 number. */
  lemma RelayableIff(last: uint64)
    ensures JsonNumber.ToDouble(NextNonce(last)) == last + 1
            <==> last + 1 < POW64 && (last + 1) % JsonNumber.Spacing(last + 1) == 0
  {
    if last + 1 < POW64 {
      JsonNumber.SurvivesIffMultiple(last + 1);
    } else {
      JsonNumber.SmallSurvive(0);
    }
  }

  // ---- one pass ----

  /** The guard's vault is liquidatable according to the answers the enclave gets. */
  predicate InDanger(w: World, g: Guard) {
    var answers := w.vaultAnswers(g.agentVault);
    && HealthOf(g.agentVault, answers).Success?
    && (answers.factors.value.0 > 0 || answers.factors.value.1 > 0)
  }

  /** The pass obtains a signed action for guard id. */
  predicate Signs(w: World, s: Storage, id: uint64) {
    && !w.guardUnread(id) && s.GuardAt(id).active
    && !w.enclaveDown(id) && !w.enclaveGuardUnread(id)
    && InDanger(w, s.GuardAt(id)) && w.keyEnv.Loaded?
  }

  /** The pass is abandoned at guard id. */
  predicate Stops(w: World, s: Storage, id: uint64) {
    Signs(w, s, id) && w.recheckUnread(id)
  }

  /** The action the enclave signs for guard id in this state. */
  function Due(w: World, s: Storage, id: uint64): SignedAction
    requires w.keyEnv.Loaded?
  {
    var g := s.GuardAt(id);
    ActionSignedBy(w.keyEnv.key, ChainIdFrom(w.chainEnv), id, ACTION_VAULT_TOP_UP, g.topUpAmountWei,
                   NextNonce(g.lastActionNonce))
  }

  /** Guard id gains a row if the pass reaches it. */
  predicate Gains(w: World, s: Storage, signer: Address, id: uint64) {
    var g := s.GuardAt(id);
    && Signs(w, s, id) && !w.recheckUnread(id)
    && w.keyEnv.key.address == signer
    && JsonNumber.ToDouble(NextNonce(g.lastActionNonce)) == g.lastActionNonce + 1 < POW64
    && w.write(id).Mined?
    && !s.paused && g.agentVault != ZERO_ADDRESS
    && SignedBy(w.chain, s.guardianSigner, id, ACTION_VAULT_TOP_UP, g.topUpAmountWei,
                g.lastActionNonce + 1, Due(w, s, id).signature)
  }

  /** The row it gains: a top-up of the committed amount under the next nonce. */
  function RowFor(w: World, s: Storage, id: uint64): Action
    requires w.write(id).Mined? && s.GuardAt(id).lastActionNonce + 1 < POW64
  {
    var g := s.GuardAt(id);
    Action(ACTION_VAULT_TOP_UP, g.topUpAmountWei, g.lastActionNonce + 1, Truncate64(w.write(id).env.timestamp))
  }

  /** Storage after guard id gained its row. */
  function WithRow(w: World, s: Storage, id: uint64): Storage
    requires w.write(id).Mined? && s.GuardAt(id).lastActionNonce + 1 < POW64
  {
    s.(guards := s.guards[id := s.GuardAt(id).(lastActionNonce := s.GuardAt(id).lastActionNonce + 1)],
       actions := s.actions[id := s.Ledger(id) + [RowFor(w, s, id)]])
  }

  /** The enclave's answer to the service, in closed form. */
  lemma AskSigns(w: World, s: Storage, id: uint64)
    requires !w.guardUnread(id) && s.GuardAt(id).active && !w.enclaveDown(id)
    ensures var r := Ask(w, s, id);
      && (r.Success? && r.value.signed.Some? && r.value.decision == TopUpRequired <==> Signs(w, s, id))
      && (r.Success? && r.value.signed.Some? ==> w.keyEnv.Loaded? && r.value.signed.value == Due(w, s, id))
  {
    var g := s.GuardAt(id);
    if HealthOf(g.agentVault, w.vaultAnswers(g.agentVault)).Success? {
      DecisionAgreesWithFlag(g.agentVault, w.vaultAnswers(g.agentVault));
    }
  }

  lemma DueCall(w: World, s: Storage, id: uint64)
    requires w.keyEnv.Loaded?
    requires var last := s.GuardAt(id).lastActionNonce; JsonNumber.ToDouble(NextNonce(last)) == last + 1
    ensures var g := s.GuardAt(id);
      && g.lastActionNonce + 1 < POW64
      && CallFor(id, Due(w, s, id))
         == Some(PostAction(id, ACTION_VAULT_TOP_UP, g.topUpAmountWei, g.lastActionNonce + 1,
                            Due(w, s, id).signature))
  {
    var g := s.GuardAt(id);
    RelayableIff(g.lastActionNonce);
    CallCarriesAction(w.keyEnv.key, ChainIdFrom(w.chainEnv), id, g.topUpAmountWei, g.lastActionNonce + 1);
  }

  lemma SendsCall(w: World, s: Storage, id: uint64, a: SignedAction, h: Health, call: Call)
    requires CallFor(id, a) == Some(call)
    ensures Send(w, s, id, a, h).storage
            == if w.write(id).Mined? then After(w.chain, s, w.write(id).env, call) else s
  {
  }

  /** Posting the next action of a guard adds its row or, if a check turns it down, nothing. */
  lemma PostAddsRow(w: World, s: Storage, id: uint64, signature: seq<uint8>)
    requires w.write(id).Mined? && s.GuardAt(id).lastActionNonce + 1 < POW64
    ensures var g := s.GuardAt(id);
      After(w.chain, s, w.write(id).env,
            PostAction(id, ACTION_VAULT_TOP_UP, g.topUpAmountWei, g.lastActionNonce + 1, signature))
      == if && !s.paused && g.agentVault != ZERO_ADDRESS
            && SignedBy(w.chain, s.guardianSigner, id, ACTION_VAULT_TOP_UP, g.topUpAmountWei,
                        g.lastActionNonce + 1, signature)
         then WithRow(w, s, id) else s
  {
  }

  lemma SendPosts(w: World, s: Storage, id: uint64, h: Health)
    requires w.keyEnv.Loaded?
    requires var last := s.GuardAt(id).lastActionNonce; JsonNumber.ToDouble(NextNonce(last)) == last + 1
    ensures var g := s.GuardAt(id);
      && g.lastActionNonce + 1 < POW64
      && Send(w, s, id, Due(w, s, id), h).storage
         == if && w.write(id).Mined? && !s.paused && g.agentVault != ZERO_ADDRESS
               && SignedBy(w.chain, s.guardianSigner, id, ACTION_VAULT_TOP_UP, g.topUpAmountWei,
                           g.lastActionNonce + 1, Due(w, s, id).signature)
            then WithRow(w, s, id) else s
  {
    var a, g := Due(w, s, id), s.GuardAt(id);
    DueCall(w, s, id);
    SendsCall(w, s, id, a, h, PostAction(id, ACTION_VAULT_TOP_UP, g.topUpAmountWei, g.lastActionNonce + 1,
                                         a.signature));
    if w.write(id).Mined? {
      PostAddsRow(w, s, id, a.signature);
    }
  }

  /** After an answer that signs: the guard's row, unless the re-read fails or a check turns it down. */
  lemma ReactEffect(w: World, s: Storage, signer: Address, id: uint64, resp: Response, h: Health)
    requires Signs(w, s, id) && resp.decision == TopUpRequired && resp.signed == Some(Due(w, s, id))
    ensures var p := React(w, s, signer, id, resp, h);
      && (p.thrown <==> w.recheckUnread(id))
      && p.storage == if Gains(w, s, signer, id) then WithRow(w, s, id) else s
  {
    if JsonNumber.ToDouble(NextNonce(s.GuardAt(id).lastActionNonce)) == s.GuardAt(id).lastActionNonce + 1 {
      SendPosts(w, s, id, h);
    }
  }

  /** One iteration: at most this guard's row, and abandonment only by a failed re-read. */
  lemma VisitEffect(w: World, s: Storage, signer: Address, id: uint64, h: Health)
    ensures var p := Visit(w, s, signer, id, h);
      && (p.thrown <==> Stops(w, s, id))
      && p.storage == if Gains(w, s, signer, id) then WithRow(w, s, id) else s
  {
    if !w.guardUnread(id) && s.GuardAt(id).active && !w.enclaveDown(id) {
      AskSigns(w, s, id);
      if Signs(w, s, id) {
        ReactEffect(w, s, signer, id, Ask(w, s, id).value,
                    h.(teeReachable := true, checksPerformed := h.checksPerformed + 1));
      }
    }
  }

  /** The guards before i, from id on, do not abandon the pass. */
  ghost predicate Reaches(w: World, s: Storage, id: nat, i: nat)
    requires i < JsonNumber.POW53
  {
    forall j: nat | id <= j < i :: !Stops(w, s, j)
  }

  ghost predicate GainsFrom(w: World, s: Storage, signer: Address, id: nat, n: nat, i: nat)
    requires n < JsonNumber.POW53
  {
    id <= i <= n && Reaches(w, s, id, i) && Gains(w, s, signer, i)
  }

  /** Ledger i after the guards from id to n were visited. */
  ghost function LedgerAfter(w: World, s: Storage, signer: Address, id: nat, n: nat, i: uint256): seq<Action>
    requires n < JsonNumber.POW53
  {
    if GainsFrom(w, s, signer, id, n, i) then s.Ledger(i) + [RowFor(w, s, i)] else s.Ledger(i)
  }

  /** Guard i likewise: only its nonce can move, and by one. */
  ghost function GuardAfter(w: World, s: Storage, signer: Address, id: nat, n: nat, i: uint256): Guard
    requires n < JsonNumber.POW53
  {
    if GainsFrom(w, s, signer, id, n, i) then
      s.GuardAt(i).(lastActionNonce := s.GuardAt(i).lastActionNonce + 1)
    else s.GuardAt(i)
  }

  lemma SignsAlike(w: World, s: Storage, t: Storage, j: uint64)
    requires t.GuardAt(j) == s.GuardAt(j)
    ensures Signs(w, t, j) <==> Signs(w, s, j)
    ensures w.keyEnv.Loaded? ==> Due(w, t, j) == Due(w, s, j)
  {
  }

  /** What decides about a guard is its own record, the pause switch and the signer. */
  lemma DecidedAlike(w: World, s: Storage, t: Storage, signer: Address, j: uint64)
    requires t.GuardAt(j) == s.GuardAt(j) && t.paused == s.paused && t.guardianSigner == s.guardianSigner
    ensures Stops(w, t, j) <==> Stops(w, s, j)
    ensures Gains(w, t, signer, j) <==> Gains(w, s, signer, j)
  {
    SignsAlike(w, s, t, j);
  }

  /** A row for guard id changes nothing that decides about other guards. */
  lemma OtherGuardsUnaffected(w: World, s: Storage, signer: Address, id: uint64, j: uint64)
    requires j != id && w.write(id).Mined? && s.GuardAt(id).lastActionNonce + 1 < POW64
    ensures var t := WithRow(w, s, id);
      && t.GuardAt(j) == s.GuardAt(j) && t.Ledger(j) == s.Ledger(j)
      && (Stops(w, t, j) <==> Stops(w, s, j))
      && (Gains(w, t, signer, j) <==> Gains(w, s, signer, j))
  {
    DecidedAlike(w, s, WithRow(w, s, id), signer, j);
  }

  lemma {:induction false} LedgersAfterVisits(w: World, s: Storage, signer: Address, id: nat, n: nat,
                                              h: Health, i: uint256)
    requires n < JsonNumber.POW53
    ensures var t := VisitFrom(w, s, signer, id, n, h).storage;
      && t.Ledger(i) == LedgerAfter(w, s, signer, id, n, i)
      && t.GuardAt(i) == GuardAfter(w, s, signer, id, n, i)
      && t == s.(guards := t.guards, actions := t.actions)
    decreases n + 1 - id
  {
    if id <= n {
      var p := Visit(w, s, signer, id, h);
      VisitEffect(w, s, signer, id, h);
      if p.thrown {
        AbandonedHere(w, s, signer, id, n, i);
      } else {
        LedgersAfterVisits(w, p.storage, signer, id + 1, n, p.health, i);
        FirstVisitFirst(w, s, p.storage, signer, id, n, i);
      }
    }
  }

  lemma AbandonedHere(w: World, s: Storage, signer: Address, id: nat, n: nat, i: uint256)
    requires id <= n < JsonNumber.POW53 && Stops(w, s, id)
    ensures !GainsFrom(w, s, signer, id, n, i) && !Gains(w, s, signer, id)
  {
  }

  lemma ReachesSame(w: World, s: Storage, t: Storage, id: nat, i: nat)
    requires id < i < JsonNumber.POW53 && !Stops(w, s, id)
    requires forall j: nat | id < j < i :: Stops(w, t, j) <==> Stops(w, s, j)
    ensures Reaches(w, t, id + 1, i) <==> Reaches(w, s, id, i)
  {
  }

  /** Whatever is visited first, later guards are reached and served as they were going to be. */
  lemma LaterGuardUnaffected(w: World, s: Storage, t: Storage, signer: Address, id: nat, i: nat)
    requires id < i < JsonNumber.POW53 && !Stops(w, s, id)
    requires t == if Gains(w, s, signer, id) then WithRow(w, s, id) else s
    ensures Reaches(w, t, id + 1, i) <==> Reaches(w, s, id, i)
    ensures Gains(w, t, signer, i) <==> Gains(w, s, signer, i)
    ensures t.GuardAt(i) == s.GuardAt(i) && t.Ledger(i) == s.Ledger(i)
  {
    forall j: nat | id < j < i
      ensures Stops(w, t, j) <==> Stops(w, s, j)
    {
      if t != s {
        OtherGuardsUnaffected(w, s, signer, id, j);
      }
    }
    ReachesSame(w, s, t, id, i);
    if t != s {
      OtherGuardsUnaffected(w, s, signer, id, i);
    }
  }

  lemma FirstVisitFirst(w: World, s: Storage, t: Storage, signer: Address, id: nat, n: nat, i: uint256)
    requires id <= n < JsonNumber.POW53 && !Stops(w, s, id)
    requires t == if Gains(w, s, signer, id) then WithRow(w, s, id) else s
    ensures LedgerAfter(w, t, signer, id + 1, n, i) == LedgerAfter(w, s, signer, id, n, i)
    ensures GuardAfter(w, t, signer, id + 1, n, i) == GuardAfter(w, s, signer, id, n, i)
  {
    if id < i <= n {
      LaterGuardUnaffected(w, s, t, signer, id, i);
      LaterVisit(w, s, t, signer, id, n, i);
    } else if i == id {
      assert GainsFrom(w, s, signer, id, n, id) <==> Gains(w, s, signer, id) by {
        assert Reaches(w, s, id, id);
      }
    } else {
      assert t.Ledger(i) == s.Ledger(i) && t.GuardAt(i) == s.GuardAt(i);
    }
  }

  lemma LaterVisit(w: World, s: Storage, t: Storage, signer: Address, id: nat, n: nat, i: nat)
    requires id < i <= n < JsonNumber.POW53
    requires Reaches(w, t, id + 1, i) <==> Reaches(w, s, id, i)
    requires Gains(w, t, signer, i) <==> Gains(w, s, signer, i)
    requires t.GuardAt(i) == s.GuardAt(i) && t.Ledger(i) == s.Ledger(i)
    ensures LedgerAfter(w, t, signer, id + 1, n, i) == LedgerAfter(w, s, signer, id, n, i)
    ensures GuardAfter(w, t, signer, id + 1, n, i) == GuardAfter(w, s, signer, id, n, i)
  {
    assert GainsFrom(w, t, signer, id + 1, n, i) <==> GainsFrom(w, s, signer, id, n, i);
  }

  /**
   One pass under arbitrary failures.  A guard gains a row exactly when the pass starts, is not
   abandoned before it, and everything about the guard itself works out; the row is a top-up of the
   committed amount under the next nonce, and there is at most one.  All other ledgers stay, and of all
   other storage only the nonces of guards that gained a row move, by one.
   */
  lemma PassLedgers(w: World, s: Storage, h: Health, i: uint256)
    requires s.guardCount < JsonNumber.POW53
    ensures var t := Pass(w, s, h).storage;
      var gains := && !w.countUnread && !w.signerUnread
                   && GainsFrom(w, s, s.guardianSigner, 1, s.guardCount, i);
      && t.Ledger(i) == (if gains then s.Ledger(i) + [RowFor(w, s, i)] else s.Ledger(i))
      && t.GuardAt(i)
         == s.GuardAt(i).(lastActionNonce := s.GuardAt(i).lastActionNonce + if gains then 1 else 0)
      && t == s.(guards := t.guards, actions := t.actions)
  {
    LedgersAfterVisits(w, s, s.guardianSigner, 1, s.guardCount, h.(guardsWatched := s.guardCount), i);
  }

  /** Nothing in the pass fails. */
  ghost predicate NoFaults(w: World) {
    && !w.countUnread && !w.signerUnread
    && (forall id: nat :: !w.guardUnread(id))
    && (forall id: nat :: !w.enclaveDown(id))
    && (forall id: nat :: !w.enclaveGuardUnread(id))
    && (forall id: nat :: !w.recheckUnread(id))
    && (forall id: nat :: w.write(id).Mined?)
    && (forall v: Address :: HealthOf(v, w.vaultAnswers(v)).Success?)
  }

  /**
   An undisturbed pass over an unpaused registry whose signer is the enclave's key: each active guard
   whose vault is liquidatable gains exactly one row, for the policy amount under the old nonce plus
   one, provided that number is below 2^64 and a binary64 value; every other ledger is unchanged.
   */
  lemma UndisturbedPass(w: World, s: Storage, h: Health, i: uint256)
    requires s.guardCount < JsonNumber.POW53 && !s.paused && NoFaults(w)
    requires w.keyEnv.Loaded? && w.keyEnv.key.address == s.guardianSigner && SoundKey(w.chain, w.keyEnv.key)
    requires Selects(w.chainEnv, w.chain.id)
    requires forall id: nat | 1 <= id <= s.guardCount :: s.GuardAt(id).agentVault != ZERO_ADDRESS
    ensures var g := s.GuardAt(i);
      var factors := w.vaultAnswers(g.agentVault).factors.value;
      var next := g.lastActionNonce + 1;
      Pass(w, s, h).storage.Ledger(i)
      == if && 1 <= i <= s.guardCount && g.active
            && (factors.0 > 0 || factors.1 > 0)
            && next < POW64 && next % JsonNumber.Spacing(next) == 0
         then s.Ledger(i) + [Action(ACTION_VAULT_TOP_UP, g.topUpAmountWei, next,
                                    Truncate64(w.write(i).env.timestamp))]
         else s.Ledger(i)
  {
    SelectsOne(w.chainEnv, w.chain.id);
    PassLedgers(w, s, h, i);
    if 1 <= i <= s.guardCount {
      NobodyStops(w, s, i);
      GainsUndisturbed(w, s, i);
    }
  }

  lemma NobodyStops(w: World, s: Storage, i: nat)
    requires i < JsonNumber.POW53 && NoFaults(w)
    ensures Reaches(w, s, 1, i)
  {
  }

  lemma GainsUndisturbed(w: World, s: Storage, id: uint64)
    requires !s.paused && NoFaults(w) && s.GuardAt(id).agentVault != ZERO_ADDRESS
    requires w.keyEnv.Loaded? && w.keyEnv.key.address == s.guardianSigner && SoundKey(w.chain, w.keyEnv.key)
    requires w.chain.id == ChainIdFrom(w.chainEnv)
    ensures var g := s.GuardAt(id);
      Gains(w, s, s.guardianSigner, id)
      <==> && g.active && InDanger(w, g)
           && g.lastActionNonce + 1 < POW64
           && (g.lastActionNonce + 1) % JsonNumber.Spacing(g.lastActionNonce + 1) == 0
  {
    SignsUndisturbed(w, s, id);
    RelayableIff(s.GuardAt(id).lastActionNonce);
    if s.GuardAt(id).lastActionNonce + 1 < POW64 {
      DueIsSigned(w, s, id);
    }
  }

  lemma SignsUndisturbed(w: World, s: Storage, id: uint64)
    requires NoFaults(w) && w.keyEnv.Loaded?
    ensures Signs(w, s, id) <==> s.GuardAt(id).active && InDanger(w, s.GuardAt(id))
    ensures !w.recheckUnread(id) && w.write(id).Mined?
  {
  }

  lemma DueIsSigned(w: World, s: Storage, id: uint64)
    requires w.keyEnv.Loaded? && w.keyEnv.key.address == s.guardianSigner && SoundKey(w.chain, w.keyEnv.key)
    requires w.chain.id == ChainIdFrom(w.chainEnv) && s.GuardAt(id).lastActionNonce + 1 < POW64
    ensures var g := s.GuardAt(id);
      SignedBy(w.chain, s.guardianSigner, id, ACTION_VAULT_TOP_UP, g.topUpAmountWei, g.lastActionNonce + 1,
               Due(w, s, id).signature)
  {
    var g := s.GuardAt(id);
    SignedByKey(w.chain, w.keyEnv.key, s.guardianSigner, id, g.topUpAmountWei, g.lastActionNonce + 1);
  }
}

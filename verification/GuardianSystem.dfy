/**
 The whole pipeline as one state machine: the registry under calls by anyone, and enclave checks that
 may read any past registry state.  Relays, retries and reposts are calls like any others, so nothing
 is assumed about how many relayers there are, in what order they post, or how often.
 */
module GuardianSystem {
  import opened Prelude
  import opened Digest
  import opened Registry
  import opened RegistryRuns
  import Enclave

  /**
   A signature leaving the enclave: the registry state it was based on, how many states there were when
   it was signed, the vault the request named, and the action.
   */
  datatype Event = Event(
    read: nat,
    at: nat,
    vault: Address,
    factors: (uint256, uint256),
    signed: Enclave.SignedAction)

  /** Every registry state so far, oldest first, and every signature so far. */
  datatype System = System(history: seq<Storage>, events: seq<Event>)

  datatype Step =
    | Transact(env: Env, call: Call)
    | GuardCheck(read: nat, request: Enclave.Request, answers: Enclave.VaultReads, keyEnv: Enclave.KeyEnv,
                 chainEnv: string)

  function Genesis(owner: Address): System {
    System([Deployed(owner)], [])
  }

  function Last(history: seq<Storage>): Storage
    requires history != []
  {
    history[|history| - 1]
  }

  function Now(sys: System): Storage
    requires sys.history != []
  {
    Last(sys.history)
  }

  /** The event a check gives rise to, if it signs. Its guard reading is the state at `read`. */
  function Signing(sys: System, step: Step): Option<Event>
    requires step.GuardCheck?
  {
    if step.read >= |sys.history| then None
    else
      var g := sys.history[step.read].GuardAt(step.request.guardId);
      match Enclave.Check(step.request, step.answers, Some(g), step.keyEnv, step.chainEnv)
      case Success(Response(_, health, _, Some(signed))) =>
        var f := step.answers.factors.value;
        Some(Event(step.read, |sys.history|, health.vault, (f.0, f.1), signed))
      case _ => None
  }

  function Recorded(sys: System, event: Option<Event>): System {
    match event
    case Some(e) => sys.(events := sys.events + [e])
    case None => sys
  }

  function Next(c: Chain, sys: System, step: Step): (next: System)
    requires sys.history != []
    ensures next.history != []
    ensures step.GuardCheck? ==> next.history == sys.history
  {
    match step
    case Transact(e, call) => sys.(history := sys.history + [After(c, Now(sys), e, call)])
    case GuardCheck(_, _, _, _, _) => Recorded(sys, Signing(sys, step))
  }

  /**
   Signatures are not forged and guardian keys sign nothing but enclave actions: whatever the registry
   takes as signed by its guardian was signed by the enclave before.
   */
  ghost predicate Unforged(c: Chain, sys: System, step: Step)
    requires sys.history != []
  {
    step.Transact? && step.call.PostAction?
    && SignedBy(c, Now(sys).guardianSigner, step.call.guardId, step.call.actionType, step.call.amount,
                step.call.nonce, step.call.signature)
    ==> exists event ::
      && event in sys.events
      && event.signed.signer == Now(sys).guardianSigner
      && event.signed.digest == GuardDigest(c.id, step.call.guardId, step.call.actionType,
                                            step.call.amount, step.call.nonce)
  }

  function Run(c: Chain, sys: System, steps: seq<Step>): (end: System)
    requires sys.history != []
    ensures end.history != []
    decreases |steps|
  {
    if steps == [] then sys else Run(c, Next(c, sys, steps[0]), steps[1..])
  }

  ghost predicate UnforgedRun(c: Chain, sys: System, steps: seq<Step>)
    requires sys.history != []
    decreases |steps|
  {
    steps != [] ==> Unforged(c, sys, steps[0]) && UnforgedRun(c, Next(c, sys, steps[0]), steps[1..])
  }

  // ---- what the whole system keeps ----

  /** The nonces of a ledger are 1, 2, ..., k. */
  ghost predicate GapFree(rows: seq<Action>) {
    forall k | 0 <= k < |rows| :: rows[k].nonce == k + 1
  }

  /** An event is what a check of the state it names produces. */
  ghost predicate Genuine(history: seq<Storage>, event: Event) {
    var a := event.signed;
    && event.read < |history|
    && var g := history[event.read].GuardAt(a.guardId);
       && g.active
       && (event.factors.0 > 0 || event.factors.1 > 0)
       && a.digest == GuardDigest(a.chainId, a.guardId, ACTION_VAULT_TOP_UP, g.topUpAmountWei,
                                  Enclave.NextNonce(g.lastActionNonce))
  }

  /** It was signed after the state it read, and the guard's ledger was not shorter by then. */
  ghost predicate Dated(history: seq<Storage>, event: Event) {
    && event.read < event.at <= |history|
    && history[event.read].Ledger(event.signed.guardId) <= history[event.at - 1].Ledger(event.signed.guardId)
  }

  /**
   Row k of a guard's ledger goes back to a signature: the enclave saw exactly the first k rows, an
   active guard and a non-zero liquidation factor, the row carries the amount committed there, and when
   the enclave signed, the ledger still held those k rows only.
   */
  ghost predicate BackedBy(history: seq<Storage>, rows: seq<Action>, id: uint256, k: nat, event: Event)
    requires k < |rows|
  {
    && Genuine(history, event)
    && event.signed.guardId == id
    && 0 < event.at <= |history| && history[event.at - 1].Ledger(id) == rows[..k]
    && var g := history[event.read].GuardAt(id);
       && history[event.read].Ledger(id) == rows[..k]
       && rows[k].actionType == ACTION_VAULT_TOP_UP
       && rows[k].amount == g.topUpAmountWei > 0
       && rows[k].nonce == g.lastActionNonce + 1
  }

  ghost predicate Backed(sys: System, rows: seq<Action>, id: uint256, k: nat)
    requires k < |rows|
  {
    exists event :: event in sys.events && BackedBy(sys.history, rows, id, k, event)
  }

  ghost predicate HistorySound(history: seq<Storage>) {
    && history != []
    && (forall i | 0 <= i < |history| :: Invariant(history[i]))
    && (forall i | 0 <= i < |history| :: Evolves(history[i], Last(history)))
  }

  ghost predicate Ungapped(s: Storage) {
    forall id: uint256 :: GapFree(s.Ledger(id))
  }

  ghost predicate EventsGenuine(sys: System) {
    forall event | event in sys.events :: Genuine(sys.history, event) && Dated(sys.history, event)
  }

  ghost predicate RowsBacked(sys: System, rows: seq<Action>, id: uint256) {
    forall k: nat | k < |rows| :: Backed(sys, rows, id, k)
  }

  ghost predicate Sound(sys: System) {
    && HistorySound(sys.history)
    && EventsGenuine(sys)
    && (forall i | 0 <= i < |sys.history| :: Ungapped(sys.history[i]))
    && (forall id: uint256 :: RowsBacked(sys, Now(sys).Ledger(id), id))
  }

  lemma GenesisSound(owner: Address)
    ensures Sound(Genesis(owner))
  {
    var s := Deployed(owner);
    assert forall id: uint256 :: s.Ledger(id) == [];
  }

  lemma HistoryExtended(history: seq<Storage>, t: Storage)
    requires HistorySound(history) && Invariant(t) && Evolves(Last(history), t)
    ensures HistorySound(history + [t])
  {
    var next := history + [t];
    forall i | 0 <= i < |next|
      ensures Invariant(next[i]) && Evolves(next[i], t)
    {
      if i < |history| {
        assert Evolves(history[i], Last(history));
        EvolvesTransitive(history[i], Last(history), t);
      } else {
        EvolvesReflexive(t);
      }
    }
  }

  /** Invariants of every past state, and that the present evolved from it, survive every step. */
  lemma HistoryStep(c: Chain, sys: System, step: Step)
    requires HistorySound(sys.history)
    ensures HistorySound(Next(c, sys, step).history)
  {
    if step.Transact? {
      StepKeepsInvariant(c, Now(sys), step.env, step.call);
      HistoryExtended(sys.history, After(c, Now(sys), step.env, step.call));
    }
  }

  /** A check that signs records a genuine event. */
  lemma SigningGenuine(sys: System, step: Step)
    requires step.GuardCheck?
    ensures Signing(sys, step).Some? ==> Genuine(sys.history, Signing(sys, step).value)
  {
    if Signing(sys, step).Some? {
      Enclave.DecisionAgreesWithFlag(step.request.agentVault.value, step.answers);
    }
  }

  /** What an event says of the check it came from. */
  lemma SigningTells(sys: System, step: Step, event: Event)
    requires step.GuardCheck? && Signing(sys, step) == Some(event)
    ensures event.read == step.read < |sys.history| && event.at == |sys.history|
    ensures event.signed.guardId == step.request.guardId && Some(event.vault) == step.request.agentVault
  {
  }

  lemma EventDated(history: seq<Storage>, event: Event)
    requires event.read < |history| && event.at == |history| && Evolves(history[event.read], Last(history))
    ensures Dated(history, event)
  {
    var id := event.signed.guardId;
    assert history[event.read].Ledger(id) <= Last(history).Ledger(id);
  }

  /** It is dated: it read some state of now or before, from which the present one evolved. */
  lemma SigningDated(sys: System, step: Step)
    requires HistorySound(sys.history) && step.GuardCheck?
    ensures Signing(sys, step).Some? ==> Dated(sys.history, Signing(sys, step).value)
  {
    var signing := Signing(sys, step);
    if signing.Some? {
      SigningTells(sys, step, signing.value);
      assert Evolves(sys.history[step.read], Last(sys.history));
      EventDated(sys.history, signing.value);
    }
  }

  /** More history and more events keep what was backed backed. */
  lemma BackingPersists(sys: System, next: System, rows: seq<Action>, more: seq<Action>, id: uint256)
    requires RowsBacked(sys, rows, id) && rows <= more
    requires sys.history <= next.history && forall e | e in sys.events :: e in next.events
    ensures forall k: nat | k < |rows| :: Backed(next, more, id, k)
  {
    forall k: nat | k < |rows|
      ensures Backed(next, more, id, k)
    {
      assert Backed(sys, rows, id, k);
      var e :| e in sys.events && BackedBy(sys.history, rows, id, k, e);
      assert next.history[e.read] == sys.history[e.read] && next.history[e.at - 1] == sys.history[e.at - 1];
      assert more[..k] == rows[..k];
      assert BackedBy(next.history, more, id, k, e);
    }
  }

  lemma EventAdded(sys: System, event: Event)
    requires EventsGenuine(sys) && Genuine(sys.history, event) && Dated(sys.history, event)
    ensures EventsGenuine(sys.(events := sys.events + [event]))
  {
    forall e | e in sys.events + [event]
      ensures Genuine(sys.history, e) && Dated(sys.history, e)
    {
      assert e in sys.events || e == event;
    }
  }

  lemma RowsStayBacked(sys: System, next: System, id: uint256)
    requires sys.history != [] && next.history == sys.history && RowsBacked(sys, Now(sys).Ledger(id), id)
    requires forall e | e in sys.events :: e in next.events
    ensures RowsBacked(next, Now(next).Ledger(id), id)
  {
    BackingPersists(sys, next, Now(sys).Ledger(id), Now(sys).Ledger(id), id);
  }

  lemma EventRecorded(sys: System, event: Event)
    requires Sound(sys) && Genuine(sys.history, event) && Dated(sys.history, event)
    ensures Sound(sys.(events := sys.events + [event]))
  {
    var next := sys.(events := sys.events + [event]);
    EventAdded(sys, event);
    forall id: uint256
      ensures RowsBacked(next, Now(next).Ledger(id), id)
    {
      RowsStayBacked(sys, next, id);
    }
  }

  /**
   The heart of the matter: a nonce the enclave derived from some past state is accepted only if no
   row was added since, for the guard's nonce only grows.  So the new row continues the ledger.
   */
  lemma AcceptedContinues(h: Storage, s: Storage, id: uint256, nonce: uint64)
    requires Evolves(h, s) && id in h.guards
    requires nonce == Enclave.NextNonce(h.guards[id].lastActionNonce)
    requires nonce > s.GuardAt(id).lastActionNonce
    ensures h.guards[id].lastActionNonce == s.GuardAt(id).lastActionNonce
    ensures nonce == s.GuardAt(id).lastActionNonce + 1
  {
  }

  /** In a gap-free ledger the last nonce is the number of rows. */
  lemma LastNonceCounts(s: Storage, id: uint256)
    requires Invariant(s) && Ungapped(s)
    ensures s.GuardAt(id).lastActionNonce == |s.Ledger(id)|
  {
    assert GapFree(s.Ledger(id)) && s.GuardAt(id).lastActionNonce == LastNonce(s.Ledger(id));
  }

  /** The signature behind an accepted post pins down every field of the new row. */
  lemma PostedRow(c: Chain, sys: System, event: Event, id: uint256, actionType: uint8, amount: uint256,
                  nonce: uint64)
    requires Sound(sys) && event in sys.events
    requires event.signed.digest == GuardDigest(c.id, id, actionType, amount, nonce)
    requires nonce > Now(sys).GuardAt(id).lastActionNonce
    ensures Genuine(sys.history, event)
    ensures var h := sys.history[event.read];
      && event.signed.guardId == id && id in h.guards
      && actionType == ACTION_VAULT_TOP_UP
      && amount == h.guards[id].topUpAmountWei > 0
      && nonce == h.guards[id].lastActionNonce + 1 == |Now(sys).Ledger(id)| + 1
      && h.Ledger(id) == Now(sys).Ledger(id)
    ensures 0 < event.at <= |sys.history| && sys.history[event.at - 1].Ledger(id) == Now(sys).Ledger(id)
  {
    var h, a := sys.history[event.read], event.signed;
    var g := h.GuardAt(a.guardId);
    DigestInjective(c.id, id, actionType, amount, nonce, a.chainId, a.guardId, ACTION_VAULT_TOP_UP,
                    g.topUpAmountWei, Enclave.NextNonce(g.lastActionNonce));
    assert Invariant(h) && Evolves(h, Now(sys)) && Ungapped(h) && Ungapped(Now(sys));
    AcceptedContinues(h, Now(sys), id, nonce);
    LastNonceCounts(h, id);
    LastNonceCounts(Now(sys), id);
    assert h.Ledger(id) <= Now(sys).Ledger(id);
    NoRowSince(sys, event, id);
  }

  /** Between a read that saw the whole present ledger and now, the ledger was this all the time. */
  lemma NoRowSince(sys: System, event: Event, id: uint256)
    requires HistorySound(sys.history) && Dated(sys.history, event) && event.signed.guardId == id
    requires sys.history[event.read].Ledger(id) == Now(sys).Ledger(id)
    ensures sys.history[event.at - 1].Ledger(id) == Now(sys).Ledger(id)
  {
    assert Evolves(sys.history[event.at - 1], Now(sys));
  }

  lemma GenuinePersists(sys: System, t: Storage)
    requires EventsGenuine(sys)
    ensures EventsGenuine(sys.(history := sys.history + [t]))
  {
    forall e | e in sys.events
      ensures Genuine(sys.history + [t], e) && Dated(sys.history + [t], e)
    {
      assert Genuine(sys.history, e) && Dated(sys.history, e);
    }
  }

  /** Soundness of an extended history, from soundness so far and the new state's own ledgers. */
  lemma SoundExtended(sys: System, t: Storage)
    requires Sound(sys) && Invariant(t) && Evolves(Now(sys), t) && Ungapped(t)
    requires var next := sys.(history := sys.history + [t]);
      forall id: uint256 :: RowsBacked(next, t.Ledger(id), id)
    ensures Sound(sys.(history := sys.history + [t]))
  {
    HistoryExtended(sys.history, t);
    GenuinePersists(sys, t);
  }

  lemma LedgerSameBacked(sys: System, t: Storage, id: uint256)
    requires sys.history != [] && t.actions == Now(sys).actions && RowsBacked(sys, Now(sys).Ledger(id), id)
    ensures RowsBacked(sys.(history := sys.history + [t]), t.Ledger(id), id)
  {
    BackingPersists(sys, sys.(history := sys.history + [t]), Now(sys).Ledger(id), t.Ledger(id), id);
  }

  lemma UngappedSame(s: Storage, t: Storage)
    requires Ungapped(s) && t.actions == s.actions
    ensures Ungapped(t)
  {
    assert forall id: uint256 :: t.Ledger(id) == s.Ledger(id);
  }

  /** A new storage in which no ledger changed. */
  lemma LedgersSame(sys: System, t: Storage)
    requires Sound(sys) && Invariant(t) && Evolves(Now(sys), t) && t.actions == Now(sys).actions
    ensures Sound(sys.(history := sys.history + [t]))
  {
    UngappedSame(Now(sys), t);
    forall id: uint256
      ensures RowsBacked(sys.(history := sys.history + [t]), t.Ledger(id), id)
    {
      LedgerSameBacked(sys, t, id);
    }
    SoundExtended(sys, t);
  }

  lemma UngappedContinued(s: Storage, t: Storage, id: uint256, row: Action)
    requires Ungapped(s) && t.actions == s.actions[id := s.Ledger(id) + [row]]
    requires row.nonce == |s.Ledger(id)| + 1
    ensures Ungapped(t)
  {
    forall i: uint256
      ensures GapFree(t.Ledger(i))
    {
      assert GapFree(s.Ledger(i));
      assert t.Ledger(i) == if i == id then s.Ledger(id) + [row] else s.Ledger(i);
    }
  }

  /** A new storage with one row more, signed for by an earlier event. */
  lemma LedgerContinued(c: Chain, sys: System, t: Storage, event: Event, id: uint256, row: Action)
    requires Sound(sys) && Invariant(t) && Evolves(Now(sys), t) && event in sys.events
    requires event.signed.digest == GuardDigest(c.id, id, row.actionType, row.amount, row.nonce)
    requires row.nonce > Now(sys).GuardAt(id).lastActionNonce
    requires t.actions == Now(sys).actions[id := Now(sys).Ledger(id) + [row]]
    ensures Sound(sys.(history := sys.history + [t]))
  {
    var s, next := Now(sys), sys.(history := sys.history + [t]);
    PostedRow(c, sys, event, id, row.actionType, row.amount, row.nonce);
    UngappedContinued(s, t, id, row);
    NewRowBacked(sys, t, event, id, row);
    forall i: uint256
      ensures RowsBacked(next, t.Ledger(i), i)
    {
      assert RowsBacked(sys, s.Ledger(i), i);
      RowsBackedAfter(sys, t, id, row, i);
    }
    SoundExtended(sys, t);
  }

  lemma RowsBackedAfter(sys: System, t: Storage, id: uint256, row: Action, i: uint256)
    requires sys.history != [] && RowsBacked(sys, Now(sys).Ledger(i), i)
    requires t.actions == Now(sys).actions[id := Now(sys).Ledger(id) + [row]]
    requires |t.Ledger(id)| == |Now(sys).Ledger(id)| + 1
    requires Backed(sys.(history := sys.history + [t]), t.Ledger(id), id, |Now(sys).Ledger(id)|)
    ensures RowsBacked(sys.(history := sys.history + [t]), t.Ledger(i), i)
  {
    BackingPersists(sys, sys.(history := sys.history + [t]), Now(sys).Ledger(i), t.Ledger(i), i);
  }

  lemma NewRowBacked(sys: System, t: Storage, event: Event, id: uint256, row: Action)
    requires sys.history != [] && event in sys.events && Genuine(sys.history, event)
    requires 0 < event.at <= |sys.history| && sys.history[event.at - 1].Ledger(id) == Now(sys).Ledger(id)
    requires event.signed.guardId == id && row.actionType == ACTION_VAULT_TOP_UP
    requires sys.history[event.read].Ledger(id) == Now(sys).Ledger(id)
    requires row.amount == sys.history[event.read].GuardAt(id).topUpAmountWei > 0
    requires row.nonce == sys.history[event.read].GuardAt(id).lastActionNonce + 1
    requires t.actions == Now(sys).actions[id := Now(sys).Ledger(id) + [row]]
    ensures t.Ledger(id) == Now(sys).Ledger(id) + [row]
    ensures Backed(sys.(history := sys.history + [t]), t.Ledger(id), id, |Now(sys).Ledger(id)|)
  {
    var history := sys.history + [t];
    assert history[event.read] == sys.history[event.read] && history[event.at - 1] == sys.history[event.at - 1];
    assert t.Ledger(id)[..|Now(sys).Ledger(id)|] == Now(sys).Ledger(id);
    assert BackedBy(history, t.Ledger(id), id, |Now(sys).Ledger(id)|, event);
  }

  /** Only an accepted post touches a ledger. */
  lemma OnlyPostsWriteLedgers(c: Chain, s: Storage, e: Env, call: Call)
    requires !call.PostAction? || Invoke(c, s, e, call).Revert?
    ensures After(c, s, e, call).actions == s.actions
  {
  }

  lemma PostStep(c: Chain, sys: System, e: Env, call: Call)
    requires Sound(sys) && call.PostAction? && Invoke(c, Now(sys), e, call).Commit?
    requires Unforged(c, sys, Transact(e, call))
    ensures Sound(Next(c, sys, Transact(e, call)))
  {
    var s, id := Now(sys), call.guardId;
    var t := After(c, s, e, call);
    PostEffect(c, s, e, id, call.actionType, call.amount, call.nonce, call.signature);
    assert SignedBy(c, s.guardianSigner, id, call.actionType, call.amount, call.nonce, call.signature);
    var event :| event in sys.events
      && event.signed.digest == GuardDigest(c.id, id, call.actionType, call.amount, call.nonce);
    StepKeepsInvariant(c, s, e, call);
    LedgerContinued(c, sys, t, event, id,
                    Action(call.actionType, call.amount, call.nonce, Truncate64(e.timestamp)));
  }

  /** Every step of the pipeline keeps every ledger gap-free and every row backed. */
  lemma StepKeepsSound(c: Chain, sys: System, step: Step)
    requires Sound(sys) && Unforged(c, sys, step)
    ensures Sound(Next(c, sys, step))
  {
    match step
    case GuardCheck(_, _, _, _, _) =>
      if Signing(sys, step).Some? {
        SigningGenuine(sys, step);
        SigningDated(sys, step);
        EventRecorded(sys, Signing(sys, step).value);
      }
    case Transact(e, call) =>
      if call.PostAction? && Invoke(c, Now(sys), e, call).Commit? {
        PostStep(c, sys, e, call);
      } else {
        StepKeepsInvariant(c, Now(sys), e, call);
        OnlyPostsWriteLedgers(c, Now(sys), e, call);
        LedgersSame(sys, After(c, Now(sys), e, call));
      }
  }

  lemma {:induction false} RunKeepsSound(c: Chain, sys: System, steps: seq<Step>)
    requires Sound(sys) && UnforgedRun(c, sys, steps)
    ensures Sound(Run(c, sys, steps))
    decreases |steps|
  {
    if steps != [] {
      StepKeepsSound(c, sys, steps[0]);
      RunKeepsSound(c, Next(c, sys, steps[0]), steps[1..]);
    }
  }

  /**
   Gap-free ledgers over whole runs: after any interleaving of registry calls, stale-read checks and
   reposts, each guard's nonces are exactly 1..k and its lastActionNonce is k.
   */
  lemma LedgersGapFree(c: Chain, owner: Address, steps: seq<Step>, id: uint256)
    requires UnforgedRun(c, Genesis(owner), steps)
    ensures var s := Now(Run(c, Genesis(owner), steps));
      && GapFree(s.Ledger(id))
      && s.GuardAt(id).lastActionNonce == |s.Ledger(id)|
  {
    GenesisSound(owner);
    RunKeepsSound(c, Genesis(owner), steps);
    var sys := Run(c, Genesis(owner), steps);
    assert Ungapped(Now(sys)) && Invariant(Now(sys));
    LastNonceCounts(Now(sys), id);
  }

  /** Provenance over whole runs: every row of every ledger is backed by an enclave signature. */
  lemma LedgersBacked(c: Chain, owner: Address, steps: seq<Step>, id: uint256, k: nat)
    requires UnforgedRun(c, Genesis(owner), steps)
    requires k < |Now(Run(c, Genesis(owner), steps)).Ledger(id)|
    ensures var sys := Run(c, Genesis(owner), steps);
      exists event :: event in sys.events && BackedBy(sys.history, Now(sys).Ledger(id), id, k, event)
  {
    GenesisSound(owner);
    RunKeepsSound(c, Genesis(owner), steps);
    var sys := Run(c, Genesis(owner), steps);
    assert RowsBacked(sys, Now(sys).Ledger(id), id);
    assert Backed(sys, Now(sys).Ledger(id), id, k);
  }

  // ---- requests made by the relay service ----

  /** The relay asks about the vault it read for that guard, in some past state where it was active. */
  ghost predicate AskedByTick(sys: System, step: Step) {
    step.GuardCheck? ==> exists i ::
      && 0 <= i < |sys.history|
      && sys.history[i].GuardAt(step.request.guardId).active
      && step.request.agentVault == Some(sys.history[i].GuardAt(step.request.guardId).agentVault)
  }

  ghost predicate AskedByTickRun(c: Chain, sys: System, steps: seq<Step>)
    requires sys.history != []
    decreases |steps|
  {
    steps != [] ==> AskedByTick(sys, steps[0]) && AskedByTickRun(c, Next(c, sys, steps[0]), steps[1..])
  }

  ghost predicate OwnVault(s: Storage, event: Event) {
    event.signed.guardId in s.guards && event.vault == s.guards[event.signed.guardId].agentVault
  }

  ghost predicate OwnVaults(sys: System)
    requires sys.history != []
  {
    forall event | event in sys.events :: OwnVault(Now(sys), event)
  }

  lemma OwnVaultPersists(s: Storage, t: Storage, event: Event)
    requires OwnVault(s, event) && Evolves(s, t)
    ensures OwnVault(t, event)
  {
  }

  lemma TransactKeepsOwnVaults(c: Chain, sys: System, e: Env, call: Call)
    requires HistorySound(sys.history) && OwnVaults(sys)
    ensures OwnVaults(Next(c, sys, Transact(e, call)))
  {
    StepKeepsInvariant(c, Now(sys), e, call);
    var t := After(c, Now(sys), e, call);
    forall event | event in sys.events
      ensures OwnVault(t, event)
    {
      OwnVaultPersists(Now(sys), t, event);
    }
  }

  /** The vault the relay read in some past state is the guard's vault now. */
  lemma AskedVaultIsOwn(sys: System, i: nat, event: Event)
    requires HistorySound(sys.history) && i < |sys.history|
    requires sys.history[i].GuardAt(event.signed.guardId).active
    requires event.vault == sys.history[i].GuardAt(event.signed.guardId).agentVault
    ensures OwnVault(Now(sys), event)
  {
    assert Evolves(sys.history[i], Now(sys));
    OwnVaultPersists(sys.history[i], Now(sys), event);
  }

  lemma AskedEventIsOwn(sys: System, step: Step, event: Event)
    requires HistorySound(sys.history) && step.GuardCheck? && AskedByTick(sys, step)
    requires Some(event.vault) == step.request.agentVault && event.signed.guardId == step.request.guardId
    ensures OwnVault(Now(sys), event)
  {
    var id := step.request.guardId;
    var i :| 0 <= i < |sys.history| && sys.history[i].GuardAt(id).active
      && step.request.agentVault == Some(sys.history[i].GuardAt(id).agentVault);
    AskedVaultIsOwn(sys, i, event);
  }

  lemma OwnVaultsRecorded(sys: System, event: Option<Event>)
    requires sys.history != [] && OwnVaults(sys)
    requires event.Some? ==> OwnVault(Now(sys), event.value)
    ensures OwnVaults(Recorded(sys, event))
  {
  }

  /** The event a relay-asked check gives rise to, if any, names the guard's own vault. */
  lemma SigningIsOwn(sys: System, step: Step, event: Option<Event>)
    requires HistorySound(sys.history) && step.GuardCheck? && AskedByTick(sys, step)
    requires event == Signing(sys, step) && event.Some?
    ensures OwnVault(Now(sys), event.value)
  {
    SigningNamesRequest(sys, step);
    AskedEventIsOwn(sys, step, event.value);
  }

  lemma CheckKeepsOwnVaults(c: Chain, sys: System, step: Step)
    requires HistorySound(sys.history) && OwnVaults(sys) && AskedByTick(sys, step) && step.GuardCheck?
    ensures OwnVaults(Next(c, sys, step))
  {
    var event := Signing(sys, step);
    if event.Some? {
      SigningIsOwn(sys, step, event);
    }
    OwnVaultsRecorded(sys, event);
  }

  lemma SigningNamesRequest(sys: System, step: Step)
    requires step.GuardCheck?
    ensures var event := Signing(sys, step);
      event.Some? ==> Some(event.value.vault) == step.request.agentVault
                      && event.value.signed.guardId == step.request.guardId
  {
  }

  /**
   When all checks are asked for by relay services, the danger behind every row was read for that
   guard's own vault, however stale the reads: a registered vault never changes.
   */
  lemma {:induction false} DangerReadOfOwnVault(c: Chain, sys: System, steps: seq<Step>)
    requires HistorySound(sys.history) && OwnVaults(sys) && AskedByTickRun(c, sys, steps)
    ensures OwnVaults(Run(c, sys, steps))
    decreases |steps|
  {
    if steps != [] {
      HistoryStep(c, sys, steps[0]);
      if steps[0].Transact? {
        TransactKeepsOwnVaults(c, sys, steps[0].env, steps[0].call);
      } else {
        CheckKeepsOwnVaults(c, sys, steps[0]);
      }
      DangerReadOfOwnVault(c, Next(c, sys, steps[0]), steps[1..]);
    }
  }

  /** Provenance when all checks come from relays: the danger was read of the guard's own vault. */
  lemma LedgersBackedByOwnDanger(c: Chain, owner: Address, steps: seq<Step>, id: uint256, k: nat)
    requires UnforgedRun(c, Genesis(owner), steps) && AskedByTickRun(c, Genesis(owner), steps)
    requires k < |Now(Run(c, Genesis(owner), steps)).Ledger(id)|
    ensures var sys := Run(c, Genesis(owner), steps);
      exists event ::
        && event in sys.events
        && BackedBy(sys.history, Now(sys).Ledger(id), id, k, event)
        && event.vault == Now(sys).GuardAt(id).agentVault
  {
    GenesisSound(owner);
    DangerReadOfOwnVault(c, Genesis(owner), steps);
    LedgersBacked(c, owner, steps, id, k);
    var sys := Run(c, Genesis(owner), steps);
    var event :| event in sys.events && BackedBy(sys.history, Now(sys).Ledger(id), id, k, event);
    assert OwnVault(Now(sys), event);
  }
}

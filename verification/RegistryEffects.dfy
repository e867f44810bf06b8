/**
 What calls to the registry write and when they revert, told field by field, and what follows over runs:
 each setting in a reachable state is the one last set.
 */
module RegistryEffects {
  import opened Prelude
  import opened Registry
  import opened RegistryRuns

  /** Outside of the guard records nothing differs. */
  ghost predicate SameBesidesGuards(s: Storage, t: Storage) {
    && t.owner == s.owner && t.guardianSigner == s.guardianSigner && t.paused == s.paused
    && t.guardCount == s.guardCount
    && (forall v: Address :: t.IdOf(v) == s.IdOf(v))
    && (forall j: uint256 :: t.Ledger(j) == s.Ledger(j))
  }

  ghost predicate SameOtherGuards(s: Storage, t: Storage, id: uint256) {
    forall j: uint256 | j != id :: t.GuardAt(j) == s.GuardAt(j)
  }

  ghost predicate SameGuards(s: Storage, t: Storage) {
    forall j: uint256 :: t.GuardAt(j) == s.GuardAt(j)
  }

  /** The sender may change guard id now. */
  predicate MayChange(s: Storage, e: Env, id: uint256) {
    !s.paused && s.GuardAt(id).agentVault != ZERO_ADDRESS && e.sender == s.GuardAt(id).owner
  }

  // ---- one call ----

  /** A deployed registry reads as zero everywhere. */
  lemma DeployedReadsZero(owner: Address, id: uint256, v: Address)
    ensures var s := Deployed(owner);
      && s.owner == owner && s.guardianSigner == 0 && !s.paused && s.guardCount == 0
      && s.GuardAt(id) == Guard(0, 0, 0, 0, 0, 0, false) && s.IdOf(v) == 0 && s.Ledger(id) == []
  {
  }

  /** setPolicy: accepted from the guard's owner for non-zero values, and then both values are the guard's. */
  lemma SetPolicyEffect(c: Chain, s: Storage, e: Env, id: uint256, ratioBIPS: uint64, amount: uint256)
    ensures var o := Invoke(c, s, e, SetPolicy(id, ratioBIPS, amount));
      && (o.Commit? <==> MayChange(s, e, id) && ratioBIPS > 0 && amount > 0)
      && (o.Commit? ==>
            && o.next.GuardAt(id).ratioBIPS == ratioBIPS && o.next.GuardAt(id).topUpAmountWei == amount
            && o.next.GuardAt(id).(ratioBIPS := 0, topUpAmountWei := 0)
               == s.GuardAt(id).(ratioBIPS := 0, topUpAmountWei := 0)
            && SameOtherGuards(s, o.next, id) && SameBesidesGuards(s, o.next))
  {
  }

  /** setGuardActive: accepted from the guard's owner, and then the guard has this flag. */
  lemma SetGuardActiveEffect(c: Chain, s: Storage, e: Env, id: uint256, flag: bool)
    ensures var o := Invoke(c, s, e, SetGuardActive(id, flag));
      && (o.Commit? <==> MayChange(s, e, id))
      && (o.Commit? ==>
            && o.next.GuardAt(id).active == flag
            && o.next.GuardAt(id).(active := false) == s.GuardAt(id).(active := false)
            && SameOtherGuards(s, o.next, id) && SameBesidesGuards(s, o.next))
  {
  }

  /** registerAgentVault: the next id gets a fresh guard, and the vault that id. */
  lemma RegisterEffect(c: Chain, s: Storage, e: Env, vault: Address, ratioBIPS: uint64, amount: uint256)
    ensures var o := Invoke(c, s, e, RegisterAgentVault(vault, ratioBIPS, amount));
      && (o.Commit? <==>
            && !s.paused && vault != 0 && s.IdOf(vault) == 0 && e.vaultOwner == Some(e.sender)
            && ratioBIPS > 0 && amount > 0 && s.guardCount + 1 < POW256)
      && (o.Commit? ==>
            var t, id := o.next, s.guardCount + 1;
            && t.guardCount == id && t.IdOf(vault) == id
            && t.GuardAt(id)
               == Guard(vault, e.sender, ratioBIPS, amount, 0, e.timestamp % 0x1_0000_0000_0000_0000, true)
            && SameOtherGuards(s, t, id)
            && t.owner == s.owner && t.guardianSigner == s.guardianSigner && t.paused == s.paused
            && (forall v: Address | v != vault :: t.IdOf(v) == s.IdOf(v))
            && (forall j: uint256 :: t.Ledger(j) == s.Ledger(j)))
  {
  }

  /** setGuardianSigner and setPaused: accepted from the owner, and then the value is set. */
  lemma OwnerCallEffect(c: Chain, s: Storage, e: Env, signer: Address, flag: bool)
    ensures var o := Invoke(c, s, e, SetGuardianSigner(signer));
      && (o.Commit? <==> e.sender == s.owner && signer != 0)
      && (o.Commit? ==> o.next.guardianSigner == signer && SameGuards(s, o.next)
                        && SameBesidesGuards(s.(guardianSigner := signer), o.next))
    ensures var o := Invoke(c, s, e, SetPaused(flag));
      && (o.Commit? <==> e.sender == s.owner)
      && (o.Commit? ==> o.next.paused == flag && SameGuards(s, o.next)
                        && SameBesidesGuards(s.(paused := flag), o.next))
  {
  }

  /** postAction: the row goes to the end of the ledger and its nonce into the guard. */
  lemma PostActionEffect(c: Chain, s: Storage, e: Env, call: Call)
    requires call.PostAction?
    ensures var o := Invoke(c, s, e, call);
      && (o.Commit? <==>
            && !s.paused && s.GuardAt(call.guardId).agentVault != 0 && call.actionType <= 2
            && call.nonce > s.GuardAt(call.guardId).lastActionNonce && GuardianSigned(c, s, call))
      && (o.Commit? ==>
            var t, id := o.next, call.guardId;
            && t.Ledger(id) == s.Ledger(id) + [Action(call.actionType, call.amount, call.nonce,
                                                      e.timestamp % 0x1_0000_0000_0000_0000)]
            && t.GuardAt(id).lastActionNonce == call.nonce
            && t.GuardAt(id).(lastActionNonce := 0) == s.GuardAt(id).(lastActionNonce := 0)
            && SameOtherGuards(s, t, id)
            && (forall j: uint256 | j != id :: t.Ledger(j) == s.Ledger(j))
            && (forall v: Address :: t.IdOf(v) == s.IdOf(v))
            && t.owner == s.owner && t.guardianSigner == s.guardianSigner && t.paused == s.paused
            && t.guardCount == s.guardCount)
  {
    PostAcceptedIff(c, s, e, call);
  }

  /** The bound on s is half of the order of secp256k1, given in section 2.4.1 of SEC 2, version 2. */
  lemma HalfOrderIs()
    ensures 2 * HALF_ORDER + 1 == 0xFFFFFFFFFFFFFFFFFFFFFFFFFFFFFFFEBAAEDCE6AF48A03BBFD25E8CD0364141
  {
  }

  // ---- why calls revert ----

  /** The call is about a guard and may only be made while the registry is not paused. */
  predicate GuardCall(call: Call) {
    !call.SetGuardianSigner? && !call.SetPaused?
  }

  /** The call names a guard that is not registered. */
  predicate NamesNoGuard(s: Storage, call: Call) {
    GuardCall(call) && !call.RegisterAgentVault? && s.GuardAt(call.guardId).agentVault == 0
  }

  /** The sender is not whom the call takes for the guard's or the vault's owner. */
  predicate NotByAgentOwner(s: Storage, e: Env, call: Call) {
    match call
    case RegisterAgentVault(_, _, _) => e.vaultOwner.Some? && e.vaultOwner != Some(e.sender)
    case SetPolicy(id, _, _) => e.sender != s.GuardAt(id).owner
    case SetGuardActive(id, _) => e.sender != s.GuardAt(id).owner
    case _ => false
  }

  predicate ZeroPolicy(call: Call) {
    match call
    case RegisterAgentVault(_, ratioBIPS, amount) => ratioBIPS == 0 || amount == 0
    case SetPolicy(_, ratioBIPS, amount) => ratioBIPS == 0 || amount == 0
    case _ => false
  }

  /** The reason the contract gives: the first check that fails, in the contract's order. */
  predicate Because(c: Chain, s: Storage, e: Env, call: Call, error: Error) {
    var unknown := call.RegisterAgentVault? && call.vault != 0 && s.IdOf(call.vault) == 0;
    match error
    case NotOwner => !GuardCall(call) && e.sender != s.owner
    case ZeroAddress =>
      || (call.SetGuardianSigner? && e.sender == s.owner && call.signer == 0)
      || (call.RegisterAgentVault? && !s.paused && call.vault == 0)
    case Paused => GuardCall(call) && s.paused
    case UnknownGuard => !s.paused && NamesNoGuard(s, call)
    case DuplicateGuard => call.RegisterAgentVault? && !s.paused && call.vault != 0 && s.IdOf(call.vault) != 0
    case ManagerReverted => unknown && !s.paused && e.vaultOwner == None
    case NotAgentOwner =>
      !s.paused && !NamesNoGuard(s, call) && (call.RegisterAgentVault? ==> unknown) && NotByAgentOwner(s, e, call)
    case ZeroAmount =>
      && !s.paused && !NamesNoGuard(s, call) && (call.RegisterAgentVault? ==> unknown && e.vaultOwner.Some?)
      && !NotByAgentOwner(s, e, call) && ZeroPolicy(call)
    case Panic =>
      && unknown && !s.paused && e.vaultOwner == Some(e.sender) && !ZeroPolicy(call)
      && s.guardCount + 1 == 0x1_0000000000000000_0000000000000000_0000000000000000_0000000000000000
    case InvalidActionType => call.PostAction? && !s.paused && !NamesNoGuard(s, call) && call.actionType > 2
    case InvalidNonce =>
      && call.PostAction? && !s.paused && !NamesNoGuard(s, call) && call.actionType <= 2
      && call.nonce <= s.GuardAt(call.guardId).lastActionNonce
    case InvalidSignature =>
      && call.PostAction? && !s.paused && !NamesNoGuard(s, call) && call.actionType <= 2
      && call.nonce > s.GuardAt(call.guardId).lastActionNonce && !GuardianSigned(c, s, call)
  }

  /** A call reverts with exactly the reason that applies. */
  lemma RevertsBecause(c: Chain, s: Storage, e: Env, call: Call, error: Error)
    ensures Invoke(c, s, e, call) == Revert(error) <==> Because(c, s, e, call, error)
  {
    if call.PostAction? {
      SignedByUnfolds(c, s, call);
    }
  }

  // ---- over runs ----

  /** The value that the last transaction to set something set it to. */
  function LastSet<T>(c: Chain, s: Storage, txs: seq<(Env, Call)>, sets: (Storage, Env, Call) -> Option<T>): Option<T>
    decreases |txs|
  {
    if txs == [] then None
    else
      match LastSet(c, After(c, s, txs[0].0, txs[0].1), txs[1..], sets)
      case Some(x) => Some(x)
      case None => sets(s, txs[0].0, txs[0].1)
  }

  function Default<T>(x: Option<T>, d: T): T {
    match x case Some(v) => v case None => d
  }

  /** Every call writes what it sets, and nothing else writes there. */
  ghost predicate Writes<T(!new)>(c: Chain, sets: (Storage, Env, Call) -> Option<T>, gets: Storage -> T) {
    forall s: Storage, e: Env, call: Call | Invariant(s) ::
      gets(After(c, s, e, call)) == Default(sets(s, e, call), gets(s))
  }

  lemma {:induction false} ReadsLastSet<T(!new)>(c: Chain, s: Storage, txs: seq<(Env, Call)>,
                                                 sets: (Storage, Env, Call) -> Option<T>, gets: Storage -> T)
    requires Invariant(s) && Writes(c, sets, gets)
    ensures gets(Execute(c, s, txs)) == Default(LastSet(c, s, txs, sets), gets(s))
    decreases |txs|
  {
    if txs != [] {
      var t := After(c, s, txs[0].0, txs[0].1);
      StepKeepsInvariant(c, s, txs[0].0, txs[0].1);
      ReadsLastSet(c, t, txs[1..], sets, gets);
      assert gets(t) == Default(sets(s, txs[0].0, txs[0].1), gets(s));
    }
  }

  /** The policy a call sets for guard id if it is accepted: by its owner, or at registration. */
  function PolicySet(s: Storage, e: Env, call: Call, id: uint256): Option<(uint64, uint256)> {
    match call
    case SetPolicy(g, ratioBIPS, amount) =>
      if g == id && MayChange(s, e, id) && ratioBIPS > 0 && amount > 0 then Some((ratioBIPS, amount)) else None
    case RegisterAgentVault(vault, ratioBIPS, amount) =>
      if id == s.guardCount + 1 && MayRegister(s, e, vault) && ratioBIPS > 0 && amount > 0 then
        Some((ratioBIPS, amount))
      else None
    case _ => None
  }

  predicate MayRegister(s: Storage, e: Env, vault: Address) {
    !s.paused && vault != 0 && s.IdOf(vault) == 0 && e.vaultOwner == Some(e.sender)
  }

  function ActivitySet(s: Storage, e: Env, call: Call, id: uint256): Option<bool> {
    match call
    case SetGuardActive(g, flag) => if g == id && MayChange(s, e, id) then Some(flag) else None
    case RegisterAgentVault(_, _, _) => if PolicySet(s, e, call, id).Some? then Some(true) else None
    case _ => None
  }

  function SignerSet(s: Storage, e: Env, call: Call): Option<Address> {
    if call.SetGuardianSigner? && e.sender == s.owner && call.signer != 0 then Some(call.signer) else None
  }

  function PauseSet(s: Storage, e: Env, call: Call): Option<bool> {
    if call.SetPaused? && e.sender == s.owner then Some(call.flag) else None
  }

  function PolicyOfGuard(s: Storage, id: uint256): (uint64, uint256) {
    (s.GuardAt(id).ratioBIPS, s.GuardAt(id).topUpAmountWei)
  }

  lemma OtherCallSettings(c: Chain, s: Storage, e: Env, call: Call, id: uint256)
    requires call.SetGuardianSigner? || call.SetPaused? || call.PostAction?
    ensures var t := After(c, s, e, call);
      PolicyOfGuard(t, id) == PolicyOfGuard(s, id) && t.GuardAt(id).active == s.GuardAt(id).active
  {
    match call
    case SetGuardianSigner(signer) => OwnerCallEffect(c, s, e, signer, false);
    case SetPaused(flag) => OwnerCallEffect(c, s, e, 0, flag);
    case PostAction(_, _, _, _, _) => PostActionEffect(c, s, e, call);
  }

  lemma RegisterSettings(c: Chain, s: Storage, e: Env, call: Call, id: uint256)
    requires call.RegisterAgentVault?
    ensures var t := After(c, s, e, call);
      && (Invoke(c, s, e, call).Revert? || id != s.guardCount + 1 ==>
            PolicyOfGuard(t, id) == PolicyOfGuard(s, id) && t.GuardAt(id).active == s.GuardAt(id).active)
      && (Invoke(c, s, e, call).Commit? && id == s.guardCount + 1 ==>
            PolicyOfGuard(t, id) == (call.ratioBIPS, call.topUpAmountWei) && t.GuardAt(id).active)
  {
    RegisterEffect(c, s, e, call.vault, call.ratioBIPS, call.topUpAmountWei);
  }

  /** One call's effect on the policy and the activity of guard id. */
  lemma GuardSettingsStep(c: Chain, s: Storage, e: Env, call: Call, id: uint256)
    ensures var t := After(c, s, e, call);
      && PolicyOfGuard(t, id) == Default(PolicySet(s, e, call, id), PolicyOfGuard(s, id))
      && t.GuardAt(id).active == Default(ActivitySet(s, e, call, id), s.GuardAt(id).active)
  {
    match call
    case SetPolicy(g, ratioBIPS, amount) => SetPolicyEffect(c, s, e, g, ratioBIPS, amount);
    case SetGuardActive(g, flag) => SetGuardActiveEffect(c, s, e, g, flag);
    case RegisterAgentVault(vault, ratioBIPS, amount) =>
      RegisterEffect(c, s, e, vault, ratioBIPS, amount);
      RegisterSettings(c, s, e, call, id);
    case _ => OtherCallSettings(c, s, e, call, id);
  }

  lemma OwnerSettingsStep(c: Chain, s: Storage, e: Env, call: Call)
    ensures var t := After(c, s, e, call);
      && t.guardianSigner == Default(SignerSet(s, e, call), s.guardianSigner)
      && t.paused == Default(PauseSet(s, e, call), s.paused)
  {
    match call
    case SetGuardianSigner(signer) => OwnerCallEffect(c, s, e, signer, false);
    case SetPaused(flag) => OwnerCallEffect(c, s, e, 0, flag);
    case _ =>
  }

  function PolicySetter(id: uint256): (Storage, Env, Call) -> Option<(uint64, uint256)> {
    (s, e, call) => PolicySet(s, e, call, id)
  }

  function ActivitySetter(id: uint256): (Storage, Env, Call) -> Option<bool> {
    (s, e, call) => ActivitySet(s, e, call, id)
  }

  /** In every reachable state a guard's policy is that of its last accepted setPolicy, or of its registration. */
  lemma PolicyIsLastSet(c: Chain, owner: Address, txs: seq<(Env, Call)>, id: uint256)
    ensures var s, last := Execute(c, Deployed(owner), txs), LastSet(c, Deployed(owner), txs, PolicySetter(id));
      && (1 <= id <= s.guardCount ==>
            last == Some((s.GuardAt(id).ratioBIPS, s.GuardAt(id).topUpAmountWei)))
      && (!(1 <= id <= s.guardCount) ==> last == None)
  {
    forall s: Storage, e: Env, call: Call | Invariant(s)
      ensures PolicyOfGuard(After(c, s, e, call), id)
              == Default(PolicySetter(id)(s, e, call), PolicyOfGuard(s, id))
    {
      GuardSettingsStep(c, s, e, call, id);
    }
    RunKeepsInvariant(c, Deployed(owner), txs);
    ReadsLastSet(c, Deployed(owner), txs, PolicySetter(id), (s: Storage) => PolicyOfGuard(s, id));
    SetPoliciesNonZero(c, Deployed(owner), txs, id);
  }

  /** What is set as a policy is never zero. */
  lemma {:induction false} SetPoliciesNonZero(c: Chain, s: Storage, txs: seq<(Env, Call)>, id: uint256)
    ensures var last := LastSet(c, s, txs, PolicySetter(id));
      last.Some? ==> last.value.0 > 0 && last.value.1 > 0
    decreases |txs|
  {
    if txs != [] {
      SetPoliciesNonZero(c, After(c, s, txs[0].0, txs[0].1), txs[1..], id);
    }
  }

  /** And a guard is active as its owner last said, or active since its registration. */
  lemma ActivityIsLastSet(c: Chain, owner: Address, txs: seq<(Env, Call)>, id: uint256)
    ensures Execute(c, Deployed(owner), txs).GuardAt(id).active
            == Default(LastSet(c, Deployed(owner), txs, ActivitySetter(id)), false)
  {
    forall s: Storage, e: Env, call: Call | Invariant(s)
      ensures After(c, s, e, call).GuardAt(id).active
              == Default(ActivitySetter(id)(s, e, call), s.GuardAt(id).active)
    {
      GuardSettingsStep(c, s, e, call, id);
    }
    ReadsLastSet(c, Deployed(owner), txs, ActivitySetter(id), (s: Storage) => s.GuardAt(id).active);
  }

  /** Signer and pause switch are as the contract's owner last set them. */
  lemma OwnerSettingsAreLastSet(c: Chain, owner: Address, txs: seq<(Env, Call)>)
    ensures var s := Execute(c, Deployed(owner), txs);
      && s.guardianSigner == Default(LastSet(c, Deployed(owner), txs, SignerSet), 0)
      && s.paused == Default(LastSet(c, Deployed(owner), txs, PauseSet), false)
  {
    forall s: Storage, e: Env, call: Call | Invariant(s)
      ensures After(c, s, e, call).guardianSigner == Default(SignerSet(s, e, call), s.guardianSigner)
      ensures After(c, s, e, call).paused == Default(PauseSet(s, e, call), s.paused)
    {
      OwnerSettingsStep(c, s, e, call);
    }
    ReadsLastSet(c, Deployed(owner), txs, SignerSet, (s: Storage) => s.guardianSigner);
    ReadsLastSet(c, Deployed(owner), txs, PauseSet, (s: Storage) => s.paused);
  }
}

/**
 The guard inside the enclave: it reads vault health and the committed policy, decides, and signs
 the next action for an active guard in danger.
 */
module Enclave {
  import opened Prelude
  import opened Digest
  import Decimal
  import Registry

  /** A signing key: its address and crypto.Sign under it (65 bytes r, s, v over a digest). */
  datatype Key = Key(address: Address, sign: seq<uint8> -> seq<uint8>)

  /** GUARDIAN_KEY as found in the environment. */
  datatype KeyEnv = Missing | Malformed | Loaded(key: Key)

  /** The request; a vault text that is not an address is None. */
  datatype Request = Request(agentVault: Option<Address>, guardId: uint64)

  /** The three chain reads behind a health report. Each may fail. */
  datatype VaultReads = VaultReads(
    factors: Option<(uint256, uint256, uint256)>,
    collateral: Option<uint256>,
    feed: Option<(uint256, int8)>)

  datatype VaultHealth = VaultHealth(
    vault: Address,
    liqFactorVaultBIPS: string,
    liqFactorPoolBIPS: string,
    maxLiquidationAmount: string,
    vaultCollateralWei: string,
    xrpUsd: string,
    liquidatable: bool)

  datatype SignedAction = SignedAction(
    guardId: uint64,
    actionType: uint8,
    amount: string,
    nonce: uint64,
    chainId: uint64,
    digest: seq<uint8>,
    signature: seq<uint8>,
    signer: Address)

  datatype Decision = Watch | TopUpRequired

  datatype Response = Response(
    healthy: bool,
    health: VaultHealth,
    decision: Decision,
    signed: Option<SignedAction>)

  datatype CheckError = BadAddress | HealthUnread | GuardUnread | NoKey | BadKey

  /** A health report exists when all three reads answered. */
  function HealthOf(vault: Address, answers: VaultReads): Result<VaultHealth, CheckError> {
    match answers
    case VaultReads(Some((liqVault, liqPool, most)), Some(collateral), Some((price, decimals))) =>
      Success(VaultHealth(vault, Decimal.Print(liqVault), Decimal.Print(liqPool), Decimal.Print(most),
                          Decimal.Print(collateral), Decimal.PriceText(price, decimals),
                          liqVault > 0 || liqPool > 0))
    case _ => Failure(HealthUnread)
  }

  /** readVaultHealth: the record is filled read by read, and the first failing read aborts it. */
  method ReadVaultHealth(vault: Address, answers: VaultReads) returns (r: Result<VaultHealth, CheckError>)
    ensures r == HealthOf(vault, answers)
  {
    var h := VaultHealth(vault, "", "", "", "", "", false);
    if answers.factors.None? { return Failure(HealthUnread); }
    var (liqVault, liqPool, most) := answers.factors.value;
    h := h.(liqFactorVaultBIPS := Decimal.Print(liqVault));
    h := h.(liqFactorPoolBIPS := Decimal.Print(liqPool));
    h := h.(maxLiquidationAmount := Decimal.Print(most));
    if answers.collateral.None? { return Failure(HealthUnread); }
    h := h.(vaultCollateralWei := Decimal.Print(answers.collateral.value));
    if answers.feed.None? { return Failure(HealthUnread); }
    var price := Decimal.FormatPrice(answers.feed.value.0, answers.feed.value.1);
    h := h.(xrpUsd := price);
    h := h.(liquidatable := liqVault > 0 || liqPool > 0);
    r := Success(h);
  }

  /** The trigger, taken from the printed factors through a 64-bit parse whose error is dropped. */
  function Decide(h: VaultHealth): Decision {
    var liq := Decimal.ParseUint64(h.liqFactorVaultBIPS);
    var poolLiq := Decimal.ParseUint64(h.liqFactorPoolBIPS);
    if liq > 0 || poolLiq > 0 then TopUpRequired else Watch
  }

  /** For every pair of 256-bit factors the decision is the liquidatable flag of the same report. */
  lemma DecisionAgreesWithFlag(vault: Address, answers: VaultReads)
    requires HealthOf(vault, answers).Success?
    ensures var h := HealthOf(vault, answers).value;
      && (Decide(h) == TopUpRequired <==> h.liquidatable)
      && (h.liquidatable <==> answers.factors.value.0 > 0 || answers.factors.value.1 > 0)
  {
    Decimal.SaturatingParseKeepsPositivity(answers.factors.value.0);
    Decimal.SaturatingParseKeepsPositivity(answers.factors.value.1);
  }

  const COSTON2: uint64 := 114

  /** CHAIN_ID, or Coston2 when it is unset, unreadable, zero or beyond 64 bits. */
  function ChainIdFrom(text: string): uint64 {
    match Decimal.Parse(text)
    case Some(v) => if 0 < v < POW64 then v else COSTON2
    case None => COSTON2
  }

  /** CHAIN_ID selects this chain: as its number, or as anything but a positive 64-bit number for Coston2. */
  ghost predicate Selects(chainEnv: string, chainId: int) {
    || (0 < chainId < 0x1_0000_0000_0000_0000 && Decimal.Parse(chainEnv) == Some(chainId))
    || (chainId == 114
        && forall n: nat | 0 < n < 0x1_0000_0000_0000_0000 :: Decimal.Parse(chainEnv) != Some(n))
  }

  lemma SelectsOne(chainEnv: string, chainId: int)
    ensures Selects(chainEnv, chainId) <==> chainId == ChainIdFrom(chainEnv)
  {
  }

  /** A printed chain id selects its chain. */
  lemma PrintedSelects(chainId: nat)
    requires 0 < chainId < 0x1_0000_0000_0000_0000
    ensures Selects(Decimal.Print(chainId), chainId)
  {
    Decimal.PrintParse(chainId);
  }

  /** The record a key produces for one action. */
  function ActionSignedBy(key: Key, chainId: uint64, guardId: uint64, actionType: uint8,
                          amount: uint256, nonce: uint64): SignedAction {
    var digest := GuardDigest(chainId, guardId, actionType, amount, nonce);
    SignedAction(guardId, actionType, Decimal.Print(amount), nonce, chainId, digest, key.sign(digest),
                 key.address)
  }

  method SignTopUpAction(keyEnv: KeyEnv, chainEnv: string, guardId: uint64, actionType: uint8,
                         amount: uint256, nonce: uint64)
    returns (r: Result<SignedAction, CheckError>)
    ensures r == match keyEnv
                 case Missing => Failure(NoKey)
                 case Malformed => Failure(BadKey)
                 case Loaded(key) =>
                   Success(ActionSignedBy(key, ChainIdFrom(chainEnv), guardId, actionType, amount, nonce))
  {
    if keyEnv.Missing? { return Failure(NoKey); }
    if keyEnv.Malformed? { return Failure(BadKey); }
    var text := Decimal.Print(amount);
    Decimal.PrintParse(amount);
    var chainId := ChainIdFrom(chainEnv);
    var digest := RegistryDigest(chainId, guardId, actionType, nonce, text);
    r := Success(SignedAction(guardId, actionType, text, nonce, chainId, digest, keyEnv.key.sign(digest),
                              keyEnv.key.address));
  }

  /** The nonce signed for a guard last seen at `last`: uint64 addition wraps. */
  function NextNonce(last: uint64): uint64 {
    (last + 1) % POW64
  }

  /** One guard check against one reading of the vault and one reading of the guard. */
  function Check(req: Request, answers: VaultReads, guard: Option<Registry.Guard>, keyEnv: KeyEnv,
                 chainEnv: string): Result<Response, CheckError> {
    match req.agentVault
    case None => Failure(BadAddress)
    case Some(vault) =>
      match HealthOf(vault, answers)
      case Failure(error) => Failure(error)
      case Success(health) =>
        match guard
        case None => Failure(GuardUnread)
        case Some(g) =>
          var decision := Decide(health);
          if decision == Watch || !g.active then
            Success(Response(decision == Watch, health, decision, None))
          else
            match keyEnv
            case Missing => Failure(NoKey)
            case Malformed => Failure(BadKey)
            case Loaded(key) =>
              Success(Response(false, health, decision,
                Some(ActionSignedBy(key, ChainIdFrom(chainEnv), req.guardId, Registry.ACTION_VAULT_TOP_UP,
                                    g.topUpAmountWei, NextNonce(g.lastActionNonce)))))
  }

  /** All reads of the check answered, so it is counted even if signing then fails. */
  predicate Counted(req: Request, answers: VaultReads, guard: Option<Registry.Guard>) {
    && req.agentVault.Some? && guard.Some?
    && answers.factors.Some? && answers.collateral.Some? && answers.feed.Some?
  }

  /** The answers report a vault in danger of liquidation. */
  predicate Danger(answers: VaultReads) {
    answers.factors.Some? && (answers.factors.value.0 > 0 || answers.factors.value.1 > 0)
  }

  /** The extension's observable state and its check endpoint. */
  class Extension {
    var lastCheckVault: Option<Address>
    var lastDecision: Option<Decision>
    var checksPerformed: uint64
    var actionsSigned: uint64

    constructor ()
      ensures lastCheckVault == None && lastDecision == None && checksPerformed == 0 && actionsSigned == 0
    {
      lastCheckVault, lastDecision, checksPerformed, actionsSigned := None, None, 0, 0;
    }

    /** checkVaultJSON. The answer depends on nothing but its inputs; the fields record that it ran. */
    method CheckVault(req: Request, answers: VaultReads, guard: Option<Registry.Guard>, keyEnv: KeyEnv,
                      chainEnv: string)
      returns (r: Result<Response, CheckError>)
      modifies this
      ensures r == Check(req, answers, guard, keyEnv, chainEnv)
      ensures !Counted(req, answers, guard) ==> unchanged(this)
      ensures Counted(req, answers, guard) ==>
        && lastCheckVault == req.agentVault
        && lastDecision == Some(if Danger(answers) then TopUpRequired else Watch)
        && checksPerformed == (old(checksPerformed) + 1) % 0x1_0000_0000_0000_0000
        && actionsSigned == (if Danger(answers) && guard.value.active && keyEnv.Loaded? then
                               (old(actionsSigned) + 1) % 0x1_0000_0000_0000_0000
                             else old(actionsSigned))
    {
      if req.agentVault.None? { return Failure(BadAddress); }
      var read := ReadVaultHealth(req.agentVault.value, answers);
      if read.Failure? { return Failure(read.error); }
      if guard.None? { return Failure(GuardUnread); }
      var health, g := read.value, guard.value;
      DecisionAgreesWithFlag(req.agentVault.value, answers);

      var decision, healthy := Watch, true;
      var liq := Decimal.ParseUint64(health.liqFactorVaultBIPS);
      var poolLiq := Decimal.ParseUint64(health.liqFactorPoolBIPS);
      if liq > 0 || poolLiq > 0 {
        decision, healthy := TopUpRequired, false;
      }
      var resp := Response(healthy, health, decision, None);

      // first locked section
      lastCheckVault := req.agentVault;
      lastDecision := Some(decision);
      checksPerformed := (checksPerformed + 1) % POW64;

      if !healthy && g.active {
        var nonce := NextNonce(g.lastActionNonce);
        var signed := SignTopUpAction(keyEnv, chainEnv, req.guardId, Registry.ACTION_VAULT_TOP_UP,
                                      g.topUpAmountWei, nonce);
        if signed.Failure? { return Failure(signed.error); }
        resp := resp.(signed := Some(signed.value));
        // second locked section
        actionsSigned := (actionsSigned + 1) % POW64;
      }
      r := Success(resp);
    }
  }

  /** A check signs exactly for an active guard in danger, and signs the policy amount and next nonce. */
  lemma SignsOnlyActiveInDanger(req: Request, answers: VaultReads, g: Registry.Guard, keyEnv: KeyEnv,
                                chainEnv: string)
    requires Counted(req, answers, Some(g)) && keyEnv.Loaded?
    ensures var r := Check(req, answers, Some(g), keyEnv, chainEnv);
      && r.Success?
      && (r.value.signed.Some? <==> g.active && (answers.factors.value.0 > 0 || answers.factors.value.1 > 0))
      && (r.value.signed.Some? ==>
            && r.value.decision == TopUpRequired
            && r.value.signed.value
               == ActionSignedBy(keyEnv.key, ChainIdFrom(chainEnv), req.guardId,
                                 Registry.ACTION_VAULT_TOP_UP, g.topUpAmountWei, NextNonce(g.lastActionNonce)))
  {
    DecisionAgreesWithFlag(req.agentVault.value, answers);
  }
}

/**
 GuardianRegistry: its storage as a value, each external call as a function on that value, and the
 contract itself as a class whose methods are proved to perform exactly those functions.
 */
module Registry {
  import opened Prelude
  import opened BigEndian
  import opened Digest

  const ACTION_VAULT_TOP_UP: uint8 := 1
  const ACTION_REDEMPTION_HANDLED: uint8 := 2

  /** Half of the secp256k1 group order, the largest s the registry takes. */
  const HALF_ORDER: int := 0x7FFFFFFFFFFFFFFFFFFFFFFFFFFFFFFF5D576E7357A4501DDFE92F46681B20A0

  datatype Error =
    | NotOwner | NotAgentOwner | UnknownGuard | DuplicateGuard | Paused | InvalidNonce
    | InvalidSignature | InvalidActionType | ZeroAddress | ZeroAmount
    | ManagerReverted   // the AssetManager call itself reverted
    | Panic             // checked arithmetic overflowed

  datatype Guard = Guard(
    agentVault: Address,
    owner: Address,
    ratioBIPS: uint64,
    topUpAmountWei: uint256,
    lastActionNonce: uint64,
    createdAt: uint64,
    active: bool)

  datatype Action = Action(actionType: uint8, amount: uint256, nonce: uint64, timestamp: uint64)

  /** What never changes for one deployment: the chain id and the ecrecover precompile. */
  datatype Chain = Chain(
    id: uint256,
    ecrecover: (seq<uint8>, uint8, uint256, uint256) -> Address)

  /** msg.sender, block.timestamp and the AssetManager's answer about the vault's owner. */
  datatype Env = Env(sender: Address, timestamp: uint256, vaultOwner: Option<Address>)

  datatype Call =
    | SetGuardianSigner(signer: Address)
    | SetPaused(flag: bool)
    | RegisterAgentVault(vault: Address, ratioBIPS: uint64, topUpAmountWei: uint256)
    | SetPolicy(guardId: uint256, ratioBIPS: uint64, topUpAmountWei: uint256)
    | SetGuardActive(guardId: uint256, flag: bool)
    | PostAction(guardId: uint256, actionType: uint8, amount: uint256, nonce: uint64, signature: seq<uint8>)

  /** The contract's storage. A key that was never written reads as zero. */
  datatype Storage = Storage(
    owner: Address,
    guardianSigner: Address,
    paused: bool,
    guardCount: uint256,
    guards: map<uint256, Guard>,
    guardIdOfVault: map<Address, uint256>,
    actions: map<uint256, seq<Action>>)
  {
    function GuardAt(id: uint256): Guard {
      if id in guards then guards[id] else Guard(ZERO_ADDRESS, ZERO_ADDRESS, 0, 0, 0, 0, false)
    }

    function IdOf(vault: Address): uint256 {
      if vault in guardIdOfVault then guardIdOfVault[vault] else 0
    }

    function Ledger(id: uint256): seq<Action> {
      if id in actions then actions[id] else []
    }
  }

  datatype Outcome = Commit(next: Storage) | Revert(error: Error)

  /** Storage right after deployment by `owner`. */
  function Deployed(owner: Address): Storage {
    Storage(owner, ZERO_ADDRESS, false, 0, map[], map[], map[])
  }

  function Truncate64(t: uint256): uint64 {
    t % POW64
  }

  /** Signature checks in front of the precompile: length, low s, recovery id. */
  function Recover(c: Chain, digest: seq<uint8>, signature: seq<uint8>): Result<Address, Error> {
    if |signature| != 65 then Failure(InvalidSignature)
    else
      var r := WordValue(signature[0..32]);
      var s := WordValue(signature[32..64]);
      var v: uint8 := if signature[64] < 27 then signature[64] + 27 else signature[64];
      if s > HALF_ORDER then Failure(InvalidSignature)
      else if v != 27 && v != 28 then Failure(InvalidSignature)
      else Success(c.ecrecover(digest, v, r, s))
  }

  function DoSetGuardianSigner(s: Storage, e: Env, signer: Address): Outcome {
    if e.sender != s.owner then Revert(NotOwner)
    else if signer == ZERO_ADDRESS then Revert(ZeroAddress)
    else Commit(s.(guardianSigner := signer))
  }

  function DoSetPaused(s: Storage, e: Env, flag: bool): Outcome {
    if e.sender != s.owner then Revert(NotOwner) else Commit(s.(paused := flag))
  }

  function DoRegister(s: Storage, e: Env, vault: Address, ratioBIPS: uint64, topUpAmountWei: uint256): Outcome {
    if s.paused then Revert(Paused)
    else if vault == ZERO_ADDRESS then Revert(ZeroAddress)
    else if s.IdOf(vault) != 0 then Revert(DuplicateGuard)
    else if e.vaultOwner == None then Revert(ManagerReverted)
    else if e.vaultOwner != Some(e.sender) then Revert(NotAgentOwner)
    else if ratioBIPS == 0 || topUpAmountWei == 0 then Revert(ZeroAmount)
    else if s.guardCount + 1 == POW256 then Revert(Panic)
    else
      var id := s.guardCount + 1;
      Commit(s.(guardCount := id,
                guards := s.guards[id := Guard(vault, e.sender, ratioBIPS, topUpAmountWei, 0,
                                               Truncate64(e.timestamp), true)],
                guardIdOfVault := s.guardIdOfVault[vault := id]))
  }

  function DoSetPolicy(s: Storage, e: Env, id: uint256, ratioBIPS: uint64, topUpAmountWei: uint256): Outcome {
    var g := s.GuardAt(id);
    if s.paused then Revert(Paused)
    else if g.agentVault == ZERO_ADDRESS then Revert(UnknownGuard)
    else if e.sender != g.owner then Revert(NotAgentOwner)
    else if ratioBIPS == 0 || topUpAmountWei == 0 then Revert(ZeroAmount)
    else Commit(s.(guards := s.guards[id := g.(ratioBIPS := ratioBIPS, topUpAmountWei := topUpAmountWei)]))
  }

  function DoSetGuardActive(s: Storage, e: Env, id: uint256, flag: bool): Outcome {
    var g := s.GuardAt(id);
    if s.paused then Revert(Paused)
    else if g.agentVault == ZERO_ADDRESS then Revert(UnknownGuard)
    else if e.sender != g.owner then Revert(NotAgentOwner)
    else Commit(s.(guards := s.guards[id := g.(active := flag)]))
  }

  function DoPostAction(c: Chain, s: Storage, e: Env, id: uint256, actionType: uint8, amount: uint256,
                        nonce: uint64, signature: seq<uint8>): Outcome {
    var g := s.GuardAt(id);
    if s.paused then Revert(Paused)
    else if g.agentVault == ZERO_ADDRESS then Revert(UnknownGuard)
    else if actionType > ACTION_REDEMPTION_HANDLED then Revert(InvalidActionType)
    else if nonce <= g.lastActionNonce then Revert(InvalidNonce)
    else if !SignedBy(c, s.guardianSigner, id, actionType, amount, nonce, signature) then
      Revert(InvalidSignature)
    else
      var row := Action(actionType, amount, nonce, Truncate64(e.timestamp));
      Commit(s.(guards := s.guards[id := g.(lastActionNonce := nonce)],
                actions := s.actions[id := s.Ledger(id) + [row]]))
  }

  /** The signature passes all checks for the recomputed digest and recovers to this signer. */
  predicate SignedBy(c: Chain, signer: Address, id: uint256, actionType: uint8, amount: uint256,
                     nonce: uint64, signature: seq<uint8>) {
    Recover(c, GuardDigest(c.id, id, actionType, amount, nonce), signature) == Success(signer)
  }

  /** One external call. */
  function Invoke(c: Chain, s: Storage, e: Env, call: Call): Outcome {
    match call
    case SetGuardianSigner(signer) => DoSetGuardianSigner(s, e, signer)
    case SetPaused(flag) => DoSetPaused(s, e, flag)
    case RegisterAgentVault(vault, ratio, amount) => DoRegister(s, e, vault, ratio, amount)
    case SetPolicy(id, ratio, amount) => DoSetPolicy(s, e, id, ratio, amount)
    case SetGuardActive(id, flag) => DoSetGuardActive(s, e, id, flag)
    case PostAction(id, actionType, amount, nonce, signature) =>
      DoPostAction(c, s, e, id, actionType, amount, nonce, signature)
  }

  /** A transaction: a reverted call leaves storage as it was. */
  function After(c: Chain, s: Storage, e: Env, call: Call): Storage {
    match Invoke(c, s, e, call)
    case Commit(next) => next
    case Revert(_) => s
  }

  /** How a method of the contract relates to its call function: commit and return, or revert. */
  predicate Performs(o: Outcome, before: Storage, after: Storage, error: Option<Error>) {
    match o
    case Commit(next) => error == None && after == next
    case Revert(e) => error == Some(e) && after == before
  }

  /** The contract, with its storage fields updated in place. */
  class GuardianRegistry {
    const chain: Chain
    var owner: Address
    var guardianSigner: Address
    var paused: bool
    var guardCount: uint256
    var guards: map<uint256, Guard>
    var guardIdOfVault: map<Address, uint256>
    var actions: map<uint256, seq<Action>>

    ghost function Contents(): Storage
      reads this
    {
      Storage(owner, guardianSigner, paused, guardCount, guards, guardIdOfVault, actions)
    }

    constructor (chain: Chain, assetManager: Address, sender: Address)
      requires assetManager != ZERO_ADDRESS
      ensures this.chain == chain && Contents() == Deployed(sender)
    {
      this.chain := chain;
      owner := sender;
      guardianSigner := ZERO_ADDRESS;
      paused := false;
      guardCount := 0;
      guards := map[];
      guardIdOfVault := map[];
      actions := map[];
    }

    /** The public getter `guards(id)`. */
    method ReadGuard(id: uint256) returns (g: Guard)
      ensures g == Contents().GuardAt(id)
    {
      g := if id in guards then guards[id] else Guard(ZERO_ADDRESS, ZERO_ADDRESS, 0, 0, 0, 0, false);
    }

    method SetGuardianSigner(e: Env, signer: Address) returns (error: Option<Error>)
      modifies this
      ensures Performs(DoSetGuardianSigner(old(Contents()), e, signer), old(Contents()), Contents(), error)
    {
      if e.sender != owner { return Some(NotOwner); }
      if signer == ZERO_ADDRESS { return Some(ZeroAddress); }
      guardianSigner := signer;
      error := None;
    }

    method SetPaused(e: Env, flag: bool) returns (error: Option<Error>)
      modifies this
      ensures Performs(DoSetPaused(old(Contents()), e, flag), old(Contents()), Contents(), error)
    {
      if e.sender != owner { return Some(NotOwner); }
      paused := flag;
      error := None;
    }

    method RegisterAgentVault(e: Env, vault: Address, ratioBIPS: uint64, topUpAmountWei: uint256)
      returns (error: Option<Error>, guardId: uint256)
      modifies this
      ensures Performs(DoRegister(old(Contents()), e, vault, ratioBIPS, topUpAmountWei),
                       old(Contents()), Contents(), error)
      ensures error == None ==> guardId == guardCount
    {
      guardId := 0;
      if paused { return Some(Paused), 0; }
      if vault == ZERO_ADDRESS { return Some(ZeroAddress), 0; }
      if vault in guardIdOfVault && guardIdOfVault[vault] != 0 { return Some(DuplicateGuard), 0; }
      if e.vaultOwner.None? { return Some(ManagerReverted), 0; }
      if e.vaultOwner.value != e.sender { return Some(NotAgentOwner), 0; }
      if ratioBIPS == 0 { return Some(ZeroAmount), 0; }
      if topUpAmountWei == 0 { return Some(ZeroAmount), 0; }
      if guardCount + 1 == POW256 { return Some(Panic), 0; }
      guardCount := guardCount + 1;
      guardId := guardCount;
      guards := guards[guardId := Guard(vault, e.sender, ratioBIPS, topUpAmountWei, 0,
                                        Truncate64(e.timestamp), true)];
      guardIdOfVault := guardIdOfVault[vault := guardId];
      error := None;
    }

    method SetPolicy(e: Env, id: uint256, ratioBIPS: uint64, topUpAmountWei: uint256)
      returns (error: Option<Error>)
      modifies this
      ensures Performs(DoSetPolicy(old(Contents()), e, id, ratioBIPS, topUpAmountWei),
                       old(Contents()), Contents(), error)
    {
      if paused { return Some(Paused); }
      var g := ReadGuard(id);
      if g.agentVault == ZERO_ADDRESS { return Some(UnknownGuard); }
      if e.sender != g.owner { return Some(NotAgentOwner); }
      if ratioBIPS == 0 || topUpAmountWei == 0 { return Some(ZeroAmount); }
      guards := guards[id := guards[id].(ratioBIPS := ratioBIPS)];
      guards := guards[id := guards[id].(topUpAmountWei := topUpAmountWei)];
      error := None;
    }

    method SetGuardActive(e: Env, id: uint256, flag: bool) returns (error: Option<Error>)
      modifies this
      ensures Performs(DoSetGuardActive(old(Contents()), e, id, flag), old(Contents()), Contents(), error)
    {
      if paused { return Some(Paused); }
      var g := ReadGuard(id);
      if g.agentVault == ZERO_ADDRESS { return Some(UnknownGuard); }
      if e.sender != g.owner { return Some(NotAgentOwner); }
      guards := guards[id := guards[id].(active := flag)];
      error := None;
    }

    method PostAction(e: Env, id: uint256, actionType: uint8, amount: uint256, nonce: uint64,
                      signature: seq<uint8>)
      returns (error: Option<Error>)
      modifies this
      ensures Performs(DoPostAction(chain, old(Contents()), e, id, actionType, amount, nonce, signature),
                       old(Contents()), Contents(), error)
    {
      if paused { return Some(Paused); }
      var g := ReadGuard(id);
      if g.agentVault == ZERO_ADDRESS { return Some(UnknownGuard); }
      if actionType > ACTION_REDEMPTION_HANDLED { return Some(InvalidActionType); }
      if nonce <= g.lastActionNonce { return Some(InvalidNonce); }
      var digest := GuardDigest(chain.id, id, actionType, amount, nonce);
      var recovered := Recover(chain, digest, signature);
      if recovered.Failure? { return Some(recovered.error); }
      if recovered.value != guardianSigner { return Some(InvalidSignature); }
      guards := guards[id := guards[id].(lastActionNonce := nonce)];
      var rows := if id in actions then actions[id] else [];
      actions := actions[id := rows + [Action(actionType, amount, nonce, Truncate64(e.timestamp))]];
      error := None;
    }
  }
}

/**
 The guardian service: one pass over all guards.  A chain read that is "unread" here is one on which
 withRetry, modelled in Retry, gave up.
 */
module Relay {
  import opened Prelude
  import opened Registry
  import opened Enclave
  import Decimal
  import JsonNumber

  /** What happens to a transaction handed to the wallet: it throws, or it is mined in some block. */
  datatype Write = NotSent | Mined(env: Env, receipt: bool)

  /** Everything outside the service during one pass: the enclave's inputs, and which steps fail. */
  datatype World = World(
    chain: Chain,
    keyEnv: KeyEnv,
    chainEnv: string,
    vaultAnswers: Address -> VaultReads,
    countUnread: bool,
    signerUnread: bool,
    guardUnread: nat -> bool,
    enclaveDown: nat -> bool,
    enclaveGuardUnread: nat -> bool,
    recheckUnread: nat -> bool,
    write: nat -> Write)

  /** The counters behind the health endpoint. */
  datatype Health = Health(guardsWatched: nat, checksPerformed: nat, actionsPosted: nat, teeReachable: bool)

  /** Storage and counters after some part of a pass, and whether the pass was abandoned there. */
  datatype Progress = Progress(storage: Storage, health: Health, thrown: bool)

  /** The enclave's answer about guard id, as the service asks for it. */
  function Ask(w: World, s: Storage, id: uint64): Result<Response, CheckError> {
    var vault := s.GuardAt(id).agentVault;
    var seen := if w.enclaveGuardUnread(id) then None else Some(s.GuardAt(id));
    Check(Request(Some(vault), id), w.vaultAnswers(vault), seen, w.keyEnv, w.chainEnv)
  }

  /** The call the service builds from a signed action; None when a field does not fit the ABI. */
  function CallFor(id: uint64, a: SignedAction): Option<Call> {
    match Decimal.Parse(a.amount)
    case None => None
    case Some(amount) =>
      var nonce := JsonNumber.ToDouble(a.nonce);
      if amount < POW256 && nonce < POW64 then Some(PostAction(id, a.actionType, amount, nonce, a.signature))
      else None
  }

  /** The check before spending gas: next nonce, and the signer read at the start of the pass. */
  predicate PassesRecheck(a: SignedAction, last: uint64, signer: Address) {
    JsonNumber.ToDouble(a.nonce) == last + 1 && a.signer == signer
  }

  function Send(w: World, s: Storage, id: uint64, a: SignedAction, h: Health): Progress {
    match (w.write(id), CallFor(id, a))
    case (Mined(env, receipt), Some(call)) =>
      Progress(After(w.chain, s, env, call),
               if receipt then h.(actionsPosted := h.actionsPosted + 1) else h, false)
    case _ => Progress(s, h, false)
  }

  /** What follows the enclave's answer: re-check nonce and signer, then post. */
  function React(w: World, s: Storage, signer: Address, id: uint64, resp: Response, h: Health): Progress {
    if resp.signed.None? || resp.decision != TopUpRequired then Progress(s, h, false)
    else if w.recheckUnread(id) then Progress(s, h, true)
    else
      var a := resp.signed.value;
      if PassesRecheck(a, s.GuardAt(id).lastActionNonce, signer) then Send(w, s, id, a, h)
      else Progress(s, h, false)
  }

  /** One iteration of the pass. Only a failing nonce re-read abandons the pass. */
  function Visit(w: World, s: Storage, signer: Address, id: uint64, h: Health): Progress {
    if w.guardUnread(id) || !s.GuardAt(id).active then Progress(s, h, false)
    else if w.enclaveDown(id) then Progress(s, h.(teeReachable := false), false)
    else
      match Ask(w, s, id)
      case Failure(_) => Progress(s, h.(teeReachable := false), false)
      case Success(resp) =>
        React(w, s, signer, id, resp, h.(teeReachable := true, checksPerformed := h.checksPerformed + 1))
  }

  /** The rest of the pass, from guard id to guard n. */
  function VisitFrom(w: World, s: Storage, signer: Address, id: nat, n: nat, h: Health): Progress
    requires n < JsonNumber.POW53
    decreases n + 1 - id
  {
    if id > n then Progress(s, h, false)
    else
      var p := Visit(w, s, signer, id, h);
      if p.thrown then p else VisitFrom(w, p.storage, signer, id + 1, n, p.health)
  }

  function Pass(w: World, s: Storage, h: Health): Progress
    requires s.guardCount < JsonNumber.POW53
  {
    if w.countUnread || w.signerUnread then Progress(s, h, true)
    else VisitFrom(w, s, s.guardianSigner, 1, s.guardCount, h.(guardsWatched := s.guardCount))
  }

  /** The service, with the counters of its health endpoint. */
  class GuardianService {
    var guardsWatched: nat
    var checksPerformed: nat
    var actionsPosted: nat
    var teeReachable: bool

    function Counters(): Health
      reads this
    {
      Health(guardsWatched, checksPerformed, actionsPosted, teeReachable)
    }

    /** One pass, with nobody else writing to the registry meanwhile. */
    method Tick(w: World, registry: GuardianRegistry, tee: Extension) returns (thrown: bool)
      requires registry.chain == w.chain && registry.guardCount < JsonNumber.POW53
      modifies this, registry, tee
      ensures Progress(registry.Contents(), Counters(), thrown)
              == Pass(w, old(registry.Contents()), old(Counters()))
    {
      if w.countUnread { return true; }
      var n := registry.guardCount;
      if w.signerUnread { return true; }
      var signer := registry.guardianSigner;
      guardsWatched := n;
      if n == 0 { return false; }
      ghost var goal := Pass(w, registry.Contents(), Counters().(guardsWatched := n));
      var id := 1;
      while id <= n
        invariant 1 <= id <= n + 1
        invariant VisitFrom(w, registry.Contents(), signer, id, n, Counters()) == goal
      {
        var failed := VisitOne(w, registry, tee, signer, id);
        if failed { return true; }
        id := id + 1;
      }
      thrown := false;
    }

    method VisitOne(w: World, registry: GuardianRegistry, tee: Extension, signer: Address, id: uint64)
      returns (thrown: bool)
      requires registry.chain == w.chain
      modifies this, registry, tee
      ensures Progress(registry.Contents(), Counters(), thrown)
              == Visit(w, old(registry.Contents()), signer, id, old(Counters()))
    {
      if w.guardUnread(id) { return false; }
      var g := registry.ReadGuard(id);
      if !g.active { return false; }
      if w.enclaveDown(id) {
        teeReachable := false;
        return false;
      }
      var seen := if w.enclaveGuardUnread(id) then None else Some(g);
      var result := tee.CheckVault(Request(Some(g.agentVault), id), w.vaultAnswers(g.agentVault), seen,
                                   w.keyEnv, w.chainEnv);
      if result.Failure? {
        teeReachable := false;
        return false;
      }
      teeReachable := true;
      checksPerformed := checksPerformed + 1;
      thrown := RelayOne(w, registry, signer, id, result.value);
    }

    method RelayOne(w: World, registry: GuardianRegistry, signer: Address, id: uint64, resp: Response)
      returns (thrown: bool)
      requires registry.chain == w.chain
      modifies this, registry
      ensures Progress(registry.Contents(), Counters(), thrown)
              == React(w, old(registry.Contents()), signer, id, resp, old(Counters()))
    {
      if resp.signed.None? || resp.decision != TopUpRequired { return false; }
      if w.recheckUnread(id) { return true; }
      var again := registry.ReadGuard(id);
      var a := resp.signed.value;
      if JsonNumber.ToDouble(a.nonce) != again.lastActionNonce + 1 { return false; }
      if a.signer != signer { return false; }

      var call := CallFor(id, a);
      if w.write(id).NotSent? || call.None? { return false; }
      var post := call.value;
      var _ := registry.PostAction(w.write(id).env, id, post.actionType, post.amount, post.nonce,
                                   post.signature);
      if w.write(id).receipt {
        actionsPosted := actionsPosted + 1;
      }
      thrown := false;
    }
  }
}

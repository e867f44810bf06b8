/**
 Relay services at work while everybody else writes to the registry too.  A pass is cut into its reads,
 its question to the enclave, its post and the moment the post is mined; between any two of them any
 other move may happen.  Each read returns some past state, and a post may be mined long after the
 service gave up waiting for it, or more than once, or never.
 */
module LiveRelays {
  import opened Prelude
  import opened Registry
  import opened Enclave
  import opened GuardianSystem
  import opened Relay
  import JsonNumber

  /** A service: how many passes it began, what the present one read first, and how far it is. */
  datatype Service = Service(
    passes: nat,
    signer: Address,
    count: nat,
    next: nat,                       // the guard it is at
    holding: Option<SignedAction>)   // the action it was just given for that guard

  /** A post handed to a wallet, and where it came from. */
  datatype Outgoing = Outgoing(service: nat, pass: nat, id: uint64, action: SignedAction, call: Call)

  datatype Live = Live(sys: System, services: seq<Service>, outbox: seq<Outgoing>)

  datatype Move =
    | Elsewhere(step: Step)
    | Begin(r: nat, countRead: nat, signerRead: nat)
    | PassOver(r: nat)               // a read, the enclave or the wallet failed, or the guard is inactive
    | Question(r: nat, guardRead: nat, read: nat, answers: VaultReads, keyEnv: KeyEnv, chainEnv: string)
    | Post(r: nat, freshRead: nat)   // re-check, and hand to the wallet if it passes
    | Abandon(r: nat)                // the re-read failed, which ends the pass
    | Mine(k: nat, env: Env)

  function Start(owner: Address, services: nat): Live {
    Live(Genesis(owner), seq(services, _ => Service(0, ZERO_ADDRESS, 0, 1, None)), [])
  }

  predicate Busy(s: Service) {
    s.next <= s.count < JsonNumber.POW53
  }

  predicate BusyAt(live: Live, r: nat) {
    r < |live.services| && Busy(live.services[r])
  }

  predicate Enabled(live: Live, move: Move) {
    var history := live.sys.history;
    match move
    case Elsewhere(_) => true
    case Begin(r, countRead, signerRead) =>
      && r < |live.services| && !Busy(live.services[r])
      && countRead < |history| && history[countRead].guardCount < JsonNumber.POW53
      && signerRead < |history|
    case PassOver(r) => BusyAt(live, r)
    case Question(r, guardRead, _, _, _, _) =>
      && BusyAt(live, r) && live.services[r].holding == None
      && guardRead < |history| && history[guardRead].GuardAt(live.services[r].next).active
    case Post(r, freshRead) =>
      BusyAt(live, r) && live.services[r].holding.Some? && freshRead < |history|
    case Abandon(r) => BusyAt(live, r) && live.services[r].holding.Some?
    case Mine(k, _) => k < |live.outbox|
  }

  /** What a move is for the system, if anything. */
  function StepOf(live: Live, move: Move): Option<Step>
    requires Enabled(live, move)
  {
    match move
    case Elsewhere(step) => Some(step)
    case Question(r, guardRead, read, answers, keyEnv, chainEnv) =>
      var id := live.services[r].next;
      var vault := live.sys.history[guardRead].GuardAt(id).agentVault;
      Some(GuardCheck(read, Enclave.Request(Some(vault), id), answers, keyEnv, chainEnv))
    case Mine(k, env) => Some(Transact(env, live.outbox[k].call))
    case _ => None
  }

  function MovedOn(s: Service): Service {
    s.(next := s.next + 1, holding := None)
  }

  /** The service that moves, afterwards. */
  function Served(live: Live, move: Move): seq<Service>
    requires Enabled(live, move)
  {
    var services, history := live.services, live.sys.history;
    match move
    case Begin(r, countRead, signerRead) =>
      services[r := Service(services[r].passes + 1, history[signerRead].guardianSigner,
                            history[countRead].guardCount, 1, None)]
    case PassOver(r) => services[r := MovedOn(services[r])]
    case Question(r, _, _, _, _, _) =>
      services[r := match Signing(live.sys, StepOf(live, move).value)
                    case Some(event) => services[r].(holding := Some(event.signed))
                    case None => MovedOn(services[r])]
    case Post(r, _) => services[r := MovedOn(services[r])]
    case Abandon(r) => services[r := services[r].(next := services[r].count + 1, holding := None)]
    case _ => services
  }

  /** The post a move hands to a wallet, if any. */
  function Sends(live: Live, move: Move): seq<Outgoing>
    requires Enabled(live, move)
  {
    match move
    case Post(r, freshRead) =>
      var s := live.services[r];
      var a := s.holding.value;
      if !PassesRecheck(a, live.sys.history[freshRead].GuardAt(s.next).lastActionNonce, s.signer) then []
      else
        (match CallFor(s.next, a)
         case Some(call) => [Outgoing(r, s.passes, s.next, a, call)]
         case None => [])
    case _ => []
  }

  /** One move; a move that is not enabled changes nothing. */
  function Perform(c: Chain, live: Live, move: Move): (next: Live)
    requires live.sys.history != []
    ensures next.sys.history != []
  {
    if !Enabled(live, move) then live
    else
      Live(match StepOf(live, move) case Some(step) => Next(c, live.sys, step) case None => live.sys,
           Served(live, move), live.outbox + Sends(live, move))
  }

  function PerformAll(c: Chain, live: Live, moves: seq<Move>): (end: Live)
    requires live.sys.history != []
    ensures end.sys.history != []
    decreases |moves|
  {
    if moves == [] then live else PerformAll(c, Perform(c, live, moves[0]), moves[1..])
  }

  /** The system's steps among the moves. */
  function Trace(c: Chain, live: Live, moves: seq<Move>): seq<Step>
    requires live.sys.history != []
    decreases |moves|
  {
    if moves == [] then []
    else StepsOf(live, moves[0]) + Trace(c, Perform(c, live, moves[0]), moves[1..])
  }

  function StepsOf(live: Live, move: Move): seq<Step> {
    if !Enabled(live, move) then []
    else match StepOf(live, move) case Some(step) => [step] case None => []
  }
}

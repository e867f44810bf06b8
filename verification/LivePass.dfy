/** The undisturbed pass of Relay as one of the interleavings of LiveRelays: every read is current. */
module LivePass {
  import opened Prelude
  import opened Registry
  import opened Enclave
  import opened GuardianSystem
  import opened Relay
  import opened RelayRuns
  import opened Pipeline
  import opened LiveRelays
  import JsonNumber

  /** Service r is at guard id of n, with this signer and nothing in hand. */
  predicate At(live: Live, r: nat, signer: Address, id: nat, n: nat) {
    && r < |live.services| && n < JsonNumber.POW53
    && live.services[r].(passes := 0) == Service(0, signer, n, id, None)
  }

  function Present(live: Live): nat
    requires live.sys.history != []
  {
    |live.sys.history| - 1
  }

  /** What follows an answer about guard id: the re-check and the post, mined at once. */
  function ReplyMoves(w: World, live: Live, r: nat, signer: Address, id: uint64, resp: Response): seq<Move>
    requires live.sys.history != []
  {
    var posts := PostSteps(w, Now(live.sys), signer, id, resp);
    if resp.signed.None? then []
    else if w.recheckUnread(id) then [Abandon(r)]
    else if posts != [] && posts[0].Transact? then [Post(r, Present(live)), Mine(|live.outbox|, posts[0].env)]
    else [PassOver(r)]
  }

  function Asks(w: World, live: Live, r: nat, id: uint64): Move
    requires live.sys.history != []
  {
    Question(r, Present(live), Present(live), w.vaultAnswers(Now(live.sys).GuardAt(id).agentVault),
             w.keyEnv, w.chainEnv)
  }

  function VisitMoves(w: World, live: Live, r: nat, signer: Address, id: uint64): seq<Move>
    requires live.sys.history != []
  {
    if !Answers(w, Now(live.sys), id) then [PassOver(r)]
    else [Asks(w, live, r, id)] + ReplyMoves(w, live, r, signer, id, Ask(w, Now(live.sys), id).value)
  }

  lemma {:induction false} PerformConcat(c: Chain, live: Live, a: seq<Move>, b: seq<Move>)
    requires live.sys.history != []
    ensures PerformAll(c, live, a + b) == PerformAll(c, PerformAll(c, live, a), b)
    decreases |a|
  {
    if a == [] {
      assert a + b == b;
    } else {
      assert (a + b)[1..] == a[1..] + b;
      PerformConcat(c, Perform(c, live, a[0]), a[1..], b);
    }
  }

  lemma OneMove(c: Chain, live: Live, move: Move)
    requires live.sys.history != []
    ensures PerformAll(c, live, [move]) == Perform(c, live, move)
  {
    assert [move][1..] == [] && PerformAll(c, Perform(c, live, move), []) == Perform(c, live, move);
  }

  /** The question is the pipeline's request, and the service then holds what the answer signed. */
  lemma Asked(w: World, live: Live, r: nat, signer: Address, id: nat, n: nat)
    requires live.sys.history != [] && At(live, r, signer, id, n) && id <= n && Answers(w, Now(live.sys), id)
    ensures var next := Perform(w.chain, live, Asks(w, live, r, id));
      var signed := Ask(w, Now(live.sys), id).value.signed;
      && next.sys == Next(w.chain, live.sys, RequestStep(w, live.sys, id))
      && next.outbox == live.outbox
      && next.services == live.services[r := if signed.Some? then live.services[r].(holding := signed)
                                             else MovedOn(live.services[r])]
  {
    RequestAnswered(w, live.sys, id);
    assert StepOf(live, Asks(w, live, r, id)) == Some(RequestStep(w, live.sys, id));
  }

  /** Reply moves do to the registry what the pipeline's post steps do, and the service moves on. */
  lemma Replied(w: World, live: Live, r: nat, signer: Address, id: nat, n: nat, resp: Response)
    requires live.sys.history != [] && id <= n && resp.signed.Some? && resp.decision == TopUpRequired
    requires r < |live.services| && n < JsonNumber.POW53
    requires live.services[r].(passes := 0) == Service(0, signer, n, id, resp.signed)
    ensures var next := PerformAll(w.chain, live, ReplyMoves(w, live, r, signer, id, resp));
      && next.sys == Run(w.chain, live.sys, PostSteps(w, Now(live.sys), signer, id, resp))
      && next.services
         == live.services[r := if w.recheckUnread(id) then live.services[r].(next := n + 1, holding := None)
                               else MovedOn(live.services[r])]
  {
    var c, posts := w.chain, PostSteps(w, Now(live.sys), signer, id, resp);
    ReactPosts(w, Now(live.sys), signer, id, resp, Health(0, 0, 0, false));
    if w.recheckUnread(id) {
      OneMove(c, live, Abandon(r));
    } else if posts == [] {
      OneMove(c, live, PassOver(r));
    } else {
      Posted(w, live, r, signer, id, n, resp);
    }
  }

  lemma HandedOver(w: World, live: Live, r: nat, signer: Address, id: nat, n: nat, resp: Response)
    requires live.sys.history != [] && id <= n && resp.signed.Some?
    requires r < |live.services| && n < JsonNumber.POW53
    requires live.services[r].(passes := 0) == Service(0, signer, n, id, resp.signed)
    requires PostSteps(w, Now(live.sys), signer, id, resp) != []
    ensures var post, steps := Post(r, Present(live)), PostSteps(w, Now(live.sys), signer, id, resp);
      && |steps| == 1 && steps[0].Transact? && Enabled(live, post)
      && |Sends(live, post)| == 1 && Sends(live, post)[0].call == steps[0].call
      && Served(live, post) == live.services[r := MovedOn(live.services[r])]
  {
  }

  lemma Posted(w: World, live: Live, r: nat, signer: Address, id: nat, n: nat, resp: Response)
    requires live.sys.history != [] && id <= n && resp.signed.Some? && resp.decision == TopUpRequired
    requires r < |live.services| && n < JsonNumber.POW53 && !w.recheckUnread(id)
    requires live.services[r].(passes := 0) == Service(0, signer, n, id, resp.signed)
    requires PostSteps(w, Now(live.sys), signer, id, resp) != []
    ensures var posts := PostSteps(w, Now(live.sys), signer, id, resp);
      && posts[0].Transact?
      && var next := PerformAll(w.chain, live, [Post(r, Present(live)), Mine(|live.outbox|, posts[0].env)]);
      && next.sys == Run(w.chain, live.sys, posts)
      && next.services == live.services[r := MovedOn(live.services[r])]
  {
    var c, posts := w.chain, PostSteps(w, Now(live.sys), signer, id, resp);
    var mine := Mine(|live.outbox|, posts[0].env);
    HandedOver(w, live, r, signer, id, n, resp);
    var sent := Perform(c, live, Post(r, Present(live)));
    assert [Post(r, Present(live)), mine][1..] == [mine];
    OneMove(c, sent, mine);
    assert posts == [posts[0]] && [posts[0]][1..] == [];
    assert Run(c, Next(c, live.sys, posts[0]), []) == Next(c, live.sys, posts[0]);
  }

  lemma NotAsked(w: World, live: Live, r: nat, signer: Address, id: nat, n: nat)
    requires live.sys.history != [] && At(live, r, signer, id, n) && id <= n
    ensures PerformAll(w.chain, live, [PassOver(r)])
            == live.(services := live.services[r := MovedOn(live.services[r])])
  {
    OneMove(w.chain, live, PassOver(r));
  }

  /** A signed answer, and an abandoned pass, told by Signs and Stops. */
  lemma AnswerSays(w: World, s: Storage, id: uint64)
    requires Answers(w, s, id)
    ensures var resp := Ask(w, s, id).value;
      && (resp.signed.Some? ==> resp.decision == TopUpRequired)
      && (Stops(w, s, id) <==> resp.signed.Some? && w.recheckUnread(id))
  {
    AskSigns(w, s, id);
    SignedMeansDanger(w, s, id);
  }

  lemma NoAnswerNoStop(w: World, s: Storage, id: uint64)
    requires !Answers(w, s, id)
    ensures !Stops(w, s, id)
  {
    if !w.guardUnread(id) && s.GuardAt(id).active && !w.enclaveDown(id) {
      AskSigns(w, s, id);
    }
  }

  /** From where the service got its answer, the rest of the visit. */
  lemma AfterAnswer(w: World, asked: Live, r: nat, signer: Address, id: nat, n: nat, resp: Response)
    requires asked.sys.history != [] && id <= n < JsonNumber.POW53 && r < |asked.services|
    requires resp.signed.Some? ==> resp.decision == TopUpRequired
    requires asked.services[r].(passes := 0)
             == if resp.signed.Some? then Service(0, signer, n, id, resp.signed)
                else Service(0, signer, n, id + 1, None)
    ensures var next := PerformAll(w.chain, asked, ReplyMoves(w, asked, r, signer, id, resp));
      && next.sys == Run(w.chain, asked.sys, PostSteps(w, Now(asked.sys), signer, id, resp))
      && At(next, r, signer, if resp.signed.Some? && w.recheckUnread(id) then n + 1 else id + 1, n)
  {
    if resp.signed.Some? {
      Replied(w, asked, r, signer, id, n, resp);
    } else {
      assert ReplyMoves(w, asked, r, signer, id, resp) == [];
    }
  }

  lemma AskedThere(w: World, live: Live, r: nat, signer: Address, id: nat, n: nat, asked: Live)
    requires live.sys.history != [] && At(live, r, signer, id, n) && id <= n && Answers(w, Now(live.sys), id)
    requires asked == PerformAll(w.chain, live, [Asks(w, live, r, id)])
    ensures var signed := Ask(w, Now(live.sys), id).value.signed;
      && asked.sys == Next(w.chain, live.sys, RequestStep(w, live.sys, id))
      && asked.sys.history == live.sys.history && asked.outbox == live.outbox && r < |asked.services|
      && asked.services[r].(passes := 0)
         == if signed.Some? then Service(0, signer, n, id, signed) else Service(0, signer, n, id + 1, None)
  {
    OneMove(w.chain, live, Asks(w, live, r, id));
    Asked(w, live, r, signer, id, n);
  }

  lemma ReplySame(w: World, live: Live, asked: Live, r: nat, signer: Address, id: uint64, resp: Response)
    requires live.sys.history != [] && asked.sys.history == live.sys.history && asked.outbox == live.outbox
    ensures ReplyMoves(w, asked, r, signer, id, resp) == ReplyMoves(w, live, r, signer, id, resp)
  {
  }

  lemma AnsweredVisit(w: World, live: Live, r: nat, signer: Address, id: nat, n: nat)
    requires live.sys.history != [] && At(live, r, signer, id, n) && id <= n && Answers(w, Now(live.sys), id)
    ensures var next := PerformAll(w.chain, live, VisitMoves(w, live, r, signer, id));
      && next.sys == Run(w.chain, live.sys, VisitSteps(w, live.sys, signer, id))
      && At(next, r, signer, if Stops(w, Now(live.sys), id) then n + 1 else id + 1, n)
  {
    var c, resp := w.chain, Ask(w, Now(live.sys), id).value;
    var ask, reply := Asks(w, live, r, id), ReplyMoves(w, live, r, signer, id, resp);
    var asked := PerformAll(c, live, [ask]);
    AskedThere(w, live, r, signer, id, n, asked);
    AnswerSays(w, Now(live.sys), id);
    ReplySame(w, live, asked, r, signer, id, resp);
    AfterAnswer(w, asked, r, signer, id, n, resp);
    PerformConcat(c, live, [ask], reply);
    AskThenPost(c, live.sys, RequestStep(w, live.sys, id), PostSteps(w, Now(live.sys), signer, id, resp));
  }

  /** One visit: the same system, and the service at the next guard or at the end of its pass. */
  lemma VisitIsLive(w: World, live: Live, r: nat, signer: Address, id: nat, n: nat)
    requires live.sys.history != [] && At(live, r, signer, id, n) && id <= n
    ensures var next := PerformAll(w.chain, live, VisitMoves(w, live, r, signer, id));
      && next.sys == Run(w.chain, live.sys, VisitSteps(w, live.sys, signer, id))
      && At(next, r, signer, if Stops(w, Now(live.sys), id) then n + 1 else id + 1, n)
  {
    if Answers(w, Now(live.sys), id) {
      AnsweredVisit(w, live, r, signer, id, n);
    } else {
      NotAsked(w, live, r, signer, id, n);
      NoAnswerNoStop(w, Now(live.sys), id);
    }
  }

  lemma AskThenPost(c: Chain, sys: System, ask: Step, posts: seq<Step>)
    requires sys.history != []
    ensures Run(c, sys, [ask] + posts) == Run(c, Next(c, sys, ask), posts)
  {
    assert ([ask] + posts)[1..] == posts;
  }

  /** The moves of the rest of the pass. */
  function MovesFrom(w: World, live: Live, r: nat, signer: Address, id: nat, n: nat): seq<Move>
    requires live.sys.history != [] && n < JsonNumber.POW53
    decreases n + 1 - id
  {
    if id > n then []
    else
      var first := VisitMoves(w, live, r, signer, id);
      first + if Stops(w, Now(live.sys), id) then []
              else MovesFrom(w, PerformAll(w.chain, live, first), r, signer, id + 1, n)
  }

  lemma LastVisit(w: World, live: Live, r: nat, signer: Address, id: nat, n: nat)
    requires live.sys.history != [] && id <= n < JsonNumber.POW53 && Stops(w, Now(live.sys), id)
    ensures MovesFrom(w, live, r, signer, id, n) == VisitMoves(w, live, r, signer, id)
    ensures StepsFrom(w, live.sys, signer, id, n) == VisitSteps(w, live.sys, signer, id)
  {
  }

  lemma FurtherVisits(w: World, live: Live, r: nat, signer: Address, id: nat, n: nat, next: Live, end: Live)
    requires live.sys.history != [] && id <= n < JsonNumber.POW53 && !Stops(w, Now(live.sys), id)
    requires next == PerformAll(w.chain, live, VisitMoves(w, live, r, signer, id))
    requires next.sys == Run(w.chain, live.sys, VisitSteps(w, live.sys, signer, id))
    requires end == PerformAll(w.chain, next, MovesFrom(w, next, r, signer, id + 1, n))
    requires end.sys == Run(w.chain, next.sys, StepsFrom(w, next.sys, signer, id + 1, n))
    ensures PerformAll(w.chain, live, MovesFrom(w, live, r, signer, id, n)) == end
    ensures Run(w.chain, live.sys, StepsFrom(w, live.sys, signer, id, n)) == end.sys
  {
    PerformConcat(w.chain, live, VisitMoves(w, live, r, signer, id), MovesFrom(w, next, r, signer, id + 1, n));
    RunConcat(w.chain, live.sys, VisitSteps(w, live.sys, signer, id),
              StepsFrom(w, next.sys, signer, id + 1, n));
  }

  lemma {:induction false} VisitsAreLive(w: World, live: Live, r: nat, signer: Address, id: nat, n: nat)
    requires live.sys.history != [] && At(live, r, signer, id, n)
    ensures PerformAll(w.chain, live, MovesFrom(w, live, r, signer, id, n)).sys
            == Run(w.chain, live.sys, StepsFrom(w, live.sys, signer, id, n))
    decreases n + 1 - id
  {
    if id <= n {
      VisitIsLive(w, live, r, signer, id, n);
      if Stops(w, Now(live.sys), id) {
        LastVisit(w, live, r, signer, id, n);
      } else {
        var next := PerformAll(w.chain, live, VisitMoves(w, live, r, signer, id));
        VisitsAreLive(w, next, r, signer, id + 1, n);
        FurtherVisits(w, live, r, signer, id, n, next,
                      PerformAll(w.chain, next, MovesFrom(w, next, r, signer, id + 1, n)));
      }
    }
  }

  function PassMoves(w: World, live: Live, r: nat): seq<Move>
    requires live.sys.history != [] && Now(live.sys).guardCount < JsonNumber.POW53
  {
    if w.countUnread || w.signerUnread then []
    else
      var begin := Begin(r, Present(live), Present(live));
      [begin] + MovesFrom(w, Perform(w.chain, live, begin), r, Now(live.sys).guardianSigner, 1,
                          Now(live.sys).guardCount)
  }

  lemma Begun(w: World, live: Live, r: nat, begin: Move)
    requires live.sys.history != [] && Now(live.sys).guardCount < JsonNumber.POW53
    requires r < |live.services| && !Busy(live.services[r])
    requires begin == Begin(r, Present(live), Present(live))
    ensures var begun := Perform(w.chain, live, begin);
      begun.sys == live.sys && At(begun, r, Now(live.sys).guardianSigner, 1, Now(live.sys).guardCount)
  {
  }

  /** The moves of a pass do to the system what its steps do. */
  lemma PassMovesAreSteps(w: World, live: Live, r: nat)
    requires live.sys.history != [] && Now(live.sys).guardCount < JsonNumber.POW53
    requires r < |live.services| && !Busy(live.services[r])
    ensures PerformAll(w.chain, live, PassMoves(w, live, r)).sys == Run(w.chain, live.sys, PassSteps(w, live.sys))
  {
    if !w.countUnread && !w.signerUnread {
      var c, signer, n := w.chain, Now(live.sys).guardianSigner, Now(live.sys).guardCount;
      var begin := Begin(r, Present(live), Present(live));
      var begun := Perform(c, live, begin);
      Begun(w, live, r, begin);
      VisitsAreLive(w, begun, r, signer, 1, n);
      OneMove(c, live, begin);
      PerformConcat(c, live, [begin], MovesFrom(w, begun, r, signer, 1, n));
    }
  }

  /**
   What the theorems about single passes say is said of one interleaving among all: a pass with nobody
   in between, by any service that is idle, leaves the storage that Pass computes.
   */
  lemma PassIsLive(w: World, live: Live, r: nat, h: Health)
    requires live.sys.history != [] && Now(live.sys).guardCount < JsonNumber.POW53
    requires r < |live.services| && !Busy(live.services[r]) && Selects(w.chainEnv, w.chain.id)
    ensures Now(PerformAll(w.chain, live, PassMoves(w, live, r)).sys) == Pass(w, Now(live.sys), h).storage
  {
    SelectsOne(w.chainEnv, w.chain.id);
    PassMovesAreSteps(w, live, r);
    PassIsRun(w, live.sys, h);
  }
}

/** What one registration attempt may do and when it succeeds, and where the effects of a series come from. */
module RegistrationEffects {
  import opened Prelude
  import opened Registration
  import opened RegistrationRuns

  /** The reply of this attempt's world to a step; pre-registration or, once registered, a fresh attestation. */
  predicate Allows(o: Attempt, step: char, output: uint256) {
    match step
    case 'r' => Makes(if o.registered then o.freshAttestation else o.preRegister, output)
    case 'R' => Makes(o.attest, output)
    case 'a' => o.policyConsistent && Makes(o.check, output)
    case 'p' => !o.promote.Refused? && output == 0
    case _ => false
  }

  /** An effect this attempt can have: of a step selected, by an attempt that is ready and not refused. */
  predicate CanDo(command: string, o: Attempt, e: Effect) {
    o.ready && e.step in command && Allows(o, e.step, e.output)
  }

  /** Everything newly done is something the attempt can do. */
  ghost predicate Licit(command: string, o: Attempt, before: seq<Effect>, after: seq<Effect>) {
    before <= after && forall i | |before| <= i < |after| :: CanDo(command, o, after[i])
  }

  lemma LicitMore(command: string, o: Attempt, before: seq<Effect>, after: seq<Effect>, e: Effect)
    requires Licit(command, o, before, after) && CanDo(command, o, e)
    ensures Licit(command, o, before, after + [e])
  {
  }

  lemma AttestationLicit(command: string, s: Session, o: Attempt, before: seq<Effect>, step: char,
                         reply: Reply<uint256>, write: Write)
    requires Licit(command, o, before, s.log) && (!s.failed ==> o.ready)
    requires (step == 'r' && reply == Registered(o)) || (step == 'R' && reply == o.attest)
    ensures var t := AttestationStep(s, command, step, reply, write);
      Licit(command, o, before, t.log) && (!t.failed ==> o.ready)
  {
    if !s.failed && step in command && step !in s.saved.completed && !reply.Refused? {
      LicitMore(command, o, before, s.log, Effect(step, 0, reply.value));
    }
  }

  lemma CheckLicit(command: string, argument: uint256, s: Session, o: Attempt, before: seq<Effect>)
    requires Licit(command, o, before, s.log) && (!s.failed ==> o.ready)
    ensures var t := CheckStep(s, command, argument, o);
      Licit(command, o, before, t.log) && (!t.failed ==> o.ready)
  {
    if !s.failed && 'a' in command && 'a' !in s.saved.completed && o.policyConsistent && !o.check.Refused? {
      LicitMore(command, o, before, s.log, Effect('a', s.attestId, o.check.value));
    }
  }

  lemma PromoteLicit(command: string, s: Session, o: Attempt, before: seq<Effect>)
    requires Licit(command, o, before, s.log) && (!s.failed ==> o.ready)
    ensures Licit(command, o, before, PromoteStep(s, command, o).log)
  {
    if !s.failed && 'p' in command && !o.promote.Refused? {
      LicitMore(command, o, before, s.log, Effect('p', s.instructionId, 0));
    }
  }

  /**
   An attempt does only what is selected, what its world does not refuse and, for the availability check,
   what the policy pre-flight lets through.  One that is not ready, or finds a torn file, does nothing.
   */
  lemma TryIsLicit(command: string, argument: uint256, file: File, log: seq<Effect>, o: Attempt)
    ensures Licit(command, o, log, Try(command, argument, file, log, o).log)
    ensures !o.ready || file.Torn? ==>
      var t := Try(command, argument, file, log, o);
      t.failed && t.log == log && t.file == file
  {
    var s0 := Open(file, log, o.ready);
    var s1 := AttestationStep(s0, command, 'r', Registered(o), o.saves('r'));
    var s2 := AttestationStep(s1, command, 'R', o.attest, o.saves('R'));
    AttestationLicit(command, s0, o, log, 'r', Registered(o), o.saves('r'));
    AttestationLicit(command, s1, o, log, 'R', o.attest, o.saves('R'));
    CheckLicit(command, argument, s2, o, log);
    PromoteLicit(command, CheckStep(s2, command, argument, o), o, log);
  }

  /** The pre-flight by itself: no check is sent for an inconsistent policy, and one still to be sent fails. */
  lemma InconsistentPolicyStops(command: string, argument: uint256, file: File, log: seq<Effect>, o: Attempt)
    requires !o.policyConsistent
    ensures var t := Try(command, argument, file, log, o);
      && log <= t.log && (forall i | |log| <= i < |t.log| :: t.log[i].step != 'a')
      && ('a' in command && 'a' !in Load(file).completed ==> t.failed)
  {
    var t := Try(command, argument, file, log, o);
    TryIsLicit(command, argument, file, log, o);
    forall i | |log| <= i < |t.log|
      ensures t.log[i].step != 'a'
    {
      assert CanDo(command, o, t.log[i]);
    }
    SucceedsIff(command, argument, file, log, o);
  }

  /** A selected step not yet saved goes through. */
  predicate GoesThrough(command: string, done: string, step: char, ok: bool) {
    step in command && step !in done ==> ok
  }

  /** Exactly when an attempt succeeds. */
  lemma SucceedsIff(command: string, argument: uint256, file: File, log: seq<Effect>, o: Attempt)
    ensures var done := Load(file).completed;
      !Try(command, argument, file, log, o).failed
      <==> && o.ready && !file.Torn?
           && GoesThrough(command, done, 'r', (if o.registered then o.freshAttestation else o.preRegister).Acked?)
           && GoesThrough(command, done, 'R', o.attest.Acked?)
           && GoesThrough(command, done, 'a', o.policyConsistent && o.check.Acked?)
           && ('p' in command ==> o.promote.Acked?)
  {
    var done := Load(file).completed;
    var s0 := Open(file, log, o.ready);
    var s1 := AttestationStep(s0, command, 'r', Registered(o), o.saves('r'));
    var s2 := AttestationStep(s1, command, 'R', o.attest, o.saves('R'));
    AttestationFails(s0, command, 'r', Registered(o), o.saves('r'));
    AttestationFails(s1, command, 'R', o.attest, o.saves('R'));
    CheckFails(s2, command, argument, o);
  }

  lemma AttestationFails(s: Session, command: string, step: char, reply: Reply<uint256>, write: Write)
    ensures var t := AttestationStep(s, command, step, reply, write);
      && (t.failed <==> s.failed || !GoesThrough(command, s.saved.completed, step, reply.Acked?))
      && forall other: char | other != step :: other in t.saved.completed <==> other in s.saved.completed
  {
  }

  lemma CheckFails(s: Session, command: string, argument: uint256, o: Attempt)
    ensures var t := CheckStep(s, command, argument, o);
      t.failed <==> s.failed || !GoesThrough(command, s.saved.completed, 'a', o.policyConsistent && o.check.Acked?)
  {
  }

  // ---- series ----

  /** The file and the effects after the first n attempts. */
  function After(command: string, argument: uint256, file: File, log: seq<Effect>, os: seq<Attempt>, n: nat)
    : (File, seq<Effect>)
    requires n <= |os|
    decreases n
  {
    if n == 0 then (file, log)
    else
      var t := Try(command, argument, file, log, os[0]);
      After(command, argument, t.file, t.log, os[1..], n - 1)
  }

  /** Effect i of the series was made in attempt j, which could make it. */
  ghost predicate MadeIn(command: string, argument: uint256, file: File, log: seq<Effect>, os: seq<Attempt>,
                         end: seq<Effect>, i: nat, j: nat) {
    && j < |os| && i < |end| && CanDo(command, os[j], end[i])
    && |After(command, argument, file, log, os, j).1| <= i < |After(command, argument, file, log, os, j + 1).1|
  }

  lemma MadeLater(command: string, argument: uint256, file: File, log: seq<Effect>, os: seq<Attempt>,
                  end: seq<Effect>, i: nat, j: nat)
    requires os != []
    requires var t := Try(command, argument, file, log, os[0]);
      MadeIn(command, argument, t.file, t.log, os[1..], end, i, j)
    ensures MadeIn(command, argument, file, log, os, end, i, j + 1)
  {
  }

  lemma {:induction false} SeriesGrows(command: string, argument: uint256, file: File, log: seq<Effect>,
                                       os: seq<Attempt>)
    requires os != []
    ensures log <= Series(command, argument, file, log, os).log
    decreases |os|
  {
    var t := Try(command, argument, file, log, os[0]);
    TryIsLicit(command, argument, file, log, os[0]);
    if |os| > 1 {
      SeriesGrows(command, argument, t.file, t.log, os[1..]);
    }
  }

  /**
   Every effect of a series, whatever its outcome, was made in an attempt that was ready, for a step it
   selects and its world did not refuse; every availability check in one whose policy was consistent.
   */
  lemma {:induction false} EffectsMade(command: string, argument: uint256, file: File, log: seq<Effect>,
                                       os: seq<Attempt>, i: nat)
    requires os != [] && |log| <= i < |Series(command, argument, file, log, os).log|
    ensures exists j: nat ::
      MadeIn(command, argument, file, log, os, Series(command, argument, file, log, os).log, i, j)
    decreases |os|
  {
    var t, end := Try(command, argument, file, log, os[0]), Series(command, argument, file, log, os).log;
    TryIsLicit(command, argument, file, log, os[0]);
    if i < |t.log| {
      if |os| > 1 {
        SeriesGrows(command, argument, t.file, t.log, os[1..]);
      }
      assert t.log <= end && end[i] == t.log[i];
      assert After(command, argument, t.file, t.log, os[1..], 0) == (t.file, t.log);
      assert MadeIn(command, argument, file, log, os, end, i, 0);
    } else {
      EffectsMade(command, argument, t.file, t.log, os[1..], i);
      var j: nat :| MadeIn(command, argument, t.file, t.log, os[1..], end, i, j);
      MadeLater(command, argument, file, log, os, end, i, j);
    }
  }

  // ---- the file ----

  /** The file names this step and its id. */
  predicate Remembers(file: File, e: Effect) {
    file.Intact? && e.step in file.saved.completed
    && e.output == if e.step == 'a' then file.saved.instructionId else file.saved.attestId
  }

  /** Untouched as long as nothing was done; then as the last acknowledged effect's save left it. */
  ghost predicate FileFollows(file: File, log: seq<Effect>, o: Attempt, s: Session) {
    && log <= s.log
    && (s.log == log ==> s.file == file)
    && (s.log != log && Acknowledged(o, s.log[|s.log| - 1].step) ==>
          var e := s.log[|s.log| - 1];
          (o.saves(e.step).Written? ==> Remembers(s.file, e)) && (o.saves(e.step).CutShort? ==> s.file.Torn?))
  }

  lemma AttestationFollows(file: File, log: seq<Effect>, command: string, s: Session, o: Attempt, step: char,
                           reply: Reply<uint256>)
    requires FileFollows(file, log, o, s) && step != 'a' && (reply.Acked? <==> Acknowledged(o, step))
    ensures FileFollows(file, log, o, AttestationStep(s, command, step, reply, o.saves(step)))
  {
  }

  lemma CheckFollows(file: File, log: seq<Effect>, command: string, argument: uint256, s: Session, o: Attempt)
    requires FileFollows(file, log, o, s)
    ensures FileFollows(file, log, o, CheckStep(s, command, argument, o))
  {
  }

  lemma RecordedFollows(command: string, argument: uint256, file: File, log: seq<Effect>, o: Attempt)
    ensures FileFollows(file, log, o, Recorded(command, argument, file, log, o))
  {
    var s0 := Open(file, log, o.ready);
    var s1 := AttestationStep(s0, command, 'r', Registered(o), o.saves('r'));
    AttestationFollows(file, log, command, s0, o, 'r', Registered(o));
    AttestationFollows(file, log, command, s1, o, 'R', o.attest);
    CheckFollows(file, log, command, argument, AttestationStep(s1, command, 'R', o.attest, o.saves('R')), o);
  }

  lemma PromoteFollows(file: File, log: seq<Effect>, command: string, s: Session, o: Attempt)
    requires FileFollows(file, log, o, s)
    ensures var t := PromoteStep(s, command, o);
      && (t.failed ==> FileFollows(file, log, o, t))
      && (t.log == log ==> t.file == file)
  {
    PromoteEffect(s, command, o);
  }

  /**
   The state file after an attempt.  A save that was written leaves the step with its id, one that was cut
   short leaves a torn file, and an attempt without effects leaves the file alone; success deletes it.
   */
  lemma FileAfterTry(command: string, argument: uint256, file: File, log: seq<Effect>, o: Attempt)
    ensures var t := Try(command, argument, file, log, o);
      && (t.failed ==> FileFollows(file, log, o, t))
      && (!t.failed && o.removes ==> t.file == Absent)
      && (!t.failed && !o.removes && t.log == log ==> t.file == file)
  {
    RecordedFollows(command, argument, file, log, o);
    PromoteFollows(file, log, command, Recorded(command, argument, file, log, o), o);
  }
}

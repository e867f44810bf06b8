/** A series of failing and resumed registration attempts amounts to one uninterrupted run. */
module RegistrationRuns {
  import opened Prelude
  import opened Registration

  /** The recorded steps a command selects, in order. */
  function Plan(command: string): string {
    Upto(command, 3)
  }

  /** The selected steps among the first n of r, R, a. */
  function Upto(command: string, n: nat): string {
    (if n >= 1 && 'r' in command then "r" else "")
    + (if n >= 2 && 'R' in command then "R" else "")
    + (if n >= 3 && 'a' in command then "a" else "")
  }

  function Promotion(command: string): string {
    if 'p' in command then "p" else ""
  }

  function Steps(log: seq<Effect>): string {
    seq(|log|, i requires 0 <= i < |log| => log[i].step)
  }

  /** The state that a log of successful steps leaves behind. */
  function Memory(log: seq<Effect>): Saved {
    if log == [] then Saved("", 0, 0)
    else
      var m, e := Memory(log[..|log| - 1]), log[|log| - 1];
      if e.step == 'a' then Saved(m.completed + [e.step], m.attestId, e.output)
      else Saved(m.completed + [e.step], e.output, m.instructionId)
  }

  /** Every availability check was given the id of the attestation before it, other steps nothing. */
  predicate WellFed(log: seq<Effect>) {
    forall i | 0 <= i < |log| ::
      log[i].input == if log[i].step == 'a' then Memory(log[..i]).attestId else 0
  }

  lemma {:induction false} MemoryCompleted(log: seq<Effect>)
    ensures Memory(log).completed == Steps(log)
  {
    if log != [] {
      MemoryCompleted(log[..|log| - 1]);
    }
  }

  lemma MemoryAppend(log: seq<Effect>, e: Effect)
    ensures Memory(log + [e]).completed == Memory(log).completed + [e.step]
    ensures e.step == 'a' ==> Memory(log + [e]) == Saved(Memory(log).completed + ['a'], Memory(log).attestId, e.output)
    ensures e.step != 'a' ==>
      Memory(log + [e]) == Saved(Memory(log).completed + [e.step], e.output, Memory(log).instructionId)
  {
    assert (log + [e])[..|log|] == log;
  }

  lemma WellFedAppend(log: seq<Effect>, e: Effect)
    requires WellFed(log) && e.input == if e.step == 'a' then Memory(log).attestId else 0
    ensures WellFed(log + [e])
  {
    forall i | 0 <= i < |log + [e]|
      ensures var f := (log + [e])[i];
        f.input == if f.step == 'a' then Memory((log + [e])[..i]).attestId else 0
    {
      assert (log + [e])[..i] == log[..i];
      if i == |log| {
        assert log[..i] == log;
      }
    }
  }

  /** Effects that memory does not know of. */
  function Forgotten(s: Session): int {
    |s.log| - |s.saved.completed|
  }

  /**
   Mid-attempt, after the first n letters were dealt with: memory holds a prefix of the plan covering
   them, and as long as no effect is forgotten, memory is exactly what the log of effects says.
   */
  ghost predicate Consistent(command: string, s: Session, n: nat) {
    && s.saved.completed <= Plan(command)
    && (!s.failed ==> Upto(command, n) <= s.saved.completed)
    && Forgotten(s) >= 0
    && (Forgotten(s) == 0 ==> s.saved == Memory(s.log) && WellFed(s.log))
    && NoAttestationNoId(s.saved)
    && FileBehind(s)
  }

  /** A file that parses holds an earlier memory, or this one. */
  ghost predicate FileBehind(s: Session) {
    !s.file.Torn? ==>
      && Load(s.file).completed <= s.saved.completed
      && (|Load(s.file).completed| == |s.saved.completed| ==> Load(s.file) == s.saved)
      && NoAttestationNoId(Load(s.file))
  }

  predicate NoAttestationNoId(saved: Saved) {
    'r' !in saved.completed && 'R' !in saved.completed ==> saved.attestId == 0
  }

  /** The attestation id handed on once the letters of `done` were dealt with. */
  predicate HandsOn(s: Session, done: string) {
    s.attestId == if done == "" then 0 else s.saved.attestId
  }

  /** A prefix of the plan that covers the letters before this one lacks it exactly when it ends there. */
  lemma NotYetDone(command: string, completed: string, n: nat)
    requires n < 3 && Upto(command, n) <= completed <= Plan(command) && "rRa"[n] in command
    ensures "rRa"[n] !in completed <==> completed == Upto(command, n)
    ensures Upto(command, n) + ["rRa"[n]] == Upto(command, n + 1)
    ensures Upto(command, n + 1) <= Plan(command)
    ensures "rRa"[n] in completed ==> Upto(command, n + 1) <= completed
  {
    if completed != Upto(command, n) {
      var k := |Upto(command, n)|;
      assert completed[k] == Plan(command)[k] == "rRa"[n];
    }
  }

  lemma RecordKeepsLog(s: Session, e: Effect, saved: Saved)
    requires Forgotten(s) == 0 ==> s.saved == Memory(s.log) && WellFed(s.log)
    requires e.input == if e.step == 'a' then s.saved.attestId else 0
    requires saved == if e.step == 'a' then Saved(s.saved.completed + [e.step], s.saved.attestId, e.output)
                      else Saved(s.saved.completed + [e.step], e.output, s.saved.instructionId)
    ensures |s.log + [e]| - |saved.completed| == Forgotten(s)
    ensures Forgotten(s) == 0 ==> saved == Memory(s.log + [e]) && WellFed(s.log + [e])
  {
    if Forgotten(s) == 0 {
      MemoryAppend(s.log, e);
      WellFedAppend(s.log, e);
    }
  }

  lemma RecordKeepsFile(s: Session, e: Effect, saved: Saved, write: Write)
    requires FileBehind(s) && NoAttestationNoId(saved) && saved.completed == s.saved.completed + [e.step]
    ensures FileBehind(Record(s, e, saved, write))
  {
  }

  /** Recording the next step of the plan keeps everything in step. */
  lemma RecordKeeps(command: string, s: Session, n: nat, e: Effect, saved: Saved, write: Write)
    requires Consistent(command, s, n) && !s.failed && n < 3
    requires e.step == "rRa"[n] && e.step in command && e.step !in s.saved.completed
    requires saved == if n == 2 then Saved(s.saved.completed + [e.step], s.saved.attestId, e.output)
                      else Saved(s.saved.completed + [e.step], e.output, s.saved.instructionId)
    requires e.input == if n == 2 then s.saved.attestId else 0
    ensures Consistent(command, Record(s, e, saved, write), n + 1)
  {
    NotYetDone(command, s.saved.completed, n);
    assert e.step == 'a' <==> n == 2;
    assert NoAttestationNoId(saved);
    RecordKeepsLog(s, e, saved);
    RecordKeepsFile(s, e, saved, write);
  }

  lemma ForgetKeeps(command: string, s: Session, n: nat, m: nat, e: Effect)
    requires Consistent(command, s, n)
    ensures Consistent(command, Forget(s, e), m)
  {
  }

  /** A step that is not selected, or was done before, leaves a consistent session to the next one. */
  lemma NothingToDo(command: string, s: Session, n: nat)
    requires Consistent(command, s, n) && !s.failed && n < 3
    requires "rRa"[n] !in command || "rRa"[n] in s.saved.completed
    ensures Consistent(command, s, n + 1)
    ensures "rRa"[n] !in command ==> Upto(command, n + 1) == Upto(command, n)
  {
    if "rRa"[n] in command {
      NotYetDone(command, s.saved.completed, n);
    }
  }

  lemma AttestationKeeps(command: string, s: Session, n: nat, reply: Reply<uint256>, write: Write)
    requires n < 2 && Consistent(command, s, n) && HandsOn(s, Upto(command, n))
    ensures var t := AttestationStep(s, command, "rR"[n], reply, write);
      Consistent(command, t, n + 1) && (!t.failed ==> HandsOn(t, Upto(command, n + 1)))
  {
    var step := "rR"[n];
    assert step == "rRa"[n];
    if s.failed {
    } else if step !in command || step in s.saved.completed {
      NothingToDo(command, s, n);
    } else if reply.Acked? {
      var saved := Saved(s.saved.completed + [step], reply.value, s.saved.instructionId);
      RecordKeeps(command, s, n, Effect(step, 0, reply.value), saved, write);
    } else if reply.Unacked? {
      ForgetKeeps(command, s, n, n + 1, Effect(step, 0, reply.value));
    }
  }

  lemma CheckKeeps(command: string, argument: uint256, s: Session, o: Attempt)
    requires Consistent(command, s, 2) && (!s.failed ==> HandsOn(s, Upto(command, 2)))
    ensures var t := CheckStep(s, command, argument, o);
      && Consistent(command, t, 3)
      && (!t.failed ==> t.instructionId == if 'a' in command then t.saved.instructionId else argument)
  {
    if !s.failed && 'a' in command {
      NotYetDone(command, s.saved.completed, 2);
      assert s.attestId == s.saved.attestId by {
        if Upto(command, 2) == "" && 'a' !in s.saved.completed {
          assert s.saved.completed == "";
        }
        if Upto(command, 2) == "" && 'a' in s.saved.completed {
          assert s.saved.completed == "a";
        }
      }
      if 'a' !in s.saved.completed && o.policyConsistent && o.check.Acked? {
        var saved := Saved(s.saved.completed + ['a'], s.saved.attestId, o.check.value);
        RecordKeeps(command, s, 2, Effect('a', s.attestId, o.check.value), saved, o.saves('a'));
      } else if 'a' !in s.saved.completed && o.policyConsistent && o.check.Unacked? {
        ForgetKeeps(command, s, 2, 3, Effect('a', s.attestId, o.check.value));
      }
    } else {
      assert 'a' !in command ==> Upto(command, 3) == Upto(command, 2);
    }
  }

  /** The three recorded steps of an attempt. */
  function Recorded(command: string, argument: uint256, file: File, log: seq<Effect>, o: Attempt): Session {
    var s := Open(file, log, o.ready);
    var s := AttestationStep(s, command, 'r', Registered(o), o.saves('r'));
    var s := AttestationStep(s, command, 'R', o.attest, o.saves('R'));
    CheckStep(s, command, argument, o)
  }

  /** Where an attempt may start: a file that parses and is consistent with what was done. */
  ghost predicate Startable(command: string, file: File, log: seq<Effect>) {
    !file.Torn? && Consistent(command, Open(file, log, true), 0)
  }

  lemma RecordedConsistent(command: string, argument: uint256, file: File, log: seq<Effect>, o: Attempt)
    requires Startable(command, file, log)
    ensures var t := Recorded(command, argument, file, log, o);
      && Consistent(command, t, 3)
      && (!t.failed ==> t.instructionId == if 'a' in command then t.saved.instructionId else argument)
  {
    var s0 := Open(file, log, o.ready);
    AttestationKeeps(command, s0, 0, Registered(o), o.saves('r'));
    var s1 := AttestationStep(s0, command, 'r', Registered(o), o.saves('r'));
    if s1.failed {
      assert s1.saved.completed <= Plan(command);
    } else {
      AttestationKeeps(command, s1, 1, o.attest, o.saves('R'));
    }
    var s2 := AttestationStep(s1, command, 'R', o.attest, o.saves('R'));
    CheckKeeps(command, argument, s2, o);
  }

  lemma PromoteEffect(s: Session, command: string, o: Attempt)
    ensures var t := PromoteStep(s, command, o);
      && t.saved == s.saved && t.file == s.file
      && (!t.failed ==> !s.failed)
      && (t.log == s.log || t.log == s.log + [Effect('p', s.instructionId, 0)])
      && (!t.failed ==>
            t.log == if 'p' in command then s.log + [Effect('p', s.instructionId, 0)] else s.log)
  {
  }

  lemma FileStartable(command: string, s: Session, n: nat)
    requires Consistent(command, s, n) && !s.file.Torn?
    ensures Startable(command, s.file, s.log)
  {
  }

  /** Any attempt, failed or not, leaves a state to start from, or a torn file. */
  lemma Restartable(command: string, argument: uint256, file: File, log: seq<Effect>, o: Attempt)
    requires Startable(command, file, log)
    ensures var t := Try(command, argument, file, log, o);
      !t.file.Torn? ==> Startable(command, t.file, t.log)
  {
    var s, t := Recorded(command, argument, file, log, o), Try(command, argument, file, log, o);
    RecordedConsistent(command, argument, file, log, o);
    PromoteEffect(s, command, o);
    if t.file == s.file && !t.file.Torn? {
      if t.log == s.log {
        FileStartable(command, s, 3);
      } else {
        ForgetKeeps(command, s, 3, 3, Effect('p', s.instructionId, 0));
        FileStartable(command, Forget(s, Effect('p', s.instructionId, 0)), 3);
      }
    }
  }

  // ---- what is lost between attempts ----

  /** Effects that the state file does not know of: what a next attempt has lost. */
  function Lost(file: File, log: seq<Effect>): int {
    |log| - |Load(file).completed|
  }

  predicate Acknowledged(o: Attempt, step: char) {
    match step
    case 'r' => Registered(o).Acked?
    case 'R' => o.attest.Acked?
    case 'a' => o.check.Acked?
    case _ => o.promote.Acked?
  }

  /** The last effect of an attempt, if it had any, was acknowledged and saved. */
  predicate LastKept(o: Attempt, before: seq<Effect>, after: seq<Effect>) {
    |after| <= |before|
    || (Acknowledged(o, after[|after| - 1].step) && o.saves(after[|after| - 1].step).Written?)
  }

  /** As long as an attempt goes on, memory knows all it did; the file does if the last effect was kept. */
  ghost predicate Tracked(file: File, log: seq<Effect>, o: Attempt, s: Session) {
    && log <= s.log
    && (!s.failed ==> Forgotten(s) == Lost(file, log))
    && (!s.file.Torn? ==>
          Lost(s.file, s.log) >= Lost(file, log)
          && (Lost(s.file, s.log) == Lost(file, log) <==> LastKept(o, log, s.log)))
  }

  lemma RecordTracked(file: File, log: seq<Effect>, o: Attempt, s: Session, e: Effect, saved: Saved)
    requires Tracked(file, log, o, s) && FileBehind(s) && !s.failed && Acknowledged(o, e.step)
    requires saved.completed == s.saved.completed + [e.step]
    ensures Tracked(file, log, o, Record(s, e, saved, o.saves(e.step)))
  {
  }

  lemma ForgetTracked(file: File, log: seq<Effect>, o: Attempt, s: Session, e: Effect)
    requires Tracked(file, log, o, s) && FileBehind(s) && !s.failed && !Acknowledged(o, e.step)
    ensures Tracked(file, log, o, Forget(s, e))
  {
  }

  lemma AttestationTracked(command: string, file: File, log: seq<Effect>, o: Attempt, s: Session, step: char,
                           reply: Reply<uint256>)
    requires Tracked(file, log, o, s) && FileBehind(s) && (reply.Acked? <==> Acknowledged(o, step))
    ensures Tracked(file, log, o, AttestationStep(s, command, step, reply, o.saves(step)))
  {
    if !s.failed && step in command && step !in s.saved.completed {
      if reply.Acked? {
        var saved := s.saved.(completed := s.saved.completed + [step], attestId := reply.value);
        RecordTracked(file, log, o, s, Effect(step, 0, reply.value), saved);
      } else if reply.Unacked? {
        ForgetTracked(file, log, o, s, Effect(step, 0, reply.value));
      }
    }
  }

  lemma CheckTracked(command: string, argument: uint256, file: File, log: seq<Effect>, o: Attempt, s: Session)
    requires Tracked(file, log, o, s) && FileBehind(s)
    ensures Tracked(file, log, o, CheckStep(s, command, argument, o))
  {
    if !s.failed && 'a' in command && 'a' !in s.saved.completed && o.policyConsistent {
      if o.check.Acked? {
        var saved := s.saved.(completed := s.saved.completed + ['a'], instructionId := o.check.value);
        RecordTracked(file, log, o, s, Effect('a', s.attestId, o.check.value), saved);
      } else if o.check.Unacked? {
        ForgetTracked(file, log, o, s, Effect('a', s.attestId, o.check.value));
      }
    }
  }

  lemma RecordedTracked(command: string, argument: uint256, file: File, log: seq<Effect>, o: Attempt)
    requires Startable(command, file, log)
    ensures Tracked(file, log, o, Recorded(command, argument, file, log, o))
  {
    var s0 := Open(file, log, o.ready);
    var s1 := AttestationStep(s0, command, 'r', Registered(o), o.saves('r'));
    var s2 := AttestationStep(s1, command, 'R', o.attest, o.saves('R'));
    AttestationKeeps(command, s0, 0, Registered(o), o.saves('r'));
    AttestationTracked(command, file, log, o, s0, 'r', Registered(o));
    if !s1.failed {
      AttestationKeeps(command, s1, 1, o.attest, o.saves('R'));
    }
    AttestationTracked(command, file, log, o, s1, 'R', o.attest);
    CheckTracked(command, argument, file, log, o, s2);
  }

  lemma PromoteTracked(command: string, file: File, log: seq<Effect>, o: Attempt, s: Session)
    requires Tracked(file, log, o, s) && FileBehind(s) && PromoteStep(s, command, o).failed
    ensures Tracked(file, log, o, PromoteStep(s, command, o))
  {
    if !s.failed && 'p' in command && o.promote.Unacked? {
      ForgetTracked(file, log, o, s, Effect('p', s.instructionId, 0));
    }
  }

  /** A failed attempt loses nothing exactly when its last effect was acknowledged and saved. */
  lemma FailedTry(command: string, argument: uint256, file: File, log: seq<Effect>, o: Attempt)
    requires Startable(command, file, log)
    ensures var t := Try(command, argument, file, log, o);
      t.failed && !t.file.Torn? ==>
        && Startable(command, t.file, t.log) && Lost(t.file, t.log) >= Lost(file, log)
        && (Lost(t.file, t.log) == Lost(file, log) <==> LastKept(o, log, t.log))
  {
    var s := Recorded(command, argument, file, log, o);
    Restartable(command, argument, file, log, o);
    RecordedConsistent(command, argument, file, log, o);
    RecordedTracked(command, argument, file, log, o);
    if PromoteStep(s, command, o).failed {
      PromoteTracked(command, file, log, o, s);
    }
  }

  /** The log of a complete run: the plan, fed correctly, and then the promotion with the right id. */
  ghost predicate Complete(command: string, argument: uint256, log: seq<Effect>) {
    var n := |Plan(command)|;
    && Steps(log) == Plan(command) + Promotion(command)
    && n <= |log|
    && WellFed(log[..n])
    && (if 'p' in command then
          && |log| == n + 1
          && log[n] == Effect('p', if 'a' in command then Memory(log[..n]).instructionId else argument, 0)
        else |log| == n)
  }

  lemma PromotionCompletes(command: string, argument: uint256, log: seq<Effect>, id: uint256)
    requires Steps(log) == Plan(command) && WellFed(log)
    requires id == if 'a' in command then Memory(log).instructionId else argument
    ensures Complete(command, argument, if 'p' in command then log + [Effect('p', id, 0)] else log)
  {
    var full := if 'p' in command then log + [Effect('p', id, 0)] else log;
    assert full[..|Plan(command)|] == log;
    assert Steps(full) == Steps(log) + Promotion(command);
  }

  lemma SuccessfulTry(command: string, argument: uint256, file: File, log: seq<Effect>, o: Attempt)
    requires Startable(command, file, log) && !Try(command, argument, file, log, o).failed
    ensures var t := Try(command, argument, file, log, o);
      && (o.removes ==> t.file == Absent)
      && |t.log| == |Plan(command)| + |Promotion(command)| + Lost(file, log)
      && (Lost(file, log) == 0 ==> Complete(command, argument, t.log))
  {
    RecordedConsistent(command, argument, file, log, o);
    RecordedTracked(command, argument, file, log, o);
    var s := Recorded(command, argument, file, log, o);
    PromoteEffect(s, command, o);
    assert s.saved.completed == Plan(command);
    if Lost(file, log) == 0 {
      MemoryCompleted(s.log);
      PromotionCompletes(command, argument, s.log, s.instructionId);
    }
  }

  // ---- series of attempts ----

  /** The last attempt of a series; each starts from what the one before left. */
  function Series(command: string, argument: uint256, file: File, log: seq<Effect>, os: seq<Attempt>)
    : Session
    requires os != []
    decreases |os|
  {
    var t := Try(command, argument, file, log, os[0]);
    if |os| == 1 then t else Series(command, argument, t.file, t.log, os[1..])
  }

  /** All attempts but the last fail, wherever and for whatever reason. */
  predicate EndsInSuccess(command: string, argument: uint256, file: File, log: seq<Effect>, os: seq<Attempt>)
    requires os != []
    decreases |os|
  {
    var t := Try(command, argument, file, log, os[0]);
    if |os| == 1 then !t.failed else t.failed && EndsInSuccess(command, argument, t.file, t.log, os[1..])
  }

  /** In every failed attempt nothing took effect, or the last effect was acknowledged and saved. */
  predicate EffectsKept(command: string, argument: uint256, file: File, log: seq<Effect>, os: seq<Attempt>)
    requires os != []
    decreases |os|
  {
    var t := Try(command, argument, file, log, os[0]);
    |os| == 1 || (LastKept(os[0], log, t.log) && EffectsKept(command, argument, t.file, t.log, os[1..]))
  }

  /** A torn file stops every later attempt before its first step. */
  lemma {:induction false} TornFileBlocks(command: string, argument: uint256, log: seq<Effect>, os: seq<Attempt>)
    requires os != []
    ensures var s := Series(command, argument, Torn, log, os);
      s.failed && s.log == log && s.file == Torn
    ensures !EndsInSuccess(command, argument, Torn, log, os)
    decreases |os|
  {
    var t := Try(command, argument, Torn, log, os[0]);
    assert t.failed && t.log == log && t.file == Torn;
    if |os| > 1 {
      TornFileBlocks(command, argument, log, os[1..]);
    }
  }

  lemma SeriesOnward(command: string, argument: uint256, file: File, log: seq<Effect>, os: seq<Attempt>, t: Session)
    requires |os| > 1 && t == Try(command, argument, file, log, os[0])
    ensures Series(command, argument, file, log, os) == Series(command, argument, t.file, t.log, os[1..])
    ensures EndsInSuccess(command, argument, file, log, os)
            <==> t.failed && EndsInSuccess(command, argument, t.file, t.log, os[1..])
    ensures EffectsKept(command, argument, file, log, os)
            <==> LastKept(os[0], log, t.log) && EffectsKept(command, argument, t.file, t.log, os[1..])
  {
  }

  lemma {:induction false} SeriesFrom(command: string, argument: uint256, file: File, log: seq<Effect>,
                                      os: seq<Attempt>)
    requires os != [] && Startable(command, file, log)
    requires EndsInSuccess(command, argument, file, log, os)
    ensures var s, kept := Series(command, argument, file, log, os), EffectsKept(command, argument, file, log, os);
      && (os[|os| - 1].removes ==> s.file == Absent)
      && |s.log| >= |Plan(command)| + |Promotion(command)| + Lost(file, log)
      && (Lost(file, log) == 0 && kept ==> Complete(command, argument, s.log))
      && (!kept ==> |s.log| > |Plan(command)| + |Promotion(command)| + Lost(file, log))
    decreases |os|
  {
    if |os| == 1 {
      SuccessfulTry(command, argument, file, log, os[0]);
    } else {
      var t := Try(command, argument, file, log, os[0]);
      SeriesOnward(command, argument, file, log, os, t);
      if t.file.Torn? {
        TornFileBlocks(command, argument, t.log, os[1..]);
      } else {
        FailedTry(command, argument, file, log, os[0]);
        SeriesFrom(command, argument, t.file, t.log, os[1..]);
      }
    }
  }

  lemma FreshStartable(command: string)
    ensures Startable(command, Absent, [])
  {
  }

  /**
   Resume equivalence, the steps: a series of attempts from a fresh start that ends in success had each
   selected step take effect exactly once and in order if and only if in every failed attempt the last
   effect, if there was one, was acknowledged and then saved.
   */
  lemma ExactlyOnceIffKept(command: string, argument: uint256, os: seq<Attempt>)
    requires os != [] && EndsInSuccess(command, argument, Absent, [], os)
    ensures var s := Series(command, argument, Absent, [], os);
      Steps(s.log) == Plan(command) + Promotion(command)
      <==> EffectsKept(command, argument, Absent, [], os)
  {
    FreshStartable(command);
    SeriesFrom(command, argument, Absent, [], os);
  }

  /** The condition is needed: a lost save makes the next attempt register a second time. */
  lemma LostSaveRepeatsStep()
    ensures var failing :=
        Attempt(true, false, Acked(7), Refused, Refused, true, Refused, Refused, _ => NotOpened, true);
      var working := Attempt(true, true, Refused, Acked(8), Refused, true, Refused, Acked(()), _ => Written, true);
      && EndsInSuccess("rp", 0, Absent, [], [failing, working])
      && Steps(Series("rp", 0, Absent, [], [failing, working]).log) == "rrp"
  {
    var failing := Attempt(true, false, Acked(7), Refused, Refused, true, Refused, Refused, _ => NotOpened, true);
    var working := Attempt(true, true, Refused, Acked(8), Refused, true, Refused, Acked(()), _ => Written, true);
    RepeatsRegistration(failing, working);
  }

  /** And so does a lost acknowledgement, although every save succeeds. */
  lemma LostReplyRepeatsStep()
    ensures var failing :=
        Attempt(true, false, Unacked(7), Refused, Refused, true, Refused, Refused, _ => Written, true);
      var working := Attempt(true, true, Refused, Acked(8), Refused, true, Refused, Acked(()), _ => Written, true);
      && EndsInSuccess("rp", 0, Absent, [], [failing, working])
      && Steps(Series("rp", 0, Absent, [], [failing, working]).log) == "rrp"
  {
    var failing := Attempt(true, false, Unacked(7), Refused, Refused, true, Refused, Refused, _ => Written, true);
    var working := Attempt(true, true, Refused, Acked(8), Refused, true, Refused, Acked(()), _ => Written, true);
    RepeatsRegistration(failing, working);
  }

  lemma RegistersUnknown(failing: Attempt)
    requires failing.ready && failing.promote.Refused? && Registered(failing) in {Unacked(7), Acked(7)}
    requires Registered(failing).Acked? ==> failing.saves('r').NotOpened?
    ensures var t := Try("rp", 0, Absent, [], failing);
      t.failed && t.file == Absent && t.log == [Effect('r', 0, 7)]
  {
    var s := AttestationStep(Open(Absent, [], true), "rp", 'r', Registered(failing), failing.saves('r'));
    assert s.file == Absent && s.log == [Effect('r', 0, 7)];
  }

  lemma RegistersAgain(working: Attempt, log: seq<Effect>)
    requires working.ready && Registered(working) == Acked(8) && working.promote.Acked?
    ensures var t := Try("rp", 0, Absent, log, working);
      !t.failed && t.log == log + [Effect('r', 0, 8)] + [Effect('p', 0, 0)]
  {
  }

  lemma RepeatsRegistration(failing: Attempt, working: Attempt)
    requires failing.ready && failing.promote.Refused? && Registered(failing) in {Unacked(7), Acked(7)}
    requires Registered(failing).Acked? ==> failing.saves('r').NotOpened?
    requires working.ready && Registered(working) == Acked(8) && working.promote.Acked?
    ensures EndsInSuccess("rp", 0, Absent, [], [failing, working])
    ensures Steps(Series("rp", 0, Absent, [], [failing, working]).log) == "rrp"
  {
    RegistersUnknown(failing);
    RegistersAgain(working, [Effect('r', 0, 7)]);
    assert [failing, working][1..] == [working];
  }

  /** A state file that parses names a prefix of the selected steps, after any attempts with any outcomes. */
  lemma {:induction false} ProgressIsPrefix(command: string, argument: uint256, file: File,
                                            log: seq<Effect>, os: seq<Attempt>)
    requires os != [] && Startable(command, file, log)
    ensures var end := Series(command, argument, file, log, os).file;
      end.Intact? ==> end.saved.completed <= Plan(command)
    decreases |os|
  {
    var t := Try(command, argument, file, log, os[0]);
    Restartable(command, argument, file, log, os[0]);
    if |os| > 1 {
      if t.file.Torn? {
        TornFileBlocks(command, argument, t.log, os[1..]);
      } else {
        ProgressIsPrefix(command, argument, t.file, t.log, os[1..]);
      }
    }
  }

  // ---- what holds even if effects are lost ----

  /** The letters of a stand in b, in order. */
  predicate Within(a: string, b: string) {
    a == []
    || (b != [] && if a[|a| - 1] == b[|b| - 1] then Within(a[..|a| - 1], b[..|b| - 1])
                   else Within(a, b[..|b| - 1]))
  }

  lemma {:induction false} WithinInit(a: string, b: string)
    requires a != [] && Within(a, b)
    ensures Within(a[..|a| - 1], b)
    decreases |b|, 0
  {
    var a', b' := a[..|a| - 1], b[..|b| - 1];
    if a[|a| - 1] == b[|b| - 1] {
      WithinLonger(a', b', b);
    } else {
      WithinInit(a, b');
      WithinLonger(a', b', b);
    }
  }

  lemma {:induction false} WithinLonger(a: string, b: string, longer: string)
    requires Within(a, b) && longer != [] && longer[..|longer| - 1] == b
    ensures Within(a, longer)
    decreases |b|, 1
  {
    if a != [] && a[|a| - 1] == longer[|longer| - 1] {
      WithinInit(a, b);
    }
  }

  lemma WithinBoth(a: string, b: string, c: char)
    requires Within(a, b)
    ensures Within(a + [c], b + [c])
  {
    assert (a + [c])[..|a|] == a && (b + [c])[..|b|] == b;
  }

  lemma {:induction false} WithinPrefix(a: string, longer: string, b: string)
    requires a <= longer && Within(longer, b)
    ensures Within(a, b)
    decreases |longer|
  {
    if a != longer {
      WithinInit(longer, b);
      WithinPrefix(a, longer[..|longer| - 1], b);
    }
  }

  ghost predicate Did(s: Session) {
    Within(s.saved.completed, Steps(s.log))
  }

  lemma RecordDid(s: Session, e: Effect, saved: Saved, write: Write)
    requires Did(s) && saved.completed == s.saved.completed + [e.step]
    ensures Did(Record(s, e, saved, write))
  {
    WithinBoth(s.saved.completed, Steps(s.log), e.step);
    assert Steps(s.log + [e]) == Steps(s.log) + [e.step];
  }

  lemma ForgetDid(s: Session, e: Effect)
    requires Did(s)
    ensures Did(Forget(s, e))
  {
    assert Steps(s.log + [e])[..|s.log|] == Steps(s.log);
    WithinLonger(s.saved.completed, Steps(s.log), Steps(s.log + [e]));
  }

  lemma AttestationDid(s: Session, command: string, step: char, reply: Reply<uint256>, write: Write)
    requires Did(s)
    ensures Did(AttestationStep(s, command, step, reply, write))
  {
    if !s.failed && step in command && step !in s.saved.completed {
      if reply.Acked? {
        var saved := s.saved.(completed := s.saved.completed + [step], attestId := reply.value);
        RecordDid(s, Effect(step, 0, reply.value), saved, write);
      } else if reply.Unacked? {
        ForgetDid(s, Effect(step, 0, reply.value));
      }
    }
  }

  lemma CheckDid(s: Session, command: string, argument: uint256, o: Attempt)
    requires Did(s)
    ensures Did(CheckStep(s, command, argument, o))
  {
    if !s.failed && 'a' in command && 'a' !in s.saved.completed && o.policyConsistent {
      if o.check.Acked? {
        var saved := s.saved.(completed := s.saved.completed + ['a'], instructionId := o.check.value);
        RecordDid(s, Effect('a', s.attestId, o.check.value), saved, o.saves('a'));
      } else if o.check.Unacked? {
        ForgetDid(s, Effect('a', s.attestId, o.check.value));
      }
    }
  }

  lemma RecordedDid(command: string, argument: uint256, file: File, log: seq<Effect>, o: Attempt)
    requires Within(Load(file).completed, Steps(log))
    ensures Did(Recorded(command, argument, file, log, o))
  {
    var s0 := Open(file, log, o.ready);
    var s1 := AttestationStep(s0, command, 'r', Registered(o), o.saves('r'));
    AttestationDid(s0, command, 'r', Registered(o), o.saves('r'));
    AttestationDid(s1, command, 'R', o.attest, o.saves('R'));
    CheckDid(AttestationStep(s1, command, 'R', o.attest, o.saves('R')), command, argument, o);
  }

  /** After a failed attempt the file still names only steps that took effect, in order. */
  lemma FailedTryDid(command: string, argument: uint256, file: File, log: seq<Effect>, o: Attempt)
    requires Startable(command, file, log) && Within(Load(file).completed, Steps(log))
    ensures var t := Try(command, argument, file, log, o);
      t.failed && !t.file.Torn? ==> Within(Load(t.file).completed, Steps(t.log))
  {
    var s := Recorded(command, argument, file, log, o);
    RecordedDid(command, argument, file, log, o);
    RecordedConsistent(command, argument, file, log, o);
    PromoteEffect(s, command, o);
    ForgetDid(s, Effect('p', s.instructionId, 0));
    if !s.file.Torn? {
      WithinPrefix(Load(s.file).completed, s.saved.completed, Steps(s.log));
      WithinPrefix(Load(s.file).completed, s.saved.completed, Steps(s.log + [Effect('p', s.instructionId, 0)]));
    }
  }

  lemma PromotionDid(command: string, completed: string, log: seq<Effect>, e: Effect)
    requires Within(completed, Steps(log)) && e.step == 'p'
    ensures Within(completed + Promotion(command), Steps(if 'p' in command then log + [e] else log))
  {
    if 'p' in command {
      WithinBoth(completed, Steps(log), 'p');
      assert Steps(log + [e]) == Steps(log) + ['p'];
    } else {
      assert completed + Promotion(command) == completed;
    }
  }

  lemma SuccessfulTryDid(command: string, argument: uint256, file: File, log: seq<Effect>, o: Attempt)
    requires Startable(command, file, log) && Within(Load(file).completed, Steps(log))
    requires !Try(command, argument, file, log, o).failed
    ensures Within(Plan(command) + Promotion(command), Steps(Try(command, argument, file, log, o).log))
  {
    var s := Recorded(command, argument, file, log, o);
    RecordedDid(command, argument, file, log, o);
    RecordedConsistent(command, argument, file, log, o);
    PromoteEffect(s, command, o);
    PromotionDid(command, s.saved.completed, s.log, Effect('p', s.instructionId, 0));
    assert s.saved.completed == Plan(command);
  }

  lemma {:induction false} SeriesDid(command: string, argument: uint256, file: File, log: seq<Effect>,
                                     os: seq<Attempt>)
    requires os != [] && Startable(command, file, log) && Within(Load(file).completed, Steps(log))
    requires EndsInSuccess(command, argument, file, log, os)
    ensures Within(Plan(command) + Promotion(command), Steps(Series(command, argument, file, log, os).log))
    decreases |os|
  {
    if |os| == 1 {
      SuccessfulTryDid(command, argument, file, log, os[0]);
    } else {
      var t := Try(command, argument, file, log, os[0]);
      if t.file.Torn? {
        TornFileBlocks(command, argument, t.log, os[1..]);
      } else {
        FailedTry(command, argument, file, log, os[0]);
        FailedTryDid(command, argument, file, log, os[0]);
        SeriesDid(command, argument, t.file, t.log, os[1..]);
      }
    }
  }

  /** Whatever is lost on the way, success means that every selected step took effect, in order. */
  lemma AtLeastOnceInOrder(command: string, argument: uint256, os: seq<Attempt>)
    requires os != [] && EndsInSuccess(command, argument, Absent, [], os)
    ensures Within(Plan(command) + Promotion(command), Steps(Series(command, argument, Absent, [], os).log))
  {
    FreshStartable(command);
    SeriesDid(command, argument, Absent, [], os);
  }

  // ---- the uninterrupted run ----

  /** What the step returned in this log. */
  function OutputOf(log: seq<Effect>, step: char): uint256 {
    if log == [] then 0 else if log[0].step == step then log[0].output else OutputOf(log[1..], step)
  }

  /** A world in which every step goes through and returns what it returned in the log. */
  function Smooth(log: seq<Effect>): Attempt {
    Attempt(true, false, Acked(OutputOf(log, 'r')), Refused, Acked(OutputOf(log, 'R')), true,
            Acked(OutputOf(log, 'a')), Acked(()), _ => Written, true)
  }

  lemma SmoothSucceeds(command: string, argument: uint256, log: seq<Effect>)
    ensures !Try(command, argument, Absent, [], Smooth(log)).failed
  {
  }

  predicate Makes(reply: Reply<uint256>, id: uint256) {
    !reply.Refused? && reply.value == id
  }

  /** Every effect made the id that it makes in this world. */
  predicate From(log: seq<Effect>, o: Attempt) {
    forall e | e in log ::
      && (e.step == 'r' ==> Makes(Registered(o), e.output))
      && (e.step == 'R' ==> Makes(o.attest, e.output))
      && (e.step == 'a' ==> Makes(o.check, e.output))
  }

  lemma AttestationFrom(s: Session, command: string, step: char, reply: Reply<uint256>, write: Write, o: Attempt)
    requires From(s.log, o) && ((step == 'r' && reply == Registered(o)) || (step == 'R' && reply == o.attest))
    ensures From(AttestationStep(s, command, step, reply, write).log, o)
  {
  }

  lemma CheckFrom(s: Session, command: string, argument: uint256, o: Attempt)
    requires From(s.log, o)
    ensures From(PromoteStep(CheckStep(s, command, argument, o), command, o).log, o)
  {
    assert From(CheckStep(s, command, argument, o).log, o);
  }

  lemma TryFrom(command: string, argument: uint256, o: Attempt)
    ensures From(Try(command, argument, Absent, [], o).log, o)
  {
    var s0 := Open(Absent, [], o.ready);
    var s1 := AttestationStep(s0, command, 'r', Registered(o), o.saves('r'));
    AttestationFrom(s0, command, 'r', Registered(o), o.saves('r'), o);
    AttestationFrom(s1, command, 'R', o.attest, o.saves('R'), o);
    CheckFrom(AttestationStep(s1, command, 'R', o.attest, o.saves('R')), command, argument, o);
  }

  lemma {:induction false} OutputOfUnique(log: seq<Effect>, i: nat)
    requires i < |log| && forall j | 0 <= j < i :: log[j].step != log[i].step
    ensures OutputOf(log, log[i].step) == log[i].output
  {
    if i > 0 {
      OutputOfUnique(log[1..], i - 1);
    }
  }

  /** The plan never names a letter twice. */
  lemma StepsDistinct(command: string, i: nat, j: nat)
    requires i < j < |Plan(command) + Promotion(command)|
    ensures (Plan(command) + Promotion(command))[i] != (Plan(command) + Promotion(command))[j]
  {
  }

  lemma CompleteFromSmooth(command: string, argument: uint256, log: seq<Effect>)
    requires Complete(command, argument, log)
    ensures From(log, Smooth(log))
  {
    forall e | e in log
      ensures OutputOf(log, e.step) == e.output
    {
      var i :| 0 <= i < |log| && log[i] == e;
      forall j | 0 <= j < i
        ensures log[j].step != log[i].step
      {
        StepsDistinct(command, j, i);
        assert Steps(log)[j] == log[j].step && Steps(log)[i] == log[i].step;
      }
      OutputOfUnique(log, i);
    }
  }

  /** In a complete log the i-th step is the plan's, and was given what memory held before it. */
  lemma CompleteAt(command: string, argument: uint256, log: seq<Effect>, i: nat)
    requires Complete(command, argument, log) && i < |Plan(command)|
    ensures i < |log| && log[i].step == Plan(command)[i]
    ensures log[i].input == if log[i].step == 'a' then Memory(log[..i]).attestId else 0
  {
    var done := log[..|Plan(command)|];
    assert Steps(log)[i] == log[i].step && (Plan(command) + Promotion(command))[i] == Plan(command)[i];
    assert done[..i] == log[..i] && done[i] == log[i];
  }

  lemma PlanLetters(command: string, i: nat)
    requires i < |Plan(command)|
    ensures Plan(command)[i] in "rRa"
  {
  }

  lemma OutputsAgree(e: Effect, e': Effect, log: seq<Effect>, log': seq<Effect>, o: Attempt)
    requires e in log && e' in log' && From(log, o) && From(log', o) && e.step == e'.step && e.step in "rRa"
    ensures e.output == e'.output
  {
  }

  lemma EffectsEqual(command: string, argument: uint256, log: seq<Effect>, log': seq<Effect>, o: Attempt, i: nat)
    requires Complete(command, argument, log) && From(log, o)
    requires Complete(command, argument, log') && From(log', o)
    requires i < |Plan(command)| && i <= |log| && i <= |log'| && log[..i] == log'[..i]
    ensures i < |log| && i < |log'| && log[i] == log'[i]
  {
    CompleteAt(command, argument, log, i);
    CompleteAt(command, argument, log', i);
    PlanLetters(command, i);
    OutputsAgree(log[i], log'[i], log, log', o);
  }

  lemma PrefixExtended(a: seq<Effect>, b: seq<Effect>, i: nat)
    requires i < |a| && i < |b| && a[..i] == b[..i] && a[i] == b[i]
    ensures a[..i + 1] == b[..i + 1]
  {
    assert a[..i + 1] == a[..i] + [a[i]] && b[..i + 1] == b[..i] + [b[i]];
  }

  lemma {:induction false} PrefixesEqual(command: string, argument: uint256, log: seq<Effect>, log': seq<Effect>,
                                         o: Attempt, k: nat)
    requires Complete(command, argument, log) && From(log, o)
    requires Complete(command, argument, log') && From(log', o)
    requires k <= |Plan(command)|
    ensures k <= |log| && k <= |log'| && log[..k] == log'[..k]
  {
    if k > 0 {
      PrefixesEqual(command, argument, log, log', o, k - 1);
      EffectsEqual(command, argument, log, log', o, k - 1);
      PrefixExtended(log, log', k - 1);
    }
  }

  /** Two complete logs in the same world are equal: step, input and output are all determined. */
  lemma CompleteUnique(command: string, argument: uint256, log: seq<Effect>, log': seq<Effect>, o: Attempt)
    requires Complete(command, argument, log) && From(log, o)
    requires Complete(command, argument, log') && From(log', o)
    ensures log == log'
  {
    var n := |Plan(command)|;
    PrefixesEqual(command, argument, log, log', o, n);
    if 'p' in command {
      assert log == log[..n] + [log[n]] && log' == log'[..n] + [log'[n]];
    } else {
      assert log == log[..n] && log' == log'[..n];
    }
  }

  /**
   Resume equivalence, the ids: if no failed attempt lost its last effect, the whole series did on
   chain exactly what one uninterrupted run does in which each step returns the same id, so every later
   step was handed the same ids.
   */
  lemma SameAsUninterrupted(command: string, argument: uint256, os: seq<Attempt>)
    requires os != [] && EndsInSuccess(command, argument, Absent, [], os)
    requires EffectsKept(command, argument, Absent, [], os)
    ensures var s := Series(command, argument, Absent, [], os);
      var once := Try(command, argument, Absent, [], Smooth(s.log));
      && !once.failed && once.log == s.log
      && (os[|os| - 1].removes ==> once.file == s.file)
  {
    FreshStartable(command);
    SeriesFrom(command, argument, Absent, [], os);
    var log := Series(command, argument, Absent, [], os).log;
    var o := Smooth(log);
    var once := Try(command, argument, Absent, [], o);
    SmoothSucceeds(command, argument, log);
    SuccessfulTry(command, argument, Absent, [], o);
    TryFrom(command, argument, o);
    CompleteFromSmooth(command, argument, log);
    CompleteUnique(command, argument, log, once.log, o);
  }
}

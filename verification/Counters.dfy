/**
 The enclave's counters under concurrency.  A check runs two separate locked sections, one counting
 the check and a later one counting its signature; other checks and state reads may run in between.
 */
module Counters {
  import opened Prelude

  /** Where one check stands. */
  datatype Phase = Reading | Checked(signs: bool) | Done

  /** The two uint64 counters and the checks started so far. */
  datatype Shared = Shared(checksPerformed: uint64, actionsSigned: uint64, checks: seq<Phase>)

  /** A scheduler's choice: a new request, or the next section of check i. */
  datatype Move =
    | Arrive
    | Fail(i: nat)                    // a read fails, or signing fails
    | CountCheck(i: nat, signs: bool) // first locked section
    | CountSigned(i: nat)             // second locked section, then the answer
    | Answer(i: nat)                  // a check that signs nothing ends

  function Step(s: Shared, m: Move): Shared {
    match m
    case Arrive => s.(checks := s.checks + [Reading])
    case Fail(i) =>
      if i < |s.checks| then s.(checks := s.checks[i := Done]) else s
    case CountCheck(i, signs) =>
      if i < |s.checks| && s.checks[i].Reading? then
        s.(checksPerformed := (s.checksPerformed + 1) % POW64, checks := s.checks[i := Checked(signs)])
      else s
    case CountSigned(i) =>
      if i < |s.checks| && s.checks[i] == Checked(true) then
        s.(actionsSigned := (s.actionsSigned + 1) % POW64, checks := s.checks[i := Done])
      else s
    case Answer(i) =>
      if i < |s.checks| && s.checks[i] == Checked(false) then s.(checks := s.checks[i := Done]) else s
  }

  function Run(s: Shared, moves: seq<Move>): Shared
    decreases |moves|
  {
    if moves == [] then s else Run(Step(s, moves[0]), moves[1..])
  }

  /** How often each section has run, without wrap-around. */
  function Sections(s: Shared, moves: seq<Move>): (n: (nat, nat))
    decreases |moves|
  {
    if moves == [] then (0, 0)
    else
      var rest := Sections(Step(s, moves[0]), moves[1..]);
      match moves[0]
      case CountCheck(i, _) =>
        if i < |s.checks| && s.checks[i].Reading? then (rest.0 + 1, rest.1) else rest
      case CountSigned(i) =>
        if i < |s.checks| && s.checks[i] == Checked(true) then (rest.0, rest.1 + 1) else rest
      case _ => rest
  }

  /** Checks between their two sections that are still going to count a signature. */
  function Pending(checks: seq<Phase>): nat {
    if checks == [] then 0
    else (if checks[0] == Checked(true) then 1 else 0) + Pending(checks[1..])
  }

  lemma {:induction false} PendingUpdate(checks: seq<Phase>, i: nat, p: Phase)
    requires i < |checks|
    ensures Pending(checks[i := p]) + (if checks[i] == Checked(true) then 1 else 0)
         == Pending(checks) + (if p == Checked(true) then 1 else 0)
  {
    if i > 0 {
      PendingUpdate(checks[1..], i - 1, p);
      assert checks[i := p][1..] == checks[1..][i - 1 := p];
    }
  }

  lemma {:induction false} PendingAppend(checks: seq<Phase>)
    ensures Pending(checks + [Reading]) == Pending(checks)
  {
    if checks != [] {
      PendingAppend(checks[1..]);
      assert (checks + [Reading])[1..] == checks[1..] + [Reading];
    }
  }

  lemma WrapsOnce(counter: uint64, later: nat)
    ensures ((counter + 1) % POW64 + later) % POW64 == (counter + (later + 1)) % POW64
  {
    if counter + 1 == POW64 {
      assert (later + POW64) % POW64 == later % POW64;
    }
  }

  /** The counters are the section counts modulo 2^64. */
  lemma {:induction false} CountersCount(s: Shared, moves: seq<Move>)
    ensures var t, n := Run(s, moves), Sections(s, moves);
      && t.checksPerformed == (s.checksPerformed + n.0) % POW64
      && t.actionsSigned == (s.actionsSigned + n.1) % POW64
    decreases |moves|
  {
    if moves != [] {
      var rest := Sections(Step(s, moves[0]), moves[1..]);
      CountersCount(Step(s, moves[0]), moves[1..]);
      WrapsOnce(s.checksPerformed, rest.0);
      WrapsOnce(s.actionsSigned, rest.1);
    }
  }

  /** A second section is always preceded by the first section of the same check. */
  lemma {:induction false} SignedAfterChecked(s: Shared, moves: seq<Move>)
    ensures var t, n := Run(s, moves), Sections(s, moves);
      n.1 + Pending(t.checks) <= n.0 + Pending(s.checks)
    decreases |moves|
  {
    if moves != [] {
      var m := moves[0];
      SignedAfterChecked(Step(s, m), moves[1..]);
      match m
      case Arrive => PendingAppend(s.checks);
      case Fail(i) => if i < |s.checks| { PendingUpdate(s.checks, i, Done); }
      case CountCheck(i, signs) => if i < |s.checks| { PendingUpdate(s.checks, i, Checked(signs)); }
      case CountSigned(i) => if i < |s.checks| { PendingUpdate(s.checks, i, Done); }
      case Answer(i) => if i < |s.checks| { PendingUpdate(s.checks, i, Done); }
    }
  }

  const IDLE: Shared := Shared(0, 0, [])

  /**
   Every state read, at any point of any interleaving, shows at most as many signed actions as checks,
   as long as fewer than 2^64 checks were counted.
   */
  lemma SnapshotOrdered(moves: seq<Move>)
    requires Sections(IDLE, moves).0 < POW64
    ensures var snapshot := Run(IDLE, moves);
      snapshot.actionsSigned <= snapshot.checksPerformed
  {
    CountersCount(IDLE, moves);
    SignedAfterChecked(IDLE, moves);
  }
}

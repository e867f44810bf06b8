/**
 Resumable machine registration: up to four steps, with progress saved to a state file after each of
 the first three so that a later attempt can go on where an earlier one failed.
 */
module Registration {
  import opened Prelude

  /** registrationState, in memory and in the file. */
  datatype Saved = Saved(completed: string, attestId: uint256, instructionId: uint256)

  /** The state file. A write that fails half-way leaves one that no longer parses. */
  datatype File = Absent | Intact(saved: Saved) | Torn

  /** What becomes of a save: it is written, fails before touching the file, or fails half-way. */
  datatype Write = Written | NotOpened | CutShort

  /**
   What becomes of a transaction: it has no effect, or it is mined and the caller learns its result, or it
   is mined and the caller gets an error all the same: the wait for the receipt timed out, or what came
   back could not be read.  All transactions are one account's, so they are mined in the order sent.
   */
  datatype Reply<+T> = Refused | Unacked(value: T) | Acked(value: T)

  /** A step that took effect on-chain: its letter, the instruction id it was given and the one it made. */
  datatype Effect = Effect(step: char, input: uint256, output: uint256)

  /** How the outside world treats one attempt. */
  datatype Attempt = Attempt(
    ready: bool,                   // node identity and, if there is one, the state file could be read
    registered: bool,              // the machine is already on-chain
    preRegister: Reply<uint256>,
    freshAttestation: Reply<uint256>,
    attest: Reply<uint256>,
    policyConsistent: bool,
    check: Reply<uint256>,
    promote: Reply<()>,
    saves: char -> Write,          // what becomes of the save after this step
    removes: bool)                 // is the state file deleted at the end? Nobody asks

  /** An attempt under way. */
  datatype Session = Session(
    saved: Saved,
    file: File,
    log: seq<Effect>,
    attestId: uint256,
    instructionId: uint256,
    failed: bool)

  /** A missing state file means a fresh start. */
  function Load(file: File): Saved {
    if file.Intact? then file.saved else Saved("", 0, 0)
  }

  /** An attempt starts from what the file says, and fails at once if it does not parse. */
  function Open(file: File, log: seq<Effect>, ready: bool): Session {
    Session(Load(file), file, log, 0, 0, !ready || file.Torn?)
  }

  function AfterWrite(file: File, saved: Saved, write: Write): File {
    match write
    case Written => Intact(saved)
    case NotOpened => file
    case CutShort => Torn
  }

  /** A step took effect and the attempt fails without knowing it. */
  function Forget(s: Session, effect: Effect): Session {
    s.(log := s.log + [effect], failed := true)
  }

  /** A step went through: remember it in memory, then try to save; a failing save is only logged. */
  function Record(s: Session, effect: Effect, saved: Saved, write: Write): Session {
    s.(saved := saved, log := s.log + [effect], file := AfterWrite(s.file, saved, write))
  }

  /** Steps r and R: both end with an attestation instruction id. */
  function AttestationStep(s: Session, command: string, step: char, reply: Reply<uint256>, write: Write): Session {
    if s.failed || step !in command then s
    else if step in s.saved.completed then s.(attestId := s.saved.attestId)
    else
      match reply
      case Refused => s.(failed := true)
      case Unacked(id) => Forget(s, Effect(step, 0, id))
      case Acked(id) =>
        Record(s, Effect(step, 0, id),
               s.saved.(completed := s.saved.completed + [step], attestId := id), write).(attestId := id)
  }

  /** Step a: the availability check of the attestation, after the policy pre-flight. */
  function CheckStep(s: Session, command: string, argument: uint256, o: Attempt): Session {
    if s.failed then s
    else if 'a' !in command then s.(instructionId := argument)
    else if 'a' in s.saved.completed then s.(instructionId := s.saved.instructionId)
    else if !o.policyConsistent then s.(failed := true)
    else
      match o.check
      case Refused => s.(failed := true)
      case Unacked(id) => Forget(s, Effect('a', s.attestId, id))
      case Acked(id) =>
        Record(s, Effect('a', s.attestId, id),
               s.saved.(completed := s.saved.completed + ['a'], instructionId := id), o.saves('a'))
        .(instructionId := id)
  }

  /** Step p, which is not recorded in the state file. */
  function PromoteStep(s: Session, command: string, o: Attempt): Session {
    if s.failed || 'p' !in command then s
    else
      match o.promote
      case Refused => s.(failed := true)
      case Unacked(_) => Forget(s, Effect('p', s.instructionId, 0))
      case Acked(_) => s.(log := s.log + [Effect('p', s.instructionId, 0)])
  }

  function Registered(o: Attempt): Reply<uint256> {
    if o.registered then o.freshAttestation else o.preRegister
  }

  /** One attempt; after success the state file is gone, unless deleting it failed. */
  function Try(command: string, argument: uint256, file: File, log: seq<Effect>, o: Attempt): Session {
    var s := Open(file, log, o.ready);
    var s := AttestationStep(s, command, 'r', Registered(o), o.saves('r'));
    var s := AttestationStep(s, command, 'R', o.attest, o.saves('R'));
    var s := CheckStep(s, command, argument, o);
    var s := PromoteStep(s, command, o);
    if s.failed || !o.removes then s else s.(file := Absent)
  }

  /** RegisterNode at work: its local variables, the state file on disk and the effects on-chain. */
  class Registrar {
    var file: File
    var log: seq<Effect>
    var state: Saved
    var teeAttestInstructionID: uint256
    var instructionID: uint256

    ghost function Contents(failed: bool): Session
      reads this
    {
      Session(state, file, log, teeAttestInstructionID, instructionID, failed)
    }

    /** saveState: truncates the file and writes it anew. */
    method Save(write: Write)
      modifies `file
      ensures file == AfterWrite(old(file), state, write)
    {
      if write.NotOpened? { return; }
      file := Torn;
      if write.Written? {
        file := Intact(state);
      }
    }

    method Attest(command: string, step: char, reply: Reply<uint256>, write: Write) returns (failed: bool)
      modifies this
      ensures Contents(failed) == AttestationStep(old(Contents(false)), command, step, reply, write)
    {
      failed := false;
      if step in command {
        if step in state.completed {
          teeAttestInstructionID := state.attestId;
        } else {
          if reply.Refused? { return true; }
          log := log + [Effect(step, 0, reply.value)];
          if reply.Unacked? { return true; }
          teeAttestInstructionID := reply.value;
          state := state.(completed := state.completed + [step]);
          state := state.(attestId := teeAttestInstructionID);
          Save(write);
        }
      }
    }

    method CheckAvailability(command: string, argument: uint256, o: Attempt) returns (failed: bool)
      modifies this
      ensures Contents(failed) == CheckStep(old(Contents(false)), command, argument, o)
    {
      failed := false;
      if 'a' in command {
        if 'a' in state.completed {
          instructionID := state.instructionId;
        } else {
          if !o.policyConsistent { return true; }
          if o.check.Refused? { return true; }
          log := log + [Effect('a', teeAttestInstructionID, o.check.value)];
          if o.check.Unacked? { return true; }
          instructionID := o.check.value;
          state := state.(completed := state.completed + ['a']);
          state := state.(instructionId := instructionID);
          Save(o.saves('a'));
        }
      } else {
        instructionID := argument;
      }
    }

    method RegisterNode(command: string, argument: uint256, o: Attempt) returns (failed: bool)
      modifies this
      ensures var t := Try(command, argument, old(file), old(log), o);
        failed == t.failed && file == t.file && log == t.log
    {
      if !o.ready || file.Torn? { return true; }
      state := if file.Intact? then file.saved else Saved("", 0, 0);
      teeAttestInstructionID := 0;
      instructionID := 0;
      var first := if o.registered then o.freshAttestation else o.preRegister;
      failed := Attest(command, 'r', first, o.saves('r'));
      if failed { return; }
      failed := Attest(command, 'R', o.attest, o.saves('R'));
      if failed { return; }
      failed := CheckAvailability(command, argument, o);
      if failed { return; }
      if 'p' in command {
        if o.promote.Refused? { return true; }
        log := log + [Effect('p', instructionID, 0)];
        if o.promote.Unacked? { return true; }
      }
      if o.removes {
        file := Absent;
      }
    }
  }
}

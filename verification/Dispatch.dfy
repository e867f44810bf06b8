/** The handler registry: registration under bytes32 identifiers, lookup by hex texts from the wire. */
module Dispatch {
  import opened Prelude
  import opened Hex

  /** One registered handler under its two bytes32 hex identifiers. */
  datatype Entry<H> = Entry(opType: string, opCommand: string, handler: H)

  /** A registration as the application wrote it. */
  datatype Registration<H> = Registration(opType: seq<uint8>, opCommand: seq<uint8>, handler: H)

  /** stringToBytes32Hex(""), the command slot of a wildcard. */
  function EmptyBytes32(): string {
    ToBytes32([]).value
  }

  predicate StartsWith0x(s: string) {
    |s| >= 2 && s[..2] == "0x"
  }

  /** normalize: a missing identifier is the empty one; others become lower-case and prefixed. */
  function Normalize(h: string): string {
    if h == "" then EmptyBytes32()
    else
      var lower := Lower(h);
      if StartsWith0x(lower) then lower else "0x" + lower
  }

  /** The handler of the first entry under exactly these two slots. */
  function First<H>(entries: seq<Entry<H>>, t: string, c: string): Option<H> {
    if entries == [] then None
    else if entries[0].opType == t && entries[0].opCommand == c then Some(entries[0].handler)
    else First(entries[1..], t, c)
  }

  /** An exact match wins over a wildcard, wherever the two stand. */
  function Find<H>(entries: seq<Entry<H>>, t: string, c: string): Option<H> {
    match First(entries, t, c)
    case Some(h) => Some(h)
    case None => First(entries, t, EmptyBytes32())
  }

  predicate Fits<H>(r: Registration<H>) {
    |r.opType| <= 32 && |r.opCommand| <= 32
  }

  /** What one registration adds: nothing when an identifier is too long. */
  function Entered<H>(r: Registration<H>): seq<Entry<H>> {
    if Fits(r) then [Entry(ToBytes32(r.opType).value, ToBytes32(r.opCommand).value, r.handler)] else []
  }

  /** The registry after these registrations, some of which may have thrown. */
  function Table<H>(regs: seq<Registration<H>>): seq<Entry<H>> {
    if regs == [] then [] else Entered(regs[0]) + Table(regs[1..])
  }

  lemma {:induction false} TableAppend<H>(regs: seq<Registration<H>>, r: Registration<H>)
    ensures Table(regs + [r]) == Table(regs) + Entered(r)
  {
    if regs == [] {
      assert ([] + [r])[1..] == [];
    } else {
      assert (regs + [r])[1..] == regs[1..] + [r];
      TableAppend(regs[1..], r);
    }
  }

  /** Registrations meant for this type and command, in order; identifiers are compared as byte strings. */
  function MeantFor<H>(regs: seq<Registration<H>>, t: seq<uint8>, c: seq<uint8>): seq<H> {
    if regs == [] then []
    else if && Fits(regs[0])
            && Trimmed(regs[0].opType) == Trimmed(t) && Trimmed(regs[0].opCommand) == Trimmed(c) then
      [regs[0].handler] + MeantFor(regs[1..], t, c)
    else MeantFor(regs[1..], t, c)
  }

  /** A handler list's head, if any. */
  function Head<H>(hs: seq<H>): Option<H> {
    if hs == [] then None else Some(hs[0])
  }

  /** The text on the wire stands for this identifier: any hex spelling of its slot, or nothing at all. */
  predicate Spells(h: string, id: seq<uint8>) {
    |id| <= 32 && if h == "" then Trimmed(id) == [] else Decode(Some(h)) == Success(Padded(id))
  }

  /** The text stands for no identifier: no hex, or not 32 bytes of it. */
  ghost predicate SpellsNothing(h: string) {
    forall id :: !Spells(h, id)
  }

  /** The application's view: the calls of handle so far, whether they threw or not. */
  class Framework<H> {
    var handlers: seq<Entry<H>>
    ghost var calls: seq<Registration<H>>

    ghost predicate Valid()
      reads this
    {
      handlers == Table(calls)
    }

    constructor ()
      ensures Valid() && calls == [] && handlers == []
    {
      handlers := [];
      calls := [];
    }

    /** handle: an identifier over 32 bytes throws before anything is registered. */
    method Handle(opType: seq<uint8>, opCommand: seq<uint8>, handler: H) returns (thrown: bool)
      requires Valid()
      modifies this
      ensures Valid() && calls == old(calls) + [Registration(opType, opCommand, handler)]
      ensures thrown <==> |opType| > 32 || |opCommand| > 32
      ensures thrown ==> handlers == old(handlers)
      ensures !thrown ==>
        handlers == old(handlers) + [Entry(ToBytes32(opType).value, ToBytes32(opCommand).value, handler)]
    {
      var call := Registration(opType, opCommand, handler);
      TableAppend(calls, call);
      calls := calls + [call];
      var t := ToBytes32(opType);
      if t.Failure? { return true; }
      var c := ToBytes32(opCommand);
      if c.Failure? { return true; }
      handlers := handlers + [Entry(t.value, c.value, handler)];
      thrown := false;
    }

    /**
     lookup: one pass for the exact match, a second one for the wildcard.  Over whatever was registered,
     and for every spelling of the two identifiers: the first handler registered for this very type and
     command, else the first for the type without a command, else none.
     */
    method Lookup(opType: string, opCommand: string) returns (h: Option<H>)
      requires Valid()
      ensures h == Find(handlers, Normalize(opType), Normalize(opCommand))
      ensures forall t, c | Spells(opType, t) && Spells(opCommand, c) ::
        h == if MeantFor(calls, t, c) != [] then Some(MeantFor(calls, t, c)[0]) else Head(MeantFor(calls, t, []))
      ensures SpellsNothing(opCommand) ==> forall t | Spells(opType, t) :: h == Head(MeantFor(calls, t, []))
      ensures SpellsNothing(opType) ==> h == None
    {
      LookupMeans(calls, opType, opCommand);
      var t, c := Normalize(opType), Normalize(opCommand);
      for i := 0 to |handlers|
        invariant First(handlers, t, c) == First(handlers[i..], t, c)
      {
        if handlers[i].opType == t && handlers[i].opCommand == c { return Some(handlers[i].handler); }
        assert handlers[i..][1..] == handlers[i + 1..];
      }
      for i := 0 to |handlers|
        invariant First(handlers, t, EmptyBytes32()) == First(handlers[i..], t, EmptyBytes32())
      {
        if handlers[i].opType == t && handlers[i].opCommand == EmptyBytes32() {
          return Some(handlers[i].handler);
        }
        assert handlers[i..][1..] == handlers[i + 1..];
      }
      h := None;
    }
  }

  // ---- texts on the wire ----

  lemma LowerHex(s: string)
    ensures AllHex(Lower(s)) <==> AllHex(s)
    ensures AllHex(s) && |s| % 2 == 0 ==> Bytes(Lower(s)) == Bytes(s)
  {
    forall i | 0 <= i < |s|
      ensures IsHex(Lower(s)[i]) <==> IsHex(s[i])
    {
    }
    if AllHex(s) && |s| % 2 == 0 {
      forall i | 0 <= i < |s|
        ensures NibbleValue(Lower(s)[i]) == NibbleValue(s[i])
      {
      }
    }
  }

  lemma NormalizeStrips(h: string)
    requires h != ""
    ensures Normalize(h) == "0x" + Lower(Strip(h))
  {
    var lower := Lower(h);
    if |h| >= 2 && h[..2] in ["0x", "0X"] {
      assert lower[..2] == "0x" && lower == "0x" + Lower(h[2..]);
    } else {
      assert Strip(h) == h;
      assert !StartsWith0x(lower) by {
        if |h| >= 2 {
          assert lower[..2] == Lower(h[..2]);
          assert h[..2] == [h[0], h[1]] && lower[..2] == [lower[0], lower[1]];
        }
      }
    }
  }

  /** Two texts are looked up alike exactly when they spell the same word, prefixed or bare, in any case. */
  lemma NormalizeCanonical(h: string, word: seq<uint8>)
    requires h != ""
    ensures Normalize(h) == Encode(word) <==> Decode(Some(h)) == Success(word)
  {
    NormalizeStrips(h);
    if Decode(Some(h)) == Success(word) {
      EncodeDecode(h);
    }
    if Normalize(h) == Encode(word) {
      DecodeEncode(word);
      StripPrefixed(Lower(Strip(h)));
      LowerHex(Strip(h));
    }
  }

  /** Lookup compares with an identifier's slot exactly when the text spells the identifier. */
  lemma NormalizeSpells(h: string, id: seq<uint8>)
    requires |id| <= 32
    ensures Normalize(h) == ToBytes32(id).value <==> Spells(h, id)
  {
    if h == "" {
      SlotsCollideIff([], id);
    } else {
      NormalizeCanonical(h, Padded(id));
    }
  }

  // ---- all registration sequences ----

  lemma FirstOfConcat<H>(a: seq<Entry<H>>, b: seq<Entry<H>>, t: string, c: string)
    requires |a| <= 1
    ensures First(a + b, t, c) == if First(a, t, c).Some? then First(a, t, c) else First(b, t, c)
  {
    if a == [] {
      assert a + b == b;
    } else {
      assert (a + b)[1..] == b;
    }
  }

  lemma {:induction false} FirstIsFirstMeant<H>(regs: seq<Registration<H>>, t: seq<uint8>, c: seq<uint8>)
    requires |t| <= 32 && |c| <= 32
    ensures First(Table(regs), ToBytes32(t).value, ToBytes32(c).value) == Head(MeantFor(regs, t, c))
  {
    if regs != [] {
      if Fits(regs[0]) {
        SlotsCollideIff(regs[0].opType, t);
        SlotsCollideIff(regs[0].opCommand, c);
      }
      FirstIsFirstMeant(regs[1..], t, c);
      FirstOfConcat(Entered(regs[0]), Table(regs[1..]), ToBytes32(t).value, ToBytes32(c).value);
    }
  }

  /**
   Dispatch over every registration sequence: the first handler meant for this very type and command,
   else the first registered for the type without a command, else none.  Only the relative order of
   registrations meant for the same slots enters, so how exact ones and wildcards were interleaved
   does not matter.
   */
  lemma DispatchesToFirstMeant<H>(regs: seq<Registration<H>>, opType: string, opCommand: string,
                                  t: seq<uint8>, c: seq<uint8>)
    requires Spells(opType, t) && Spells(opCommand, c)
    ensures Find(Table(regs), Normalize(opType), Normalize(opCommand))
      == if MeantFor(regs, t, c) != [] then Some(MeantFor(regs, t, c)[0]) else Head(MeantFor(regs, t, []))
  {
    NormalizeSpells(opType, t);
    NormalizeSpells(opCommand, c);
    FirstIsFirstMeant(regs, t, c);
    FirstIsFirstMeant(regs, t, []);
  }

  /** A text that stands for no identifier matches no entry. */
  lemma {:induction false} NothingSpeltNothingFirst<H>(regs: seq<Registration<H>>, h: string, t: string, c: string)
    requires SpellsNothing(h) && (t == Normalize(h) || c == Normalize(h))
    ensures First(Table(regs), t, c) == None
  {
    if regs != [] {
      NothingSpeltNothingFirst(regs[1..], h, t, c);
      FirstOfConcat(Entered(regs[0]), Table(regs[1..]), t, c);
      if Fits(regs[0]) {
        NormalizeSpells(h, regs[0].opType);
        NormalizeSpells(h, regs[0].opCommand);
      }
    }
  }

  /** The three cases of a lookup, for any texts. */
  lemma LookupMeans<H>(regs: seq<Registration<H>>, opType: string, opCommand: string)
    ensures var found := Find(Table(regs), Normalize(opType), Normalize(opCommand));
      && (forall t, c | Spells(opType, t) && Spells(opCommand, c) ::
            found == if MeantFor(regs, t, c) != [] then Some(MeantFor(regs, t, c)[0]) else Head(MeantFor(regs, t, [])))
      && (SpellsNothing(opCommand) ==> forall t | Spells(opType, t) :: found == Head(MeantFor(regs, t, [])))
      && (SpellsNothing(opType) ==> found == None)
  {
    forall t, c | Spells(opType, t) && Spells(opCommand, c) {
      DispatchesToFirstMeant(regs, opType, opCommand, t, c);
    }
    if SpellsNothing(opCommand) {
      NothingSpeltNothingFirst(regs, opCommand, Normalize(opType), Normalize(opCommand));
      forall t | Spells(opType, t)
        ensures Find(Table(regs), Normalize(opType), Normalize(opCommand)) == Head(MeantFor(regs, t, []))
      {
        NormalizeSpells(opType, t);
        FirstIsFirstMeant(regs, t, []);
      }
    }
    if SpellsNothing(opType) {
      NothingSpeltNothingFirst(regs, opType, Normalize(opType), Normalize(opCommand));
      NothingSpeltNothingFirst(regs, opType, Normalize(opType), EmptyBytes32());
    }
  }

  /** Two registration orders that agree on each slot by itself dispatch alike. */
  lemma InterleavingIrrelevant<H>(regs: seq<Registration<H>>, regs': seq<Registration<H>>,
                                  opType: string, opCommand: string, t: seq<uint8>, c: seq<uint8>)
    requires Spells(opType, t) && Spells(opCommand, c)
    requires MeantFor(regs, t, c) == MeantFor(regs', t, c) && MeantFor(regs, t, []) == MeantFor(regs', t, [])
    ensures Find(Table(regs), Normalize(opType), Normalize(opCommand))
         == Find(Table(regs'), Normalize(opType), Normalize(opCommand))
  {
    DispatchesToFirstMeant(regs, opType, opCommand, t, c);
    DispatchesToFirstMeant(regs', opType, opCommand, t, c);
  }
}

/** The flags word of a gpio_desc, edited bit by bit as the driver does it. */
module Words {
  type Word = bv32

  const REQUESTED: Word := 0x01
  const IS_OUT: Word := 0x02
  const RESERVED: Word := 0x04
  const EXPORT: Word := 0x08
  const SYSFS: Word := 0x10
  const TRIG_FALL: Word := 0x20
  const TRIG_RISE: Word := 0x40
  const ACTIVE_LOW: Word := 0x80
  const TRIGGER_MASK: Word := 0x60
  const FLAGS_MASK: Word := 0xFFFF

  /** The flags that gpio_setup_irq never edits. */
  const OTHER_FLAGS: Word := 0xFF9F

  function Number(w: Word): nat {
    w as nat
  }

  lemma NumberOfZero(w: Word)
    ensures Number(w) == 0 <==> w == 0
  {
  }

  lemma SmallNumbers(w: Word)
    ensures Number(w) < 0x10000 <==> w < 0x10000
  {
  }

  /** All that the driver's edits need to know of numbers. */
  ghost predicate Counts(number: Word -> nat) {
    forall x :: (number(x) == 0 <==> x == 0) && (number(x) < 0x10000 <==> x < 0x10000)
  }

  lemma NumberCounts()
    ensures Counts(Number)
  {
    forall x ensures (Number(x) == 0 <==> x == 0) && (Number(x) < 0x10000 <==> x < 0x10000) {
      NumberOfZero(x);
      SmallNumbers(x);
    }
  }

  /** request_any_context_irq, then the trigger bits; on failure the id is masked out. */
  function HandlerWord(w: Word, want: Word, installed: bool): Word {
    if installed then w | want else w & FLAGS_MASK
  }

  /** Storing a new id, with the range test that reads it back. */
  function NewIdWord(w: Word, want: Word, found: bool, id: Word, installed: bool): Word {
    if found then ReadBackWord((w & FLAGS_MASK) | (id << 16), want, id, installed) else w
  }

  function ReadBackWord(stored: Word, want: Word, id: Word, installed: bool): Word {
    if stored >> 16 != id then stored & FLAGS_MASK else HandlerWord(stored, want, installed)
  }

  /** gpio_setup_irq, edit by edit. Is there an interrupt, is the id in the word live, were the value file
      and a new id found, is the handler installed? */
  function SetupWord(w: Word, want: Word, irq: bool, live: bool, found: bool, id: Word, installed: bool): Word {
    if w & TRIGGER_MASK == want || !irq then w
    else
      var cleared := w & !TRIGGER_MASK;
      if want == 0 then cleared & FLAGS_MASK
      else if live then HandlerWord(cleared, want, installed)
      else NewIdWord(cleared, want, found, id, installed)
  }

  predicate Low(want: Word) {
    want & !TRIGGER_MASK == 0
  }

  lemma ClearEdits(w: Word)
    ensures var v := w & !TRIGGER_MASK;
      v & OTHER_FLAGS == w & OTHER_FLAGS && v & TRIGGER_MASK == 0 && v >> 16 == w >> 16
  {
  }

  lemma MaskEdits(w: Word)
    ensures var v := w & FLAGS_MASK;
      v & OTHER_FLAGS == w & OTHER_FLAGS && v & TRIGGER_MASK == w & TRIGGER_MASK && v >> 16 == 0
  {
  }

  lemma OrEdits(w: Word, want: Word)
    requires Low(want) && w & TRIGGER_MASK == 0
    ensures var v := w | want;
      v & OTHER_FLAGS == w & OTHER_FLAGS && v & TRIGGER_MASK == want && v >> 16 == w >> 16
  {
  }

  lemma StoredFlags(w: Word, id: Word)
    ensures ((w & FLAGS_MASK) | (id << 16)) & OTHER_FLAGS == w & OTHER_FLAGS
  {
  }

  lemma StoredTrigger(w: Word, id: Word)
    ensures ((w & FLAGS_MASK) | (id << 16)) & TRIGGER_MASK == w & TRIGGER_MASK
  {
  }

  lemma StoredId(w: Word, id: Word)
    ensures ((w & FLAGS_MASK) | (id << 16)) >> 16 == id <==> id < 0x10000
  {
    assert ((w & FLAGS_MASK) | (id << 16)) >> 16 == id & 0xFFFF;
  }

  lemma FailedHandler(w: Word, stored: Word)
    requires stored & OTHER_FLAGS == w & OTHER_FLAGS && stored & TRIGGER_MASK == 0
    ensures EndsQuiet(w, stored & FLAGS_MASK)
  {
    MaskEdits(stored);
  }

  lemma InstalledHandler(w: Word, stored: Word, want: Word)
    requires stored & OTHER_FLAGS == w & OTHER_FLAGS && stored & TRIGGER_MASK == 0 && Low(want)
    ensures EndsArmed(w, stored | want, want, stored >> 16)
  {
    OrEdits(stored, want);
  }

  /** No trigger bits and no id, and the other flags as before. */
  predicate EndsQuiet(w: Word, v: Word) {
    v & OTHER_FLAGS == w & OTHER_FLAGS && v & TRIGGER_MASK == 0 && v >> 16 == 0
  }

  predicate EndsArmed(w: Word, v: Word, want: Word, id: Word) {
    v & OTHER_FLAGS == w & OTHER_FLAGS && v & TRIGGER_MASK == want && v >> 16 == id
  }

  lemma ReadBackArmed(w: Word, stored: Word, want: Word, id: Word)
    requires Low(want) && stored & TRIGGER_MASK == 0 && stored & OTHER_FLAGS == w & OTHER_FLAGS
    requires stored >> 16 == id
    ensures EndsArmed(w, ReadBackWord(stored, want, id, true), want, id)
  {
    InstalledHandler(w, stored, want);
  }

  lemma ReadBackDisarmed(w: Word, stored: Word, want: Word, id: Word, installed: bool)
    requires stored & TRIGGER_MASK == 0 && stored & OTHER_FLAGS == w & OTHER_FLAGS
    requires stored >> 16 == id ==> !installed
    ensures EndsQuiet(w, ReadBackWord(stored, want, id, installed))
  {
    FailedHandler(w, stored);
  }

  lemma NewIdArmed(w: Word, want: Word, id: Word)
    requires Low(want) && w & TRIGGER_MASK == 0 && id < 0x10000
    ensures EndsArmed(w, NewIdWord(w, want, true, id, true), want, id)
  {
    StoredFlags(w, id);
    StoredTrigger(w, id);
    StoredId(w, id);
    ReadBackArmed(w, (w & FLAGS_MASK) | (id << 16), want, id);
  }

  lemma NewIdDisarmed(w: Word, want: Word, found: bool, id: Word, installed: bool)
    requires w & TRIGGER_MASK == 0 && w >> 16 == 0
    requires found && installed ==> id >= 0x10000
    ensures EndsQuiet(w, NewIdWord(w, want, found, id, installed))
  {
    if found {
      StoredFlags(w, id);
      StoredTrigger(w, id);
      StoredId(w, id);
      ReadBackDisarmed(w, (w & FLAGS_MASK) | (id << 16), want, id, installed);
    }
  }

  /** gpio_setup_irq that arms nothing leaves no trigger bits and no id: on the old handler's line, */
  lemma SetupDisarms(w: Word, want: Word, live: bool, found: bool, id: Word, installed: bool)
    requires w & TRIGGER_MASK != want && (want == 0 || (live && !installed))
    ensures EndsQuiet(w, SetupWord(w, want, true, live, found, id, installed))
  {
    ClearEdits(w);
    FailedHandler(w, w & !TRIGGER_MASK);
  }

  /** and on a line that had none. */
  lemma SetupStaysQuiet(w: Word, want: Word, found: bool, id: Word, installed: bool)
    requires w & TRIGGER_MASK != want && want != 0 && w >> 16 == 0
    requires found && installed ==> id >= 0x10000
    ensures EndsQuiet(w, SetupWord(w, want, true, false, found, id, installed))
  {
    ClearEdits(w);
    NewIdDisarmed(w & !TRIGGER_MASK, want, found, id, installed);
  }

  lemma SetupKeepsId(w: Word, want: Word, found: bool, id: Word)
    requires Low(want) && want != 0 && w & TRIGGER_MASK != want
    ensures EndsArmed(w, SetupWord(w, want, true, true, found, id, true), want, w >> 16)
  {
    ClearEdits(w);
    InstalledHandler(w, w & !TRIGGER_MASK, want);
  }

  lemma SetupStoresId(w: Word, want: Word, id: Word)
    requires Low(want) && want != 0 && w & TRIGGER_MASK != want && id < 0x10000
    ensures EndsArmed(w, SetupWord(w, want, true, false, true, id, true), want, id)
  {
    ClearEdits(w);
    NewIdArmed(w & !TRIGGER_MASK, want, id);
  }
}

/** Ways to keep the flags and the id of a line in a word of type W. */
module FlagPacking {
  import opened Common
  import opened GpioTable
  import opened GpioLines

  /** The flags that calls edit one at a time. */
  datatype Bit = Requested | IsOut | Reserved | Exported | ActiveLow

  function PutFlag(x: Flags, b: Bit, on: bool): Flags {
    Flags(if b == Requested then on else x.requested, if b == IsOut then on else x.isOut,
          if b == Reserved then on else x.reserved, if b == Exported then on else x.exported,
          x.sysfs, x.fall, x.rise, if b == ActiveLow then on else x.activeLow, x.id)
  }

  lemma PutFlagKeepsId(x: Flags, b: Bit, on: bool, n: nat)
    ensures PutFlag(x, b, on).(id := n) == PutFlag(x.(id := n), b, on)
  {
  }

  /** What gpio_setup_irq finds out on its way: whether there is an interrupt, whether the id in the word
      is live, the new id if the value file and one were found, and whether the handler is installed. */
  datatype Found<W> = Found(irq: bool, live: bool, id: Option<W>, installed: bool)

  /** What it makes of the fields. */
  function SetupFlags(x: Flags, want: Edges, irq: bool, live: bool, id: Option<nat>, installed: bool): Flags {
    if Trigger(x) == want || !irq then x
    else if want != NO_EDGES && installed && live then x.(fall := want.fall, rise := want.rise)
    else if want != NO_EDGES && installed && id.Some? && id.value < 0x10000
    then x.(fall := want.fall, rise := want.rise, id := id.value)
    else x.(fall := false, rise := false, id := 0)
  }

  function NewFlags(hasDirIn: bool): Flags {
    Flags(false, !hasDirIn, false, false, false, false, false, false, 0)
  }

  /** A packing: what a word stands for, how one flag is edited, what gpio_setup_irq does to a word, the
      word of a new chip's line, and how words that are stored as ids count. */
  datatype Packing<!W> = Packing(
    decode: W -> Flags,
    put: (W, Bit, bool) -> W,
    setUp: (W, Edges, Found<W>) -> W,
    initial: bool -> W,
    number: W -> nat)

  function NumberOf<W>(k: Packing<W>, id: Option<W>): Option<nat> {
    if id.Some? then Some(k.number(id.value)) else None
  }

  /** A packing is sound if each edit of a word is the field update it stands for. */
  ghost predicate Sound<W(!new)>(k: Packing<W>) {
    && (forall w, b, on :: k.decode(k.put(w, b, on)) == PutFlag(k.decode(w), b, on))
    && (forall w, want, f: Found<W> | f.live || k.decode(w).id == 0 ::
          k.decode(k.setUp(w, want, f)) ==
            SetupFlags(k.decode(w), want, f.irq, f.live, NumberOf(k, f.id), f.installed))
    && (forall hasDirIn :: k.decode(k.initial(hasDirIn)) == NewFlags(hasDirIn))
  }
}

/** What the words mean, and what the driver's edits do to that meaning. */
module FlagWord {
  import opened Common
  import opened GpioTable
  import opened GpioLines
  import opened Words
  import opened FlagPacking

  /** The eight flags of a word. */
  function Bits(w: Word): Flags {
    Flags(w & REQUESTED != 0, w & IS_OUT != 0, w & RESERVED != 0, w & EXPORT != 0,
          w & SYSFS != 0, w & TRIG_FALL != 0, w & TRIG_RISE != 0, w & ACTIVE_LOW != 0, 0)
  }

  /** The flags of a word, and the id above ID_SHIFT. */
  datatype Content = Content(bits: Flags, id: Word)

  function Contents(w: Word): Content {
    Content(Bits(w), w >> 16)
  }

  /** The table of edge names holds these words. */
  function Pack(e: Edges): Word {
    if e.fall && e.rise then TRIG_FALL | TRIG_RISE
    else if e.fall then TRIG_FALL
    else if e.rise then TRIG_RISE
    else 0
  }

  // ----- set_bit and clear_bit -----

  function PutBit(w: Word, b: Bit, on: bool): Word {
    match b
    case Requested => if on then w | REQUESTED else w & !REQUESTED
    case IsOut => if on then w | IS_OUT else w & !IS_OUT
    case Reserved => if on then w | RESERVED else w & !RESERVED
    case Exported => if on then w | EXPORT else w & !EXPORT
    case ActiveLow => if on then w | ACTIVE_LOW else w & !ACTIVE_LOW
  }

  lemma SetRequested(w: Word)
    ensures Contents(w | REQUESTED) == Content(Bits(w).(requested := true), w >> 16)
  {
  }

  lemma ClearRequested(w: Word)
    ensures Contents(w & !REQUESTED) == Content(Bits(w).(requested := false), w >> 16)
  {
  }

  lemma PutRequested(w: Word, on: bool)
    ensures Contents(PutBit(w, Requested, on)) == Content(Bits(w).(requested := on), w >> 16)
  {
    if on {
      SetRequested(w);
    } else {
      ClearRequested(w);
    }
  }

  lemma SetIsOut(w: Word)
    ensures Contents(w | IS_OUT) == Content(Bits(w).(isOut := true), w >> 16)
  {
  }

  lemma ClearIsOut(w: Word)
    ensures Contents(w & !IS_OUT) == Content(Bits(w).(isOut := false), w >> 16)
  {
  }

  lemma PutIsOut(w: Word, on: bool)
    ensures Contents(PutBit(w, IsOut, on)) == Content(Bits(w).(isOut := on), w >> 16)
  {
    if on {
      SetIsOut(w);
    } else {
      ClearIsOut(w);
    }
  }

  lemma SetReserved(w: Word)
    ensures Contents(w | RESERVED) == Content(Bits(w).(reserved := true), w >> 16)
  {
  }

  lemma ClearReserved(w: Word)
    ensures Contents(w & !RESERVED) == Content(Bits(w).(reserved := false), w >> 16)
  {
  }

  lemma PutReserved(w: Word, on: bool)
    ensures Contents(PutBit(w, Reserved, on)) == Content(Bits(w).(reserved := on), w >> 16)
  {
    if on {
      SetReserved(w);
    } else {
      ClearReserved(w);
    }
  }

  lemma SetExported(w: Word)
    ensures Contents(w | EXPORT) == Content(Bits(w).(exported := true), w >> 16)
  {
  }

  lemma ClearExported(w: Word)
    ensures Contents(w & !EXPORT) == Content(Bits(w).(exported := false), w >> 16)
  {
  }

  lemma PutExported(w: Word, on: bool)
    ensures Contents(PutBit(w, Exported, on)) == Content(Bits(w).(exported := on), w >> 16)
  {
    if on {
      SetExported(w);
    } else {
      ClearExported(w);
    }
  }

  lemma SetActiveLow(w: Word)
    ensures Contents(w | ACTIVE_LOW) == Content(Bits(w).(activeLow := true), w >> 16)
  {
  }

  lemma ClearActiveLow(w: Word)
    ensures Contents(w & !ACTIVE_LOW) == Content(Bits(w).(activeLow := false), w >> 16)
  {
  }

  lemma PutActiveLow(w: Word, on: bool)
    ensures Contents(PutBit(w, ActiveLow, on)) == Content(Bits(w).(activeLow := on), w >> 16)
  {
    if on {
      SetActiveLow(w);
    } else {
      ClearActiveLow(w);
    }
  }

  lemma PutBitContents(w: Word, b: Bit, on: bool)
    ensures Contents(PutBit(w, b, on)) == Content(PutFlag(Bits(w), b, on), w >> 16)
  {
    match b
    case Requested => PutRequested(w, on);
    case IsOut => PutIsOut(w, on);
    case Reserved => PutReserved(w, on);
    case Exported => PutExported(w, on);
    case ActiveLow => PutActiveLow(w, on);
  }

  /** The word that gpiochip_add writes. */
  function NewWord(hasDirIn: bool): Word {
    if hasDirIn then 0 else IS_OUT
  }

  lemma NewWordContents(hasDirIn: bool)
    ensures Contents(NewWord(hasDirIn)) ==
      Content(Flags(false, !hasDirIn, false, false, false, false, false, false, 0), 0)
  {
  }

  // ----- gpio_setup_irq -----

  lemma CompareTrigger(w: Word, e: Edges)
    ensures w & TRIGGER_MASK == Pack(e) <==> Trigger(Bits(w)) == e
  {
  }

  lemma PackFacts(e: Edges)
    ensures Low(Pack(e)) && (Pack(e) == 0 <==> e == NO_EDGES)
  {
  }

  lemma QuietContents(w: Word, v: Word)
    requires EndsQuiet(w, v)
    ensures Contents(v) == Content(Bits(w).(fall := false, rise := false), 0)
  {
  }

  lemma ArmedContents(w: Word, v: Word, e: Edges, id: Word)
    requires EndsArmed(w, v, Pack(e), id)
    ensures Contents(v) == Content(Bits(w).(fall := e.fall, rise := e.rise), id)
  {
  }

  function Setup(w: Word, want: Edges, f: Found<Word>): Word {
    SetupWord(w, Pack(want), f.irq, f.live, f.id.Some?, if f.id.Some? then f.id.value else 0, f.installed)
  }

  /** What it makes of the contents. */
  function SetupContent(x: Content, want: Edges, f: Found<Word>): Content {
    if Trigger(x.bits) == want || !f.irq then x
    else if want != NO_EDGES && f.installed && f.live
    then Content(x.bits.(fall := want.fall, rise := want.rise), x.id)
    else if want != NO_EDGES && f.installed && f.id.Some? && f.id.value < 0x10000
    then Content(x.bits.(fall := want.fall, rise := want.rise), f.id.value)
    else Content(x.bits.(fall := false, rise := false), 0)
  }

  /** It has something to do. */
  predicate Changes(w: Word, want: Edges, f: Found<Word>) {
    f.irq && w & TRIGGER_MASK != Pack(want)
  }

  lemma DisarmContents(w: Word, want: Edges, f: Found<Word>)
    requires Changes(w, want, f) && (want == NO_EDGES || (f.live && !f.installed))
    ensures Contents(Setup(w, want, f)) == SetupContent(Contents(w), want, f)
  {
    CompareTrigger(w, want);
    PackFacts(want);
    SetupDisarms(w, Pack(want), f.live, f.id.Some?, if f.id.Some? then f.id.value else 0, f.installed);
    QuietContents(w, Setup(w, want, f));
  }

  lemma StaysQuiet(w: Word, want: Edges, f: Found<Word>)
    requires Changes(w, want, f) && want != NO_EDGES && !f.live && w >> 16 == 0
    requires f.id.Some? && f.installed ==> f.id.value >= 0x10000
    ensures Contents(Setup(w, want, f)) == Content(Bits(w).(fall := false, rise := false), 0)
  {
    PackFacts(want);
    SetupStaysQuiet(w, Pack(want), f.id.Some?, if f.id.Some? then f.id.value else 0, f.installed);
    QuietContents(w, Setup(w, want, f));
  }

  lemma QuietContent(x: Content, want: Edges, f: Found<Word>)
    requires Trigger(x.bits) != want && f.irq && !f.live
    requires f.id.Some? && f.installed ==> f.id.value >= 0x10000
    ensures SetupContent(x, want, f) == Content(x.bits.(fall := false, rise := false), 0)
  {
  }

  lemma StayQuietContents(w: Word, want: Edges, f: Found<Word>)
    requires Changes(w, want, f) && want != NO_EDGES && !f.live && w >> 16 == 0
    requires f.id.Some? && f.installed ==> f.id.value >= 0x10000
    ensures Contents(Setup(w, want, f)) == SetupContent(Contents(w), want, f)
  {
    CompareTrigger(w, want);
    QuietContent(Contents(w), want, f);
    StaysQuiet(w, want, f);
  }

  lemma KeepIdContents(w: Word, want: Edges, f: Found<Word>)
    requires Changes(w, want, f) && want != NO_EDGES && f.live && f.installed
    ensures Contents(Setup(w, want, f)) == SetupContent(Contents(w), want, f)
  {
    CompareTrigger(w, want);
    PackFacts(want);
    SetupKeepsId(w, Pack(want), f.id.Some?, if f.id.Some? then f.id.value else 0);
    ArmedContents(w, Setup(w, want, f), want, w >> 16);
  }

  lemma StoreIdContents(w: Word, want: Edges, f: Found<Word>)
    requires Changes(w, want, f) && want != NO_EDGES && !f.live && f.installed
    requires f.id.Some? && f.id.value < 0x10000
    ensures Contents(Setup(w, want, f)) == SetupContent(Contents(w), want, f)
  {
    CompareTrigger(w, want);
    PackFacts(want);
    SetupStoresId(w, Pack(want), f.id.value);
    ArmedContents(w, Setup(w, want, f), want, f.id.value);
  }

  lemma NothingToSetUp(w: Word, want: Edges, f: Found<Word>)
    requires !Changes(w, want, f)
    ensures Contents(Setup(w, want, f)) == SetupContent(Contents(w), want, f)
  {
    CompareTrigger(w, want);
  }

  lemma SetupContents(w: Word, want: Edges, f: Found<Word>)
    requires !f.live ==> w >> 16 == 0
    ensures Contents(Setup(w, want, f)) == SetupContent(Contents(w), want, f)
  {
    if !Changes(w, want, f) {
      NothingToSetUp(w, want, f);
    } else if want == NO_EDGES || (f.live && !f.installed) {
      DisarmContents(w, want, f);
    } else if f.live {
      KeepIdContents(w, want, f);
    } else if f.id.Some? && f.installed && f.id.value < 0x10000 {
      StoreIdContents(w, want, f);
    } else {
      StayQuietContents(w, want, f);
    }
  }

  /** sysfs_set_active_low sets up again what it reads from the word. */
  lemma TriggerWord(w: Word)
    ensures w & TRIGGER_MASK == Pack(Trigger(Bits(w)))
  {
    CompareTrigger(w, Trigger(Bits(w)));
  }

  // ----- the driver's packing is sound -----

  function Meaning(c: Content, number: Word -> nat): Flags {
    c.bits.(id := number(c.id))
  }

  function Decode(w: Word, number: Word -> nat): Flags {
    Meaning(Contents(w), number)
  }

  function Driver(number: Word -> nat): Packing<Word> {
    Packing(w => Decode(w, number), PutBit, Setup, NewWord, number)
  }

  lemma MeaningOfSetup(x: Content, want: Edges, f: Found<Word>, number: Word -> nat, id: Option<nat>)
    requires number(0) == 0 && id == if f.id.Some? then Some(number(f.id.value)) else None
    requires f.id.Some? ==> (number(f.id.value) < 0x10000 <==> f.id.value < 0x10000)
    ensures Meaning(SetupContent(x, want, f), number) ==
      SetupFlags(Meaning(x, number), want, f.irq, f.live, id, f.installed)
  {
  }

  lemma PutIsSound(w: Word, b: Bit, on: bool, number: Word -> nat)
    ensures Decode(PutBit(w, b, on), number) == PutFlag(Decode(w, number), b, on)
  {
    PutBitContents(w, b, on);
    PutFlagKeepsId(Bits(w), b, on, number(w >> 16));
  }

  lemma SetupIsSound(w: Word, want: Edges, f: Found<Word>, number: Word -> nat)
    requires Counts(number) && (f.live || Decode(w, number).id == 0)
    ensures Decode(Setup(w, want, f), number) ==
      SetupFlags(Decode(w, number), want, f.irq, f.live, NumberOf(Driver(number), f.id), f.installed)
  {
    SetupContents(w, want, f);
    MeaningOfSetup(Contents(w), want, f, number, NumberOf(Driver(number), f.id));
  }

  /** The driver's masks and shifts are a sound packing, whichever way ids count; and the trigger bits
      that sysfs_set_active_low reads from a word are the word of the edges it sets up again. */
  lemma DriverIsSound(number: Word -> nat)
    requires Counts(number)
    ensures Sound(Driver(number))
    ensures forall w :: w & TRIGGER_MASK == Pack(Trigger(Decode(w, number)))
  {
    forall w ensures w & TRIGGER_MASK == Pack(Trigger(Decode(w, number))) {
      TriggerWord(w);
    }
    forall w: Word, b, on ensures Decode(PutBit(w, b, on), number) == PutFlag(Decode(w, number), b, on) {
      PutIsSound(w, b, on, number);
    }
    forall w: Word, want, f: Found<Word> | f.live || Decode(w, number).id == 0
      ensures Decode(Setup(w, want, f), number) ==
        SetupFlags(Decode(w, number), want, f.irq, f.live, NumberOf(Driver(number), f.id), f.installed)
    {
      SetupIsSound(w, want, f, number);
    }
    forall hasDirIn ensures Decode(NewWord(hasDirIn), number) == NewFlags(hasDirIn) {
      NewWordContents(hasDirIn);
    }
  }

  /** In a word whose fields are in order, the id above ID_SHIFT is 0 exactly while no trigger bit is. */
  lemma WordInOrder(w: Word, number: Word -> nat)
    requires Counts(number)
    requires Decode(w, number).id == 0 <==> Trigger(Decode(w, number)) == NO_EDGES
    ensures w >> 16 == 0 <==> w & TRIGGER_MASK == 0
  {
    PackFacts(NO_EDGES);
    CompareTrigger(w, NO_EDGES);
  }
}

/** Who owns each packet buffer: the pool, the two read loops, the four bounded channels, the main loop, the handler
    goroutines and the write loop (wgit.go:176-250, 298-309, 378-380, 631-638). */
module Pool {
  import opened Bytes
  import opened Packets

  const CHANNEL_CAPACITY := 64

  type Id = nat

  datatype Side = Client | Server

  function Opposite(side: Side): Side {
    if side == Client then Server else Client
  }

  datatype Pair<+T> = Pair(client: T, server: T) {
    function Of(side: Side): T {
      if side == Client then client else server
    }
  }

  function Set<T>(p: Pair<T>, side: Side, v: T): (r: Pair<T>)
    ensures r.Of(side) == v && r.Of(Opposite(side)) == p.Of(Opposite(side))
  {
    if side == Client then p.(client := v) else p.(server := v)
  }

  /** A read loop: about to obtain a buffer, reading into one, or handing a filled one to its channel. */
  datatype Reader = Idle | Reading(id: Id) | Filled(id: Id)

  /** A packet in the main loop: read from `side`, still being handled or ready for the write channel. */
  datatype Job = Job(id: Id, side: Side, ready: bool)

  datatype State = State(
    made: nat,                        // buffers are numbered in the order the pool made them
    pool: multiset<Id>,
    dropped: multiset<Id>,            // released by the pool to the garbage collector
    reader: Pair<Reader>,
    readChan: Pair<seq<Id>>,
    main: Option<Job>,
    working: Pair<multiset<Id>>,      // goroutines handling a packet from each side
    sending: Pair<multiset<Id>>,      // goroutines waiting for room in the write channel of each side
    writeChan: Pair<seq<Id>>,
    writer: Option<Id>,
    flags: map<Id, set<Flag>>,
    gets: multiset<Id>,               // how often each buffer was obtained
    puts: multiset<Id>)               // how often each buffer was recycled

  datatype Event =
    | Obtain(side: Side, id: Id)                   // from the pool, or newly made
    | ReadFails(side: Side)
    | ReadSucceeds(side: Side, deobfuscated: bool)
    | PushRead(side: Side)
    | Take(side: Side, transport: bool)            // main loop: handle in line, or in a new goroutine
    | MainDrops
    | MainFinishes(obfuscate: bool)
    | MainPushes
    | HandlerDrops(side: Side, id: Id)
    | HandlerFinishes(side: Side, id: Id, obfuscate: bool)
    | HandlerPushes(side: Side, id: Id)
    | StartWrite(side: Side)
    | FinishWrite
    | Collect(id: Id)                              // the pool lets go of a buffer

  predicate Enabled(s: State, e: Event) {
    match e
    case Obtain(side, id) => s.reader.Of(side) == Idle && (id in s.pool || id == s.made)
    case ReadFails(side) => s.reader.Of(side).Reading?
    case ReadSucceeds(side, _) => s.reader.Of(side).Reading?
    case PushRead(side) => s.reader.Of(side).Filled? && |s.readChan.Of(side)| < CHANNEL_CAPACITY
    case Take(side, _) => s.main.None? && s.readChan.Of(side) != []
    case MainDrops => s.main.Some? && !s.main.value.ready
    case MainFinishes(_) => s.main.Some? && !s.main.value.ready
    case MainPushes =>
      s.main.Some? && s.main.value.ready && |s.writeChan.Of(Opposite(s.main.value.side))| < CHANNEL_CAPACITY
    case HandlerDrops(side, id) => id in s.working.Of(side)
    case HandlerFinishes(side, id, _) => id in s.working.Of(side)
    case HandlerPushes(side, id) => id in s.sending.Of(side) && |s.writeChan.Of(side)| < CHANNEL_CAPACITY
    case StartWrite(side) => s.writer.None? && s.writeChan.Of(side) != []
    case FinishWrite => s.writer.Some?
    case Collect(id) => id in s.pool
  }

  /** Lines 635-638: reset the buffer and put it back. */
  function Recycle(s: State, id: Id): State {
    s.(pool := s.pool + multiset{id}, flags := s.flags[id := {}], puts := s.puts + multiset{id})
  }

  function Marked(s: State, id: Id, flag: Flag, mark: bool): map<Id, set<Flag>> {
    if mark && id in s.flags then s.flags[id := s.flags[id] + {flag}] else s.flags
  }

  function Next(s: State, e: Event): State
    requires Enabled(s, e)
  {
    match e
    case Obtain(side, id) =>
      var t := s.(reader := Set(s.reader, side, Reading(id)), gets := s.gets + multiset{id});
      if id in s.pool then t.(pool := s.pool - multiset{id}) else t.(made := s.made + 1, flags := s.flags[id := {}])
    case ReadFails(side) =>
      Recycle(s.(reader := Set(s.reader, side, Idle)), s.reader.Of(side).id)
    case ReadSucceeds(side, deobfuscated) =>
      var id := s.reader.Of(side).id;
      s.(reader := Set(s.reader, side, Filled(id)), flags := Marked(s, id, DeobfuscatedAfterReceived, deobfuscated))
    case PushRead(side) =>
      s.(reader := Set(s.reader, side, Idle),
         readChan := Set(s.readChan, side, s.readChan.Of(side) + [s.reader.Of(side).id]))
    case Take(side, transport) =>
      var id := s.readChan.Of(side)[0];
      var t := s.(readChan := Set(s.readChan, side, s.readChan.Of(side)[1..]));
      if transport then t.(main := Some(Job(id, side, false)))
      else t.(working := Set(s.working, side, s.working.Of(side) + multiset{id}))
    case MainDrops =>
      Recycle(s.(main := None), s.main.value.id)
    case MainFinishes(obfuscate) =>
      var j := s.main.value;
      s.(main := Some(j.(ready := true)), flags := Marked(s, j.id, ObfuscateBeforeSend, j.side == Server && obfuscate))
    case MainPushes =>
      var side := Opposite(s.main.value.side);
      s.(main := None, writeChan := Set(s.writeChan, side, s.writeChan.Of(side) + [s.main.value.id]))
    case HandlerDrops(side, id) =>
      Recycle(s.(working := Set(s.working, side, s.working.Of(side) - multiset{id})), id)
    case HandlerFinishes(side, id, obfuscate) =>
      s.(working := Set(s.working, side, s.working.Of(side) - multiset{id}),
         sending := Set(s.sending, Opposite(side), s.sending.Of(Opposite(side)) + multiset{id}),
         flags := Marked(s, id, ObfuscateBeforeSend, side == Server && obfuscate))
    case HandlerPushes(side, id) =>
      s.(sending := Set(s.sending, side, s.sending.Of(side) - multiset{id}),
         writeChan := Set(s.writeChan, side, s.writeChan.Of(side) + [id]))
    case StartWrite(side) =>
      s.(writer := Some(s.writeChan.Of(side)[0]), writeChan := Set(s.writeChan, side, s.writeChan.Of(side)[1..]))
    case FinishWrite =>
      Recycle(s.(writer := None), s.writer.value)
    case Collect(id) =>
      s.(pool := s.pool - multiset{id}, dropped := s.dropped + multiset{id})
  }

  const INITIAL := State(0, multiset{}, multiset{}, Pair(Idle, Idle), Pair([], []), None, Pair(multiset{}, multiset{}),
                         Pair(multiset{}, multiset{}), Pair([], []), None, map[], multiset{}, multiset{})

  // ---------------------------------------------------------------- ownership

  function Is(o: Option<Id>, id: Id): nat {
    if o == Some(id) then 1 else 0
  }

  function InReader(r: Reader): Option<Id> {
    if r.Idle? then None else Some(r.id)
  }

  function InMain(m: Option<Job>): Option<Id> {
    if m.Some? then Some(m.value.id) else None
  }

  /** How many owners buffer `id` has among the loops, channels and handlers of one side. */
  function SideUses(s: State, side: Side, id: Id): nat {
    Is(InReader(s.reader.Of(side)), id) + multiset(s.readChan.Of(side))[id]
    + s.working.Of(side)[id] + s.sending.Of(side)[id] + multiset(s.writeChan.Of(side))[id]
  }

  /** How many owners it has outside the pool. */
  function Uses(s: State, id: Id): nat {
    SideUses(s, Client, id) + SideUses(s, Server, id) + Is(InMain(s.main), id) + Is(s.writer, id)
  }

  /** How many owners it has altogether. */
  function Owners(s: State, id: Id): nat {
    s.pool[id] + s.dropped[id] + Uses(s, id)
  }

  /** The buffer that a step returns to the pool. */
  function Returned(s: State, e: Event): Option<Id>
    requires Enabled(s, e)
  {
    match e
    case ReadFails(side) => Some(s.reader.Of(side).id)
    case MainDrops => Some(s.main.value.id)
    case HandlerDrops(side, id) => Some(id)
    case FinishWrite => s.writer
    case _ => None
  }

  function Obtained(e: Event): Option<Id> {
    if e.Obtain? then Some(e.id) else None
  }

  /** Taking the head of a channel loses nothing. */
  lemma Head(c: seq<Id>, id: Id)
    requires c != []
    ensures multiset(c)[id] == Is(Some(c[0]), id) + multiset(c[1..])[id]
  {
    assert c == [c[0]] + c[1..];
  }

  /** The two sides in either order. */
  lemma BothSides(s: State, side: Side, id: Id)
    ensures Uses(s, id)
            == SideUses(s, side, id) + SideUses(s, Opposite(side), id) + Is(InMain(s.main), id) + Is(s.writer, id)
  {
  }

  /** Nothing on this side differs except, perhaps, in its reader. */
  predicate SameButReader(s: State, t: State, side: Side) {
    && t.readChan.Of(side) == s.readChan.Of(side) && t.working.Of(side) == s.working.Of(side)
    && t.sending.Of(side) == s.sending.Of(side) && t.writeChan.Of(side) == s.writeChan.Of(side)
  }

  predicate SameSide(s: State, t: State, side: Side) {
    SameButReader(s, t, side) && t.reader.Of(side) == s.reader.Of(side)
  }

  lemma ReaderDiffers(s: State, t: State, side: Side, id: Id)
    requires SameButReader(s, t, side) && SameSide(s, t, Opposite(side)) && t.main == s.main && t.writer == s.writer
    ensures Uses(t, id) + Is(InReader(s.reader.Of(side)), id) == Uses(s, id) + Is(InReader(t.reader.Of(side)), id)
  {
    BothSides(s, side, id);
    BothSides(t, side, id);
    hide Uses, Opposite;
  }

  lemma ObtainMoves(s: State, e: Event, id: Id)
    requires Enabled(s, e) && e.Obtain?
    ensures Uses(Next(s, e), id) == Uses(s, id) + Is(Some(e.id), id)
  {
    ReaderDiffers(s, Next(s, e), e.side, id);
    hide Uses;
  }

  lemma ReaderMoves(s: State, e: Event, id: Id)
    requires Enabled(s, e) && (e.ReadFails? || e.ReadSucceeds?)
    ensures Uses(Next(s, e), id) + Is(Returned(s, e), id) == Uses(s, id)
  {
    ReaderDiffers(s, Next(s, e), e.side, id);
    hide Uses;
  }

  lemma PushMoves(s: State, e: Event, id: Id)
    requires Enabled(s, e) && e.PushRead?
    ensures Uses(Next(s, e), id) == Uses(s, id)
  {
    var t, opp, b := Next(s, e), Opposite(e.side), s.reader.Of(e.side).id;
    assert SameSide(s, t, opp) && t.main == s.main && t.writer == s.writer;
    assert t.reader.Of(e.side) == Idle && t.readChan.Of(e.side) == s.readChan.Of(e.side) + [b];
    assert t.working == s.working && t.sending == s.sending && t.writeChan == s.writeChan;
    BothSides(s, e.side, id);
    BothSides(t, e.side, id);
    hide Uses, Next, Opposite;
  }

  lemma TakeMoves(s: State, e: Event, id: Id)
    requires Enabled(s, e) && e.Take?
    ensures Uses(Next(s, e), id) == Uses(s, id)
  {
    Head(s.readChan.Of(e.side), id);
  }

  lemma MainMoves(s: State, e: Event, id: Id)
    requires Enabled(s, e) && (e.MainDrops? || e.MainFinishes? || e.MainPushes?)
    ensures Uses(Next(s, e), id) + Is(Returned(s, e), id) == Uses(s, id)
  {
  }

  lemma HandlerDropMoves(s: State, e: Event, id: Id)
    requires Enabled(s, e) && e.HandlerDrops?
    ensures Uses(Next(s, e), id) + Is(Some(e.id), id) == Uses(s, id)
  {
    var t, opp := Next(s, e), Opposite(e.side);
    assert SameSide(s, t, opp) && t.main == s.main && t.writer == s.writer;
    assert t.reader == s.reader && t.readChan == s.readChan && t.sending == s.sending && t.writeChan == s.writeChan;
    assert t.working.Of(e.side) == s.working.Of(e.side) - multiset{e.id};
    BothSides(s, e.side, id);
    BothSides(t, e.side, id);
    hide Uses, Next, Opposite;
  }

  lemma HandlerPushMoves(s: State, e: Event, id: Id)
    requires Enabled(s, e) && e.HandlerPushes?
    ensures Uses(Next(s, e), id) == Uses(s, id)
  {
    var t, opp := Next(s, e), Opposite(e.side);
    assert SameSide(s, t, opp) && t.main == s.main && t.writer == s.writer;
    assert t.reader == s.reader && t.readChan == s.readChan && t.working == s.working;
    assert t.sending.Of(e.side) == s.sending.Of(e.side) - multiset{e.id};
    assert t.writeChan.Of(e.side) == s.writeChan.Of(e.side) + [e.id];
    BothSides(s, e.side, id);
    BothSides(t, e.side, id);
    hide Uses, Next, Opposite;
  }

  lemma HandlerFinishMoves(s: State, e: Event, id: Id)
    requires Enabled(s, e) && e.HandlerFinishes?
    ensures Uses(Next(s, e), id) == Uses(s, id)
  {
    var t, opp := Next(s, e), Opposite(e.side);
    assert t.reader == s.reader && t.readChan == s.readChan && t.writeChan == s.writeChan;
    assert t.main == s.main && t.writer == s.writer;
    assert t.working.Of(e.side) == s.working.Of(e.side) - multiset{e.id} && t.working.Of(opp) == s.working.Of(opp);
    assert t.sending.Of(opp) == s.sending.Of(opp) + multiset{e.id} && t.sending.Of(e.side) == s.sending.Of(e.side);
    BothSides(s, e.side, id);
    BothSides(t, e.side, id);
    hide Uses, Next, Opposite;
  }

  lemma WriterMoves(s: State, e: Event, id: Id)
    requires Enabled(s, e) && (e.StartWrite? || e.FinishWrite?)
    ensures Uses(Next(s, e), id) + Is(Returned(s, e), id) == Uses(s, id)
  {
    if e.StartWrite? {
      Head(s.writeChan.Of(e.side), id);
    }
  }

  /** No step but obtaining and recycling changes what is in use. */
  lemma Conserves(s: State, e: Event, id: Id)
    requires Enabled(s, e)
    ensures Uses(Next(s, e), id) + Is(Returned(s, e), id) == Uses(s, id) + Is(Obtained(e), id)
  {
    match e
    case Obtain(_, _) => ObtainMoves(s, e, id);
    case ReadFails(_) => ReaderMoves(s, e, id);
    case ReadSucceeds(_, _) => ReaderMoves(s, e, id);
    case PushRead(_) => PushMoves(s, e, id);
    case Take(_, _) => TakeMoves(s, e, id);
    case MainDrops => MainMoves(s, e, id);
    case MainFinishes(_) => MainMoves(s, e, id);
    case MainPushes => MainMoves(s, e, id);
    case HandlerDrops(_, _) => HandlerDropMoves(s, e, id);
    case HandlerFinishes(_, _, _) => HandlerFinishMoves(s, e, id);
    case HandlerPushes(_, _) => HandlerPushMoves(s, e, id);
    case StartWrite(_) => WriterMoves(s, e, id);
    case FinishWrite => WriterMoves(s, e, id);
    case Collect(_) =>
  }

  function Created(s: State, e: Event): Option<Id> {
    if e.Obtain? && e.id !in s.pool then Some(e.id) else None
  }

  /** The number of owners of a buffer never changes, except that a new one gets its first. */
  lemma OwnersKeep(s: State, e: Event, id: Id)
    requires Enabled(s, e)
    ensures Owners(Next(s, e), id) == Owners(s, id) + Is(Created(s, e), id)
    ensures Next(s, e).gets[id] - Next(s, e).puts[id] - Uses(Next(s, e), id) == s.gets[id] - s.puts[id] - Uses(s, id)
  {
    Conserves(s, e, id);
    hide Uses;
  }

  predicate Clean(s: State, id: Id) {
    id in s.flags && s.flags[id] == {}
  }

  /** A buffer made has exactly one owner, and has been recycled once for each time it was obtained, but for the use it
      is in. */
  predicate OwnedAt(s: State, id: Id) {
    && Owners(s, id) == (if id < s.made then 1 else 0)
    && s.gets[id] == s.puts[id] + Uses(s, id)
  }

  ghost predicate Owned(s: State) {
    forall id: Id :: OwnedAt(s, id)
  }

  /** Buffers in the pool, and those just taken out of it, carry no flags. */
  ghost predicate FlagsClear(s: State) {
    && (forall id :: id in s.pool ==> Clean(s, id))
    && (forall side: Side :: s.reader.Of(side).Reading? ==> Clean(s, s.reader.Of(side).id))
  }

  predicate Bounded(s: State) {
    forall side: Side :: |s.readChan.Of(side)| <= CHANNEL_CAPACITY && |s.writeChan.Of(side)| <= CHANNEL_CAPACITY
  }

  ghost predicate Inv(s: State) {
    Owned(s) && FlagsClear(s) && Bounded(s)
  }

  lemma MadeKeeps(s: State, e: Event)
    requires Enabled(s, e)
    ensures Next(s, e).made == match Created(s, e) case None => s.made case Some(id) => s.made + 1
    ensures Created(s, e).Some? ==> Created(s, e).value == s.made
  {
  }

  lemma OwnedAtKeeps(s: State, e: Event, id: Id)
    requires OwnedAt(s, id) && Enabled(s, e)
    ensures OwnedAt(Next(s, e), id)
  {
    MadeKeeps(s, e);
    OwnersKeep(s, e, id);
    hide Enabled, Next, Owners, Uses, Created;
  }

  lemma OwnedKeeps(s: State, e: Event)
    requires Owned(s) && Enabled(s, e)
    ensures Owned(Next(s, e))
  {
    hide Enabled, Next, OwnedAt;
    forall id: Id
      ensures OwnedAt(Next(s, e), id)
    {
      OwnedAtKeeps(s, e, id);
    }
  }

  lemma BoundedKeeps(s: State, e: Event)
    requires Bounded(s) && Enabled(s, e)
    ensures Bounded(Next(s, e))
  {
  }

  /** A buffer in use twice over would have two owners. */
  lemma NotElsewhere(s: State, id: Id)
    requires Owned(s) && Uses(s, id) > 0
    ensures id !in s.pool && Uses(s, id) == 1
  {
    assert OwnedAt(s, id);
  }

  /** Only the flags of `id` differ, and `id` is neither in the pool nor being read into. */
  lemma FlagsElsewhere(s: State, t: State, id: Id)
    requires FlagsClear(s) && id !in s.pool && t.pool == s.pool
    requires forall i :: i in s.flags && i != id ==> i in t.flags && t.flags[i] == s.flags[i]
    requires forall d: Side :: t.reader.Of(d).Reading? ==> t.reader.Of(d) == s.reader.Of(d) && t.reader.Of(d).id != id
    ensures FlagsClear(t)
  {
  }

  lemma ReadingAlone(s: State, d: Side, id: Id)
    requires Uses(s, id) == 1 && s.reader.Of(d).Reading? && s.reader.Of(d).id == id
    ensures InMain(s.main) != Some(id) && s.writer != Some(id) && id !in s.working.client && id !in s.working.server
    ensures InReader(s.reader.Of(Opposite(d))) != Some(id)
  {
    BothSides(s, d, id);
    hide Uses;
  }

  lemma ReadSucceedsFlags(s: State, e: Event)
    requires Owned(s) && FlagsClear(s) && Enabled(s, e) && e.ReadSucceeds?
    ensures FlagsClear(Next(s, e))
  {
    var id := s.reader.Of(e.side).id;
    BothSides(s, e.side, id);
    NotElsewhere(s, id);
    ReadingAlone(s, e.side, id);
    hide Uses, Owned;
    FlagsElsewhere(s, Next(s, e), id);
  }

  lemma FinishFlags(s: State, e: Event, id: Id)
    requires Owned(s) && FlagsClear(s) && Enabled(s, e)
    requires (e.MainFinishes? && id == s.main.value.id) || (e.HandlerFinishes? && id == e.id)
    ensures FlagsClear(Next(s, e))
  {
    assert Uses(s, id) > 0;
    NotElsewhere(s, id);
    hide Uses, Owned;
    forall d: Side | s.reader.Of(d).Reading?
      ensures s.reader.Of(d).id != id
    {
      if s.reader.Of(d).id == id {
        ReadingAlone(s, d, id);
      }
    }
    FlagsElsewhere(s, Next(s, e), id);
  }

  /** Clearing the flags of one more pooled buffer, or of none. */
  lemma FlagsCleared(s: State, t: State, id: Id)
    requires FlagsClear(s) && t.pool <= s.pool + multiset{id}
    requires t.flags == s.flags[id := {}] || (t.flags == s.flags && t.pool <= s.pool)
    requires forall d: Side :: t.reader.Of(d).Reading? ==>
             t.reader.Of(d) == s.reader.Of(d) || Clean(t, t.reader.Of(d).id)
    ensures FlagsClear(t)
  {
    forall i | i in t.pool
      ensures Clean(t, i)
    {
      if i in s.pool {
        assert Clean(s, i);
      }
    }
    forall d: Side | t.reader.Of(d).Reading?
      ensures Clean(t, t.reader.Of(d).id)
    {
      if t.reader.Of(d) == s.reader.Of(d) {
        assert Clean(s, t.reader.Of(d).id);
      }
    }
  }

  lemma ObtainFrame(s: State, e: Event)
    requires Enabled(s, e) && e.Obtain?
    ensures var t := Next(s, e);
            && t.pool <= s.pool && t.reader.Of(e.side) == Reading(e.id)
            && (forall d: Side :: d != e.side ==> t.reader.Of(d) == s.reader.Of(d))
            && t.flags == if e.id in s.pool then s.flags else s.flags[e.id := {}]
  {
  }

  lemma SameFlags(s: State, id: Id)
    requires FlagsClear(s) && id in s.pool
    ensures s.flags[id := {}] == s.flags
  {
    assert Clean(s, id);
  }

  lemma ObtainFlags(s: State, e: Event)
    requires FlagsClear(s) && Enabled(s, e) && e.Obtain?
    ensures FlagsClear(Next(s, e))
  {
    hide Next, Enabled, FlagsClear;
    var t := Next(s, e);
    ObtainFrame(s, e);
    if e.id in s.pool {
      SameFlags(s, e.id);
    }
    assert t.flags == s.flags[e.id := {}] && Clean(t, e.id);
    FlagsCleared(s, t, e.id);
  }

  lemma RecycleFlags(s: State, e: Event)
    requires FlagsClear(s) && Enabled(s, e) && Returned(s, e).Some?
    ensures FlagsClear(Next(s, e))
  {
    var t, id := Next(s, e), Returned(s, e).value;
    assert t.pool == s.pool + multiset{id} && t.flags == s.flags[id := {}];
    assert forall d: Side :: t.reader.Of(d).Reading? ==> t.reader.Of(d) == s.reader.Of(d);
    hide FlagsClear, Next, Returned;
    FlagsCleared(s, t, id);
  }

  lemma PassFlags(s: State, e: Event)
    requires FlagsClear(s) && Enabled(s, e)
    requires e.PushRead? || e.Take? || e.MainPushes? || e.HandlerPushes? || e.StartWrite? || e.Collect?
    ensures FlagsClear(Next(s, e))
  {
    var t := Next(s, e);
    PassFrame(s, e);
    hide FlagsClear, Next, Enabled;
    FlagsCleared(s, t, 0);
  }

  lemma PassFrame(s: State, e: Event)
    requires Enabled(s, e)
    requires e.PushRead? || e.Take? || e.MainPushes? || e.HandlerPushes? || e.StartWrite? || e.Collect?
    ensures var t := Next(s, e);
            && t.pool <= s.pool && t.flags == s.flags
            && forall d: Side :: t.reader.Of(d).Reading? ==> t.reader.Of(d) == s.reader.Of(d)
  {
    assert Next(s, e).reader == if e.PushRead? then Set(s.reader, e.side, Idle) else s.reader;
    hide Next;
  }

  lemma StepKeeps(s: State, e: Event)
    requires Inv(s) && Enabled(s, e)
    ensures Inv(Next(s, e))
  {
    OwnedKeeps(s, e);
    BoundedKeeps(s, e);
    hide Owned, Bounded, FlagsClear;
    match e
    case ReadSucceeds(_, _) => ReadSucceedsFlags(s, e);
    case MainFinishes(_) => FinishFlags(s, e, s.main.value.id);
    case HandlerFinishes(_, id, _) => FinishFlags(s, e, id);
    case Obtain(_, _) => ObtainFlags(s, e);
    case _ =>
      if Returned(s, e).Some? {
        RecycleFlags(s, e);
      } else {
        PassFlags(s, e);
      }
  }

  // ---------------------------------------------------------------- runs

  function Run(s: State, es: seq<Event>): Option<State> {
    if es == [] then Some(s) else
    match Run(s, es[..|es| - 1])
    case None => None
    case Some(t) => if Enabled(t, es[|es| - 1]) then Some(Next(t, es[|es| - 1])) else None
  }

  lemma InitialOwned()
    ensures Inv(INITIAL)
  {
  }

  /** In every reachable state each buffer has exactly one owner. */
  lemma {:induction false} RunKeeps(s: State, es: seq<Event>)
    requires Inv(s) && Run(s, es).Some?
    ensures Inv(Run(s, es).value)
  {
    if es != [] {
      RunKeeps(s, es[..|es| - 1]);
      StepKeeps(Run(s, es[..|es| - 1]).value, es[|es| - 1]);
    }
  }

  /** So in every run of the program. */
  lemma FromTheStart(es: seq<Event>)
    requires Run(INITIAL, es).Some?
    ensures Inv(Run(INITIAL, es).value)
  {
    InitialOwned();
    RunKeeps(INITIAL, es);
  }

  /** A buffer is reused only from the pool, without flags, by one reader, and nobody else can still hold it. */
  lemma ReuseIsSafe(s: State, e: Event)
    requires Inv(s) && Enabled(s, e) && e.Obtain?
    ensures Uses(s, e.id) == 0 && Uses(Next(s, e), e.id) == 1 && Clean(Next(s, e), e.id)
    ensures e.id !in Next(s, e).pool && s.gets[e.id] == s.puts[e.id]
  {
    StepKeeps(s, e);
    Conserves(s, e, e.id);
    assert OwnedAt(s, e.id) && OwnedAt(Next(s, e), e.id);
    assert Next(s, e).reader.Of(e.side) == Reading(e.id);
    hide Uses;
  }

  // ---------------------------------------------------------------- progress

  /** Steps that need no packet to arrive: what the process does by itself. */
  predicate Internal(e: Event) {
    !e.Obtain? && !e.ReadFails? && !e.ReadSucceeds? && !e.Collect?
  }

  function SideFlight(s: State, side: Side): nat {
    (if s.reader.Of(side).Filled? then 6 else 0) + 5 * |s.readChan.Of(side)| + 4 * |s.working.Of(side)|
    + 3 * |s.sending.Of(side)| + 2 * |s.writeChan.Of(side)|
  }

  /** How many internal steps the packets in flight can still take. */
  function Flight(s: State): nat {
    SideFlight(s, Client) + SideFlight(s, Server) + LoopFlight(s)
  }

  /** While a packet is in flight, some internal step is enabled: no deadlock, even with full channels. */
  lemma Progress(s: State) returns (e: Event)
    requires Flight(s) > 0
    ensures Internal(e) && Enabled(s, e)
  {
    if s.writer.Some? {
      return FinishWrite;
    }
    if s.writeChan.client != [] {
      return StartWrite(Client);
    }
    if s.writeChan.server != [] {
      return StartWrite(Server);
    }
    if s.main.Some? {
      return if s.main.value.ready then MainPushes else MainDrops;
    }
    e := SideProgress(s, if SideFlight(s, Client) > 0 then Client else Server);
  }

  lemma SideProgress(s: State, side: Side) returns (e: Event)
    requires SideFlight(s, side) > 0 && s.main.None? && s.writer.None? && s.writeChan == Pair([], [])
    ensures Internal(e) && Enabled(s, e)
  {
    if s.sending.Of(side) != multiset{} {
      var id :| id in s.sending.Of(side);
      return HandlerPushes(side, id);
    }
    if s.working.Of(side) != multiset{} {
      var id :| id in s.working.Of(side);
      return HandlerDrops(side, id);
    }
    e := if s.readChan.Of(side) != [] then Take(side, true) else PushRead(side);
  }

  function LoopFlight(s: State): nat {
    (match s.main case None => 0 case Some(j) => if j.ready then 3 else 4) + (if s.writer.Some? then 1 else 0)
  }

  lemma FlightSides(s: State, side: Side)
    ensures Flight(s) == SideFlight(s, side) + SideFlight(s, Opposite(side)) + LoopFlight(s)
  {
  }

  lemma FlightElsewhere(s: State, t: State, side: Side)
    requires SameSide(s, t, Opposite(side))
    requires SideFlight(t, side) + LoopFlight(t) < SideFlight(s, side) + LoopFlight(s)
    ensures Flight(t) < Flight(s)
  {
    FlightSides(s, side);
    FlightSides(t, side);
    hide Flight, Opposite, LoopFlight;
  }

  lemma ReadShrinks(s: State, e: Event)
    requires Enabled(s, e) && (e.PushRead? || e.Take?)
    ensures Flight(Next(s, e)) < Flight(s)
  {
    hide Flight;
    var t := Next(s, e);
    assert SameSide(s, t, Opposite(e.side));
    FlightElsewhere(s, t, e.side);
  }

  lemma MainShrinks(s: State, e: Event)
    requires Enabled(s, e) && (e.MainDrops? || e.MainFinishes? || e.MainPushes?)
    ensures Flight(Next(s, e)) < Flight(s)
  {
    hide Flight;
    var t, side := Next(s, e), Opposite(s.main.value.side);
    assert SameSide(s, t, Opposite(side));
    FlightElsewhere(s, t, side);
  }

  lemma HandlerShrinks(s: State, e: Event)
    requires Enabled(s, e) && (e.HandlerDrops? || e.HandlerPushes?)
    ensures Flight(Next(s, e)) < Flight(s)
  {
    hide Flight;
    var t := Next(s, e);
    assert SameSide(s, t, Opposite(e.side));
    FlightElsewhere(s, t, e.side);
  }

  lemma HandlerFinishShrinks(s: State, e: Event)
    requires Enabled(s, e) && e.HandlerFinishes?
    ensures Flight(Next(s, e)) < Flight(s)
  {
    hide Flight;
    var t, opp := Next(s, e), Opposite(e.side);
    assert t.reader == s.reader && t.readChan == s.readChan && t.writeChan == s.writeChan;
    assert t.main == s.main && t.writer == s.writer;
    assert t.working.Of(e.side) == s.working.Of(e.side) - multiset{e.id} && t.working.Of(opp) == s.working.Of(opp);
    assert t.sending.Of(opp) == s.sending.Of(opp) + multiset{e.id} && t.sending.Of(e.side) == s.sending.Of(e.side);
    FlightSides(s, e.side);
    FlightSides(t, e.side);
    hide Next, Opposite;
  }

  lemma WriteShrinks(s: State, e: Event)
    requires Enabled(s, e) && (e.StartWrite? || e.FinishWrite?)
    ensures Flight(Next(s, e)) < Flight(s)
  {
    hide Flight;
    var t, side := Next(s, e), if e.StartWrite? then e.side else Client;
    assert SameSide(s, t, Opposite(side));
    FlightElsewhere(s, t, side);
  }

  /** Every internal step brings the packets in flight closer to the pool. */
  lemma InternalShrinks(s: State, e: Event)
    requires Enabled(s, e) && Internal(e)
    ensures Flight(Next(s, e)) < Flight(s)
  {
    hide Flight, Next;
    match e
    case PushRead(_) => ReadShrinks(s, e);
    case Take(_, _) => ReadShrinks(s, e);
    case MainDrops => MainShrinks(s, e);
    case MainFinishes(_) => MainShrinks(s, e);
    case MainPushes => MainShrinks(s, e);
    case HandlerDrops(_, _) => HandlerShrinks(s, e);
    case HandlerFinishes(_, _, _) => HandlerFinishShrinks(s, e);
    case HandlerPushes(_, _) => HandlerShrinks(s, e);
    case StartWrite(_) => WriteShrinks(s, e);
    case FinishWrite => WriteShrinks(s, e);
  }

  /** So internal steps end: a run of them is no longer than the flight, and when none is left, every packet is back. */
  lemma {:induction false} Drains(s: State, es: seq<Event>)
    requires Run(s, es).Some? && forall i :: 0 <= i < |es| ==> Internal(es[i])
    ensures |es| + Flight(Run(s, es).value) <= Flight(s)
    ensures (forall e :: Internal(e) ==> !Enabled(Run(s, es).value, e)) <==> Flight(Run(s, es).value) == 0
  {
    if es != [] {
      var init := es[..|es| - 1];
      Drains(s, init);
      InternalShrinks(Run(s, init).value, es[|es| - 1]);
    }
    var t := Run(s, es).value;
    if Flight(t) > 0 {
      var e := Progress(t);
    } else {
      forall e | Internal(e)
        ensures !Enabled(t, e)
      {
        if Enabled(t, e) {
          InternalShrinks(t, e);
        }
      }
    }
  }

  // ---------------------------------------------------------------- routes

  /** A packet read from `side`: in its reader, its read channel, the main loop or a handler, or on its way to the other
      side. */
  predicate CameFrom(s: State, id: Id, side: Side) {
    || InReader(s.reader.Of(side)) == Some(id) || id in s.readChan.Of(side) || id in s.working.Of(side)
    || (s.main.Some? && s.main.value.id == id && s.main.value.side == side)
    || id in s.sending.Of(Opposite(side)) || id in s.writeChan.Of(Opposite(side))
  }

  lemma Rest(c: seq<Id>, id: Id)
    requires c != [] && id in c && c[0] != id
    ensures id in c[1..]
  {
    assert c == [c[0]] + c[1..];
  }

  lemma ReadRoutes(s: State, e: Event, id: Id, side: Side)
    requires Enabled(s, e) && CameFrom(s, id, side) && Returned(s, e) != Some(id)
    requires e.Obtain? || e.ReadFails? || e.ReadSucceeds? || e.PushRead? || e.Collect?
    ensures CameFrom(Next(s, e), id, side)
  {
    if e.PushRead? {
      assert s.reader.Of(e.side).id in Next(s, e).readChan.Of(e.side);
    }
  }

  lemma TakeRoutes(s: State, e: Event, id: Id, side: Side)
    requires Enabled(s, e) && CameFrom(s, id, side) && e.Take?
    ensures CameFrom(Next(s, e), id, side)
  {
    if e.side == side && id in s.readChan.Of(side) && s.readChan.Of(side)[0] != id {
      Rest(s.readChan.Of(side), id);
    }
  }

  lemma MainRoutes(s: State, e: Event, id: Id, side: Side)
    requires Enabled(s, e) && CameFrom(s, id, side) && Returned(s, e) != Some(id)
    requires e.MainDrops? || e.MainFinishes? || e.MainPushes?
    ensures CameFrom(Next(s, e), id, side)
  {
    if e.MainPushes? {
      assert s.main.value.id in Next(s, e).writeChan.Of(Opposite(s.main.value.side));
    }
  }

  lemma HandlerDropRoutes(s: State, e: Event, id: Id, side: Side)
    requires Enabled(s, e) && CameFrom(s, id, side) && e.HandlerDrops? && e.id != id
    ensures CameFrom(Next(s, e), id, side)
  {
    var t := Next(s, e);
    assert t.reader == s.reader && t.readChan == s.readChan && t.main == s.main && t.sending == s.sending;
    assert t.writeChan == s.writeChan && (id in s.working.Of(side) ==> id in t.working.Of(side));
    hide Next, Enabled;
  }

  lemma HandlerFinishRoutes(s: State, e: Event, id: Id, side: Side)
    requires Enabled(s, e) && CameFrom(s, id, side) && e.HandlerFinishes?
    ensures CameFrom(Next(s, e), id, side)
  {
    var t := Next(s, e);
    assert t.reader == s.reader && t.readChan == s.readChan && t.main == s.main && t.writeChan == s.writeChan;
    assert id in s.working.Of(side) ==> id in t.working.Of(side) || id in t.sending.Of(Opposite(side));
    assert id in s.sending.Of(Opposite(side)) ==> id in t.sending.Of(Opposite(side));
    hide Next, Enabled;
  }

  lemma HandlerPushRoutes(s: State, e: Event, id: Id, side: Side)
    requires Enabled(s, e) && CameFrom(s, id, side) && e.HandlerPushes?
    ensures CameFrom(Next(s, e), id, side)
  {
    var t, opp := Next(s, e), Opposite(side);
    assert t.reader == s.reader && t.readChan == s.readChan && t.main == s.main && t.working == s.working;
    assert id in s.sending.Of(opp) ==> id in t.sending.Of(opp) || (e.id == id && e.side == opp);
    assert t.writeChan.Of(opp) == if e.side == opp then s.writeChan.Of(opp) + [e.id] else s.writeChan.Of(opp);
    hide Next, Enabled;
  }

  lemma WriteRoutes(s: State, e: Event, id: Id, side: Side)
    requires Enabled(s, e) && CameFrom(s, id, side) && (e.StartWrite? || e.FinishWrite?)
    requires e.StartWrite? ==> Next(s, e).writer != Some(id)
    ensures CameFrom(Next(s, e), id, side)
  {
    if e.StartWrite? && e.side == Opposite(side) && id in s.writeChan.Of(e.side) {
      Rest(s.writeChan.Of(e.side), id);
    }
  }

  /** The step neither recycles the buffer nor hands it to the write loop. */
  predicate Keeps(s: State, e: Event, id: Id)
    requires Enabled(s, e)
  {
    Returned(s, e) != Some(id) && (e.StartWrite? ==> Next(s, e).writer != Some(id))
  }

  /** Until a packet is recycled or written, it stays on its way from the side it was read from. */
  lemma StepRoutes(s: State, e: Event, id: Id, side: Side)
    requires Enabled(s, e) && CameFrom(s, id, side) && Keeps(s, e, id)
    ensures CameFrom(Next(s, e), id, side)
  {
    hide CameFrom;
    match e
    case Take(_, _) => TakeRoutes(s, e, id, side);
    case MainDrops => MainRoutes(s, e, id, side);
    case MainFinishes(_) => MainRoutes(s, e, id, side);
    case MainPushes => MainRoutes(s, e, id, side);
    case HandlerDrops(_, _) => HandlerDropRoutes(s, e, id, side);
    case HandlerFinishes(_, _, _) => HandlerFinishRoutes(s, e, id, side);
    case HandlerPushes(_, _) => HandlerPushRoutes(s, e, id, side);
    case StartWrite(_) => WriteRoutes(s, e, id, side);
    case FinishWrite => WriteRoutes(s, e, id, side);
    case _ => ReadRoutes(s, e, id, side);
  }

  ghost predicate RunKeepsPacket(s: State, es: seq<Event>, id: Id)
    requires Run(s, es).Some?
  {
    es != [] ==>
      RunKeepsPacket(s, es[..|es| - 1], id) && Keeps(Run(s, es[..|es| - 1]).value, es[|es| - 1], id)
  }

  lemma {:induction false} RunRoutes(s: State, es: seq<Event>, id: Id, side: Side)
    requires Run(s, es).Some? && CameFrom(s, id, side) && RunKeepsPacket(s, es, id)
    ensures CameFrom(Run(s, es).value, id, side)
  {
    if es != [] {
      RunRoutes(s, es[..|es| - 1], id, side);
      StepRoutes(Run(s, es[..|es| - 1]).value, es[|es| - 1], id, side);
    }
  }

  lemma TwoPlaces(s: State, id: Id, side: Side)
    requires CameFrom(s, id, side) && id in s.writeChan.Of(side)
    ensures Uses(s, id) >= 2
  {
    assert multiset(s.writeChan.Of(side))[id] >= 1;
    BothSides(s, side, id);
    hide Uses;
  }

  /** So when the write loop takes a packet, it takes it from the channel of the other side: what came from a client
      goes to a server, and what came from a server to a client. */
  lemma LeavesByOtherSide(s: State, es: seq<Event>, id: Id, side: Side, d: Side)
    requires Inv(s) && Run(s, es).Some? && CameFrom(s, id, side) && RunKeepsPacket(s, es, id)
    requires var c := Run(s, es).value.writeChan.Of(d); c != [] && c[0] == id
    ensures d != side
  {
    RunRoutes(s, es, id, side);
    RunKeeps(s, es);
    var t := Run(s, es).value;
    assert OwnedAt(t, id);
    if d == side {
      TwoPlaces(t, id, side);
    }
  }

  /** The packet is not marked for obfuscation. */
  predicate Unmarked(s: State, id: Id) {
    id in s.flags ==> ObfuscateBeforeSend !in s.flags[id]
  }

  lemma OneWay(s: State, id: Id)
    requires Inv(s) && CameFrom(s, id, Client)
    ensures id !in s.working.server && !(s.main.Some? && s.main.value.id == id && s.main.value.side == Server)
  {
    assert OwnedAt(s, id);
  }

  /** Only a handler of a server packet marks it. */
  lemma MarkedByOwn(s: State, e: Event, id: Id)
    requires Enabled(s, e) && Unmarked(s, id)
    requires e.MainFinishes? ==> s.main.value.id != id || s.main.value.side == Client
    requires e.HandlerFinishes? ==> e.id != id || e.side == Client
    ensures Unmarked(Next(s, e), id)
  {
  }

  /** Handlers mark packets for clients only: what came from a client, bound for a server, is never marked by them. */
  lemma StepUnmarked(s: State, e: Event, id: Id)
    requires Inv(s) && Enabled(s, e) && CameFrom(s, id, Client) && Unmarked(s, id)
    ensures Unmarked(Next(s, e), id)
  {
    OneWay(s, id);
    hide Inv, CameFrom, Next, Unmarked;
    MarkedByOwn(s, e, id);
  }

  lemma {:induction false} RunUnmarked(s: State, es: seq<Event>, id: Id)
    requires Inv(s) && Run(s, es).Some? && CameFrom(s, id, Client) && Unmarked(s, id) && RunKeepsPacket(s, es, id)
    ensures Unmarked(Run(s, es).value, id)
  {
    if es != [] {
      RunUnmarked(s, es[..|es| - 1], id);
      RunKeeps(s, es[..|es| - 1]);
      RunRoutes(s, es[..|es| - 1], id, Client);
      StepUnmarked(Run(s, es[..|es| - 1]).value, es[|es| - 1], id);
    }
  }

  /** A packet is marked as it was read, and a packet for a client as its handler chose. */
  lemma MarkedAsTold(s: State, e: Event, id: Id)
    requires Inv(s) && Enabled(s, e) && id in s.flags
    ensures e.ReadSucceeds? && id == s.reader.Of(e.side).id ==>
              Next(s, e).flags[id] == if e.deobfuscated then {DeobfuscatedAfterReceived} else {}
    ensures (e.MainFinishes? && s.main.value == Job(id, Server, false))
            || (e.HandlerFinishes? && e.id == id && e.side == Server) ==>
              Next(s, e).flags[id] == s.flags[id] + if e.obfuscate then {ObfuscateBeforeSend} else {}
  {
    if e.ReadSucceeds? && id == s.reader.Of(e.side).id {
      assert Clean(s, id);
    }
  }

  /** What a packet was marked with when it was read stays until it is recycled. */
  lemma ReadMarkStays(s: State, e: Event, id: Id)
    requires Inv(s) && Enabled(s, e) && id in s.flags && Keeps(s, e, id) && id !in s.pool && id < s.made
    requires forall side: Side :: s.reader.Of(side) != Reading(id)
    ensures id in Next(s, e).flags
    ensures DeobfuscatedAfterReceived in Next(s, e).flags[id] <==> DeobfuscatedAfterReceived in s.flags[id]
  {
    hide Inv;
  }

  // ---------------------------------------------------------------- order

  /** What a step puts into the read channel of a side, and what it takes out. */
  function ReadPut(t: State, e: Event, side: Side): seq<Id>
    requires Enabled(t, e)
  {
    if e == PushRead(side) then [t.reader.Of(side).id] else []
  }

  function ReadGot(t: State, e: Event, side: Side): seq<Id>
    requires Enabled(t, e)
  {
    match e
    case Take(d, transport) =>
      if d != side then [] else if transport then [Next(t, e).main.value.id] else [t.readChan.Of(side)[0]]
    case _ => []
  }

  /** The same for the write channel: the main loop and the handlers put in, the write loop takes out. */
  function WritePut(t: State, e: Event, side: Side): seq<Id>
    requires Enabled(t, e)
  {
    match e
    case MainPushes => if t.main.value.side != side then [t.main.value.id] else []
    case HandlerPushes(d, id) => if d == side then [id] else []
    case _ => []
  }

  function WriteGot(t: State, e: Event, side: Side): seq<Id>
    requires Enabled(t, e)
  {
    if e == StartWrite(side) then [Next(t, e).writer.value] else []
  }

  lemma OtherReadStep(t: State, e: Event, side: Side)
    requires Enabled(t, e) && e != PushRead(side) && !(e.Take? && e.side == side)
    ensures Next(t, e).readChan.Of(side) == t.readChan.Of(side)
  {
  }

  lemma TakeStep(t: State, e: Event, side: Side)
    requires Enabled(t, e) && e.Take? && e.side == side
    ensures t.readChan.Of(side) == ReadGot(t, e, side) + Next(t, e).readChan.Of(side)
  {
  }

  lemma ReadStep(t: State, e: Event, side: Side)
    requires Enabled(t, e)
    ensures t.readChan.Of(side) + ReadPut(t, e, side) == ReadGot(t, e, side) + Next(t, e).readChan.Of(side)
  {
    if e == PushRead(side) {
      assert Next(t, e).readChan.Of(side) == t.readChan.Of(side) + [t.reader.Of(side).id];
    } else if e.Take? && e.side == side {
      hide Next;
      TakeStep(t, e, side);
    } else {
      hide Next;
      OtherReadStep(t, e, side);
    }
  }

  lemma WriteStep(t: State, e: Event, side: Side)
    requires Enabled(t, e)
    ensures t.writeChan.Of(side) + WritePut(t, e, side) == WriteGot(t, e, side) + Next(t, e).writeChan.Of(side)
  {
  }

  /** What a run puts into the read channel of a side, in order, and what the main loop takes out of it. */
  function ReadIn(s: State, es: seq<Event>, side: Side): seq<Id>
    requires Run(s, es).Some?
  {
    if es == [] then []
    else ReadIn(s, es[..|es| - 1], side) + ReadPut(Run(s, es[..|es| - 1]).value, es[|es| - 1], side)
  }

  function ReadOut(s: State, es: seq<Event>, side: Side): seq<Id>
    requires Run(s, es).Some?
  {
    if es == [] then []
    else ReadOut(s, es[..|es| - 1], side) + ReadGot(Run(s, es[..|es| - 1]).value, es[|es| - 1], side)
  }

  /** What a run puts into the write channel of a side, and what the write loop takes out of it. */
  function WriteIn(s: State, es: seq<Event>, side: Side): seq<Id>
    requires Run(s, es).Some?
  {
    if es == [] then []
    else WriteIn(s, es[..|es| - 1], side) + WritePut(Run(s, es[..|es| - 1]).value, es[|es| - 1], side)
  }

  function WriteOut(s: State, es: seq<Event>, side: Side): seq<Id>
    requires Run(s, es).Some?
  {
    if es == [] then []
    else WriteOut(s, es[..|es| - 1], side) + WriteGot(Run(s, es[..|es| - 1]).value, es[|es| - 1], side)
  }

  lemma Chain(c0: seq<Id>, i: seq<Id>, put: seq<Id>, o: seq<Id>, got: seq<Id>, c: seq<Id>, c': seq<Id>)
    requires c0 + i == o + c && c + put == got + c'
    ensures c0 + (i + put) == (o + got) + c'
  {
    assert c0 + (i + put) == (c0 + i) + put == (o + c) + put == o + (c + put);
    assert (o + got) + c' == o + (got + c');
  }

  /** Channels keep the order: what went in is what came out, followed by what is still inside. */
  lemma {:induction false} ReadInOrder(s: State, es: seq<Event>, side: Side)
    requires Run(s, es).Some?
    ensures s.readChan.Of(side) + ReadIn(s, es, side) == ReadOut(s, es, side) + Run(s, es).value.readChan.Of(side)
  {
    if es != [] {
      var init, e := es[..|es| - 1], es[|es| - 1];
      var t := Run(s, init).value;
      ReadInOrder(s, init, side);
      ReadStep(t, e, side);
      Chain(s.readChan.Of(side), ReadIn(s, init, side), ReadPut(t, e, side), ReadOut(s, init, side),
            ReadGot(t, e, side), t.readChan.Of(side), Next(t, e).readChan.Of(side));
    }
  }

  lemma {:induction false} WriteInOrder(s: State, es: seq<Event>, side: Side)
    requires Run(s, es).Some?
    ensures s.writeChan.Of(side) + WriteIn(s, es, side) == WriteOut(s, es, side) + Run(s, es).value.writeChan.Of(side)
  {
    if es != [] {
      var init, e := es[..|es| - 1], es[|es| - 1];
      var t := Run(s, init).value;
      WriteInOrder(s, init, side);
      WriteStep(t, e, side);
      Chain(s.writeChan.Of(side), WriteIn(s, init, side), WritePut(t, e, side), WriteOut(s, init, side),
            WriteGot(t, e, side), t.writeChan.Of(side), Next(t, e).writeChan.Of(side));
    }
  }
}

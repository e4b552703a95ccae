/** The parallel downloader: blocks are fetched out of order by concurrent goroutines and handed to one
reader in order, under a semaphore. Every atomic section of the code is one step. */
module Downloader {

  import opened Objects

  /** Where the goroutine of a block is. It holds a token until it is past `Releasing`, or until the
  block is saved, when the buffer holds it. */
  datatype Phase = Checking | Fetching | Releasing | Signalling

  /** Where the reader is inside `Read`. */
  datatype Reader =
    | Idle
    | Looking(n: nat)
    | Asleep(n: nat)
    | Finishing(base: nat)
    | Owing

  datatype Download = Download(src: seq<byte>, fsize: nat, block: nat, cap: nat)

  datatype State = State(
    next: nat,
    flight: map<nat, Phase>,
    buffers: map<nat, seq<byte>>,
    closed: bool, err: bool,
    off: nat,
    returned: seq<byte>,
    reader: Reader,
    tokens: nat,
    others: nat,
    leaked: nat)

  datatype Step =
    | Spawn
    | CheckErr(o: nat)
    | Save(o: nat)
    | Fail(o: nat)
    | Release(o: nat)
    | Signal(o: nat)
    | StartRead(n: nat)
    | Look
    | Drop
    | Repay
    | Close
    | Others(n: nat)

  predicate Usable(d: Download) {
    d.block >= 1
  }

  // Blocks are numbered; block `i` starts at offset `Off(d, i)`.

  function Off(d: Download, i: nat): nat {
    i * d.block
  }

  predicate InFile(d: Download, i: nat) {
    Off(d, i) < d.fsize
  }

  /** The end of a block: the last one is cut off at the end of the file. */
  function End(d: Download, i: nat): (e: nat)
    requires InFile(d, i)
    ensures Off(d, i) <= e <= d.fsize
  {
    if Off(d, i) + d.block > d.fsize then d.fsize else Off(d, i) + d.block
  }

  /** The block that holds a position. */
  function BlockOf(d: Download, off: nat): nat
    requires Usable(d)
  {
    off / d.block
  }

  ghost predicate Holds(s: State, o: nat, p: Phase) {
    o in s.flight && s.flight[o] == p
  }

  ghost predicate Enabled(d: Download, s: State, step: Step)
    requires Usable(d)
  {
    match step
    case Spawn => InFile(d, s.next) && s.tokens + s.others < d.cap
    case CheckErr(o) => Holds(s, o, Checking)
    case Save(o) => Holds(s, o, Fetching) && InFile(d, o) && End(d, o) <= |d.src|
    case Fail(o) => Holds(s, o, Fetching)
    case Release(o) => Holds(s, o, Releasing) && s.tokens > 0
    case Signal(o) => Holds(s, o, Signalling)
    case StartRead(n) => s.reader == Idle && n > 0 && s.off < d.fsize
    case Look => s.reader.Looking?
    case Drop => s.reader.Finishing?
    case Repay => s.reader == Owing && s.tokens > 0
    case Close => s.reader == Idle
    case Others(n) => s.tokens + n <= d.cap
  }

  /** What the reader does with the block it finds: it copies as much as was asked for. */
  ghost function Taken(d: Download, s: State): State
    requires Usable(d) && s.reader.Looking? && BlockOf(d, s.off) in s.buffers
  {
    var i := BlockOf(d, s.off);
    var p := s.buffers[i];
    var from := s.off - Off(d, i);
    if from < 0 || from > |p| then s.(reader := Idle)
    else
      var m := if s.reader.n < |p| - from then s.reader.n else |p| - from;
      s.(returned := s.returned + p[from..from + m], off := s.off + m,
         reader := if from + m == |p| then Finishing(i) else Idle)
  }

  ghost function Apply(d: Download, s: State, step: Step): State
    requires Usable(d) && Enabled(d, s, step)
  {
    match step
    case Spawn => s.(next := s.next + 1, flight := s.flight[s.next := Checking], tokens := s.tokens + 1)
    case CheckErr(o) => s.(flight := s.flight[o := if s.err then Releasing else Fetching])
    case Save(o) =>
      if s.closed then s.(flight := s.flight[o := Releasing])
      else s.(buffers := s.buffers[o := d.src[Off(d, o)..End(d, o)]], flight := s.flight[o := Signalling])
    case Fail(o) => s.(err := true, flight := s.flight[o := Releasing])
    case Release(o) => s.(tokens := s.tokens - 1, flight := s.flight[o := Signalling])
    case Signal(o) =>
      s.(flight := s.flight - {o}, reader := if s.reader.Asleep? then Looking(s.reader.n) else s.reader)
    case StartRead(n) => s.(reader := Looking(n))
    case Look =>
      if BlockOf(d, s.off) in s.buffers then Taken(d, s)
      else if s.err then s.(reader := Idle)
      else s.(reader := Asleep(s.reader.n))
    case Drop => s.(buffers := s.buffers - {s.reader.base}, reader := Owing)
    case Repay => s.(tokens := s.tokens - 1, reader := Idle)
    case Close => s.(leaked := s.leaked + |s.buffers|, buffers := map[], closed := true, err := true)
    case Others(n) => s.(others := n)
  }

  ghost predicate Start(d: Download, s: State) {
    && s.next == s.off == s.tokens == s.leaked == 0
    && s.flight == map[] && s.buffers == map[] && s.returned == [] && s.reader == Idle
    && !s.closed && !s.err && s.others <= d.cap
  }

  // ------------------------------------------------------------------ the invariant

  ghost predicate Spawned(d: Download, s: State, i: nat) {
    i < s.next && InFile(d, i)
  }

  /** Every buffered block is its range of the source, and not read to its end yet. */
  ghost predicate BuffersRight(d: Download, s: State) {
    forall i :: i in s.buffers ==>
      && Spawned(d, s, i) && End(d, i) <= |d.src|
      && s.buffers[i] == d.src[Off(d, i)..End(d, i)]
      && (if s.reader == Finishing(i) then End(d, i) == s.off else End(d, i) > s.off)
  }

  ghost predicate FlightsRight(d: Download, s: State) {
    forall i :: i in s.flight ==>
      && Spawned(d, s, i)
      && (s.flight[i].Checking? || s.flight[i].Fetching? ==> i !in s.buffers && End(d, i) > s.off)
  }

  /** A block is still to come, buffered or read. */
  ghost predicate LookedAfter(d: Download, s: State, i: nat)
    requires InFile(d, i)
  {
    i in s.buffers || Holds(s, i, Checking) || Holds(s, i, Fetching) || End(d, i) <= s.off
  }

  /** While nothing failed, every block spawned is looked after. */
  ghost predicate NothingDropped(d: Download, s: State) {
    !s.err ==> forall i: nat :: Spawned(d, s, i) ==> LookedAfter(d, s, i)
  }

  /** What was returned is the source up to the reader's position. */
  ghost predicate ReturnedRight(d: Download, s: State)
    requires Usable(d)
  {
    && s.off <= |d.src| && s.off <= d.fsize && s.returned == d.src[..s.off]
    && (InFile(d, s.next) ==> s.off <= Off(d, s.next))
  }

  ghost predicate ReaderRight(d: Download, s: State)
    requires Usable(d)
  {
    && (s.reader.Looking? || s.reader.Asleep? ==> s.off < d.fsize && s.reader.n > 0)
    && (s.reader.Finishing? ==> s.reader.base in s.buffers)
    && (s.closed ==> s.err && s.buffers == map[])
  }

  /** A sleeping reader whose block has come, or that has to give up, has a signal on its way. */
  ghost predicate NoLostWakeup(d: Download, s: State)
    requires Usable(d)
  {
    s.reader.Asleep? && (s.err || BlockOf(d, s.off) in s.buffers) ==>
      exists o :: Holds(s, o, Releasing) || Holds(s, o, Signalling)
  }

  ghost function Holding(flight: map<nat, Phase>): set<nat> {
    set i | i in flight && !flight[i].Signalling?
  }

  /** The tokens held are those of the fetches in flight, of the buffered blocks, of a block just
  read, and of the blocks that were buffered when the downloader was closed. */
  ghost predicate TokensRight(d: Download, s: State) {
    && s.tokens == |Holding(s.flight)| + |s.buffers| + (if s.reader == Owing then 1 else 0) + s.leaked
    && s.tokens + s.others <= d.cap
    && (!s.closed ==> s.leaked == 0)
  }

  ghost predicate Inv(d: Download, s: State)
    requires Usable(d)
  {
    && BuffersRight(d, s) && FlightsRight(d, s) && NothingDropped(d, s) && ReturnedRight(d, s)
    && ReaderRight(d, s) && NoLostWakeup(d, s) && TokensRight(d, s)
  }

  lemma StartInv(d: Download, s: State)
    requires Usable(d) && Start(d, s)
    ensures Inv(d, s)
  {
    assert Holding(s.flight) == {};
  }

  lemma BlockOfIn(d: Download, off: nat)
    requires Usable(d)
    ensures var i := BlockOf(d, off); Off(d, i) <= off < Off(d, i) + d.block
  {
  }

  /** Blocks do not overlap. */
  lemma BlocksApart(d: Download, i: nat, j: nat)
    requires i < j && InFile(d, j)
    ensures InFile(d, i) && End(d, i) <= Off(d, j)
  {
    assert (i + 1) * d.block <= j * d.block;
    assert (i + 1) * d.block == i * d.block + d.block;
  }

  // ------------------------------------------------------------------ tokens

  lemma HoldingSet(flight: map<nat, Phase>, i: nat, p: Phase)
    ensures Holding(flight[i := p]) == if p.Signalling? then Holding(flight) - {i} else Holding(flight) + {i}
  {
  }

  lemma HoldingGone(flight: map<nat, Phase>, i: nat)
    requires i in flight && flight[i].Signalling?
    ensures Holding(flight - {i}) == Holding(flight)
  {
  }

  lemma Remove(a: set<nat>, i: nat)
    ensures |a - {i}| == |a| - (if i in a then 1 else 0)
    ensures |a + {i}| == |a| + (if i in a then 0 else 1)
  {
    if i in a {
      assert a + {i} == a;
    } else {
      assert a - {i} == a;
    }
  }

  /** How the number of fetches that hold a token changes with the phase of one of them. */
  lemma HoldingUpdate(flight: map<nat, Phase>, i: nat, p: Phase)
    ensures |Holding(flight[i := p])|
         == |Holding(flight)| - (if i in flight && !flight[i].Signalling? then 1 else 0)
            + (if p.Signalling? then 0 else 1)
  {
    HoldingSet(flight, i, p);
    Remove(Holding(flight), i);
  }

  lemma TokensKept(d: Download, s: State, step: Step)
    requires Usable(d) && TokensRight(d, s) && Enabled(d, s, step)
    requires step.Spawn? ==> s.next !in s.flight
    requires step.Save? ==> step.o !in s.buffers
    requires s.reader.Finishing? ==> s.reader.base in s.buffers
    requires s.closed ==> s.buffers == map[]
    ensures TokensRight(d, Apply(d, s, step))
  {
    hide Holding, Off, End, BlockOf, InFile;
    match step
    case Spawn => HoldingUpdate(s.flight, s.next, Checking);
    case CheckErr(i) => HoldingUpdate(s.flight, i, if s.err then Releasing else Fetching);
    case Save(i) => TokensSaved(d, s, i);
    case Fail(i) => HoldingUpdate(s.flight, i, Releasing);
    case Release(i) => HoldingUpdate(s.flight, i, Signalling);
    case Signal(i) => HoldingGone(s.flight, i);
    case Drop => TokensDropped(d, s);
    case _ =>
  }

  lemma TokensSaved(d: Download, s: State, i: nat)
    requires Usable(d) && TokensRight(d, s) && Enabled(d, s, Save(i)) && i !in s.buffers
    ensures TokensRight(d, Apply(d, s, Save(i)))
  {
    hide Holding, Off, BlockOf;
    HoldingUpdate(s.flight, i, if s.closed then Releasing else Signalling);
  }

  lemma TokensDropped(d: Download, s: State)
    requires Usable(d) && TokensRight(d, s) && s.reader.Finishing? && s.reader.base in s.buffers
    requires s.closed ==> s.buffers == map[]
    ensures TokensRight(d, Apply(d, s, Drop))
  {
    hide Holding;
    Remove(s.buffers.Keys, s.reader.base);
    assert (s.buffers - {s.reader.base}).Keys == s.buffers.Keys - {s.reader.base};
  }

  // ------------------------------------------------------------------ blocks and positions

  /** A block that is not read to its end and is not the reader's block lies behind that one. */
  lemma Ahead(d: Download, off: nat, j: nat)
    requires Usable(d) && InFile(d, j) && End(d, j) > off && j != BlockOf(d, off) && off < d.fsize
    ensures var i := BlockOf(d, off); i < j && InFile(d, i) && End(d, i) <= Off(d, j) < End(d, j)
  {
    var i := BlockOf(d, off);
    BlockOfIn(d, off);
    if j < i {
      BlocksApart(d, j, i);
    } else {
      BlocksApart(d, i, j);
    }
  }

  lemma CopyOn(src: seq<byte>, a: nat, e: nat, from: nat, m: nat)
    requires a + from + m <= e <= |src|
    ensures src[..a + from] + src[a..e][from..from + m] == src[..a + from + m]
  {
  }

  /** What a successful look at the buffered block gives. */
  lemma TakenFacts(d: Download, s: State)
    requires Usable(d) && BuffersRight(d, s) && ReturnedRight(d, s) && ReaderRight(d, s)
    requires s.reader.Looking? && BlockOf(d, s.off) in s.buffers
    ensures var s', i := Taken(d, s), BlockOf(d, s.off);
      && s.off < s'.off <= End(d, i) && s'.off <= s.off + s.reader.n
      && (s'.off < End(d, i) ==> s'.off == s.off + s.reader.n)
      && s'.returned == d.src[..s'.off]
      && s'.reader == (if s'.off == End(d, i) then Finishing(i) else Idle)
      && s' == s.(off := s'.off, returned := s'.returned, reader := s'.reader)
  {
    BlockOfIn(d, s.off);
    var i := BlockOf(d, s.off);
    var a, e := Off(d, i), End(d, i);
    assert s.buffers[i] == d.src[a..e] && a <= s.off < e <= |d.src|;
    hide Off, End, BlockOf, InFile, BuffersRight;
    var m := if s.reader.n < e - s.off then s.reader.n else e - s.off;
    CopyOn(d.src, a, e, s.off - a, m);
  }

  lemma BuffersLook(d: Download, s: State)
    requires Usable(d) && BuffersRight(d, s) && ReturnedRight(d, s) && ReaderRight(d, s)
    requires s.reader.Looking? && BlockOf(d, s.off) in s.buffers
    ensures BuffersRight(d, Apply(d, s, Look))
  {
    var s' := Apply(d, s, Look);
    TakenFacts(d, s);
    hide Taken;
    forall j | j in s'.buffers
      ensures if s'.reader == Finishing(j) then End(d, j) == s'.off else End(d, j) > s'.off
    {
      if j != BlockOf(d, s.off) { Ahead(d, s.off, j); }
    }
  }

  lemma BuffersKept(d: Download, s: State, step: Step)
    requires Usable(d) && Inv(d, s) && Enabled(d, s, step)
    ensures BuffersRight(d, Apply(d, s, step))
  {
    hide NothingDropped, NoLostWakeup, TokensRight;
    if step.Look? && BlockOf(d, s.off) in s.buffers {
      BuffersLook(d, s);
    } else {
      hide BlockOf, Taken, ReturnedRight;
    }
  }

  lemma FlightsKept(d: Download, s: State, step: Step)
    requires Usable(d) && Inv(d, s) && Enabled(d, s, step)
    ensures FlightsRight(d, Apply(d, s, step))
  {
    hide NothingDropped, NoLostWakeup, TokensRight;
    var s' := Apply(d, s, step);
    if step.Spawn? {
      BlockGrows(d, s.next);
      assert s.next !in s.buffers;
    } else if step.Look? && BlockOf(d, s.off) in s.buffers {
      TakenFacts(d, s);
      hide Taken;
      forall j | j in s'.flight && (s'.flight[j].Checking? || s'.flight[j].Fetching?)
        ensures End(d, j) > s'.off
      {
        Ahead(d, s.off, j);
      }
    }
  }

  lemma BlockGrows(d: Download, i: nat)
    requires Usable(d) && InFile(d, i)
    ensures End(d, i) > Off(d, i)
  {
  }

  lemma StillLookedAfter(d: Download, s: State, step: Step, i: nat)
    requires Usable(d) && BuffersRight(d, s) && ReturnedRight(d, s) && ReaderRight(d, s) && Enabled(d, s, step)
    requires InFile(d, i) && LookedAfter(d, s, i) && !Apply(d, s, step).err
    ensures LookedAfter(d, Apply(d, s, step), i)
  {
    if step.Look? && BlockOf(d, s.off) in s.buffers {
      LookKeepsBlocks(d, s);
      hide Apply, Enabled, BuffersRight, ReturnedRight, ReaderRight, Off, End, BlockOf;
    } else {
      hide ReturnedRight, Off, End, Taken, BlockOf;
    }
  }

  lemma LookKeepsBlocks(d: Download, s: State)
    requires Usable(d) && BuffersRight(d, s) && ReturnedRight(d, s) && ReaderRight(d, s) && s.reader.Looking?
    requires BlockOf(d, s.off) in s.buffers
    ensures var s' := Apply(d, s, Look); s'.flight == s.flight && s'.buffers == s.buffers && s'.off >= s.off
  {
    TakenFacts(d, s);
    hide Taken, Off, End, ReturnedRight;
  }

  lemma SpawnedBefore(d: Download, s: State, step: Step, i: nat)
    requires Usable(d) && Enabled(d, s, step) && Spawned(d, Apply(d, s, step), i)
    ensures Spawned(d, s, i) || (step == Spawn && i == s.next && LookedAfter(d, Apply(d, s, step), i))
    ensures !Apply(d, s, step).err ==> !s.err
  {
    hide Off, End, BlockOf;
  }

  lemma DroppedKept(d: Download, s: State, step: Step)
    requires Usable(d) && Inv(d, s) && Enabled(d, s, step)
    ensures NothingDropped(d, Apply(d, s, step))
  {
    hide BuffersRight, ReturnedRight, ReaderRight, LookedAfter, Apply, Enabled, Off, End;
    var s' := Apply(d, s, step);
    if !s'.err {
      forall i: nat | Spawned(d, s', i) ensures LookedAfter(d, s', i) {
        SpawnedBefore(d, s, step, i);
        if Spawned(d, s, i) { StillLookedAfter(d, s, step, i); }
      }
    }
  }

  lemma ReturnedKept(d: Download, s: State, step: Step)
    requires Usable(d) && Inv(d, s) && Enabled(d, s, step)
    ensures ReturnedRight(d, Apply(d, s, step))
  {
    hide NothingDropped, NoLostWakeup, TokensRight;
    var s' := Apply(d, s, step);
    if step.Spawn? {
      if InFile(d, s'.next) { BlocksApart(d, s.next, s'.next); }
    } else if step.Look? && BlockOf(d, s.off) in s.buffers {
      TakenFacts(d, s);
      hide Taken;
      if InFile(d, s.next) { BlocksApart(d, BlockOf(d, s.off), s.next); }
    }
  }

  /** What a look leaves of the reader. */
  lemma LookReader(d: Download, s: State)
    requires Usable(d) && BuffersRight(d, s) && ReturnedRight(d, s) && ReaderRight(d, s) && s.reader.Looking?
    ensures ReaderRight(d, Apply(d, s, Look))
  {
    hide BuffersRight, ReturnedRight, Off, End, InFile;
    if s.closed { ClosedReader(d, s); }
    if BlockOf(d, s.off) in s.buffers {
      TakenFacts(d, s);
      hide Taken;
    }
  }

  lemma DropReader(d: Download, s: State)
    requires Usable(d) && ReaderRight(d, s) && s.reader.Finishing?
    ensures ReaderRight(d, Apply(d, s, Drop))
  {
    hide Off, End, InFile, BlockOf;
    if s.closed { ClosedReader(d, s); }
  }

  lemma ReaderKept(d: Download, s: State, step: Step)
    requires Usable(d) && Inv(d, s) && Enabled(d, s, step)
    ensures ReaderRight(d, Apply(d, s, step))
  {
    hide NothingDropped, NoLostWakeup, TokensRight, BuffersRight, FlightsRight, ReturnedRight;
    hide Off, End, InFile, BlockOf, Taken;
    if step.Look? {
      LookReader(d, s);
    } else if step.Drop? {
      DropReader(d, s);
    } else {
      assert s.reader.Finishing? ==> s.reader.base in s.buffers;
    }
  }

  lemma ClosedReader(d: Download, s: State)
    requires Usable(d) && ReaderRight(d, s) && s.closed
    ensures !s.reader.Finishing? && BlockOf(d, s.off) !in s.buffers
  {
  }

  lemma WakeupKept(d: Download, s: State, step: Step)
    requires Usable(d) && Inv(d, s) && Enabled(d, s, step)
    ensures NoLostWakeup(d, Apply(d, s, step))
  {
    hide NothingDropped, TokensRight, BuffersRight, Off, End, InFile;
    var s' := Apply(d, s, step);
    if s'.reader.Asleep? && (s'.err || BlockOf(d, s'.off) in s'.buffers) {
      if step.Save? || step.Fail? || step.Release? {
        assert Holds(s', step.o, Releasing) || Holds(s', step.o, Signalling);
      } else if !step.Look? {
        var o :| Holds(s, o, Releasing) || Holds(s, o, Signalling);
        assert Holds(s', o, Releasing) || Holds(s', o, Signalling);
      }
    }
  }

  /** Every step keeps the invariant. */
  lemma StepInv(d: Download, s: State, step: Step)
    requires Usable(d) && Inv(d, s) && Enabled(d, s, step)
    ensures Inv(d, Apply(d, s, step))
  {
    BuffersKept(d, s, step);
    FlightsKept(d, s, step);
    DroppedKept(d, s, step);
    ReturnedKept(d, s, step);
    ReaderKept(d, s, step);
    WakeupKept(d, s, step);
    TokensKept(d, s, step);
  }

  // ------------------------------------------------------------------ whole runs

  ghost predicate Leads(d: Download, s: State, s': State)
    requires Usable(d)
  {
    exists step :: Enabled(d, s, step) && s' == Apply(d, s, step)
  }

  ghost predicate IsRun(d: Download, run: seq<State>)
    requires Usable(d)
  {
    && run != [] && Start(d, run[0])
    && forall i, j :: 0 <= i && j == i + 1 < |run| ==> Leads(d, run[i], run[j])
  }

  lemma {:induction false} RunInv(d: Download, run: seq<State>)
    requires Usable(d) && IsRun(d, run)
    ensures Inv(d, run[|run| - 1])
    decreases |run|
  {
    if |run| == 1 {
      StartInv(d, run[0]);
    } else {
      var n := |run| - 2;
      RunInv(d, run[..n + 1]);
      assert Leads(d, run[n], run[n + 1]);
      var step :| Enabled(d, run[n], step) && run[n + 1] == Apply(d, run[n], step);
      StepInv(d, run[n], step);
    }
  }

  /** Whatever the interleaving and the errors: what was returned is the beginning of the source, the
  end of the file is reached with the whole file returned, buffered blocks are right, a read moves on
  exactly when its block is buffered, and it fails only when that block is missing. */
  lemma ReadsAreTheSource(d: Download, run: seq<State>)
    requires Usable(d) && IsRun(d, run)
    ensures var s := run[|run| - 1];
      && s.off <= |d.src| && s.returned == d.src[..s.off]
      && (s.off >= d.fsize ==> s.off == d.fsize && s.returned == d.src[..d.fsize])
      && (forall i :: i in s.buffers ==>
          InFile(d, i) && End(d, i) <= |d.src| && s.buffers[i] == d.src[Off(d, i)..End(d, i)])
      && (s.reader.Looking? ==>
            var s' := Apply(d, s, Look);
            && (s.off < s'.off <==> BlockOf(d, s.off) in s.buffers) && s'.returned == d.src[..s'.off]
            && (s.off == s'.off && s'.reader == Idle <==> s.err && BlockOf(d, s.off) !in s.buffers))
  {
    RunInv(d, run);
    var s := run[|run| - 1];
    if s.reader.Looking? && BlockOf(d, s.off) in s.buffers {
      TakenFacts(d, s);
    }
  }

  /** The semaphore: never more tokens than its capacity; after a full read everything is given back,
  except the blocks that were still buffered when the downloader was closed. */
  lemma TokensAccounted(d: Download, run: seq<State>)
    requires Usable(d) && IsRun(d, run)
    ensures var s := run[|run| - 1];
      && s.tokens + s.others <= d.cap
      && (s.flight == map[] && s.reader == Idle && (s.off == d.fsize || s.closed) ==> s.tokens == s.leaked)
      && (!s.closed ==> s.leaked == 0)
  {
    RunInv(d, run);
    var s := run[|run| - 1];
    if s.flight == map[] && s.reader == Idle && (s.off == d.fsize || s.closed) {
      assert Holding(s.flight) == {};
      NoneBuffered(d, s);
    }
  }

  /** At the end of the file, and after the close, no block is buffered. */
  lemma NoneBuffered(d: Download, s: State)
    requires Usable(d) && Inv(d, s) && s.reader == Idle && (s.off == d.fsize || s.closed)
    ensures s.buffers == map[]
  {
    if i :| i in s.buffers {
      assert false;
    }
  }

  lemma InvAt(d: Download, run: seq<State>, i: nat)
    requires Usable(d) && IsRun(d, run) && i < |run|
    ensures Inv(d, run[i])
  {
    hide Inv, Leads, Start;
    RunInv(d, run[..i + 1]);
  }

  lemma LeakNow(d: Download, s: State)
    requires Usable(d) && Inv(d, s) && !s.closed && s.reader == Idle
    ensures Apply(d, s, Close).closed && Apply(d, s, Close).leaked == |s.buffers|
  {
  }

  /** Once closed, it stays closed, and no more tokens are lost or given back for buffered blocks. */
  lemma LeakStays(d: Download, s: State, s': State)
    requires Usable(d) && Inv(d, s) && Leads(d, s, s') && s.closed
    ensures s'.closed && s'.leaked == s.leaked
  {
    hide BlockOf, Off, End, InFile, BuffersRight, FlightsRight, NothingDropped, ReturnedRight, NoLostWakeup,
      TokensRight;
  }

  lemma {:induction false} LeakUpTo(d: Download, run: seq<State>, k: nat, j: nat)
    requires Usable(d) && IsRun(d, run) && k < j < |run|
    requires !run[k].closed && run[k].reader == Idle && run[k + 1] == Apply(d, run[k], Close)
    ensures run[j].closed && run[j].leaked == |run[k].buffers|
    decreases j
  {
    hide Inv, Apply, Leads;
    if j == k + 1 {
      InvAt(d, run, k);
      LeakNow(d, run[k]);
    } else {
      LeakUpTo(d, run, k, j - 1);
      InvAt(d, run, j - 1);
      assert Leads(d, run[j - 1], run[j]);
      LeakStays(d, run[j - 1], run[j]);
    }
  }

  /** Closing gives back no token of a buffered block, then or ever: in every run, once nothing is in
  flight after the close, the tokens still held are those of the blocks buffered at the close. So all come
  back if and only if no block was buffered. */
  lemma CloseLeaks(d: Download, run: seq<State>, k: nat)
    requires Usable(d) && IsRun(d, run) && k + 1 < |run|
    requires !run[k].closed && run[k].reader == Idle && run[k + 1] == Apply(d, run[k], Close)
    ensures var s := run[|run| - 1];
      s.flight == map[] && s.reader == Idle ==>
        && s.tokens == |run[k].buffers|
        && (s.tokens == 0 <==> run[k].buffers == map[])
  {
    LeakUpTo(d, run, k, |run| - 1);
    RunInv(d, run);
    var s := run[|run| - 1];
    if s.flight == map[] && s.reader == Idle {
      assert Holding(s.flight) == {};
      NoneBuffered(d, s);
    }
  }

  lemma Extend(d: Download, run: seq<State>, step: Step) returns (run': seq<State>)
    requires Usable(d) && IsRun(d, run) && Enabled(d, run[|run| - 1], step)
    ensures IsRun(d, run') && run' != [] && run'[|run'| - 1] == Apply(d, run[|run| - 1], step)
    ensures |run'| == |run| + 1 && run'[..|run|] == run
  {
    hide Apply, Enabled, Start;
    run' := run + [Apply(d, run[|run| - 1], step)];
    assert Leads(d, run[|run| - 1], run'[|run|]);
  }

  /** The first block is fetched and nothing is read yet. */
  ghost predicate FirstBuffered(d: Download, s: State) {
    s.flight == map[0 := Signalling] && 0 in s.buffers && |s.buffers| == 1 && s.tokens == 1
    && s.reader == Idle && !s.closed && !s.err
  }

  lemma FetchFirst(d: Download) returns (run: seq<State>)
    requires Usable(d) && 0 < d.fsize <= |d.src| && d.cap > 0
    ensures IsRun(d, run) && |run| == 4 && FirstBuffered(d, run[3])
  {
    run := [State(0, map[], map[], false, false, 0, [], Idle, 0, 0, 0)];
    assert Start(d, run[0]) && IsRun(d, run);
    assert InFile(d, 0);
    hide IsRun;
    run := Extend(d, run, Spawn);
    run := Extend(d, run, CheckErr(0));
    run := Extend(d, run, Save(0));
  }

  /** It happens to every object: its first block is fetched before anything is read, the downloader is
  closed, and a token is gone. */
  lemma CloseWithBlock(d: Download) returns (run: seq<State>)
    requires Usable(d) && 0 < d.fsize <= |d.src| && d.cap > 0
    ensures IsRun(d, run) && |run| == 6 && !run[3].closed && run[3].reader == Idle && run[4] == Apply(d, run[3], Close)
    ensures var s := run[|run| - 1]; s.flight == map[] && s.reader == Idle && s.tokens == 1
  {
    var open := FetchFirst(d);
    hide IsRun, BlockOf, Off, End, InFile, Usable;
    var shut := Extend(d, open, Close);
    assert open[3] == shut[..4][3] == shut[3];
    run := Extend(d, shut, Signal(0));
    assert shut[3] == run[..5][3] == run[3] && shut[4] == run[..5][4] == run[4];
    assert run[5].flight == map[];
  }

  // ------------------------------------------------------------------ progress

  /** The steps of an undisturbed download. */
  predicate Undisturbed(step: Step) {
    !step.Fail? && !step.Close? && !step.Others?
  }

  ghost function Unspawned(d: Download, i: nat): nat
    requires Usable(d)
    decreases if InFile(d, i) then d.fsize - Off(d, i) else 0
  {
    if InFile(d, i) then
      assert Off(d, i + 1) == Off(d, i) + d.block;
      1 + Unspawned(d, i + 1)
    else 0
  }

  ghost function InPhase(flight: map<nat, Phase>, p: Phase): set<nat> {
    set i | i in flight && flight[i] == p
  }

  ghost function FlightWork(flight: map<nat, Phase>): nat {
    5 * |InPhase(flight, Checking)| + 4 * |InPhase(flight, Fetching)|
    + 3 * |InPhase(flight, Releasing)| + 2 * |InPhase(flight, Signalling)|
  }

  function ReaderWork(r: Reader): nat {
    match r
    case Idle => 3
    case Looking(_) => 2
    case Asleep(_) => 1
    case Finishing(_) => 5
    case Owing => 4
  }

  ghost function Work(d: Download, s: State): int
    requires Usable(d)
  {
    10 * (d.fsize - s.off) + 20 * Unspawned(d, s.next) + FlightWork(s.flight) + ReaderWork(s.reader)
  }

  lemma InPhaseUpdate(flight: map<nat, Phase>, i: nat, q: Phase, p: Phase)
    ensures |InPhase(flight[i := q], p)|
         == |InPhase(flight, p)| - (if i in flight && flight[i] == p then 1 else 0) + (if q == p then 1 else 0)
  {
    var a := InPhase(flight, p);
    assert InPhase(flight[i := q], p) == if q == p then (a - {i}) + {i} else a - {i};
    Remove(a, i);
    Remove(a - {i}, i);
  }

  lemma InPhaseGone(flight: map<nat, Phase>, i: nat, p: Phase)
    ensures |InPhase(flight - {i}, p)| == |InPhase(flight, p)| - (if i in flight && flight[i] == p then 1 else 0)
  {
    assert InPhase(flight - {i}, p) == InPhase(flight, p) - {i};
    Remove(InPhase(flight, p), i);
  }

  function Weight(p: Phase): nat {
    match p
    case Checking => 5
    case Fetching => 4
    case Releasing => 3
    case Signalling => 2
  }

  lemma FlightWorkUpdate(flight: map<nat, Phase>, i: nat, q: Phase)
    ensures FlightWork(flight[i := q])
         == FlightWork(flight) - (if i in flight then Weight(flight[i]) else 0) + Weight(q)
    ensures FlightWork(flight - {i}) == FlightWork(flight) - (if i in flight then Weight(flight[i]) else 0)
  {
    hide InPhase;
    InPhaseUpdate(flight, i, q, Checking);
    InPhaseUpdate(flight, i, q, Fetching);
    InPhaseUpdate(flight, i, q, Releasing);
    InPhaseUpdate(flight, i, q, Signalling);
    InPhaseGone(flight, i, Checking);
    InPhaseGone(flight, i, Fetching);
    InPhaseGone(flight, i, Releasing);
    InPhaseGone(flight, i, Signalling);
  }

  /** The work in the flights and the blocks to come, step by step. */
  lemma FlightWorkShrinks(d: Download, s: State, step: Step)
    requires Usable(d) && Enabled(d, s, step) && Undisturbed(step)
    requires step.Spawn? ==> s.next !in s.flight
    requires !step.Look?
    ensures var s' := Apply(d, s, step);
      var was := 20 * Unspawned(d, s.next) + FlightWork(s.flight);
      var now := 20 * Unspawned(d, s'.next) + FlightWork(s'.flight);
      now + (if step.StartRead? || step.Drop? || step.Repay? then 0 else if step.Signal? then 2 else 1) <= was
  {
    hide FlightWork, End, Off, InPhase;
    match step
    case Spawn => FlightWorkUpdate(s.flight, s.next, Checking);
    case CheckErr(i) => FlightWorkUpdate(s.flight, i, if s.err then Releasing else Fetching);
    case Save(i) => FlightWorkUpdate(s.flight, i, if s.closed then Releasing else Signalling);
    case Release(i) => FlightWorkUpdate(s.flight, i, Signalling);
    case Signal(i) => FlightWorkUpdate(s.flight, i, Signalling);
    case _ =>
  }

  lemma NextNotInFlight(d: Download, s: State)
    requires FlightsRight(d, s)
    ensures s.next !in s.flight
  {
  }

  /** Without errors, every undisturbed step leaves less work to do. */
  lemma WorkShrinks(d: Download, s: State, step: Step)
    requires Usable(d) && Inv(d, s) && Enabled(d, s, step) && Undisturbed(step) && !s.err
    ensures Work(d, Apply(d, s, step)) < Work(d, s) && !Apply(d, s, step).err
  {
    hide FlightWork, Unspawned, BuffersRight, FlightsRight, NothingDropped, NoLostWakeup, TokensRight;
    if step.Look? {
      if BlockOf(d, s.off) in s.buffers {
        TakenFacts(d, s);
        hide Taken;
      }
    } else {
      NextNotInFlight(d, s);
      FlightWorkShrinks(d, s, step);
    }
  }

  /** Without errors and with a semaphore of its own, the download never gets stuck before the end of
  the file: some undisturbed step is possible. */
  lemma NeverStuck(d: Download, s: State) returns (step: Step)
    requires Usable(d) && Inv(d, s) && !s.err && s.others == 0 && d.cap >= 1
    requires d.fsize <= |d.src| && s.off < d.fsize
    ensures Enabled(d, s, step) && Undisturbed(step)
  {
    if s.flight != map[] {
      var i :| i in s.flight;
      step := FlightStep(d, s, i);
    } else if s.reader.Asleep? {
      step := Spawn;
      AsleepCanSpawn(d, s);
    } else {
      step := match s.reader
        case Idle => StartRead(1)
        case Looking(_) => Look
        case Finishing(_) => Drop
        case _ => Repay;
    }
  }

  /** Nor does a read hang once something has failed or the downloader has been closed: its own next step
  is possible, or that of a fetch which is about to wake it. */
  lemma ReadGoesOn(d: Download, s: State) returns (step: Step)
    requires Usable(d) && Inv(d, s) && s.err && s.reader != Idle
    ensures Enabled(d, s, step)
    ensures s.reader.Asleep? ==> step.Release? || step.Signal?
    ensures !s.reader.Asleep? ==> step.Look? || step.Drop? || step.Repay?
  {
    hide BuffersRight, FlightsRight, NothingDropped, ReturnedRight, BlockOf, Holding;
    if s.reader.Asleep? {
      var o :| Holds(s, o, Releasing) || Holds(s, o, Signalling);
      if s.flight[o].Releasing? { HasToken(d, s, o); }
      step := if s.flight[o].Releasing? then Release(o) else Signal(o);
    } else {
      step := if s.reader.Looking? then Look else if s.reader.Finishing? then Drop else Repay;
    }
  }

  lemma FlightStep(d: Download, s: State, i: nat) returns (step: Step)
    requires Usable(d) && Inv(d, s) && !s.err && d.fsize <= |d.src| && i in s.flight
    ensures Enabled(d, s, step) && Undisturbed(step)
  {
    step := match s.flight[i]
      case Checking => CheckErr(i)
      case Fetching => Save(i)
      case Releasing => Release(i)
      case Signalling => Signal(i);
    if s.flight[i].Releasing? { HasToken(d, s, i); }
  }

  /** With nothing in flight and the reader asleep, its block has not been spawned, and nothing is buffered. */
  lemma AsleepHoldsNothing(d: Download, s: State)
    requires Usable(d) && Inv(d, s) && !s.err && s.flight == map[] && s.reader.Asleep?
    ensures s.buffers == map[] && InFile(d, s.next) && s.tokens == 0
  {
    var i := BlockOf(d, s.off);
    BlockOfIn(d, s.off);
    assert i !in s.buffers;
    assert !Spawned(d, s, i);
    assert s.next <= i;
    assert s.buffers == map[] by {
      forall j | j in s.buffers ensures false {
        BlocksApart(d, j, i);
        assert false;
      }
    }
    assert Holding(s.flight) == {};
    if s.next < i { BlocksApart(d, s.next, i); }
  }

  lemma AsleepCanSpawn(d: Download, s: State)
    requires Usable(d) && Inv(d, s) && !s.err && s.others == 0 && d.cap >= 1
    requires s.flight == map[] && s.reader.Asleep?
    ensures Enabled(d, s, Spawn)
  {
    AsleepHoldsNothing(d, s);
  }

  ghost predicate Follows(d: Download, s: State, steps: seq<Step>)
    requires Usable(d)
    decreases |steps|
  {
    steps != [] ==>
      && Undisturbed(steps[0]) && Enabled(d, s, steps[0]) && Follows(d, Apply(d, s, steps[0]), steps[1..])
  }

  ghost function After(d: Download, s: State, steps: seq<Step>): State
    requires Usable(d) && Follows(d, s, steps)
    decreases |steps|
  {
    if steps == [] then s else After(d, Apply(d, s, steps[0]), steps[1..])
  }

  ghost predicate Over(d: Download, s: State)
    requires Usable(d)
  {
    forall step :: Enabled(d, s, step) ==> !Undisturbed(step)
  }

  /** Without errors and with a semaphore of its own, whatever the order of the steps, there are only
  finitely many of them, and when none is left the whole object has been returned. */
  lemma {:induction false} DownloadFinishes(d: Download, s: State, steps: seq<Step>)
    requires Usable(d) && Inv(d, s) && !s.err && s.others == 0 && d.cap >= 1 && d.fsize <= |d.src|
    requires Follows(d, s, steps)
    ensures |steps| <= Work(d, s)
    ensures var s' := After(d, s, steps);
      Over(d, s') ==> s'.off == d.fsize && s'.returned == d.src[..d.fsize]
    decreases |steps|
  {
    hide FlightWork, Unspawned, BuffersRight, FlightsRight, NothingDropped, NoLostWakeup, TokensRight, ReaderRight;
    if steps == [] {
      if s.off < d.fsize {
        var step := NeverStuck(d, s);
      }
    } else {
      StepInv(d, s, steps[0]);
      WorkShrinks(d, s, steps[0]);
      OthersStay(d, s, steps[0]);
      hide Apply, Enabled;
      DownloadFinishes(d, Apply(d, s, steps[0]), steps[1..]);
    }
  }

  lemma OthersStay(d: Download, s: State, step: Step)
    requires Usable(d) && Enabled(d, s, step) && Undisturbed(step)
    ensures Apply(d, s, step).others == s.others
  {
  }

  // ------------------------------------------------------------------ the object

  datatype ReadResult = Wait | Failed | Copied(bytes: seq<byte>, whole: bool)

  /** The downloader's fields, and its methods cut at the points where another goroutine may run. The
  ghost field is the state of the machine above; blocks are keyed by their number. */
  class ParallelDownloader {
    const d: Download
    var buffers: map<nat, seq<byte>>
    var closed: bool
    var off: nat
    var err: bool
    var concurrent: nat
    ghost var view: State

    ghost predicate Valid()
      reads this
    {
      && Usable(d) && Inv(d, view)
      && view.buffers == buffers && view.closed == closed && view.off == off && view.err == err
      && view.tokens + view.others == concurrent
    }

    constructor (d: Download, others: nat)
      requires Usable(d) && others <= d.cap
      ensures Valid() && this.d == d && Start(d, view) && view.others == others
    {
      this.d := d;
      buffers, closed, off, err, concurrent := map[], false, 0, false, others;
      view := State(0, map[], map[], false, false, 0, [], Idle, 0, others, 0);
      new;
      StartInv(d, view);
    }

    /** The loop of `download` gets past its send on the channel. */
    method Acquire(o: nat)
      requires Valid() && o == view.next && InFile(d, o) && concurrent < d.cap
      modifies this
      ensures Valid() && view == Apply(d, old(view), Spawn)
    {
      hide Inv, End, Off;
      StepInv(d, view, Spawn);
      concurrent := concurrent + 1;
      view := Apply(d, view, Spawn);
    }

    method HasErr(o: nat) returns (failed: bool)
      requires Valid() && Holds(view, o, Checking)
      modifies this
      ensures Valid() && view == Apply(d, old(view), CheckErr(o)) && failed == err == old(err)
    {
      hide Inv, End, Off;
      StepInv(d, view, CheckErr(o));
      failed := err;
      view := Apply(d, view, CheckErr(o));
    }

    /** The block has been read in full. */
    method SaveBlock(o: nat, p: seq<byte>) returns (saved: bool)
      requires Valid() && Holds(view, o, Fetching) && InFile(d, o) && End(d, o) <= |d.src|
      requires p == d.src[Off(d, o)..End(d, o)]
      modifies this
      ensures Valid() && view == Apply(d, old(view), Save(o)) && saved == !closed
    {
      hide Inv, End, Off;
      StepInv(d, view, Save(o));
      saved := !closed;
      if saved {
        buffers := buffers[o := p];
      }
      view := Apply(d, view, Save(o));
    }

    method SetErr(o: nat)
      requires Valid() && Holds(view, o, Fetching)
      modifies this
      ensures Valid() && view == Apply(d, old(view), Fail(o)) && err
    {
      hide Inv, End, Off;
      StepInv(d, view, Fail(o));
      err := true;
      view := Apply(d, view, Fail(o));
    }

    /** A block that was not saved gives its token back. */
    method GiveBack(o: nat)
      requires Valid() && Holds(view, o, Releasing)
      modifies this
      ensures Valid() && view == Apply(d, old(view), Release(o))
    {
      HasToken(d, view, o);
      hide Inv;
      StepInv(d, view, Release(o));
      concurrent := concurrent - 1;
      view := Apply(d, view, Release(o));
    }

    /** One turn of `Read` with the lock held, and the copy after it. */
    method ReadTurn(n: nat) returns (r: ReadResult)
      requires Valid() && view.reader == Looking(n)
      modifies this
      ensures Valid() && view == Apply(d, old(view), Look)
      ensures r == Wait <==> view.reader.Asleep?
      ensures r == Failed ==> old(err) && off == old(off)
      ensures r.Copied? ==> view.returned == old(view.returned) + r.bytes && 0 < |r.bytes| <= n
      ensures r.Copied? ==> (r.whole <==> view.reader.Finishing?)
    {
      hide Inv, End, InFile;
      StepInv(d, view, Look);
      var i: nat := off / d.block;
      if i in buffers {
        LookFacts(d, view);
        var p, from := buffers[i], off - i * d.block;
        var m := if n < |p| - from then n else |p| - from;
        r := Copied(p[from..from + m], from + m == |p|);
        off := off + m;
      } else if err {
        r := Failed;
      } else {
        r := Wait;
      }
      view := Apply(d, view, Look);
    }

    /** A block read to its end leaves the buffer, and then its token goes back. */
    method DropBlock(i: nat)
      requires Valid() && view.reader == Finishing(i)
      modifies this
      ensures Valid() && view == Apply(d, Apply(d, old(view), Drop), Repay) && concurrent == old(concurrent) - 1
    {
      hide Inv, End, Off;
      DropFacts(d, view);
      StepInv(d, view, Drop);
      buffers := buffers - {i};
      view := Apply(d, view, Drop);
      StepInv(d, view, Repay);
      concurrent := concurrent - 1;
      view := Apply(d, view, Repay);
    }

    method Shut()
      requires Valid() && view.reader == Idle
      modifies this
      ensures Valid() && view == Apply(d, old(view), Close)
      ensures closed && err && concurrent == old(concurrent)
    {
      hide Inv, End, Off;
      StepInv(d, view, Close);
      buffers, closed, err := map[], true, true;
      view := Apply(d, view, Close);
    }
  }

  lemma HasToken(d: Download, s: State, o: nat)
    requires TokensRight(d, s) && Holds(s, o, Releasing)
    ensures s.tokens > 0
  {
    assert o in Holding(s.flight);
  }

  lemma DropFacts(d: Download, s: State)
    requires Usable(d) && Inv(d, s) && s.reader.Finishing?
    ensures s.reader.base in s.buffers && s.tokens > 0
  {
    assert s.reader.base in s.buffers.Keys;
  }

  lemma LookFacts(d: Download, s: State)
    requires Usable(d) && Inv(d, s) && s.reader.Looking? && BlockOf(d, s.off) in s.buffers
    ensures var s', i, p := Taken(d, s), BlockOf(d, s.off), s.buffers[BlockOf(d, s.off)];
      && Off(d, i) <= s.off < Off(d, i) + |p| && s.reader.n > 0
      && s' == s.(off := s'.off, returned := s'.returned, reader := s'.reader)
  {
    hide NothingDropped, NoLostWakeup, TokensRight;
    TakenFacts(d, s);
  }
}

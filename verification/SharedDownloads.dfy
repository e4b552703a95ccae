/** Several downloads at once on one semaphore. Each is the machine of its own download; what the others hold
of the semaphore is what it sees as held by others. */
module SharedDownloads {
  import opened Keys
  import opened Objects
  import opened Downloader

  datatype Move = Move(i: nat, step: Step)

  ghost function Tokens(ss: seq<State>): nat {
    if ss == [] then 0 else ss[0].tokens + Tokens(ss[1..])
  }

  /** Tokens that will not come back: of blocks buffered at a close, or buffered with nobody to read them. */
  ghost function Lost(s: State): nat {
    s.leaked + if s.err then |s.buffers| else 0
  }

  ghost function AllLost(ss: seq<State>): nat {
    if ss == [] then 0 else Lost(ss[0]) + AllLost(ss[1..])
  }

  /** All downloads share one semaphore of capacity `cap`, of which `rest` is held elsewhere. */
  ghost predicate Shared(ds: seq<Download>, ss: seq<State>, cap: nat, rest: nat) {
    && |ds| == |ss| && Tokens(ss) + rest <= cap
    && forall i :: 0 <= i < |ss| ==>
         Usable(ds[i]) && ds[i].cap == cap && ss[i].others == Tokens(ss) - ss[i].tokens + rest
  }

  ghost predicate JointInv(ds: seq<Download>, ss: seq<State>, cap: nat, rest: nat) {
    Shared(ds, ss, cap, rest) && forall i :: 0 <= i < |ss| ==> Inv(ds[i], ss[i])
  }

  ghost predicate CanMove(ds: seq<Download>, ss: seq<State>, m: Move) {
    m.i < |ss| == |ds| && Usable(ds[m.i]) && !m.step.Others? && Enabled(ds[m.i], ss[m.i], m.step)
  }

  /** One download takes a step; the others see the semaphore change. */
  ghost function Moved(ds: seq<Download>, ss: seq<State>, rest: nat, m: Move): (r: seq<State>)
    requires CanMove(ds, ss, m)
    ensures |r| == |ss|
  {
    var own := ss[m.i := Apply(ds[m.i], ss[m.i], m.step)];
    seq(|ss|, j requires 0 <= j < |ss| =>
      if j == m.i then own[j] else ss[j].(others := Elsewhere(own, j) + rest))
  }

  ghost function Elsewhere(ss: seq<State>, j: nat): nat
    requires j < |ss|
  {
    TokensHas(ss, j);
    Tokens(ss) - ss[j].tokens
  }

  lemma {:induction false} TokensHas(ss: seq<State>, j: nat)
    requires j < |ss|
    ensures Tokens(ss) >= ss[j].tokens
  {
    if j > 0 { TokensHas(ss[1..], j - 1); }
  }

  lemma {:induction false} TokensUpdate(ss: seq<State>, i: nat, s: State)
    requires i < |ss|
    ensures Tokens(ss[i := s]) == Tokens(ss) - ss[i].tokens + s.tokens
  {
    if i == 0 {
      assert ss[i := s][1..] == ss[1..];
    } else {
      assert ss[i := s][1..] == ss[1..][i - 1 := s];
      TokensUpdate(ss[1..], i - 1, s);
    }
  }

  lemma {:induction false} SameTokens(a: seq<State>, b: seq<State>)
    requires |a| == |b| && forall j :: 0 <= j < |a| ==> a[j].tokens == b[j].tokens
    ensures Tokens(a) == Tokens(b)
  {
    if a != [] { SameTokens(a[1..], b[1..]); }
  }

  lemma OwnStep(d: Download, s: State, step: Step)
    requires Usable(d) && Inv(d, s) && Enabled(d, s, step) && !step.Others?
    ensures var t := Apply(d, s, step); Inv(d, t) && t.others == s.others && t.tokens + t.others <= d.cap
  {
    StepInv(d, s, step);
    hide BuffersRight, FlightsRight, NothingDropped, ReturnedRight, ReaderRight, NoLostWakeup;
  }

  /** Every step of every download keeps the invariants of all. */
  lemma MoveKeeps(ds: seq<Download>, ss: seq<State>, cap: nat, rest: nat, m: Move)
    requires JointInv(ds, ss, cap, rest) && CanMove(ds, ss, m)
    ensures JointInv(ds, Moved(ds, ss, rest, m), cap, rest)
  {
    hide Apply, Enabled, Inv;
    var t := Apply(ds[m.i], ss[m.i], m.step);
    var own, ss' := ss[m.i := t], Moved(ds, ss, rest, m);
    OwnStep(ds[m.i], ss[m.i], m.step);
    TokensUpdate(ss, m.i, t);
    SameTokens(own, ss');
    forall j | 0 <= j < |ss'| ensures Inv(ds[j], ss'[j]) {
      if j != m.i { SeesChange(ds[j], ss[j], ss'[j].others); }
    }
  }

  lemma SeesChange(d: Download, s: State, others: nat)
    requires Usable(d) && Inv(d, s) && s.tokens + others <= d.cap
    ensures Inv(d, s.(others := others))
  {
    StepInv(d, s, Others(others));
  }

  // ------------------------------------------------------------------ nobody blocks the others

  /** The steps that get a download on: not its close, and no read of one that has failed. */
  predicate GetsOn(s: State, step: Step) {
    !step.Close? && !step.Others? && (step.StartRead? ==> !s.err)
  }

  /** With nothing in flight and no reader at work, a download holds only what is lost. */
  lemma HoldsOnlyLost(d: Download, s: State)
    requires Usable(d) && Inv(d, s) && s.flight == map[]
    requires s.reader.Idle? || s.reader.Asleep?
    requires s.err ==> s.reader.Idle?
    requires !s.err && s.reader.Idle? ==> s.off >= d.fsize
    ensures s.tokens == Lost(s)
  {
    assert Holding(s.flight) == {};
    if !s.err {
      if s.reader.Asleep? {
        AsleepHoldsNothing(d, s);
      } else {
        assert s.buffers == map[];
      }
    }
  }

  lemma {:induction false} HoldOnlyLost(ss: seq<State>)
    requires forall i :: 0 <= i < |ss| ==> ss[i].tokens == Lost(ss[i])
    ensures Tokens(ss) == AllLost(ss)
  {
    hide Lost;
    if ss != [] { HoldOnlyLost(ss[1..]); }
  }

  lemma FlightGoesOn(d: Download, s: State, o: nat) returns (step: Step)
    requires Usable(d) && Inv(d, s) && o in s.flight
    ensures Enabled(d, s, step) && GetsOn(s, step)
  {
    step := match s.flight[o]
      case Checking => CheckErr(o)
      case Fetching => Fail(o)
      case Releasing => Release(o)
      case Signalling => Signal(o);
    if s.flight[o].Fetching? && InFile(d, o) && End(d, o) <= |d.src| { step := Save(o); }
    if s.flight[o].Releasing? { HasToken(d, s, o); }
  }

  lemma ReaderGoesOn(d: Download, s: State) returns (step: Step)
    requires Usable(d) && Inv(d, s)
    requires s.reader.Looking? || s.reader.Finishing? || s.reader.Owing? || (s.err && s.reader.Asleep?)
          || (s.reader.Idle? && !s.err && s.off < d.fsize)
    ensures Enabled(d, s, step) && GetsOn(s, step)
  {
    if s.err && s.reader.Asleep? {
      step := ReadGoesOn(d, s);
    } else {
      step := match s.reader
        case Idle => StartRead(1)
        case Looking(_) => Look
        case Finishing(_) => Drop
        case _ => Repay;
    }
  }

  /** Nothing is left to do for a download but to wait for the semaphore, or nothing at all. */
  ghost predicate Waits(d: Download, s: State) {
    && s.flight == map[]
    && ((s.reader.Idle? && (s.err || s.off >= d.fsize)) || (s.reader.Asleep? && !s.err))
  }

  lemma GoesOnOrWaits(d: Download, s: State) returns (step: Option<Step>)
    requires Usable(d) && Inv(d, s)
    ensures step.Some? ==> Enabled(d, s, step.value) && GetsOn(s, step.value)
    ensures step.None? ==> Waits(d, s)
  {
    var x: Step;
    if o :| o in s.flight {
      x := FlightGoesOn(d, s, o);
      step := Some(x);
    } else if Waits(d, s) {
      step := None;
    } else {
      assert s.flight == map[];
      x := ReaderGoesOn(d, s);
      step := Some(x);
    }
  }

  /** However many downloads share the semaphore, as long as fewer tokens are lost or held elsewhere than there
  are, one of them can go on while any has something to read and has not failed. */
  lemma NeverBlocked(ds: seq<Download>, ss: seq<State>, cap: nat, rest: nat, open: nat) returns (m: Move)
    requires JointInv(ds, ss, cap, rest) && AllLost(ss) + rest < cap
    requires open < |ss| && !ss[open].err && ss[open].off < ds[open].fsize
    ensures CanMove(ds, ss, m) && GetsOn(ss[m.i], m.step)
  {
    hide Inv, Enabled, Lost, Waits;
    var i := 0;
    while i < |ss|
      invariant i <= |ss| && forall j :: 0 <= j < i ==> Waits(ds[j], ss[j])
    {
      var step := GoesOnOrWaits(ds[i], ss[i]);
      if step.Some? {
        return Move(i, step.value);
      }
      i := i + 1;
    }
    forall j | 0 <= j < |ss| ensures ss[j].tokens == Lost(ss[j]) { WaitingHoldsOnlyLost(ds[j], ss[j]); }
    HoldOnlyLost(ss);
    WaitingCanSpawn(ds[open], ss[open]);
    m := Move(open, Spawn);
  }

  lemma WaitingHoldsOnlyLost(d: Download, s: State)
    requires Usable(d) && Inv(d, s) && Waits(d, s)
    ensures s.tokens == Lost(s)
  {
    HoldsOnlyLost(d, s);
  }

  lemma WaitingCanSpawn(d: Download, s: State)
    requires Usable(d) && Inv(d, s) && Waits(d, s) && !s.err && s.off < d.fsize && s.tokens + s.others < d.cap
    ensures Enabled(d, s, Spawn)
  {
    AsleepHoldsNothing(d, s);
  }

  // ------------------------------------------------------------------ all of them finish

  ghost predicate Sound(ds: seq<Download>, ss: seq<State>) {
    |ds| == |ss| && forall i :: 0 <= i < |ss| ==> !ss[i].err && ds[i].fsize <= |ds[i].src|
  }

  ghost function AllWork(ds: seq<Download>, ss: seq<State>): int
    requires |ds| == |ss| && forall i :: 0 <= i < |ds| ==> Usable(ds[i])
  {
    if ss == [] then 0 else Work(ds[0], ss[0]) + AllWork(ds[1..], ss[1..])
  }

  ghost predicate Follow(ds: seq<Download>, ss: seq<State>, rest: nat, moves: seq<Move>)
    decreases |moves|
  {
    moves != [] ==>
      && CanMove(ds, ss, moves[0]) && Undisturbed(moves[0].step)
      && Follow(ds, Moved(ds, ss, rest, moves[0]), rest, moves[1..])
  }

  ghost function Reached(ds: seq<Download>, ss: seq<State>, rest: nat, moves: seq<Move>): seq<State>
    requires Follow(ds, ss, rest, moves)
    decreases |moves|
  {
    if moves == [] then ss else Reached(ds, Moved(ds, ss, rest, moves[0]), rest, moves[1..])
  }

  ghost predicate AllOver(ds: seq<Download>, ss: seq<State>) {
    forall m :: CanMove(ds, ss, m) ==> !Undisturbed(m.step)
  }

  lemma {:induction false} LessWork(ds: seq<Download>, ss: seq<State>, ss': seq<State>, i: nat)
    requires |ds| == |ss| == |ss'| && i < |ss| && forall j :: 0 <= j < |ds| ==> Usable(ds[j])
    requires forall j :: 0 <= j < |ss| && j != i ==> Work(ds[j], ss'[j]) == Work(ds[j], ss[j])
    requires Work(ds[i], ss'[i]) < Work(ds[i], ss[i])
    ensures AllWork(ds, ss') < AllWork(ds, ss)
  {
    hide Work;
    if i == 0 {
      SameWork(ds[1..], ss[1..], ss'[1..]);
    } else {
      LessWork(ds[1..], ss[1..], ss'[1..], i - 1);
    }
  }

  lemma {:induction false} SameWork(ds: seq<Download>, ss: seq<State>, ss': seq<State>)
    requires |ds| == |ss| == |ss'| && forall j :: 0 <= j < |ds| ==> Usable(ds[j])
    requires forall j :: 0 <= j < |ss| ==> Work(ds[j], ss'[j]) == Work(ds[j], ss[j])
    ensures AllWork(ds, ss') == AllWork(ds, ss)
  {
    hide Work;
    if ss != [] { SameWork(ds[1..], ss[1..], ss'[1..]); }
  }

  lemma WorkIsOwn(d: Download, s: State, others: nat)
    requires Usable(d)
    ensures Work(d, s.(others := others)) == Work(d, s)
  {
    hide FlightWork, Unspawned;
  }

  lemma MoveShrinks(ds: seq<Download>, ss: seq<State>, cap: nat, rest: nat, m: Move)
    requires JointInv(ds, ss, cap, rest) && Sound(ds, ss) && CanMove(ds, ss, m) && Undisturbed(m.step)
    ensures Sound(ds, Moved(ds, ss, rest, m)) && AllWork(ds, Moved(ds, ss, rest, m)) < AllWork(ds, ss)
  {
    hide Apply, Enabled, Inv, Work, Elsewhere;
    WorkShrinks(ds[m.i], ss[m.i], m.step);
    var ss' := Moved(ds, ss, rest, m);
    forall j | 0 <= j < |ss| && j != m.i ensures Work(ds[j], ss'[j]) == Work(ds[j], ss[j]) {
      WorkIsOwn(ds[j], ss[j], ss'[j].others);
    }
    LessWork(ds, ss, ss', m.i);
  }

  lemma {:induction false} WorkNotNegative(ds: seq<Download>, ss: seq<State>)
    requires |ds| == |ss| && forall i :: 0 <= i < |ds| ==> Usable(ds[i]) && Inv(ds[i], ss[i])
    ensures AllWork(ds, ss) >= 0
  {
    if ss != [] {
      OwnWorkNotNegative(ds[0], ss[0]);
      hide Work, Inv;
      WorkNotNegative(ds[1..], ss[1..]);
    }
  }

  lemma OwnWorkNotNegative(d: Download, s: State)
    requires Usable(d) && Inv(d, s)
    ensures Work(d, s) >= 0
  {
    UnspawnedNotNegative(d, s.next);
    hide BuffersRight, FlightsRight, NothingDropped, NoLostWakeup, TokensRight, InPhase, Unspawned;
  }

  lemma {:induction false} UnspawnedNotNegative(d: Download, i: nat)
    requires Usable(d)
    ensures Unspawned(d, i) >= 0
    decreases if InFile(d, i) then d.fsize - Off(d, i) else 0
  {
    if InFile(d, i) {
      assert Off(d, i + 1) == Off(d, i) + d.block;
      UnspawnedNotNegative(d, i + 1);
    }
  }

  lemma {:induction false} NothingLost(ds: seq<Download>, ss: seq<State>)
    requires |ds| == |ss| && forall i :: 0 <= i < |ss| ==> Usable(ds[i]) && Inv(ds[i], ss[i]) && !ss[i].err
    ensures AllLost(ss) == 0
  {
    if ss != [] {
      NothingLeaked(ds[0], ss[0]);
      hide Inv, Lost;
      NothingLost(ds[1..], ss[1..]);
    }
  }

  lemma NothingLeaked(d: Download, s: State)
    requires Usable(d) && Inv(d, s) && !s.err
    ensures Lost(s) == 0
  {
  }

  lemma SoundGetsOn(ds: seq<Download>, ss: seq<State>, cap: nat, rest: nat, i: nat)
    requires JointInv(ds, ss, cap, rest) && Sound(ds, ss) && rest < cap && AllOver(ds, ss) && i < |ss|
    ensures ss[i].off >= ds[i].fsize
  {
    NothingLost(ds, ss);
    if ss[i].off < ds[i].fsize {
      var m := NeverBlocked(ds, ss, cap, rest, i);
      if m.step.Fail? {
        SavesToo(ds[m.i], ss[m.i], m.step.o);
        assert CanMove(ds, ss, Move(m.i, Save(m.step.o)));
      }
    }
  }

  lemma SavesToo(d: Download, s: State, o: nat)
    requires Usable(d) && Inv(d, s) && d.fsize <= |d.src| && Enabled(d, s, Fail(o))
    ensures Enabled(d, s, Save(o))
  {
  }

  /** Without errors, and with a token to spare for them, any number of downloads on one semaphore all finish:
  whatever the order of their steps, there are only so many, and when none is left every object has been
  returned. */
  lemma {:induction false} AllFinish(ds: seq<Download>, ss: seq<State>, cap: nat, rest: nat, moves: seq<Move>)
    requires JointInv(ds, ss, cap, rest) && Sound(ds, ss) && rest < cap && Follow(ds, ss, rest, moves)
    ensures |moves| <= AllWork(ds, ss)
    ensures var ss' := Reached(ds, ss, rest, moves);
      AllOver(ds, ss') ==> |ss'| == |ds| && forall i :: 0 <= i < |ds| ==> ss'[i].returned == ds[i].src[..ds[i].fsize]
    decreases |moves|
  {
    hide Work, Inv, Apply, Enabled;
    if moves == [] {
      WorkNotNegative(ds, ss);
      if AllOver(ds, ss) {
        forall i | 0 <= i < |ds| ensures ss[i].returned == ds[i].src[..ds[i].fsize] {
          SoundGetsOn(ds, ss, cap, rest, i);
          AllReturned(ds[i], ss[i]);
        }
      }
    } else {
      MoveKeeps(ds, ss, cap, rest, moves[0]);
      MoveShrinks(ds, ss, cap, rest, moves[0]);
      hide Moved, JointInv;
      AllFinish(ds, Moved(ds, ss, rest, moves[0]), cap, rest, moves[1..]);
    }
  }

  lemma AllReturned(d: Download, s: State)
    requires Usable(d) && Inv(d, s) && s.off >= d.fsize && d.fsize <= |d.src|
    ensures s.returned == d.src[..d.fsize]
  {
  }

  /** Downloads about to start, with nothing held but elsewhere. */
  lemma StartJoint(ds: seq<Download>, ss: seq<State>, cap: nat, rest: nat)
    requires |ds| == |ss| && rest <= cap
    requires forall i :: 0 <= i < |ds| ==>
      Usable(ds[i]) && ds[i].cap == cap && Start(ds[i], ss[i]) && ss[i].others == rest
    ensures JointInv(ds, ss, cap, rest)
  {
    NoTokens(ss);
    forall i | 0 <= i < |ss| ensures Inv(ds[i], ss[i]) { StartInv(ds[i], ss[i]); }
    hide Inv;
  }

  lemma {:induction false} NoTokens(ss: seq<State>)
    requires forall i :: 0 <= i < |ss| ==> ss[i].tokens == 0
    ensures Tokens(ss) == 0
  {
    if ss != [] { NoTokens(ss[1..]); }
  }

  /** Nothing has been fetched, and nothing is held. */
  ghost predicate Starved(s: State) {
    && s.flight == map[] && s.buffers == map[] && s.tokens == 0 && s.returned == [] && s.off == 0 && !s.err
    && (s.reader.Idle? || s.reader.Looking? || s.reader.Asleep?)
  }

  lemma StarvedStays(d: Download, s: State, step: Step)
    requires Usable(d) && Starved(s) && s.others == d.cap && Enabled(d, s, step) && Undisturbed(step)
    ensures Starved(Apply(d, s, step)) && Apply(d, s, step).tokens == 0
  {
  }

  /** The token to spare is needed: if all are held elsewhere, nothing is ever returned. */
  lemma {:induction false} AllStarve(ds: seq<Download>, ss: seq<State>, cap: nat, moves: seq<Move>)
    requires JointInv(ds, ss, cap, cap) && (forall i :: 0 <= i < |ss| ==> Starved(ss[i]))
    requires Follow(ds, ss, cap, moves)
    ensures var ss' := Reached(ds, ss, cap, moves);
      |ss'| == |ss| && forall i :: 0 <= i < |ss'| ==> ss'[i].returned == []
    decreases |moves|
  {
    hide Inv, Apply, Enabled;
    if moves != [] {
      var m := moves[0];
      NoTokens(ss);
      StarvedStays(ds[m.i], ss[m.i], m.step);
      MoveKeeps(ds, ss, cap, cap, m);
      var ss' := Moved(ds, ss, cap, m);
      forall i | 0 <= i < |ss'| ensures Starved(ss'[i]) {
        assert i != m.i ==> ss'[i] == ss[i].(others := ss'[i].others);
      }
      hide Moved, JointInv, Starved;
      AllStarve(ds, ss', cap, moves[1..]);
    }
  }
}

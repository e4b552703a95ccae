/** The hand-shake between the walk and its listing threads: thread `c` lists entries `c`, `c + 10`, …
ahead of the walk, one at a time, and waits until its listing has been taken. */
module Handshake {
  import opened Objects

  const CONCURRENT: nat := 10

  /** The entries of one level: those before the end, and which of them have to be listed. */
  datatype Level = Level(dirs: seq<bool>)

  predicate Work(l: Level, i: nat) {
    i < |l.dirs| && l.dirs[i]
  }

  datatype Phase = Picking | Listed | Waiting | Stopped

  /** A thread: the entry it is at, and the record it shares with the walk. `entries` names the entry
  whose children the record holds. */
  datatype Thread = Thread(at: nat, phase: Phase, ready: bool, entries: Option<nat>)

  /** The walk is at entry `pos`; `taken` maps each entry to the entry whose children it was given. */
  datatype State = State(threads: seq<Thread>, pos: nat, taken: map<nat, nat>)

  datatype Step =
    | Pick(c: nat)
    | Publish(c: nat)
    | Resume(c: nat)
    | Pass
    | Take

  predicate Start(s: State) {
    && |s.threads| == CONCURRENT && s.pos == 0 && s.taken == map[]
    && forall c :: 0 <= c < CONCURRENT ==> s.threads[c] == Thread(c, Picking, false, None)
  }

  predicate Enabled(l: Level, s: State, step: Step) {
    |s.threads| == CONCURRENT &&
    match step
    case Pick(c) => c < CONCURRENT && s.threads[c].phase == Picking
    case Publish(c) => c < CONCURRENT && s.threads[c].phase == Listed
    case Resume(c) => c < CONCURRENT && s.threads[c].phase == Waiting && !s.threads[c].ready
    case Pass => s.pos < |l.dirs| && !Work(l, s.pos)
    case Take => Work(l, s.pos) && s.threads[s.pos % CONCURRENT].ready
  }

  function Apply(l: Level, s: State, step: Step): (s': State)
    requires Enabled(l, s, step)
    ensures |s'.threads| == CONCURRENT
  {
    match step
    case Pick(c) =>
      var t := s.threads[c];
      var t' :=
        if t.at >= |l.dirs| then t.(phase := Stopped)
        else if !Work(l, t.at) then t.(at := t.at + CONCURRENT)
        else t.(phase := Listed, entries := Some(t.at));
      s.(threads := s.threads[c := t'])
    case Publish(c) => s.(threads := s.threads[c := s.threads[c].(phase := Waiting, ready := true)])
    case Resume(c) =>
      s.(threads := s.threads[c := s.threads[c].(phase := Picking, at := s.threads[c].at + CONCURRENT)])
    case Pass => s.(pos := s.pos + 1)
    case Take =>
      var c := s.pos % CONCURRENT;
      var t := s.threads[c];
      var given := if t.entries.Some? then t.entries.value else |l.dirs|;
      s.(threads := s.threads[c := t.(ready := false, entries := None)], pos := s.pos + 1,
         taken := s.taken[s.pos := given])
  }

  // ------------------------------------------------------------------ the invariant

  predicate Ahead(t: Thread) {
    t.phase == Listed || (t.phase == Waiting && t.ready)
  }

  /** A thread works on its own entries; it has left none behind that the walk has not taken, the walk
  none that it has not listed, and a listing it holds is of the entry it is at, which the walk has not
  passed. */
  ghost predicate ThreadRight(l: Level, s: State, c: nat)
    requires c < |s.threads|
  {
    var t := s.threads[c];
    && t.at % CONCURRENT == c
    && (forall j: nat :: j < t.at && j % CONCURRENT == c && Work(l, j) ==> j < s.pos)
    && (forall j: nat :: j < s.pos && j % CONCURRENT == c && Work(l, j) ==>
          j < t.at || (j == t.at && t.phase == Waiting && !t.ready))
    && (t.ready ==> t.phase == Waiting)
    && (Ahead(t) ==> t.entries == Some(t.at) && Work(l, t.at) && t.at >= s.pos)
    && (t.phase == Waiting && !t.ready ==> t.at < s.pos)
    && (t.phase == Stopped ==> t.at >= |l.dirs|)
  }

  ghost predicate Inv(l: Level, s: State) {
    && |s.threads| == CONCURRENT && s.pos <= |l.dirs|
    && (forall c: nat :: c < CONCURRENT ==> ThreadRight(l, s, c))
    && (forall i: nat :: i in s.taken <==> i < s.pos && Work(l, i))
    && (forall i: nat :: i in s.taken ==> s.taken[i] == i)
  }

  lemma StartInv(l: Level, s: State)
    requires Start(s)
    ensures Inv(l, s)
  {
  }

  /** When the walk finds a record ready, it is that of the entry the walk is at. */
  lemma ReadyIsOwn(l: Level, s: State)
    requires Inv(l, s) && Work(l, s.pos) && s.threads[s.pos % CONCURRENT].ready
    ensures s.threads[s.pos % CONCURRENT].entries == Some(s.pos) && s.threads[s.pos % CONCURRENT].at == s.pos
  {
    assert ThreadRight(l, s, s.pos % CONCURRENT);
  }

  lemma OwnThread(l: Level, s: State, step: Step, c: nat)
    requires Inv(l, s) && Enabled(l, s, step) && c < CONCURRENT
    requires match step case Pass => false case Take => s.pos % CONCURRENT == c case _ => step.c == c
    ensures ThreadRight(l, Apply(l, s, step), c)
  {
    assert ThreadRight(l, s, c);
    if step.Take? {
      ReadyIsOwn(l, s);
    } else if !step.Publish? {
      NextOwn(s.threads[c].at);
      var s' := Apply(l, s, step);
      forall j: nat | j < s'.threads[c].at && j % CONCURRENT == c && Work(l, j) ensures j < s.pos {
        if j >= s.threads[c].at { Between(s.threads[c].at, j); }
      }
    }
  }

  lemma NextOwn(i: nat)
    ensures (i + CONCURRENT) % CONCURRENT == i % CONCURRENT
  {
  }

  lemma Between(i: nat, j: nat)
    requires i <= j < i + CONCURRENT && i % CONCURRENT == j % CONCURRENT
    ensures i == j
  {
  }

  lemma OtherThread(l: Level, s: State, step: Step, c: nat)
    requires Inv(l, s) && Enabled(l, s, step) && c < CONCURRENT
    requires match step case Pass => true case Take => s.pos % CONCURRENT != c case _ => step.c != c
    ensures ThreadRight(l, Apply(l, s, step), c)
  {
    assert ThreadRight(l, s, c);
  }

  lemma StepInv(l: Level, s: State, step: Step)
    requires Inv(l, s) && Enabled(l, s, step)
    ensures Inv(l, Apply(l, s, step))
  {
    var s' := Apply(l, s, step);
    if step.Take? { ReadyIsOwn(l, s); }
    forall c: nat | c < CONCURRENT ensures ThreadRight(l, s', c) {
      if match step case Pass => false case Take => s.pos % CONCURRENT == c case _ => step.c == c {
        OwnThread(l, s, step, c);
      } else {
        OtherThread(l, s, step, c);
      }
    }
    hide ThreadRight;
  }

  // ------------------------------------------------------------------ whole runs

  predicate Leads(l: Level, s: State, step: Step, s': State) {
    Enabled(l, s, step) && s' == Apply(l, s, step)
  }

  ghost predicate IsRun(l: Level, run: seq<State>, steps: seq<Step>) {
    && |run| == |steps| + 1 && Start(run[0])
    && forall i, j :: 0 <= i && j == i + 1 < |run| ==> Leads(l, run[i], steps[i], run[j])
  }

  lemma {:induction false} RunInv(l: Level, run: seq<State>, steps: seq<Step>)
    requires IsRun(l, run, steps)
    ensures Inv(l, run[|steps|])
    decreases |steps|
  {
    if steps == [] {
      StartInv(l, run[0]);
    } else {
      var n := |steps| - 1;
      RunInv(l, run[..n + 1], steps[..n]);
      assert Leads(l, run[n], steps[n], run[n + 1]);
      StepInv(l, run[n], steps[n]);
    }
  }

  /** In every interleaving each directory the walk has passed was given its own children, and no other
  entry was given any. */
  lemma ChildrenAreOwn(l: Level, run: seq<State>, steps: seq<Step>)
    requires IsRun(l, run, steps)
    ensures var s := run[|steps|];
      forall i: nat :: (i in s.taken <==> i < s.pos && Work(l, i)) && (i in s.taken ==> s.taken[i] == i)
  {
    RunInv(l, run, steps);
  }

  /** Until the walk is at the end, it or the thread it waits for can go on. */
  lemma NeverStuck(l: Level, s: State) returns (step: Step)
    requires Inv(l, s) && s.pos < |l.dirs|
    ensures Enabled(l, s, step)
  {
    var c := s.pos % CONCURRENT;
    assert ThreadRight(l, s, c);
    if !Work(l, s.pos) {
      step := Pass;
    } else if s.threads[c].ready {
      step := Take;
    } else {
      step := if s.threads[c].phase == Picking then Pick(c)
              else if s.threads[c].phase == Listed then Publish(c) else Resume(c);
    }
  }

  // ------------------------------------------------------------------ an end to it

  function ThreadLeft(l: Level, t: Thread): int {
    var ahead := if t.at < |l.dirs| then |l.dirs| - t.at else 0;
    match t.phase
    case Picking => 4 * ahead + 1
    case Listed => 4 * ahead
    case Waiting => 4 * ahead - 1
    case Stopped => 0
  }

  function ThreadsLeft(l: Level, ts: seq<Thread>): int {
    if ts == [] then 0 else ThreadsLeft(l, ts[..|ts| - 1]) + ThreadLeft(l, ts[|ts| - 1])
  }

  /** How much is left to do for the threads and the walk. */
  function Left(l: Level, s: State): int {
    ThreadsLeft(l, s.threads) + |l.dirs| - s.pos
  }

  lemma {:induction false} ThreadsLeftUpdate(l: Level, ts: seq<Thread>, c: nat, t: Thread)
    requires c < |ts|
    ensures ThreadsLeft(l, ts[c := t]) == ThreadsLeft(l, ts) - ThreadLeft(l, ts[c]) + ThreadLeft(l, t)
    decreases |ts|
  {
    hide ThreadLeft;
    var n := |ts| - 1;
    if c == n {
      assert ts[c := t][..n] == ts[..n];
    } else {
      assert ts[c := t][..n] == ts[..n][c := t];
      ThreadsLeftUpdate(l, ts[..n], c, t);
    }
  }

  lemma {:induction false} ThreadsLeftNotNegative(l: Level, ts: seq<Thread>)
    requires forall c :: 0 <= c < |ts| && ts[c].phase == Waiting ==> ts[c].at < |l.dirs|
    ensures ThreadsLeft(l, ts) >= 0
    decreases |ts|
  {
    if ts != [] {
      ThreadsLeftNotNegative(l, ts[..|ts| - 1]);
    }
  }

  /** A thread waits only at an entry of the level. */
  lemma WaitsAtEntry(l: Level, s: State, c: nat)
    requires Inv(l, s) && c < CONCURRENT && s.threads[c].phase != Picking && s.threads[c].phase != Stopped
    ensures s.threads[c].at < |l.dirs|
  {
    assert ThreadRight(l, s, c);
  }

  /** Every step leaves less to do. */
  lemma LeftShrinks(l: Level, s: State, step: Step)
    requires Inv(l, s) && Enabled(l, s, step)
    ensures Left(l, Apply(l, s, step)) < Left(l, s)
  {
    if step.Take? {
      var c := s.pos % CONCURRENT;
      ThreadsLeftUpdate(l, s.threads, c, Apply(l, s, step).threads[c]);
    } else if !step.Pass? {
      var c := step.c;
      if !step.Pick? { WaitsAtEntry(l, s, c); }
      ThreadsLeftUpdate(l, s.threads, c, Apply(l, s, step).threads[c]);
    }
  }

  lemma LeftNotNegative(l: Level, s: State)
    requires Inv(l, s)
    ensures Left(l, s) >= 0
  {
    forall c | 0 <= c < |s.threads| && s.threads[c].phase == Waiting ensures s.threads[c].at < |l.dirs| {
      WaitsAtEntry(l, s, c);
    }
    ThreadsLeftNotNegative(l, s.threads);
  }

  ghost predicate Over(l: Level, s: State) {
    forall step :: !Enabled(l, s, step)
  }

  /** Every level comes to an end: a run has only so many steps, and when none is left, the walk has passed
  all entries, each directory was given its own children, and all threads have stopped. */
  lemma {:induction false} LevelEnds(l: Level, run: seq<State>, steps: seq<Step>)
    requires IsRun(l, run, steps)
    ensures |steps| + Left(l, run[|steps|]) <= Left(l, run[0]) && Left(l, run[|steps|]) >= 0
    ensures Over(l, run[|steps|]) ==>
      && run[|steps|].pos == |l.dirs|
      && (forall i: nat :: i in run[|steps|].taken <==> Work(l, i))
      && |run[|steps|].threads| == CONCURRENT
      && (forall c :: 0 <= c < CONCURRENT ==> run[|steps|].threads[c].phase == Stopped)
    decreases |steps|
  {
    var n := |steps|;
    RunInv(l, run, steps);
    LeftNotNegative(l, run[n]);
    if n > 0 {
      LevelEnds(l, run[..n], steps[..n - 1]);
      RunInv(l, run[..n], steps[..n - 1]);
      assert Leads(l, run[n - 1], steps[n - 1], run[n]);
      LeftShrinks(l, run[n - 1], steps[n - 1]);
    }
    hide Left;
    if Over(l, run[n]) { NothingLeft(l, run[n]); }
  }

  lemma NothingLeft(l: Level, s: State)
    requires Inv(l, s) && Over(l, s)
    ensures s.pos == |l.dirs| && forall c :: 0 <= c < CONCURRENT ==> s.threads[c].phase == Stopped
  {
    if s.pos < |l.dirs| {
      var step := NeverStuck(l, s);
    }
    forall c | 0 <= c < CONCURRENT ensures s.threads[c].phase == Stopped {
      assert ThreadRight(l, s, c);
      assert !Enabled(l, s, Pick(c)) && !Enabled(l, s, Publish(c)) && !Enabled(l, s, Resume(c));
    }
  }
}

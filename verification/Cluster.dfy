/** The statistics protocol between the workers of a cluster and their manager, and the handing out of
tasks. */
module Cluster {
  import opened Keys
  import opened Objects
  import Workers = Worker

  /** The counters that are reported; `handled` is derived by the manager. */
  datatype Field = Copied | CopiedBytes | Checked | CheckedBytes | Deleted | Skipped | SkippedBytes | Failed

  type Counts = Field -> int

  function Zero(): Counts {
    (f: Field) => 0
  }

  function Plus(a: Counts, b: Counts): Counts {
    (f: Field) => a(f) + b(f)
  }

  function Minus(a: Counts, b: Counts): Counts {
    (f: Field) => a(f) - b(f)
  }

  /** Where a worker is in `sendStats`: it reads its counters one by one and takes its directories, then
  the report is on its way, then it has been applied but the reply is outstanding. Reports are written one at
  a time, whoever asks for them: the periodic goroutine or the end of the process. */
  datatype Phase =
    | Idle
    | Reading(read: Field -> Option<int>, taken: Option<seq<Key>>)
    | Posted(report: Counts, dirs: seq<Key>)
    | Applied(report: Counts, dirs: seq<Key>)

  /** Once a worker is gone, its phase tells what had become of its periodic report. */
  datatype Worker = Worker(counts: Counts, dirs: seq<Key>, phase: Phase, gone: bool)

  /** `events` and `queued` are everything counted and queued so far; `twice` and `twiceDirs` what was
  in reports that were applied and whose reply was lost. */
  datatype State = State(
    workers: seq<Worker>,
    counts: Counts, dirs: seq<Key>,
    events: Counts, queued: multiset<Key>,
    twice: Counts, twiceDirs: multiset<Key>)

  /** What a worker does, or what happens to its report. */
  datatype Act =
    | Count(f: Field, n: nat)
    | Queue(d: Key)
    | Begin
    | Read(f: Field)
    | TakeDirs
    | Post
    | Lose
    | Arrive
    | Reply
    | LoseReply
    | Exit

  datatype Step = CountHere(f: Field, n: nat) | QueueHere(d: Key) | Work(w: nat, act: Act)

  ghost predicate Start(s: State) {
    && s.dirs == [] && s.queued == multiset{} && s.twiceDirs == multiset{}
    && (forall f :: s.counts(f) == s.events(f) == s.twice(f) == 0)
    && forall w :: 0 <= w < |s.workers| ==>
         && s.workers[w].dirs == [] && s.workers[w].phase == Idle && !s.workers[w].gone
         && forall f :: s.workers[w].counts(f) == 0
  }

  function Add(c: Counts, f: Field, n: int): Counts {
    (g: Field) => if g == f then c(g) + n else c(g)
  }

  ghost predicate AllRead(counts: Field -> Option<int>) {
    forall f :: counts(f).Some?
  }

  function Values(counts: Field -> Option<int>): Counts {
    (f: Field) => if counts(f).Some? then counts(f).value else 0
  }

  /** A worker leaves as soon as it sees no directory in its list, whatever its periodic report is at; one
  that is on its way may still arrive. */
  ghost predicate Allowed(x: Worker, act: Act) {
    (x.gone ==> act.Arrive?) &&
    match act
    case Count(_, _) => true
    case Queue(_) => true
    case Begin => x.phase.Idle?
    case Read(_) => x.phase.Reading?
    case TakeDirs => x.phase.Reading? && x.phase.taken.None?
    case Post => x.phase.Reading? && x.phase.taken.Some? && AllRead(x.phase.read)
    case Lose => x.phase.Posted?
    case Arrive => x.phase.Posted?
    case Reply => x.phase.Applied?
    case LoseReply => x.phase.Applied?
    case Exit => x.dirs == []
  }

  ghost function Moved(x: Worker, act: Act): Worker
    requires Allowed(x, act)
  {
    match act
    case Count(f, n) => x.(counts := Add(x.counts, f, n))
    case Queue(d) => x.(dirs := x.dirs + [d])
    case Begin => x.(phase := Reading((f: Field) => None, None))
    case Read(f) =>
      var c := x.phase.read;
      x.(phase := Reading((g: Field) => if g == f then Some(x.counts(f)) else c(g), x.phase.taken))
    case TakeDirs => x.(phase := Reading(x.phase.read, Some(x.dirs)), dirs := [])
    case Post => x.(phase := Posted(Values(x.phase.read), x.phase.taken.value))
    case Lose => x.(phase := Idle, dirs := x.dirs + x.phase.dirs)
    case Arrive => x.(phase := Applied(x.phase.report, x.phase.dirs))
    case Reply => x.(phase := Idle, counts := Minus(x.counts, x.phase.report))
    case LoseReply => x.(phase := Idle, dirs := x.dirs + x.phase.dirs)
    case Exit => x.(gone := true)
  }

  ghost predicate Enabled(s: State, step: Step) {
    step.Work? ==> step.w < |s.workers| && Allowed(s.workers[step.w], step.act)
  }

  ghost function Apply(s: State, step: Step): State
    requires Enabled(s, step)
  {
    match step
    case CountHere(f, n) => s.(counts := Add(s.counts, f, n), events := Add(s.events, f, n))
    case QueueHere(d) => s.(dirs := s.dirs + [d], queued := s.queued + multiset{d})
    case Work(w, act) =>
      var x := s.workers[w];
      s.(workers := s.workers[w := Moved(x, act)],
         counts := if act.Arrive? then Plus(s.counts, x.phase.report) else s.counts,
         dirs := if act.Arrive? then s.dirs + x.phase.dirs else s.dirs,
         events := if act.Count? then Add(s.events, act.f, act.n) else s.events,
         queued := if act.Queue? then s.queued + multiset{act.d} else s.queued,
         twice := if act.LoseReply? then Plus(s.twice, x.phase.report) else s.twice,
         twiceDirs := if act.LoseReply? then s.twiceDirs + multiset(x.phase.dirs) else s.twiceDirs)
  }

  // ------------------------------------------------------------------ the invariant

  ghost function SumOf(ws: seq<Worker>, g: Worker -> int): int {
    if ws == [] then 0 else SumOf(ws[..|ws| - 1], g) + g(ws[|ws| - 1])
  }

  lemma {:induction false} SumUpdate(ws: seq<Worker>, w: nat, x: Worker, g: Worker -> int)
    requires w < |ws|
    ensures SumOf(ws[w := x], g) == SumOf(ws, g) - g(ws[w]) + g(x)
    decreases |ws|
  {
    var n := |ws| - 1;
    if w == n {
      assert ws[w := x][..n] == ws[..n];
    } else {
      assert ws[w := x][..n] == ws[..n][w := x];
      SumUpdate(ws[..n], w, x, g);
    }
  }

  lemma {:induction false} SumZero(ws: seq<Worker>, g: Worker -> int)
    requires forall w :: 0 <= w < |ws| ==> g(ws[w]) == 0
    ensures SumOf(ws, g) == 0
    decreases |ws|
  {
    if ws != [] {
      SumZero(ws[..|ws| - 1], g);
    }
  }

  /** What a worker still has to report: its counter, less what the manager has applied already. */
  ghost function Unreported(x: Worker, f: Field): int {
    x.counts(f) - (if x.phase.Applied? then x.phase.report(f) else 0)
  }

  ghost function UnreportedBy(f: Field): Worker -> int {
    (x: Worker) => Unreported(x, f)
  }

  /** How often a worker holds a directory, in its list or in a report that is not applied. */
  ghost function Held(x: Worker, d: Key): int {
    multiset(x.dirs)[d] +
    match x.phase
    case Reading(_, taken) => if taken.Some? then multiset(taken.value)[d] else 0
    case Posted(_, dirs) => multiset(dirs)[d]
    case _ => 0
  }

  ghost function HeldBy(d: Key): Worker -> int {
    (x: Worker) => Held(x, d)
  }

  /** No counter is below what a report of it says. */
  ghost predicate WorkerRight(x: Worker) {
    && (forall f :: x.counts(f) >= 0) && (x.gone ==> x.dirs == [])
    && match x.phase
       case Reading(read, _) => forall f :: read(f).Some? ==> 0 <= read(f).value <= x.counts(f)
       case Posted(report, _) => forall f :: 0 <= report(f) <= x.counts(f)
       case Applied(report, _) => forall f :: 0 <= report(f) <= x.counts(f)
       case _ => true
  }

  ghost predicate CountsRight(s: State, f: Field) {
    s.twice(f) >= 0 && s.counts(f) + SumOf(s.workers, UnreportedBy(f)) == s.events(f) + s.twice(f)
  }

  ghost predicate DirsRight(s: State, d: Key) {
    multiset(s.dirs)[d] + SumOf(s.workers, HeldBy(d)) == s.queued[d] + s.twiceDirs[d]
  }

  ghost predicate Inv(s: State) {
    && (forall w :: 0 <= w < |s.workers| ==> WorkerRight(s.workers[w]))
    && (forall f :: CountsRight(s, f)) && (forall d :: DirsRight(s, d))
  }

  lemma StartInv(s: State)
    requires Start(s)
    ensures Inv(s)
  {
    forall f ensures CountsRight(s, f) {
      SumZero(s.workers, UnreportedBy(f));
    }
    forall d ensures DirsRight(s, d) {
      SumZero(s.workers, HeldBy(d));
    }
  }

  lemma WorkerKept(x: Worker, act: Act)
    requires WorkerRight(x) && Allowed(x, act)
    ensures WorkerRight(Moved(x, act))
  {
  }

  /** A worker's move changes what it has to report by what it counts, less what the manager applies,
  plus what is going to be applied again. */
  lemma CountsMove(x: Worker, act: Act, f: Field)
    requires Allowed(x, act)
    ensures Unreported(Moved(x, act), f) == Unreported(x, f)
              + (if act.Count? && act.f == f then act.n else 0)
              - (if act.Arrive? then x.phase.report(f) else 0)
              + (if act.LoseReply? then x.phase.report(f) else 0)
  {
  }

  lemma DirsMove(x: Worker, act: Act, d: Key)
    requires Allowed(x, act)
    ensures Held(Moved(x, act), d) == Held(x, d)
              + (if act.Queue? && act.d == d then 1 else 0)
              - (if act.Arrive? then multiset(x.phase.dirs)[d] else 0)
              + (if act.LoseReply? then multiset(x.phase.dirs)[d] else 0)
  {
  }

  lemma ReportNotNegative(x: Worker, f: Field)
    requires WorkerRight(x) && x.phase.Applied?
    ensures x.phase.report(f) >= 0
  {
  }

  lemma ManagerMoves(s: State, w: nat, act: Act, f: Field)
    requires Enabled(s, Work(w, act))
    ensures var s', x := Apply(s, Work(w, act)), s.workers[w];
      && s'.counts(f) == s.counts(f) + (if act.Arrive? then x.phase.report(f) else 0)
      && s'.events(f) == s.events(f) + (if act.Count? && act.f == f then act.n else 0)
      && s'.twice(f) == s.twice(f) + (if act.LoseReply? then x.phase.report(f) else 0)
      && s'.workers == s.workers[w := Moved(x, act)]
  {
    hide Moved;
  }

  lemma CountsKept(s: State, step: Step, f: Field)
    requires CountsRight(s, f) && Enabled(s, step)
    requires step.Work? ==> WorkerRight(s.workers[step.w])
    ensures CountsRight(Apply(s, step), f)
  {
    hide WorkerRight, SumOf;
    if step.Work? {
      hide Unreported, Moved, Allowed, Apply;
      var x := s.workers[step.w];
      ManagerMoves(s, step.w, step.act, f);
      CountsMove(x, step.act, f);
      AnsweredTwice(x, step.act, f);
      SumUpdate(s.workers, step.w, Moved(x, step.act), UnreportedBy(f));
    }
  }

  lemma AnsweredTwice(x: Worker, act: Act, f: Field)
    requires WorkerRight(x) && Allowed(x, act)
    ensures act.LoseReply? ==> x.phase.Applied? && x.phase.report(f) >= 0
  {
  }

  lemma DirsKept(s: State, step: Step, d: Key)
    requires DirsRight(s, d) && Enabled(s, step)
    ensures DirsRight(Apply(s, step), d)
  {
    if step.Work? {
      var x := s.workers[step.w];
      DirsMove(x, step.act, d);
      SumUpdate(s.workers, step.w, Moved(x, step.act), HeldBy(d));
      hide SumOf, Held, Moved;
    }
  }

  lemma StepInv(s: State, step: Step)
    requires Inv(s) && Enabled(s, step)
    ensures Inv(Apply(s, step))
  {
    var s' := Apply(s, step);
    forall f ensures CountsRight(s', f) { CountsKept(s, step, f); }
    forall d ensures DirsRight(s', d) { DirsKept(s, step, d); }
    hide WorkerRight, Moved, CountsRight, DirsRight;
    forall w | 0 <= w < |s'.workers| ensures WorkerRight(s'.workers[w]) {
      if step.Work? && step.w == w {
        WorkerKept(s.workers[w], step.act);
      }
    }
  }

  // ------------------------------------------------------------------ whole runs

  ghost predicate Leads(s: State, s': State) {
    exists step :: Enabled(s, step) && s' == Apply(s, step)
  }

  ghost predicate IsRun(run: seq<State>) {
    && run != [] && Start(run[0])
    && forall i, j :: 0 <= i && j == i + 1 < |run| ==> Leads(run[i], run[j])
  }

  lemma {:induction false} RunInv(run: seq<State>)
    requires IsRun(run)
    ensures Inv(run[|run| - 1])
    decreases |run|
  {
    hide Inv, Start, Apply;
    if |run| == 1 {
      StartInv(run[0]);
    } else {
      var n := |run| - 2;
      RunInv(run[..n + 1]);
      assert Leads(run[n], run[n + 1]);
      var step :| Enabled(run[n], step) && run[n + 1] == Apply(run[n], step);
      StepInv(run[n], step);
    }
  }

  ghost function CountedBy(f: Field): Worker -> int {
    (x: Worker) => x.counts(f)
  }

  /** What a manager and its workers show together. */
  ghost function Total(s: State, f: Field): int {
    s.counts(f) + SumOf(s.workers, CountedBy(f))
  }

  ghost predicate NoneUnanswered(s: State, f: Field) {
    forall w :: 0 <= w < |s.workers| && s.workers[w].phase.Applied? ==> s.workers[w].phase.report(f) == 0
  }

  lemma {:induction false} CountedIsUnreported(ws: seq<Worker>, f: Field)
    requires forall w :: 0 <= w < |ws| ==> WorkerRight(ws[w])
    ensures SumOf(ws, CountedBy(f)) >= SumOf(ws, UnreportedBy(f))
    ensures SumOf(ws, CountedBy(f)) == SumOf(ws, UnreportedBy(f))
       <==> forall w :: 0 <= w < |ws| && ws[w].phase.Applied? ==> ws[w].phase.report(f) == 0
    decreases |ws|
  {
    if ws != [] {
      var init, last := ws[..|ws| - 1], ws[|ws| - 1];
      CountedIsUnreported(init, f);
      if last.phase.Applied? { ReportNotNegative(last, f); }
      assert forall w :: 0 <= w < |ws| ==> ws[w] == if w < |ws| - 1 then init[w] else last;
    }
  }

  /** In every run each counter, over the manager and all workers, shows at least everything counted, and
  exactly that if and only if no applied report with something in it has lost its reply or still waits
  for it. */
  lemma NothingUncounted(run: seq<State>, f: Field)
    requires IsRun(run)
    ensures var s := run[|run| - 1];
      && Total(s, f) >= s.events(f) && s.twice(f) >= 0
      && (Total(s, f) == s.events(f) <==> s.twice(f) == 0 && NoneUnanswered(s, f))
  {
    RunInv(run);
    var s := run[|run| - 1];
    assert CountsRight(s, f);
    hide WorkerRight, SumOf;
    CountedIsUnreported(s.workers, f);
  }

  /** Each directory is in the manager's list, in a worker's, or in a report that is not applied, as often as
  it was queued, and more often only if a reply was lost. */
  lemma NoDirectoryLost(run: seq<State>, d: Key)
    requires IsRun(run)
    ensures var s := run[|run| - 1];
      multiset(s.dirs)[d] + SumOf(s.workers, HeldBy(d)) == s.queued[d] + s.twiceDirs[d]
  {
    RunInv(run);
    assert DirsRight(run[|run| - 1], d);
  }

  // ------------------------------------------------------------------ workers that have left

  ghost predicate AllLeft(s: State) {
    forall w :: 0 <= w < |s.workers| ==> s.workers[w].gone
  }

  lemma {:induction false} SumOfNone(ws: seq<Worker>, g: Worker -> int)
    requires forall w :: 0 <= w < |ws| ==> g(ws[w]) >= 0
    ensures SumOf(ws, g) >= 0
    ensures SumOf(ws, g) == 0 <==> forall w :: 0 <= w < |ws| ==> g(ws[w]) == 0
    decreases |ws|
  {
    if ws != [] {
      var init, last := ws[..|ws| - 1], ws[|ws| - 1];
      SumOfNone(init, g);
      assert forall w :: 0 <= w < |ws| ==> ws[w] == if w < |ws| - 1 then init[w] else last;
    }
  }

  lemma UnreportedNotNegative(x: Worker, f: Field)
    requires WorkerRight(x)
    ensures Unreported(x, f) >= 0
  {
  }

  /** The report that a worker had under way when it left, if the manager has not got it. */
  ghost function TakenAlong(x: Worker): seq<Key> {
    match x.phase
    case Reading(_, taken) => if taken.Some? then taken.value else []
    case Posted(_, dirs) => dirs
    case _ => []
  }

  lemma HeldIsTaken(x: Worker, d: Key)
    requires WorkerRight(x) && x.gone
    ensures Held(x, d) == multiset(TakenAlong(x))[d]
  {
  }

  /** Once all workers have left, the manager has every directory, as often as it was queued and applied, if
  and only if none left with it in a report that was not applied. */
  lemma DirectoriesOfThoseWhoLeft(run: seq<State>, d: Key)
    requires IsRun(run) && AllLeft(run[|run| - 1])
    ensures var s := run[|run| - 1];
      && multiset(s.dirs)[d] <= s.queued[d] + s.twiceDirs[d]
      && (multiset(s.dirs)[d] == s.queued[d] + s.twiceDirs[d]
          <==> forall w :: 0 <= w < |s.workers| ==> d !in TakenAlong(s.workers[w]))
  {
    RunInv(run);
    var s := run[|run| - 1];
    assert DirsRight(s, d);
    forall w | 0 <= w < |s.workers| ensures HeldBy(d)(s.workers[w]) == multiset(TakenAlong(s.workers[w]))[d] {
      HeldIsTaken(s.workers[w], d);
    }
    hide IsRun, Inv, Held, TakenAlong, SumOf;
    SumOfNone(s.workers, HeldBy(d));
  }

  /** What of a worker's counter the manager has applied without the worker having heard of it. */
  ghost function AppliedTo(x: Worker, f: Field): int {
    if x.phase.Applied? then x.phase.report(f) else 0
  }

  /** Once all workers have left, what the manager shows, and what they took with them beyond what it had
  applied, is everything counted, and what was applied twice. So, if no reply was lost, the manager shows
  everything if and only if no worker left with a count that was not applied. */
  lemma CountsOfThoseWhoLeft(run: seq<State>, f: Field)
    requires IsRun(run) && AllLeft(run[|run| - 1])
    ensures var s := run[|run| - 1];
      && s.counts(f) + SumOf(s.workers, UnreportedBy(f)) == s.events(f) + s.twice(f)
      && s.counts(f) <= s.events(f) + s.twice(f)
      && (s.twice(f) == 0 ==>
            (s.counts(f) == s.events(f)
             <==> forall w :: 0 <= w < |s.workers| ==> s.workers[w].counts(f) == AppliedTo(s.workers[w], f)))
  {
    RunInv(run);
    var s := run[|run| - 1];
    assert CountsRight(s, f);
    forall w | 0 <= w < |s.workers| ensures UnreportedBy(f)(s.workers[w]) >= 0 {
      UnreportedNotNegative(s.workers[w], f);
    }
    hide IsRun, WorkerRight, SumOf;
    SumOfNone(s.workers, UnreportedBy(f));
  }

  lemma Extend(run: seq<State>, step: Step) returns (run': seq<State>)
    requires IsRun(run) && Enabled(run[|run| - 1], step)
    ensures IsRun(run') && run' != [] && run'[|run'| - 1] == Apply(run[|run| - 1], step)
  {
    hide Apply, Start, Enabled;
    run' := run + [Apply(run[|run| - 1], step)];
    assert Leads(run[|run| - 1], run'[|run|]);
  }

  /** One worker, with one copy counted, that is writing a report: the counters in `done` are read. */
  ghost predicate OneCopyReported(s: State, dirs: seq<Key>, done: set<Field>) {
    && |s.workers| == 1 && s.events(Copied) == 1 && s.counts(Copied) == 0 && s.twice(Copied) == 0
    && s.dirs == [] && s.queued == multiset(dirs) && s.twiceDirs == multiset{}
    && var x := s.workers[0];
       x.counts(Copied) == 1 && x.dirs == dirs && !x.gone && x.phase.Reading? && x.phase.taken.None?
       && (forall g :: g in done ==> x.phase.read(g).Some?)
       && (x.phase.read(Copied).Some? ==> x.phase.read(Copied).value == 1)
  }

  lemma ReadOne(run: seq<State>, dirs: seq<Key>, done: set<Field>, f: Field) returns (run': seq<State>)
    requires IsRun(run) && OneCopyReported(run[|run| - 1], dirs, done)
    ensures IsRun(run') && run' != [] && OneCopyReported(run'[|run'| - 1], dirs, done + {f})
  {
    hide IsRun;
    run' := Extend(run, Work(0, Read(f)));
  }

  lemma ReadEverything(run: seq<State>, dirs: seq<Key>) returns (run': seq<State>)
    requires IsRun(run) && run != [] && OneCopyReported(run[|run| - 1], dirs, {})
    ensures IsRun(run') && run' != [] && OneCopyReported(run'[|run'| - 1], dirs, {})
    ensures AllRead(run'[|run'| - 1].workers[0].phase.read)
  {
    hide IsRun, OneCopyReported;
    var done: set<Field> := {};
    run' := run;
    run' := ReadOne(run', dirs, done, Copied);
    done := done + {Copied};
    run' := ReadOne(run', dirs, done, CopiedBytes);
    done := done + {CopiedBytes};
    run' := ReadOne(run', dirs, done, Checked);
    done := done + {Checked};
    run' := ReadOne(run', dirs, done, CheckedBytes);
    done := done + {CheckedBytes};
    run' := ReadOne(run', dirs, done, Deleted);
    done := done + {Deleted};
    run' := ReadOne(run', dirs, done, Skipped);
    done := done + {Skipped};
    run' := ReadOne(run', dirs, done, SkippedBytes);
    done := done + {SkippedBytes};
    run' := ReadOne(run', dirs, done, Failed);
    done := done + {Failed};
    ReadAll(run'[|run'| - 1], dirs, done);
  }

  lemma ReadAll(s: State, dirs: seq<Key>, done: set<Field>)
    requires OneCopyReported(s, dirs, done)
    requires Copied in done && CopiedBytes in done && Checked in done && CheckedBytes in done
    requires Deleted in done && Skipped in done && SkippedBytes in done && Failed in done
    ensures OneCopyReported(s, dirs, {}) && AllRead(s.workers[0].phase.read)
  {
    forall f ensures s.workers[0].phase.read(f).Some? {
      match f
      case Copied => case CopiedBytes => case Checked => case CheckedBytes =>
      case Deleted => case Skipped => case SkippedBytes => case Failed =>
    }
  }

  /** It happens: a worker counts a copy, its last report fails, no directory is pending, so it leaves, and
  the manager never hears of the copy. */
  lemma CountsLeaveWithWorker() returns (run: seq<State>)
    ensures IsRun(run)
    ensures var s := run[|run| - 1];
      && |s.workers| == 1 && AllLeft(s) && s.twice(Copied) == 0
      && s.events(Copied) == 1 && s.counts(Copied) == 0 && s.workers[0].counts(Copied) == 1
  {
    run := CopyCounted([]);
    hide IsRun, AllRead;
    run := Extend(run, Work(0, Lose));
    run := Extend(run, Work(0, Exit));
  }

  lemma ReportBegun(dirs: seq<Key>) returns (run: seq<State>)
    requires |dirs| <= 1
    ensures IsRun(run) && OneCopyReported(run[|run| - 1], dirs, {})
  {
    run := [State([Worker(Zero(), [], Idle, false)], Zero(), [], Zero(), multiset{}, Zero(), multiset{})];
    assert IsRun(run);
    hide IsRun;
    run := Extend(run, Work(0, Count(Copied, 1)));
    if dirs != [] {
      run := Extend(run, Work(0, Queue(dirs[0])));
      assert dirs == [dirs[0]];
    }
    run := Extend(run, Work(0, Begin));
  }

  /** A worker has counted a copy and queued directories, and its report is on its way. */
  lemma CopyCounted(dirs: seq<Key>) returns (run: seq<State>)
    requires |dirs| <= 1
    ensures IsRun(run)
    ensures var s := run[|run| - 1];
      && |s.workers| == 1 && s.dirs == [] && s.queued == multiset(dirs) && s.twiceDirs == multiset{}
      && s.events(Copied) == 1 && s.counts(Copied) == 0 && s.twice(Copied) == 0
      && var x := s.workers[0];
         x.counts(Copied) == 1 && x.dirs == [] && x.phase.Posted? && !x.gone
         && x.phase.report(Copied) == 1 && x.phase.dirs == dirs
  {
    run := ReportBegun(dirs);
    run := ReadEverything(run, dirs);
    hide IsRun, AllRead;
    run := Extend(run, Work(0, TakeDirs));
    run := Extend(run, Work(0, Post));
  }

  /** It happens too: the last report fails and its directory is put back, but before the worker looks, the
  periodic goroutine has taken it into a report of its own; the worker sees none, leaves, and the directory is
  gone, though no reply was lost. */
  lemma DirectoryLeavesWithWorker(d: Key) returns (run: seq<State>)
    ensures IsRun(run)
    ensures var s := run[|run| - 1];
      AllLeft(s) && s.queued == multiset{d} && s.dirs == [] && s.twiceDirs == multiset{}
  {
    run := CopyCounted([d]);
    hide IsRun, AllRead;
    run := Extend(run, Work(0, Lose));
    run := Extend(run, Work(0, Begin));
    run := Extend(run, Work(0, TakeDirs));
    run := Extend(run, Work(0, Exit));
  }

  /** And a worker that leaves before the reply still holds what the manager shows. */
  lemma LeavesBeforeReply() returns (run: seq<State>)
    ensures IsRun(run)
    ensures var s := run[|run| - 1];
      && |s.workers| == 1 && AllLeft(s) && s.twice(Copied) == 0
      && s.events(Copied) == 1 && s.counts(Copied) == 1 && s.workers[0].counts(Copied) == 1
  {
    run := CopyCounted([]);
    hide IsRun, AllRead;
    run := Extend(run, Work(0, Arrive));
    run := Extend(run, Work(0, Exit));
  }

  // ------------------------------------------------------------------ the processes

  datatype Stat = Stat(counts: Counts, dirs: seq<Key>)

  function Outcomes(c: Counts): int {
    c(Copied) + c(Deleted) + c(Skipped) + c(Failed)
  }

  /** The manager's counters and its list of directories. Its `handled` counts its own work and what
  workers report. */
  class Manager {
    var counts: Counts
    var handled: int
    var dirs: seq<Key>

    constructor ()
      ensures counts == Zero() && handled == 0 && dirs == []
    {
      counts, handled, dirs := Zero(), 0, [];
    }

    /** A report arrives, as in the step `Arrive`; what is handled keeps pace with the outcomes shown. */
    method UpdateStats(r: Stat)
      modifies this
      ensures counts == Plus(old(counts), r.counts) && dirs == old(dirs) + r.dirs
      ensures forall f :: counts(f) == old(counts)(f) + r.counts(f)
      ensures handled - Outcomes(counts) == old(handled) - Outcomes(old(counts))
      ensures handled == old(handled) + r.counts(Copied) + r.counts(Deleted) + r.counts(Skipped) + r.counts(Failed)
    {
      counts := Plus(counts, r.counts);
      handled := handled + (r.counts(Copied) + r.counts(Deleted) + r.counts(Skipped) + r.counts(Failed));
      dirs := dirs + r.dirs;
    }

    /** A worker process with everything it has counted reported: a task is handled once for its outcome,
    once more if a deletion was asked for, and not at all yet if its directory has been put aside. */
    method Receive(w: Workers.Workplace)
      requires w.Books() == 0 && !w.o.dry
      modifies this
      ensures handled == old(handled) + w.handled + w.asked - |w.srcDelayDel| && dirs == old(dirs) + w.srcDelayDel
      ensures counts(Copied) == old(counts)(Copied) + w.copied && counts(Checked) == old(counts)(Checked) + w.checked
      ensures counts(Deleted) == old(counts)(Deleted) + w.deleted && counts(Skipped) == old(counts)(Skipped) + w.skipped
      ensures counts(Failed) == old(counts)(Failed) + w.failed
    {
      UpdateStats(Stat(Reported(w.copied, w.checked, w.deleted, w.skipped, w.failed), w.srcDelayDel));
    }

    /** The delayed deletions, of which each counts as handled, whether or not it works. */
    method DeleteDelayed(works: Key -> bool)
      modifies this
      ensures dirs == [] && handled == old(handled) + |old(dirs)|
      ensures counts(Deleted) + counts(Failed) == old(counts)(Deleted) + old(counts)(Failed) + |old(dirs)|
      ensures counts(Deleted) == old(counts)(Deleted) + |set i | 0 <= i < |old(dirs)| && works(old(dirs)[i])|
      ensures forall f :: f != Deleted && f != Failed ==> counts(f) == old(counts)(f)
    {
      ghost var done: set<int> := {};
      var i := |dirs|;
      while i > 0
        invariant 0 <= i <= |dirs| && dirs == old(dirs)
        invariant handled == old(handled) + |dirs| - i
        invariant counts(Deleted) + counts(Failed) == old(counts)(Deleted) + old(counts)(Failed) + |dirs| - i
        invariant forall f :: f != Deleted && f != Failed ==> counts(f) == old(counts)(f)
        invariant done == set j | i <= j < |dirs| && works(dirs[j])
        invariant counts(Deleted) == old(counts)(Deleted) + |done|
      {
        i := i - 1;
        handled := handled + 1;
        done := done + if works(dirs[i]) then {i} else {};
        counts := Add(counts, if works(dirs[i]) then Deleted else Failed, 1);
      }
      dirs := [];
    }
  }

  function Reported(copied: int, checked: int, deleted: int, skipped: int, failed: int): Counts {
    (f: Field) =>
      match f
      case Copied => copied
      case Checked => checked
      case Deleted => deleted
      case Skipped => skipped
      case Failed => failed
      case _ => 0
  }

  /** With the tasks done elsewhere, the manager ends up with one more handled than there were tasks for
  each deletion a worker asked for. So its exit check, which compares what was found with what was handled,
  finds lost objects only if there are more of them than such deletions. */
  method HandledElsewhere(w: Workers.Workplace, works: Key -> bool) returns (m: Manager)
    requires w.Books() == 0 && !w.o.dry
    ensures m.handled == w.handled + w.asked
  {
    m := new Manager();
    m.Receive(w);
    m.DeleteDelayed(works);
  }

  /** A worker's counters and its list of directories, and `sendStats` cut at the points between which
  other goroutines count and queue. The ghost field is the worker of the machine above. */
  class WorkerProcess {
    var counts: Counts
    var dirs: seq<Key>
    ghost var view: Worker

    ghost predicate Valid()
      reads this
    {
      WorkerRight(view) && view.counts == counts && view.dirs == dirs
    }

    constructor ()
      ensures Valid() && view == Worker(Zero(), [], Idle, false)
    {
      counts, dirs := Zero(), [];
      view := Worker(Zero(), [], Idle, false);
    }

    method Increment(f: Field, n: nat)
      requires Valid() && Allowed(view, Count(f, n))
      modifies this
      ensures Valid() && view == Moved(old(view), Count(f, n))
    {
      WorkerKept(view, Count(f, n));
      counts := Add(counts, f, n);
      view := Moved(view, Count(f, n));
    }

    method PutAside(d: Key)
      requires Valid() && Allowed(view, Queue(d))
      modifies this
      ensures Valid() && view == Moved(old(view), Queue(d))
    {
      WorkerKept(view, Queue(d));
      dirs := dirs + [d];
      view := Moved(view, Queue(d));
    }

    method ReadCounter(f: Field) returns (v: int)
      requires Valid() && Allowed(view, Read(f))
      modifies this
      ensures Valid() && view == Moved(old(view), Read(f)) && v == counts(f) && counts == old(counts)
    {
      WorkerKept(view, Read(f));
      v := counts(f);
      view := Moved(view, Read(f));
    }

    /** The list of directories is swapped for an empty one. */
    method SwapDirs() returns (taken: seq<Key>)
      requires Valid() && Allowed(view, TakeDirs)
      modifies this
      ensures Valid() && view == Moved(old(view), TakeDirs) && taken == old(dirs) && dirs == []
    {
      WorkerKept(view, TakeDirs);
      taken := dirs;
      dirs := [];
      view := Moved(view, TakeDirs);
    }

    /** The answer to a report: with it the worker gives up what it has reported, without it, applied or
    not, it takes the directories back and keeps its counts. */
    method Settle(r: Stat, ok: bool)
      requires Valid() && !view.gone && if ok then view.phase.Applied? else view.phase.Applied? || view.phase.Posted?
      requires view.phase.report == r.counts && view.phase.dirs == r.dirs
      modifies this
      ensures Valid()
      ensures view == Moved(old(view), if ok then Reply else if old(view).phase.Applied? then LoseReply else Lose)
    {
      ghost var act := if ok then Reply else if view.phase.Applied? then LoseReply else Lose;
      WorkerKept(view, act);
      if ok {
        counts := Minus(counts, r.counts);
      } else {
        dirs := dirs + r.dirs;
      }
      view := Moved(view, act);
    }
  }

  // ------------------------------------------------------------------ handing out tasks

  const MAX_BATCH: nat := 100
  const MAX_BYTES: int := 0x1900_0000

  function Bytes(objs: seq<Object>): int {
    if objs == [] then 0 else Bytes(objs[..|objs| - 1]) + objs[|objs| - 1].size
  }

  /** The sizes add up. */
  lemma {:induction false} BytesAdd(a: seq<Object>, b: seq<Object>, o: Object)
    ensures Bytes(a + b) == Bytes(a) + Bytes(b) && Bytes([o]) == o.size
    decreases |b|
  {
    assert [o][..0] == [];
    if b == [] {
      assert a + b == a;
    } else {
      var n := |b| - 1;
      assert (a + b)[..|a| + n] == a + b[..n];
      BytesAdd(a, b[..n], o);
    }
  }

  /** The manager answers a request for tasks with the next ones, as many as are at hand, until there are
  a hundred or they have 400 MiB; without any only when the queue has been closed. */
  method Fetch(tasks: seq<Object>, atHand: nat) returns (objs: seq<Object>, rest: seq<Object>)
    ensures objs + rest == tasks && |objs| <= MAX_BATCH
    ensures (objs == [] <==> tasks == []) && (|objs| <= 1 || |objs| <= atHand)
    ensures objs != [] && |objs| < 100 && |objs| < atHand && rest != [] ==> Bytes(objs) >= 400 * 1024 * 1024
    ensures forall k :: 0 < k < |objs| ==> Bytes(objs[..k]) < MAX_BYTES
    ensures rest != [] ==> |objs| == MAX_BATCH || Bytes(objs) >= MAX_BYTES || |objs| >= atHand
  {
    if tasks == [] {
      return [], [];
    }
    var n, total := 1, tasks[0].size;
    assert tasks[..1] == [tasks[0]] && tasks[..1][..0] == [];
    while n < MAX_BATCH && total < MAX_BYTES && n < atHand && n < |tasks|
      invariant 1 <= n <= |tasks| && n <= MAX_BATCH && (n == 1 || n <= atHand) && total == Bytes(tasks[..n])
      invariant forall k :: 0 < k < n ==> Bytes(tasks[..k]) < MAX_BYTES
    {
      assert tasks[..n + 1][..n] == tasks[..n];
      total := total + tasks[n].size;
      n := n + 1;
    }
    objs, rest := tasks[..n], tasks[n..];
    assert forall k :: 0 < k < n ==> objs[..k] == tasks[..k];
  }

  // ------------------------------------------------------------------ tasks under way

  /** The tasks not handed out, the answer under way to each worker, if it waits for one, the tasks that
  have reached a worker, those in answers that were lost, and the workers that have been told that there
  are no more. */
  datatype Desk = Desk(
    queue: seq<Object>, answers: seq<Option<seq<Object>>>,
    got: multiset<Object>, gone: multiset<Object>, done: set<nat>)

  /** A worker asks, and is answered with so many tasks; the answer reaches it, or is lost, and it will ask
  again. */
  datatype Turn = Ask(w: nat, n: nat) | Receive(w: nat) | LoseAnswer(w: nat)

  /** The queue is closed: an answer without tasks tells that there are none. */
  ghost predicate CanTurn(s: Desk, turn: Turn) {
    && turn.w < |s.answers|
    && match turn
       case Ask(w, n) => s.answers[w].None? && w !in s.done && n <= |s.queue| && (n == 0 ==> s.queue == [])
       case _ => s.answers[turn.w].Some?
  }

  ghost function Turned(s: Desk, turn: Turn): Desk
    requires CanTurn(s, turn)
  {
    match turn
    case Ask(w, n) => s.(queue := s.queue[n..], answers := s.answers[w := Some(s.queue[..n])])
    case Receive(w) =>
      var objs := s.answers[w].value;
      s.(answers := s.answers[w := None], got := s.got + multiset(objs),
         done := if objs == [] then s.done + {w} else s.done)
    case LoseAnswer(w) => s.(answers := s.answers[w := None], gone := s.gone + multiset(s.answers[w].value))
  }

  ghost function UnderWay(answers: seq<Option<seq<Object>>>, o: Object): nat {
    if answers == [] then 0 else Within(answers[0], o) + UnderWay(answers[1..], o)
  }

  ghost function Within(answer: Option<seq<Object>>, o: Object): nat {
    if answer.Some? then multiset(answer.value)[o] else 0
  }

  lemma {:induction false} UnderWayUpdate(answers: seq<Option<seq<Object>>>, w: nat, answer: Option<seq<Object>>,
                                          o: Object)
    requires w < |answers|
    ensures UnderWay(answers[w := answer], o) == UnderWay(answers, o) - Within(answers[w], o) + Within(answer, o)
  {
    hide Within;
    if w == 0 {
      assert answers[w := answer][1..] == answers[1..];
    } else {
      assert answers[w := answer][1..] == answers[1..][w - 1 := answer];
      UnderWayUpdate(answers[1..], w - 1, answer, o);
    }
  }

  /** Where a task may be: it is always in as many places as at first. */
  ghost function Places(s: Desk, o: Object): int {
    multiset(s.queue)[o] + UnderWay(s.answers, o) + s.got[o] + s.gone[o]
  }

  /** Nobody is told that there are no more while there are. */
  ghost predicate NobodyMisled(s: Desk) {
    && (s.done != {} ==> s.queue == [])
    && (forall w :: 0 <= w < |s.answers| && s.answers[w] == Some([]) ==> s.queue == [])
    && (forall w :: w in s.done ==> w < |s.answers| && s.answers[w].None?)
  }

  lemma TurnKeeps(s: Desk, turn: Turn, o: Object)
    requires NobodyMisled(s) && CanTurn(s, turn)
    ensures NobodyMisled(Turned(s, turn)) && Places(Turned(s, turn), o) == Places(s, o)
  {
    UnderWayUpdate(s.answers, turn.w, if turn.Ask? then Some(s.queue[..turn.n]) else None, o);
    if turn.Ask? {
      assert s.queue == s.queue[..turn.n] + s.queue[turn.n..];
      assert multiset(s.queue)[o] == multiset(s.queue[..turn.n])[o] + multiset(s.queue[turn.n..])[o];
    }
    hide UnderWay;
  }

  ghost predicate Opens(s: Desk, tasks: seq<Object>) {
    s.queue == tasks && s.got == s.gone == multiset{} && s.done == {}
    && forall w :: 0 <= w < |s.answers| ==> s.answers[w] == None
  }

  ghost predicate TurnLeads(s: Desk, s': Desk) {
    exists turn :: CanTurn(s, turn) && s' == Turned(s, turn)
  }

  ghost predicate IsDay(day: seq<Desk>, tasks: seq<Object>) {
    && day != [] && Opens(day[0], tasks)
    && forall i, j :: 0 <= i && j == i + 1 < |day| ==> TurnLeads(day[i], day[j])
  }

  lemma {:induction false} NothingUnderWay(answers: seq<Option<seq<Object>>>, o: Object)
    requires forall w :: 0 <= w < |answers| ==> answers[w] == None
    ensures UnderWay(answers, o) == 0
  {
    if answers != [] { NothingUnderWay(answers[1..], o); }
  }

  lemma {:induction false} DayKeeps(day: seq<Desk>, tasks: seq<Object>, o: Object)
    requires IsDay(day, tasks)
    ensures NobodyMisled(day[|day| - 1]) && Places(day[|day| - 1], o) == multiset(tasks)[o]
    decreases |day|
  {
    hide Turned, CanTurn;
    if |day| == 1 {
      NothingUnderWay(day[0].answers, o);
    } else {
      var n := |day| - 2;
      DayKeeps(day[..n + 1], tasks, o);
      assert TurnLeads(day[n], day[n + 1]);
      var turn :| CanTurn(day[n], turn) && day[n + 1] == Turned(day[n], turn);
      hide NobodyMisled, Places;
      TurnKeeps(day[n], turn, o);
    }
  }

  ghost predicate AllDone(s: Desk) {
    s.answers != [] && forall w :: 0 <= w < |s.answers| ==> w in s.done
  }

  /** Once every worker has been told that there are no more, each task has reached a worker or was in an
  answer that was lost; so all have reached one if and only if no answer with tasks was lost. */
  lemma TasksLostIff(day: seq<Desk>, tasks: seq<Object>)
    requires IsDay(day, tasks) && AllDone(day[|day| - 1])
    ensures var s := day[|day| - 1];
      s.got + s.gone == multiset(tasks) && (s.got == multiset(tasks) <==> s.gone == multiset{})
  {
    var s := day[|day| - 1];
    forall o ensures s.got[o] + s.gone[o] == multiset(tasks)[o] {
      DayKeeps(day, tasks, o);
      assert 0 in s.done;
      NothingUnderWay(s.answers, o);
    }
    hide IsDay;
    assert s.got + s.gone == multiset(tasks);
    assert |s.got + s.gone| == |s.got| + |s.gone|;
  }

  lemma Continue(day: seq<Desk>, tasks: seq<Object>, turn: Turn) returns (day': seq<Desk>)
    requires IsDay(day, tasks) && CanTurn(day[|day| - 1], turn)
    ensures IsDay(day', tasks) && day' != [] && day'[|day'| - 1] == Turned(day[|day| - 1], turn)
  {
    hide CanTurn, Turned, Opens;
    day' := day + [Turned(day[|day| - 1], turn)];
    assert TurnLeads(day[|day| - 1], day'[|day|]);
  }

  /** One worker, and one lost answer: the task is gone and nobody is told. */
  lemma AnswerLost(o: Object) returns (day: seq<Desk>)
    ensures IsDay(day, [o]) && AllDone(day[|day| - 1])
    ensures day[|day| - 1].got == multiset{} && day[|day| - 1].gone == multiset{o}
  {
    day := [Desk([o], [None], multiset{}, multiset{}, {})];
    assert IsDay(day, [o]);
    hide IsDay;
    assert [o][..1] == [o];
    day := Continue(day, [o], Ask(0, 1));
    day := Continue(day, [o], LoseAnswer(0));
    day := Continue(day, [o], Ask(0, 0));
    day := Continue(day, [o], Receive(0));
  }
}

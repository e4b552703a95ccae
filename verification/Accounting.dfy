/** The progress counters over every interleaving of producers, workers and delayed deletions.

A run is a sequence of atomic steps of any number of threads. `IncrHandled` is three of them, as in
the code: it swaps the shared total out, adds it to the bar, and then counts what was handled. */
module Accounting {
  import opened Keys
  import opened Objects
  import opened Planner
  import opened DecisionTable
  import PlannerRuns
  import PlanSafety

  /** Where a thread is inside `IncrHandled(n)`. */
  datatype Incr = Idle | Swapped(was: int, n: nat) | Totaled(n: nat)

  datatype Role = Producing | Working | DeletingSrc | DeletingDst

  /** A producer has objects still to count (`todo`), objects counted but not settled (`open`),
  objects that it will count and give up, or has counted and not yet given up (`toLose`, `losing`),
  and skips not flushed; a worker may have a task in hand. */
  datatype Thread = Thread(
    role: Role, todo: multiset<Event>, open: multiset<Event>, toLose: nat, losing: nat, skip: nat,
    busy: Option<Event>, incr: Incr)

  datatype State = State(
    threads: seq<Thread>,
    queue: seq<Event>,
    srcDelayDel: seq<Key>, dstDelayDel: seq<Key>,
    totalHandled: int,
    handledTotal: int, handled: int, extra: int,
    lost: nat,
    doubled: nat)

  datatype Step =
    | Count(i: nat, e: Event)
    | Settle(i: nat, e: Event)
    | CountLost(i: nat)
    | GiveUp(i: nat)
    | Flush(i: nat)
    | Fetch(i: nat)
    | Finish(i: nat, equal: bool)
    | Delete(i: nat)
    | Total(i: nat)
    | Handled(i: nat)

  // ------------------------------------------------------------------ steps

  /** A directory that a worker found equal is put aside for deletion, and still counted; a dry run compares
  nothing. */
  predicate PutsAside(c: Config, e: Event, equal: bool) {
    e.action == Checksum && equal && c.deleteSrc && e.obj.isDir && !c.dry
  }

  ghost predicate Enabled(s: State, step: Step) {
    && step.i < |s.threads|
    && var t := s.threads[step.i];
    match step
    case Count(i, e) => t.role == Producing && t.incr.Idle? && e in t.todo
    case Settle(i, e) => t.role == Producing && t.incr.Idle? && e in t.open
    case CountLost(i) => t.role == Producing && t.incr.Idle? && t.toLose > 0
    case GiveUp(i) => t.role == Producing && t.incr.Idle? && t.losing > 0
    case Flush(i) => t.role == Producing && t.incr.Idle?
    case Fetch(i) => t.role == Working && t.incr.Idle? && t.busy.None? && s.queue != []
    case Finish(i, equal) => t.role == Working && t.incr.Idle? && t.busy.Some?
    case Delete(i) =>
      && t.incr.Idle?
      && ((t.role == DeletingSrc && s.srcDelayDel != []) || (t.role == DeletingDst && s.dstDelayDel != []))
    case Total(i) => t.incr.Swapped?
    case Handled(i) => t.incr.Totaled?
  }

  ghost function Settled(s: State, e: Event): State {
    match e.action
    case Skip => s
    case KeepExtra => s.(extra := s.extra + 1)
    case DeleteSrc =>
      if e.obj.isDir then s.(srcDelayDel := s.srcDelayDel + [e.obj.key]) else s.(queue := s.queue + [e])
    case DeleteDst =>
      if e.obj.isDir then s.(dstDelayDel := s.dstDelayDel + [e.obj.key]) else s.(queue := s.queue + [e])
    case _ => s.(queue := s.queue + [e])
  }

  /** What is settled goes where the planner puts it. */
  lemma SettledAsPlanned(s: State, e: Event)
    requires e.action != Action.Unfinished
    ensures var r := Settled(s, e);
      && (r.queue == s.queue + if TasksOf([e]) == [] then [] else [e])
      && r.srcDelayDel == s.srcDelayDel + DelayedOf([e], DeleteSrc)
      && r.dstDelayDel == s.dstDelayDel + DelayedOf([e], DeleteDst)
      && r.extra == s.extra + Planner.Count([e], KeepExtra)
  {
    assert [e][..0] == [];
  }

  /** The thread behind its step; `IncrHandled` starts by swapping the shared total out. */
  ghost function Moved(s: State, step: Step): Thread
    requires Enabled(s, step)
  {
    var t := s.threads[step.i];
    match step
    case Count(_, e) => t.(todo := t.todo - multiset{e}, open := t.open + multiset{e})
    case Settle(_, e) => t.(open := t.open - multiset{e}, skip := if e.action == Skip then t.skip + 1 else t.skip)
    case CountLost(_) => t.(toLose := t.toLose - 1, losing := t.losing + 1)
    case GiveUp(_) => t.(losing := t.losing - 1)
    case Flush(_) => t.(skip := 0, incr := Swapped(s.totalHandled, t.skip))
    case Fetch(_) => t.(busy := Some(s.queue[0]))
    case Finish(_, _) => t.(busy := None, incr := Swapped(s.totalHandled, 1))
    case Delete(_) => t.(incr := Swapped(s.totalHandled, 1))
    case Total(_) => t.(incr := Totaled(t.incr.n))
    case Handled(_) => t.(incr := Idle)
  }

  /** The shared state behind a step. */
  ghost function Shared(c: Config, s: State, step: Step): State
    requires Enabled(s, step)
    ensures Shared(c, s, step).threads == s.threads
  {
    var t := s.threads[step.i];
    match step
    case Count(_, _) => s.(totalHandled := s.totalHandled + 1)
    case Settle(_, e) => Settled(s, e)
    case CountLost(_) => s.(totalHandled := s.totalHandled + 1)
    case GiveUp(_) => s.(lost := s.lost + 1)
    case Flush(_) => s.(totalHandled := 0)
    case Fetch(_) => s.(queue := s.queue[1..])
    case Finish(_, equal) =>
      if PutsAside(c, t.busy.value, equal)
      then s.(totalHandled := 0, srcDelayDel := s.srcDelayDel + [t.busy.value.obj.key], doubled := s.doubled + 1)
      else s.(totalHandled := 0)
    case Delete(_) =>
      if t.role == DeletingSrc
      then s.(totalHandled := 0, srcDelayDel := s.srcDelayDel[..|s.srcDelayDel| - 1])
      else s.(totalHandled := 0, dstDelayDel := s.dstDelayDel[..|s.dstDelayDel| - 1])
    case Total(_) => s.(handledTotal := s.handledTotal + t.incr.was)
    case Handled(_) => s.(handled := s.handled + t.incr.n)
  }

  ghost function Apply(c: Config, s: State, step: Step): State
    requires Enabled(s, step)
  {
    Shared(c, s, step).(threads := s.threads[step.i := Moved(s, step)])
  }

  // ------------------------------------------------------------------ sums over the threads

  ghost function Sum(ts: seq<Thread>, f: Thread -> int): int {
    if ts == [] then 0 else f(ts[0]) + Sum(ts[1..], f)
  }

  lemma {:induction false} SumUpdate(ts: seq<Thread>, i: nat, t: Thread, f: Thread -> int)
    requires i < |ts|
    ensures Sum(ts[i := t], f) == Sum(ts, f) - f(ts[i]) + f(t)
  {
    var us := ts[i := t];
    if i == 0 {
      assert us[1..] == ts[1..];
    } else {
      assert us[1..] == ts[1..][i - 1 := t];
      SumUpdate(ts[1..], i - 1, t, f);
    }
  }

  lemma {:induction false} SumZero(ts: seq<Thread>, f: Thread -> int)
    requires forall t :: t in ts ==> f(t) == 0
    ensures Sum(ts, f) == 0
  {
    if ts != [] {
      assert ts[0] in ts;
      SumZero(ts[1..], f);
    }
  }

  /** Objects counted by a thread that has not handed its share of the total on. */
  ghost function Carried(t: Thread): int {
    if t.incr.Swapped? then t.incr.was else 0
  }

  /** Objects that a thread has in hand: open, skipped, in work, or about to be counted as handled. */
  ghost function InHand(t: Thread): int {
    |t.open| + t.losing + t.skip + (if t.busy.Some? then 1 else 0) + (if t.incr.Idle? then 0 else t.incr.n)
  }

  ghost function Uncounted(t: Thread): int {
    |t.todo| + t.toLose
  }

  /** Objects that a thread has not given up yet but will. */
  ghost function ToGiveUp(t: Thread): int {
    t.toLose + t.losing
  }

  // ------------------------------------------------------------------ the invariant

  ghost function Found(s: State): int {
    s.totalHandled + s.handledTotal + Sum(s.threads, Carried)
  }

  /** Every object found is in exactly one place; only a directory put aside by a worker is counted
  once more than it was found. */
  ghost predicate Conserved(s: State) {
    Found(s) + s.doubled ==
      s.handled + s.extra + |s.queue| + |s.srcDelayDel| + |s.dstDelayDel| + Sum(s.threads, InHand) + s.lost
  }

  ghost predicate AllCounted(s: State, all: int) {
    Found(s) + Sum(s.threads, Uncounted) == all
  }

  ghost predicate AllLost(s: State, losses: int) {
    s.lost + Sum(s.threads, ToGiveUp) == losses
  }

  /** Checksum tasks exist only when they were asked for, and so do directories counted twice. */
  ghost predicate ChecksumsAskedFor(c: Config, s: State) {
    && (forall t, e :: t in s.threads && (e in t.todo || e in t.open || t.busy == Some(e)) ==> Asked(c, e))
    && (forall e :: e in s.queue ==> Asked(c, e))
    && (s.doubled > 0 ==> CountsTwice(c))
  }

  /** Directories that both sides have are compared. */
  predicate ComparesDirectories(c: Config) {
    c.checkAll && c.dirs && !c.ignoreExisting && !c.forceUpdate
  }

  /** What is found equal is then deleted from the source, directories later. */
  predicate CountsTwice(c: Config) {
    ComparesDirectories(c) && c.deleteSrc && !c.dry
  }

  predicate Asked(c: Config, e: Event) {
    e.action == Checksum && e.obj.isDir ==> ComparesDirectories(c)
  }

  /** No plan, limited or cut short as it may be, has any other. */
  lemma PlannedIsAsked(c: Config, limit: int, src: Listing, dst: Listing, e: Event)
    requires Ascending(src.objs) && Ascending(dst.objs) && e in Plan(c, limit, src, dst).log
    ensures Asked(c, e)
  {
    if PlannerRuns.Emits(e) {
      PlanSafety.ActionsAreVerdicts(c, limit, src, dst, e);
    }
  }

  ghost predicate Inv(c: Config, s: State, all: int, losses: int) {
    Conserved(s) && AllCounted(s, all) && AllLost(s, losses) && ChecksumsAskedFor(c, s)
  }

  /** Every step of every thread keeps the books. */
  lemma {:induction false} StepKeepsBooks(c: Config, s: State, step: Step, all: int, losses: int)
    requires Inv(c, s, all, losses) && Enabled(s, step)
    ensures Inv(c, Apply(c, s, step), all, losses)
  {
    hide Moved, Shared, Carried, InHand, Uncounted, ToGiveUp;
    var i, t := step.i, Moved(s, step);
    SumUpdate(s.threads, i, t, Carried);
    SumUpdate(s.threads, i, t, InHand);
    SumUpdate(s.threads, i, t, Uncounted);
    SumUpdate(s.threads, i, t, ToGiveUp);
    FoundBalance(c, s, step);
    PlacesBalance(c, s, step);
    LostBalance(c, s, step);
    StepKeepsAsked(c, s, step);
  }

  // What a step takes from or gives to the shared state, its thread gives or takes.

  ghost function SharedFound(s: State): int {
    s.totalHandled + s.handledTotal
  }

  ghost function SharedPlaces(s: State): int {
    s.handled + s.extra + |s.queue| + |s.srcDelayDel| + |s.dstDelayDel| + s.lost - s.doubled
  }

  lemma FoundBalance(c: Config, s: State, step: Step)
    requires Enabled(s, step)
    ensures var u, t, s' := s.threads[step.i], Moved(s, step), Shared(c, s, step);
      SharedFound(s') + Carried(t) + Uncounted(t) == SharedFound(s) + Carried(u) + Uncounted(u)
  {
  }

  lemma PlacesBalance(c: Config, s: State, step: Step)
    requires Enabled(s, step)
    ensures var u, t, s' := s.threads[step.i], Moved(s, step), Shared(c, s, step);
      SharedPlaces(s') + InHand(t) + Uncounted(t) == SharedPlaces(s) + InHand(u) + Uncounted(u)
  {
  }

  lemma LostBalance(c: Config, s: State, step: Step)
    requires Enabled(s, step)
    ensures var u, t, s' := s.threads[step.i], Moved(s, step), Shared(c, s, step);
      s'.lost + ToGiveUp(t) == s.lost + ToGiveUp(u)
  {
  }

  lemma StepKeepsAsked(c: Config, s: State, step: Step)
    requires ChecksumsAskedFor(c, s) && Enabled(s, step)
    ensures ChecksumsAskedFor(c, Apply(c, s, step))
  {
    hide Moved, Shared, Asked;
    var s' := Apply(c, s, step);
    var v := Moved(s, step);
    QueueEvents(c, s, step);
    assert s.threads[step.i] in s.threads;
    assert Shared(c, s, step).doubled > 0 ==> CountsTwice(c) by {
      if Shared(c, s, step).doubled != s.doubled {
        var e :| s.threads[step.i].busy == Some(e) && e.action == Checksum && e.obj.isDir && c.deleteSrc && !c.dry;
        AskedChecksum(c, e);
      }
    }
    forall t, e | t in s'.threads && (e in t.todo || e in t.open || t.busy == Some(e))
      ensures Asked(c, e)
    {
      if t == v {
        MovedEvents(s, step, e);
      } else {
        assert t in s.threads;
      }
    }
  }

  lemma AskedChecksum(c: Config, e: Event)
    requires Asked(c, e) && e.action == Checksum && e.obj.isDir
    ensures ComparesDirectories(c)
  {
  }

  lemma MovedEvents(s: State, step: Step, e: Event)
    requires Enabled(s, step)
    ensures var u, v := s.threads[step.i], Moved(s, step);
      e in v.todo || e in v.open || v.busy == Some(e) ==>
        e in u.todo || e in u.open || u.busy == Some(e) || e in s.queue
  {
  }

  lemma QueueEvents(c: Config, s: State, step: Step)
    requires Enabled(s, step)
    ensures forall e :: e in Shared(c, s, step).queue ==> e in s.queue || e in s.threads[step.i].open
    ensures Shared(c, s, step).doubled == s.doubled ||
      exists e :: s.threads[step.i].busy == Some(e) && e.action == Checksum && e.obj.isDir && c.deleteSrc && !c.dry
  {
  }

  // ------------------------------------------------------------------ runs

  /** The part of a planning log that leads to an outcome. */
  function Ordinary(log: seq<Event>): (r: seq<Event>)
    ensures |r| <= |log|
  {
    if log == [] then []
    else (if log[0].action == Action.Unfinished then [] else [log[0]]) + Ordinary(log[1..])
  }

  function LossesOf(log: seq<Event>): nat {
    |log| - |Ordinary(log)|
  }

  /** A thread about to start; producers work through the logs of their planning runs. */
  ghost predicate Fresh(t: Thread, log: seq<Event>) {
    && t.open == multiset{} && t.losing == 0 && t.skip == 0 && t.busy.None? && t.incr.Idle?
    && t.todo == multiset(Ordinary(log)) && t.toLose == LossesOf(log)
    && (t.role != Producing ==> log == [])
  }

  ghost predicate Start(c: Config, s: State, logs: seq<seq<Event>>) {
    && |s.threads| == |logs|
    && (forall i :: 0 <= i < |logs| ==> Fresh(s.threads[i], logs[i]))
    && (forall i, e :: 0 <= i < |logs| && e in logs[i] ==> Asked(c, e))
    && s.queue == [] && s.srcDelayDel == [] && s.dstDelayDel == []
    && s.totalHandled == s.handledTotal == s.handled == s.extra == 0
    && s.lost == s.doubled == 0
  }

  function Events(logs: seq<seq<Event>>): nat {
    if logs == [] then 0 else |logs[0]| + Events(logs[1..])
  }

  function Losses(logs: seq<seq<Event>>): nat {
    if logs == [] then 0 else LossesOf(logs[0]) + Losses(logs[1..])
  }

  lemma {:induction false} OrdinaryWithin(log: seq<Event>)
    ensures forall e :: e in Ordinary(log) ==> e in log
  {
    if log != [] { OrdinaryWithin(log[1..]); }
  }

  lemma {:induction false} StartSums(ts: seq<Thread>, logs: seq<seq<Event>>)
    requires |ts| == |logs| && forall i :: 0 <= i < |logs| ==> Fresh(ts[i], logs[i])
    ensures Sum(ts, Carried) == 0 && Sum(ts, InHand) == 0
    ensures Sum(ts, Uncounted) == Events(logs) && Sum(ts, ToGiveUp) == Losses(logs)
  {
    if logs != [] {
      assert Fresh(ts[0], logs[0]);
      OrdinaryWithin(logs[0]);
      StartSums(ts[1..], logs[1..]);
    }
  }

  lemma StartIsAsked(c: Config, s: State, logs: seq<seq<Event>>)
    requires Start(c, s, logs)
    ensures ChecksumsAskedFor(c, s)
  {
    hide Asked;
    forall t, e | t in s.threads && (e in t.todo || e in t.open || t.busy == Some(e)) ensures Asked(c, e) {
      var i :| 0 <= i < |logs| && s.threads[i] == t;
      OrdinaryWithin(logs[i]);
      assert Fresh(s.threads[i], logs[i]) && e in logs[i];
    }
  }

  lemma StartKeepsBooks(c: Config, s: State, logs: seq<seq<Event>>)
    requires Start(c, s, logs)
    ensures Inv(c, s, Events(logs), Losses(logs))
  {
    StartIsAsked(c, s, logs);
    hide ChecksumsAskedFor;
    StartSums(s.threads, logs);
  }

  ghost predicate Leads(c: Config, s: State, s': State) {
    exists step :: Enabled(s, step) && s' == Apply(c, s, step)
  }

  ghost predicate IsRun(c: Config, run: seq<State>) {
    forall i, j :: 0 <= i && j == i + 1 < |run| ==> Leads(c, run[i], run[j])
  }

  /** The books are kept at every point of every run. */
  lemma {:induction false} RunKeepsBooks(c: Config, logs: seq<seq<Event>>, run: seq<State>)
    requires run != [] && Start(c, run[0], logs) && IsRun(c, run)
    ensures Inv(c, run[|run| - 1], Events(logs), Losses(logs))
    decreases |run|
  {
    if |run| == 1 {
      StartKeepsBooks(c, run[0], logs);
    } else {
      var n := |run| - 2;
      RunKeepsBooks(c, logs, run[..n + 1]);
      assert Leads(c, run[n], run[n + 1]);
      var step :| Enabled(run[n], step) && run[n + 1] == Apply(c, run[n], step);
      StepKeepsBooks(c, run[n], step, Events(logs), Losses(logs));
    }
  }

  /** Nothing is left to do anywhere. */
  ghost predicate Finished(s: State) {
    && (forall t :: t in s.threads ==>
          |t.todo| == 0 && |t.open| == 0 && t.toLose == t.losing == t.skip == 0 && t.busy.None? && t.incr.Idle?)
    && s.queue == [] && s.srcDelayDel == [] && s.dstDelayDel == []
  }

  /** The total that the exit check reads, behind its own `IncrHandled(0)`. */
  ghost function ExitTotal(s: State): int {
    s.handledTotal + s.totalHandled
  }

  /** When a run is over, every object counted was handled, kept as extra or given up; directories
  put aside by a worker are counted as handled twice. */
  lemma FinishedRunAddsUp(c: Config, logs: seq<seq<Event>>, run: seq<State>)
    requires run != [] && Start(c, run[0], logs) && IsRun(c, run)
    requires Finished(run[|run| - 1])
    ensures var s := run[|run| - 1];
      && ExitTotal(s) == Events(logs)
      && ExitTotal(s) + s.doubled == s.handled + s.extra + s.lost
      && s.lost == Losses(logs)
      && (!CountsTwice(c) ==> s.doubled == 0)
      && (!CountsTwice(c) ==> (ExitTotal(s) > s.handled + s.extra <==> Losses(logs) > 0))
  {
    RunKeepsBooks(c, logs, run);
    var s := run[|run| - 1];
    SumZero(s.threads, Carried);
    SumZero(s.threads, InHand);
    SumZero(s.threads, Uncounted);
    SumZero(s.threads, ToGiveUp);
  }

  // ------------------------------------------------------------------ every run can be finished

  /** Only producers have objects to plan, and only workers a task. */
  ghost predicate RolesKept(s: State) {
    forall t :: t in s.threads ==> InRole(t)
  }

  ghost predicate InRole(t: Thread) {
    && (t.role != Producing ==> |t.todo| == |t.open| == t.toLose == t.losing == t.skip == 0)
    && (t.role != Working ==> t.busy.None?)
  }

  /** There is somebody for every kind of work that the producers leave. */
  ghost predicate Staffed(s: State) {
    HasRole(s, Working) && HasRole(s, DeletingSrc) && HasRole(s, DeletingDst)
  }

  ghost predicate HasRole(s: State, role: Role) {
    exists i :: 0 <= i < |s.threads| && s.threads[i].role == role
  }

  /** Every step but a flush of nothing. */
  ghost predicate Useful(s: State, step: Step) {
    Enabled(s, step) && (step.Flush? ==> s.threads[step.i].skip > 0)
  }

  /** What a thread has still to do, counted in steps from above. */
  ghost function Size(t: Thread): (n: int)
    ensures n >= 0
  {
    9 * |t.todo| + 8 * |t.open| + 4 * t.toLose + 3 * t.losing + 4 * t.skip + (if t.busy.Some? then 6 else 0)
    + match t.incr case Idle => 0 case Swapped(_, _) => 2 case Totaled(_) => 1
  }

  ghost function SharedSize(s: State): nat {
    7 * |s.queue| + 3 * |s.srcDelayDel| + 3 * |s.dstDelayDel|
  }

  ghost function Left(s: State): int {
    Sum(s.threads, Size) + SharedSize(s)
  }

  lemma {:induction false} LeftNatural(ts: seq<Thread>)
    ensures Sum(ts, Size) >= 0
  {
    if ts != [] { LeftNatural(ts[1..]); }
  }

  lemma StartKeepsRoles(c: Config, s: State, logs: seq<seq<Event>>)
    requires Start(c, s, logs)
    ensures RolesKept(s)
  {
    forall t | t in s.threads ensures InRole(t) {
      var i :| 0 <= i < |logs| && s.threads[i] == t;
      assert Fresh(s.threads[i], logs[i]);
    }
  }

  lemma ThreadShrinks(c: Config, s: State, step: Step)
    requires Useful(s, step)
    ensures Size(Moved(s, step)) + SharedSize(Shared(c, s, step)) < Size(s.threads[step.i]) + SharedSize(s)
  {
  }

  lemma MovedKeepsRole(s: State, step: Step)
    requires Enabled(s, step) && InRole(s.threads[step.i])
    ensures InRole(Moved(s, step))
  {
  }

  lemma RoleStays(c: Config, s: State, step: Step, role: Role)
    requires Enabled(s, step) && Moved(s, step).role == s.threads[step.i].role && HasRole(s, role)
    ensures HasRole(Apply(c, s, step), role)
  {
    hide Moved, Shared;
    var i :| 0 <= i < |s.threads| && s.threads[i].role == role;
    assert Apply(c, s, step).threads[i].role == role;
  }

  lemma StepKeepsRoles(c: Config, s: State, step: Step)
    requires RolesKept(s) && Enabled(s, step)
    ensures RolesKept(Apply(c, s, step))
  {
    hide Moved, Shared, InRole;
    var i, ts := step.i, Apply(c, s, step).threads;
    assert InRole(s.threads[i]) by { assert s.threads[i] in s.threads; }
    MovedKeepsRole(s, step);
    forall t | t in ts ensures InRole(t) {
      var j :| 0 <= j < |ts| && ts[j] == t;
      assert j != i ==> t == s.threads[j];
    }
  }

  lemma RoleOfMoved(s: State, step: Step)
    requires Enabled(s, step)
    ensures Moved(s, step).role == s.threads[step.i].role
  {
  }

  lemma StaffStays(c: Config, s: State, step: Step)
    requires Staffed(s) && Enabled(s, step) && Moved(s, step).role == s.threads[step.i].role
    ensures Staffed(Apply(c, s, step))
  {
    hide Moved, Shared, Enabled, HasRole;
    RoleStays(c, s, step, Working);
    RoleStays(c, s, step, DeletingSrc);
    RoleStays(c, s, step, DeletingDst);
  }

  lemma StepShrinks(c: Config, s: State, step: Step)
    requires RolesKept(s) && Useful(s, step)
    ensures RolesKept(Apply(c, s, step)) && (Staffed(s) ==> Staffed(Apply(c, s, step)))
    ensures Left(Apply(c, s, step)) < Left(s)
  {
    hide Moved, Shared, Size, Sum, Staffed, RolesKept;
    StepKeepsRoles(c, s, step);
    RoleOfMoved(s, step);
    if Staffed(s) { StaffStays(c, s, step); }
    ThreadShrinks(c, s, step);
    SumUpdate(s.threads, step.i, Moved(s, step), Size);
  }

  /** As long as anything is left to do, somebody can do it. */
  lemma NeverStuck(s: State)
    requires RolesKept(s) && Staffed(s) && !Finished(s)
    ensures exists step :: Useful(s, step)
  {
    if i :| 0 <= i < |s.threads| && Size(s.threads[i]) > 0 {
      ThreadGoesOn(s, i);
    } else {
      forall t | t in s.threads ensures Size(t) == 0 {
        var i :| 0 <= i < |s.threads| && s.threads[i] == t;
      }
      var r := if s.queue != [] then Working else if s.srcDelayDel != [] then DeletingSrc else DeletingDst;
      var i :| 0 <= i < |s.threads| && s.threads[i].role == r;
      assert s.threads[i] in s.threads;
      assert Useful(s, if s.queue != [] then Fetch(i) else Delete(i));
    }
  }

  lemma ThreadGoesOn(s: State, i: nat)
    requires RolesKept(s) && i < |s.threads| && Size(s.threads[i]) > 0
    ensures exists step :: Useful(s, step)
  {
    var t := s.threads[i];
    assert t in s.threads;
    if t.incr.Swapped? {
      assert Useful(s, Total(i));
    } else if t.incr.Totaled? {
      assert Useful(s, Handled(i));
    } else if |t.todo| > 0 {
      var e :| e in t.todo;
      assert Useful(s, Count(i, e));
    } else if |t.open| > 0 {
      var e :| e in t.open;
      assert Useful(s, Settle(i, e));
    } else if t.toLose > 0 {
      assert Useful(s, CountLost(i));
    } else if t.losing > 0 {
      assert Useful(s, GiveUp(i));
    } else if t.skip > 0 {
      assert Useful(s, Flush(i));
    } else {
      assert Useful(s, Finish(i, false));
    }
  }

  lemma LeadKeepsRoles(c: Config, s: State, s': State)
    requires Leads(c, s, s') && RolesKept(s) && Staffed(s)
    ensures RolesKept(s') && Staffed(s')
  {
    hide Moved, Shared, RolesKept, Staffed;
    var step :| Enabled(s, step) && s' == Apply(c, s, step);
    StepKeepsRoles(c, s, step);
    RoleOfMoved(s, step);
    StaffStays(c, s, step);
  }

  lemma {:induction false} RunKeepsRoles(c: Config, logs: seq<seq<Event>>, run: seq<State>)
    requires run != [] && Start(c, run[0], logs) && Staffed(run[0]) && IsRun(c, run)
    ensures RolesKept(run[|run| - 1]) && Staffed(run[|run| - 1])
    decreases |run|
  {
    hide Start, RolesKept, Staffed, Leads;
    if |run| == 1 {
      StartKeepsRoles(c, run[0], logs);
    } else {
      var n := |run| - 2;
      RunKeepsRoles(c, logs, run[..n + 1]);
      assert Leads(c, run[n], run[n + 1]);
      LeadKeepsRoles(c, run[n], run[n + 1]);
    }
  }

  /** Whatever the plans, and wherever a run has got to: it can be brought to an end where nothing is left. */
  lemma CanBeFinished(c: Config, logs: seq<seq<Event>>, run: seq<State>) returns (run': seq<State>)
    requires run != [] && Start(c, run[0], logs) && Staffed(run[0]) && IsRun(c, run)
    ensures run <= run' && IsRun(c, run') && Finished(run'[|run'| - 1])
  {
    RunKeepsRoles(c, logs, run);
    hide IsRun, RolesKept, Staffed, Finished, Start;
    run' := UsefulSteps(c, run);
  }

  /** Useful steps come to an end, and only where nothing is left. */
  lemma {:induction false} UsefulSteps(c: Config, run: seq<State>) returns (run': seq<State>)
    requires run != [] && IsRun(c, run) && RolesKept(run[|run| - 1]) && Staffed(run[|run| - 1])
    ensures run <= run' && IsRun(c, run') && Finished(run'[|run'| - 1])
    decreases Left(run[|run| - 1])
  {
    hide Enabled, Apply, RolesKept, Staffed, Finished, IsRun, Left, Useful;
    var s := run[|run| - 1];
    run' := run;
    if !Finished(s) {
      NeverStuck(s);
      var step :| Useful(s, step);
      UsefulIsEnabled(s, step);
      StepShrinks(c, s, step);
      LeftIsNatural(s);
      var more := Extend(c, run, step);
      run' := UsefulSteps(c, more);
    }
  }

  lemma UsefulIsEnabled(s: State, step: Step)
    requires Useful(s, step)
    ensures Enabled(s, step)
  {
  }

  lemma LeftIsNatural(s: State)
    ensures Left(s) >= 0
  {
    LeftNatural(s.threads);
  }

  // ------------------------------------------------------------------ complete runs

  /** The log of a planning run without limit over two complete listings. */
  ghost predicate CompletePlan(c: Config, log: seq<Event>) {
    exists limit, src, dst :: IsCompletePlan(c, log, limit, src, dst)
  }

  ghost predicate IsCompletePlan(c: Config, log: seq<Event>, limit: int, src: seq<Object>, dst: seq<Object>) {
    limit < 0 && Ascending(src) && Ascending(dst) && log == Plan(c, limit, Listing(src, false), Listing(dst, false)).log
  }

  lemma CompletePlanEvents(c: Config, log: seq<Event>, e: Event)
    requires CompletePlan(c, log) && e in log
    ensures Asked(c, e) && e.action != Action.Unfinished
  {
    var limit, src, dst :| IsCompletePlan(c, log, limit, src, dst);
    PlannedIsAsked(c, limit, Listing(src, false), Listing(dst, false), e);
    PlanTable(c, limit, Listing(src, false), Listing(dst, false));
    assert Verdict(c, src, dst, e.obj.key) == Some(e);
  }

  lemma {:induction false} NoLosses(log: seq<Event>)
    requires forall e :: e in log ==> e.action != Action.Unfinished
    ensures LossesOf(log) == 0
  {
    if log != [] {
      assert log[0] in log;
      NoLosses(log[1..]);
    }
  }

  lemma {:induction false} LossesAreUnfinished(log: seq<Event>)
    ensures LossesOf(log) == PlannerRuns.Unfinished(log)
  {
    if log != [] { LossesAreUnfinished(log[1..]); }
  }

  /** A limited producer gives up at most one object. */
  lemma LimitedLosses(c: Config, limit: nat, src: Listing, dst: Listing)
    ensures LossesOf(Plan(c, limit, src, dst).log) <= 1
  {
    LossesAreUnfinished(Plan(c, limit, src, dst).log);
    PlannerRuns.LimitConserved(c, limit, src, dst);
  }

  lemma {:induction false} NoLossesAtAll(c: Config, logs: seq<seq<Event>>)
    requires forall log :: log in logs ==> log == [] || CompletePlan(c, log)
    ensures Losses(logs) == 0
  {
    if logs != [] {
      var log := logs[0];
      assert log in logs;
      forall e | e in log ensures e.action != Action.Unfinished { CompletePlanEvents(c, log, e); }
      NoLosses(log);
      NoLossesAtAll(c, logs[1..]);
    }
  }

  /** A finished run without a limit and without failed listings. */
  ghost predicate IsCompleteRun(c: Config, logs: seq<seq<Event>>, run: seq<State>) {
    && run != [] && Start(c, run[0], logs) && IsRun(c, run) && Finished(run[|run| - 1])
    && forall log :: log in logs ==> log == [] || CompletePlan(c, log)
  }

  /** It ends with total = handled + extra, so that the exit check finds nothing, unless directories put
  aside have been counted twice. */
  lemma CompleteRunAddsUp(c: Config, logs: seq<seq<Event>>, run: seq<State>)
    requires IsCompleteRun(c, logs, run)
    ensures var s := run[|run| - 1];
      ExitTotal(s) == Events(logs) && s.handled + s.extra == Events(logs) + s.doubled
    ensures !CountsTwice(c) ==> run[|run| - 1].doubled == 0
  {
    FinishedRunAddsUp(c, logs, run);
    NoLossesAtAll(c, logs);
  }

  /** The configurations for which every such run adds up: those that do not delete directories from the
  source that they have found equal. */
  lemma AddsUpIff(c: Config)
    ensures !CountsTwice(c) <==>
      forall logs, run :: IsCompleteRun(c, logs, run) ==>
        var s := run[|run| - 1]; ExitTotal(s) == s.handled + s.extra
  {
    if CountsTwice(c) {
      var dir := Object("", 0, 0, true, false, Perms(0, "", ""));
      var run := DirectoryCountedTwice(c, dir);
      hide Start, IsRun, Finished, CompletePlan;
      assert IsCompleteRun(c, [[Event(Checksum, dir)], [], []], run);
    } else {
      forall logs, run | IsCompleteRun(c, logs, run)
        ensures var s := run[|run| - 1]; ExitTotal(s) == s.handled + s.extra
      {
        CompleteRunAddsUp(c, logs, run);
      }
    }
  }

  /** A directory that both sides have is compared, if directories take part and nothing comes first. */
  lemma ComparesDirectory(c: Config, dir: Object)
    requires ComparesDirectories(c) && dir.isDir
    ensures CompletePlan(c, [Event(Checksum, dir)])
  {
    var l := Listing([dir], false);
    LessIrreflexive(dir.key);
    PlanCases(c, -1, l, l);
    JoinAtSource(c, -1, l, l);
    assert Tail(l) == Listing([], false);
    PlanCases(c, -1, Tail(l), Tail(l));
    assert Plan(c, -1, l, l).log == [Event(Checksum, dir)];
    assert IsCompletePlan(c, [Event(Checksum, dir)], -1, [dir], [dir]);
  }

  /** The exception is real: one directory that both sides have, planned for a comparison and found
  equal with both options on, ends with more objects handled than were found. */
  lemma DirectoryCountedTwice(c: Config, dir: Object) returns (run: seq<State>)
    requires CountsTwice(c) && dir.isDir
    ensures CompletePlan(c, [Event(Checksum, dir)])
    ensures run != [] && Start(c, run[0], [[Event(Checksum, dir)], [], []]) && IsRun(c, run)
    ensures var s := run[|run| - 1];
      Finished(s) && ExitTotal(s) == 1 && s.handled + s.extra == 2
  {
    ComparesDirectory(c, dir);
    hide CompletePlan;
    var e := Event(Checksum, dir);
    run := [Scene(Producer(multiset{e}), Waiting(Working), Waiting(DeletingSrc), 0, 0)];
    assert Ordinary([e]) == [e] && Ordinary([]) == [];
    assert Start(c, run[0], [[e], [], []]) by { assert multiset([e]) == multiset{e}; }
    hide Start, Apply, Enabled, IsRun, Leads;
    run := PlansChecksum(c, run, e);
    run := FindsEqual(c, run, e);
    run := DeletesLater(c, run, dir);
  }

  ghost function Waiting(role: Role): Thread {
    Thread(role, multiset{}, multiset{}, 0, 0, 0, None, Idle)
  }

  ghost function Producer(todo: multiset<Event>): Thread {
    Waiting(Producing).(todo := todo)
  }

  ghost function Scene(p: Thread, w: Thread, d: Thread, total: int, handled: int): State {
    State([p, w, d], [], [], [], 0, total, handled, 0, 0, 0)
  }

  lemma PlansChecksum(c: Config, start: seq<State>, e: Event) returns (run: seq<State>)
    requires e.action == Checksum && start != [] && IsRun(c, start)
    requires start[|start| - 1] == Scene(Producer(multiset{e}), Waiting(Working), Waiting(DeletingSrc), 0, 0)
    ensures run != [] && IsRun(c, run) && run[0] == start[0]
    ensures run[|run| - 1]
         == Scene(Producer(multiset{}), Waiting(Working), Waiting(DeletingSrc), 0, 0).(queue := [e], totalHandled := 1)
  {
    assert multiset{e} - multiset{e} == multiset{} && multiset{} + multiset{e} == multiset{e};
    hide IsRun;
    run := Extend(c, start, Count(0, e));
    run := Extend(c, run, Settle(0, e));
  }

  lemma FindsEqual(c: Config, start: seq<State>, e: Event) returns (run: seq<State>)
    requires c.deleteSrc && !c.dry && e.action == Checksum && e.obj.isDir && start != [] && IsRun(c, start)
    requires start[|start| - 1]
          == Scene(Producer(multiset{}), Waiting(Working), Waiting(DeletingSrc), 0, 0).(queue := [e], totalHandled := 1)
    ensures run != [] && IsRun(c, run) && run[0] == start[0]
    ensures run[|run| - 1]
         == Scene(Producer(multiset{}), Waiting(Working), Waiting(DeletingSrc), 1, 1).(
              srcDelayDel := [e.obj.key], doubled := 1)
  {
    hide IsRun;
    run := Extend(c, start, Fetch(1));
    run := Extend(c, run, Finish(1, true));
    run := Extend(c, run, Total(1));
    run := Extend(c, run, Handled(1));
  }

  lemma DeletesLater(c: Config, start: seq<State>, dir: Object) returns (run: seq<State>)
    requires start != [] && IsRun(c, start)
    requires start[|start| - 1]
          == Scene(Producer(multiset{}), Waiting(Working), Waiting(DeletingSrc), 1, 1).(
               srcDelayDel := [dir.key], doubled := 1)
    ensures run != [] && IsRun(c, run) && run[0] == start[0]
    ensures run[|run| - 1]
         == Scene(Producer(multiset{}), Waiting(Working), Waiting(DeletingSrc), 1, 2).(doubled := 1)
  {
    hide IsRun;
    run := Extend(c, start, Delete(2));
    run := Extend(c, run, Total(2));
    run := Extend(c, run, Handled(2));
  }

  lemma Extend(c: Config, run: seq<State>, step: Step) returns (run': seq<State>)
    requires run != [] && IsRun(c, run) && Enabled(run[|run| - 1], step)
    ensures run <= run' && run' != [] && run'[0] == run[0] && IsRun(c, run')
    ensures run'[|run'| - 1] == Apply(c, run[|run| - 1], step)
  {
    run' := run + [Apply(c, run[|run| - 1], step)];
    assert Leads(c, run[|run| - 1], run'[|run|]);
  }
}

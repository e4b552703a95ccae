/** The planner: a merge join of two ascending listings that emits one action per object. */
module Planner {
  import opened Keys
  import opened Objects
  import Filter

  datatype Config = Config(
    dirs: bool,
    update: bool, forceUpdate: bool, existing: bool, ignoreExisting: bool,
    checkAll: bool, perms: bool,
    deleteSrc: bool, deleteDst: bool,
    dry: bool)

  datatype Action = Copy | Checksum | DeleteSrc | CopyPerms | DeleteDst | Skip | KeepExtra | Unfinished

  /** What became of one listed object. `Unfinished` objects were counted and then given up. */
  datatype Event = Event(action: Action, obj: Object)

  /** A queued object; the size of a marked one is replaced by a marker. */
  datatype Task = Plain(obj: Object) | Marked(obj: Object, nsize: int) {
    function Size(): int {
      if Plain? then obj.size else nsize
    }
  }

  const MARK_DELETE_SRC := -1
  const MARK_DELETE_DST := -2
  const MARK_COPY_PERMS := -3
  const MARK_CHECKSUM := -4

  // ------------------------------------------------------------------ decisions

  function WhenMissing(c: Config): Action {
    if c.existing then Skip else Copy
  }

  function WhenPresent(c: Config, src: Object, dst: Object): Action {
    if c.ignoreExisting then Skip
    else if
      || c.forceUpdate
      || (c.update && Unix(src.mtime) > Unix(dst.mtime))
      || (!c.update && src.size != dst.size) then Copy
    else if c.update && Unix(src.mtime) < Unix(dst.mtime) then Skip
    else if c.checkAll then Checksum
    else if c.deleteSrc then DeleteSrc
    else if c.perms && src.perms != dst.perms then CopyPerms
    else Skip
  }

  function WhenExtra(c: Config, limit: int, dst: Object): Action {
    if !c.deleteDst || (!c.dirs && dst.isDir) || limit == 0 then KeepExtra else DeleteDst
  }

  // ------------------------------------------------------------------ the run as a function

  datatype Result = Result(log: seq<Event>, limit: int, err: bool) {
    function After(e: Event): Result {
      Result([e] + log, limit, err)
    }
  }

  /** The run from a state of the merge: what is left of both listings and of the limit. */
  function Plan(c: Config, limit: int, src: Listing, dst: Listing): Result
    decreases |src.objs| + |dst.objs|, 1
  {
    if src.objs == [] then
      if src.failed then Result([], limit, true)
      else if c.deleteDst then Drain(c, limit, dst)
      else Result([], limit, false)
    else if !c.dirs && src.objs[0].isDir then Plan(c, limit, Tail(src), dst)
    else if limit == 0 then Result([], limit, false)
    else Join(c, if limit > 0 then limit - 1 else limit, src, dst)
  }

  /** The part of the run that finds the partner of the source object just counted. */
  function Join(c: Config, limit: int, src: Listing, dst: Listing): Result
    requires src.objs != []
    decreases |src.objs| + |dst.objs|, 0
  {
    var obj := src.objs[0];
    if dst.objs == [] then
      if dst.failed then Result([Event(Unfinished, obj)], limit, true)
      else Plan(c, limit, Tail(src), dst).After(Event(WhenMissing(c), obj))
    else
      var d := dst.objs[0];
      if Less(d.key, obj.key) then
        if WhenExtra(c, limit, d) == DeleteDst && limit == 1 then
          Result([Event(DeleteDst, d), Event(Unfinished, obj)], 0, false)
        else
          Join(c, Charged(c, limit, d), src, Tail(dst)).After(Event(WhenExtra(c, limit, d), d))
      else if d.key == obj.key then
        Plan(c, limit, Tail(src), Tail(dst)).After(Event(WhenPresent(c, obj, d), obj))
      else
        Plan(c, limit, Tail(src), dst).After(Event(WhenMissing(c), obj))
  }

  /** The part of the run behind the last source object. */
  function Drain(c: Config, limit: int, dst: Listing): Result
    decreases |dst.objs|
  {
    if dst.objs == [] then Result([], limit, dst.failed)
    else
      var d := dst.objs[0];
      if WhenExtra(c, limit, d) == DeleteDst && limit == 1 then Result([Event(DeleteDst, d)], 0, false)
      else Drain(c, Charged(c, limit, d), Tail(dst)).After(Event(WhenExtra(c, limit, d), d))
  }

  function Charged(c: Config, limit: int, d: Object): int {
    if WhenExtra(c, limit, d) == DeleteDst then limit - 1 else limit
  }

  function Tail(l: Listing): Listing
    requires l.objs != []
  {
    l.(objs := l.objs[1..])
  }

  // The cases of `Join` and `Drain`, one at a time.

  lemma JoinAtExtra(c: Config, limit: int, src: Listing, dst: Listing)
    requires src.objs != [] && dst.objs != [] && Less(dst.objs[0].key, src.objs[0].key)
    ensures var d := dst.objs[0];
      var r := Join(c, limit, src, dst);
      if WhenExtra(c, limit, d) == DeleteDst && limit == 1
      then r == Result([Event(DeleteDst, d), Event(Unfinished, src.objs[0])], 0, false)
      else r == Join(c, Charged(c, limit, d), src, Tail(dst)).After(Event(WhenExtra(c, limit, d), d))
  {
  }

  lemma JoinAtFailure(c: Config, limit: int, src: Listing, dst: Listing)
    requires src.objs != [] && dst.objs == [] && dst.failed
    ensures Join(c, limit, src, dst) == Result([Event(Unfinished, src.objs[0])], limit, true)
  {
  }

  lemma PlanCases(c: Config, limit: int, src: Listing, dst: Listing)
    ensures src.objs == [] ==>
      Plan(c, limit, src, dst)
          == if !src.failed && c.deleteDst then Drain(c, limit, dst) else Result([], limit, src.failed)
    ensures src.objs != [] && !c.dirs && src.objs[0].isDir ==>
        Plan(c, limit, src, dst) == Plan(c, limit, Tail(src), dst)
    ensures src.objs != [] && (c.dirs || !src.objs[0].isDir) ==>
      Plan(c, limit, src, dst) ==
        if limit == 0 then Result([], limit, false) else Join(c, if limit > 0 then limit - 1 else limit, src, dst)
  {
  }

  /** The partner of the source object, if the destination has one, is at the front by now. */
  lemma JoinAtSource(c: Config, limit: int, src: Listing, dst: Listing)
    requires src.objs != [] && (dst.objs == [] ==> !dst.failed)
    requires dst.objs != [] ==> !Less(dst.objs[0].key, src.objs[0].key)
    ensures var obj := src.objs[0];
      Join(c, limit, src, dst) ==
        if dst.objs != [] && dst.objs[0].key == obj.key
        then Plan(c, limit, Tail(src), Tail(dst)).After(Event(WhenPresent(c, obj, dst.objs[0]), obj))
        else Plan(c, limit, Tail(src), dst).After(Event(WhenMissing(c), obj))
  {
  }

  lemma DrainOne(c: Config, limit: int, dst: Listing)
    requires dst.objs != []
    ensures var d := dst.objs[0];
      var r := Drain(c, limit, dst);
      if WhenExtra(c, limit, d) == DeleteDst && limit == 1 then r == Result([Event(DeleteDst, d)], 0, false)
      else r == Drain(c, Charged(c, limit, d), Tail(dst)).After(Event(WhenExtra(c, limit, d), d))
  {
  }

  lemma DrainEmpty(c: Config, limit: int, dst: Listing)
    requires dst.objs == []
    ensures Drain(c, limit, dst) == Result([], limit, dst.failed)
  {
  }

  // ------------------------------------------------------------------ what a log stands for

  function TaskOf(e: Event): Option<Task> {
    match e.action
    case Copy => Some(Plain(e.obj))
    case Checksum => Some(Marked(e.obj, MARK_CHECKSUM))
    case CopyPerms => Some(Marked(e.obj, MARK_COPY_PERMS))
    case DeleteSrc => if e.obj.isDir then None else Some(Marked(e.obj, MARK_DELETE_SRC))
    case DeleteDst => if e.obj.isDir then None else Some(Marked(e.obj, MARK_DELETE_DST))
    case _ => None
  }

  function TasksOf(log: seq<Event>): seq<Task> {
    if log == [] then []
    else
      var e := log[|log| - 1];
      TasksOf(log[..|log| - 1]) + if TaskOf(e).Some? then [TaskOf(e).value] else []
  }

  /** The directories whose deletion waits for the end of the run. */
  function DelayedOf(log: seq<Event>, a: Action): seq<Key> {
    if log == [] then []
    else
      var e := log[|log| - 1];
      DelayedOf(log[..|log| - 1], a) + if e.action == a && e.obj.isDir then [e.obj.key] else []
  }

  function Count(log: seq<Event>, a: Action): nat {
    if log == [] then 0
    else Count(log[..|log| - 1], a) + if log[|log| - 1].action == a then 1 else 0
  }

  function Bytes(log: seq<Event>, a: Action): int {
    if log == [] then 0
    else Bytes(log[..|log| - 1], a) + if log[|log| - 1].action == a then log[|log| - 1].obj.size else 0
  }

  /** What one more event adds. */
  lemma OneMore(log: seq<Event>, e: Event)
    ensures TasksOf(log + [e]) == TasksOf(log) + if TaskOf(e).Some? then [TaskOf(e).value] else []
    ensures forall a ::
      DelayedOf(log + [e], a) == DelayedOf(log, a) + if e.action == a && e.obj.isDir then [e.obj.key] else []
    ensures forall a :: Count(log + [e], a) == Count(log, a) + if e.action == a then 1 else 0
    ensures forall a :: Bytes(log + [e], a) == Bytes(log, a) + if e.action == a then e.obj.size else 0
  {
    assert (log + [e])[..|log|] == log;
  }

  lemma {:induction false} TasksAdd(a: seq<Event>, b: seq<Event>)
    ensures TasksOf(a + b) == TasksOf(a) + TasksOf(b)
    ensures forall x :: DelayedOf(a + b, x) == DelayedOf(a, x) + DelayedOf(b, x)
    ensures forall x :: Count(a + b, x) == Count(a, x) + Count(b, x) && Bytes(a + b, x) == Bytes(a, x) + Bytes(b, x)
    decreases |b|
  {
    if b == [] {
      assert a + b == a;
    } else {
      var n := |b| - 1;
      assert a + b == (a + b[..n]) + [b[n]] && b == b[..n] + [b[n]];
      TasksAdd(a, b[..n]);
      OneMore(a + b[..n], b[n]);
      OneMore(b[..n], b[n]);
    }
  }

  function Added(e: Event): seq<Task> {
    if TaskOf(e).Some? then [TaskOf(e).value] else []
  }

  lemma TimesAdd<T>(a: seq<T>, b: seq<T>, x: T)
    ensures multiset(a + b)[x] == multiset(a)[x] + multiset(b)[x]
  {
  }

  lemma AddedTimes(x: Event, t: Task)
    ensures multiset(Added(x))[t] == if TaskOf(x) == Some(t) then 1 else 0
  {
  }

  /** A task is queued as often as the one event that queues it, if there is one, occurs. */
  lemma {:induction false} QueuedBy(log: seq<Event>, t: Task, e: Event)
    requires forall x :: TaskOf(x) == Some(t) <==> x == e
    ensures multiset(TasksOf(log))[t] == multiset(log)[e]
    decreases |log|
  {
    if log != [] {
      var n := |log| - 1;
      var init, x := log[..n], log[n];
      QueuedBy(init, t, e);
      assert log == init + [x];
      assert TasksOf(log) == TasksOf(init) + Added(x);
      AddedTimes(x, t);
      hide TasksOf, Added, TaskOf;
      TimesAdd(TasksOf(init), Added(x), t);
      TimesAdd(init, [x], e);
    }
  }

  lemma {:induction false} NeverQueued(log: seq<Event>, t: Task)
    requires forall x :: TaskOf(x) != Some(t)
    ensures multiset(TasksOf(log))[t] == 0
    decreases |log|
  {
    if log != [] {
      var n := |log| - 1;
      NeverQueued(log[..n], t);
      assert TasksOf(log) == TasksOf(log[..n]) + Added(log[n]);
      AddedTimes(log[n], t);
      hide TasksOf, Added, TaskOf;
      TimesAdd(TasksOf(log[..n]), Added(log[n]), t);
    }
  }

  /** The bytes of a log are those of its events, one by one. */
  lemma BytesAre(log: seq<Event>, e: Event, a: Action)
    ensures Bytes([], a) == 0 && Bytes(log + [e], a) == Bytes(log, a) + if e.action == a then e.obj.size else 0
  {
    OneMore(log, e);
  }

  /** The queue of a log holds an object as often as an action that queues it: plain for a copy, else
  marked; directories are not deleted through the queue. */
  lemma TasksAre(log: seq<Event>, o: Object)
    ensures multiset(TasksOf(log))[Plain(o)] == multiset(log)[Event(Copy, o)]
    ensures multiset(TasksOf(log))[Marked(o, -4)] == multiset(log)[Event(Checksum, o)]
    ensures multiset(TasksOf(log))[Marked(o, -3)] == multiset(log)[Event(CopyPerms, o)]
    ensures multiset(TasksOf(log))[Marked(o, -1)] == (if o.isDir then 0 else multiset(log)[Event(DeleteSrc, o)])
    ensures multiset(TasksOf(log))[Marked(o, -2)] == (if o.isDir then 0 else multiset(log)[Event(DeleteDst, o)])
  {
    hide TasksOf;
    QueuedBy(log, Plain(o), Event(Copy, o));
    QueuedBy(log, Marked(o, -4), Event(Checksum, o));
    QueuedBy(log, Marked(o, -3), Event(CopyPerms, o));
    if o.isDir {
      NeverQueued(log, Marked(o, -1));
      NeverQueued(log, Marked(o, -2));
    } else {
      QueuedBy(log, Marked(o, -1), Event(DeleteSrc, o));
      QueuedBy(log, Marked(o, -2), Event(DeleteDst, o));
    }
  }

  lemma {:induction false} OnlyTheseTasks(log: seq<Event>)
    ensures forall t :: t in TasksOf(log) && t.Marked? ==> -4 <= t.nsize <= -1
    decreases |log|
  {
    if log != [] { OnlyTheseTasks(log[..|log| - 1]); }
  }

  /** The places of a log where `p` holds. */
  ghost function Places(log: seq<Event>, p: Event -> bool): set<int> {
    set i | 0 <= i < |log| && p(log[i])
  }

  lemma PlacesGrow(log: seq<Event>, e: Event, p: Event -> bool)
    ensures |Places(log + [e], p)| == |Places(log, p)| + if p(e) then 1 else 0
  {
    var more := log + [e];
    assert forall i :: 0 <= i < |log| ==> more[i] == log[i];
    assert Places(more, p) == Places(log, p) + if p(e) then {|log|} else {};
    assert |log| !in Places(log, p);
  }

  /** The directories put aside are those of the events, each as often. */
  lemma {:induction false} DelayedAre(log: seq<Event>, a: Action, k: Key)
    ensures multiset(DelayedOf(log, a))[k]
         == |set i | 0 <= i < |log| && log[i].action == a && log[i].obj.isDir && log[i].obj.key == k|
    decreases |log|
  {
    var p := (e: Event) => e.action == a && e.obj.isDir && e.obj.key == k;
    assert (set i | 0 <= i < |log| && log[i].action == a && log[i].obj.isDir && log[i].obj.key == k)
        == Places(log, p);
    DelayedPlaces(log, a, k, p);
  }

  lemma {:induction false} DelayedPlaces(log: seq<Event>, a: Action, k: Key, p: Event -> bool)
    requires forall e :: p(e) <==> e.action == a && e.obj.isDir && e.obj.key == k
    ensures multiset(DelayedOf(log, a))[k] == |Places(log, p)|
    decreases |log|
  {
    if log != [] {
      var n := |log| - 1;
      var init, e := log[..n], log[n];
      DelayedPlaces(init, a, k, p);
      PlacesGrow(init, e, p);
      assert log == init + [e];
      var more := if e.action == a && e.obj.isDir then [e.obj.key] else [];
      assert DelayedOf(log, a) == DelayedOf(init, a) + more;
      hide DelayedOf;
      TimesAdd(DelayedOf(init, a), more, k);
    }
  }

  lemma {:induction false} CountIs(log: seq<Event>, a: Action)
    ensures Count(log, a) == |set i | 0 <= i < |log| && log[i].action == a|
    decreases |log|
  {
    var p := (e: Event) => e.action == a;
    assert (set i | 0 <= i < |log| && log[i].action == a) == Places(log, p);
    CountPlaces(log, a, p);
  }

  lemma {:induction false} CountPlaces(log: seq<Event>, a: Action, p: Event -> bool)
    requires forall e :: p(e) <==> e.action == a
    ensures Count(log, a) == |Places(log, p)|
    decreases |log|
  {
    if log != [] {
      var n := |log| - 1;
      CountPlaces(log[..n], a, p);
      PlacesGrow(log[..n], log[n], p);
      assert log == log[..n] + [log[n]];
    }
  }

  // ------------------------------------------------------------------ the code

  /** The state the producer shares with the rest of a run: the task queue, the delayed deletes,
  the remaining limit and the progress counters. `log` records what became of each object. */
  class Producer {
    const config: Config
    const selection: Filter.Selection
    var limit: int
    var tasks: seq<Task>
    var srcDelayDel: seq<Key>
    var dstDelayDel: seq<Key>
    var totalHandled: int
    var handledTotal: int
    var handled: int
    var skipped: int
    var skippedBytes: int
    var extra: int
    var extraBytes: int
    ghost var log: seq<Event>

    constructor (config: Config, selection: Filter.Selection, limit: int)
      ensures Valid() && log == [] && this.limit == limit
      ensures this.config == config && this.selection == selection
    {
      this.config, this.selection, this.limit := config, selection, limit;
      tasks, srcDelayDel, dstDelayDel := [], [], [];
      totalHandled, handledTotal, handled := 0, 0, 0;
      skipped, skippedBytes, extra, extraBytes := 0, 0, 0, 0;
      log := [];
    }

    /** The queues and counters agree with the log, up to the skips not flushed yet and an object
    that is counted but not decided. */
    ghost predicate Books(skip: nat, skipBytes: int, open: nat)
      reads this
    {
      && tasks == TasksOf(log)
      && srcDelayDel == DelayedOf(log, DeleteSrc)
      && dstDelayDel == DelayedOf(log, DeleteDst)
      && extra == Count(log, KeepExtra) && extraBytes == Bytes(log, KeepExtra)
      && skipped + skip == Count(log, Skip) && skippedBytes + skipBytes == Bytes(log, Skip)
      && handled == skipped
      && totalHandled + handledTotal == |log| + open
    }

    ghost predicate Valid()
      reads this
    {
      Books(0, 0, 0)
    }

    method IncrTotal(n: int)
      modifies this`totalHandled
      ensures totalHandled == old(totalHandled) + n
    {
      totalHandled := totalHandled + n;
    }

    method IncrHandled(n: int)
      modifies this`totalHandled, this`handledTotal, this`handled
      ensures totalHandled == 0
      ensures handledTotal == old(handledTotal) + old(totalHandled)
      ensures handled == old(handled) + n
    {
      var was := totalHandled;
      totalHandled := 0;
      handledTotal := handledTotal + was;
      handled := handled + n;
    }

    method FlushProgress(skip: nat, skipBytes: int, ghost open: nat)
      requires Books(skip, skipBytes, open)
      modifies this
      ensures Books(0, 0, open)
      ensures log == old(log) && limit == old(limit)
    {
      skipped := skipped + skip;
      skippedBytes := skippedBytes + skipBytes;
      IncrHandled(skip);
    }

    /** Counts a skip; the clock may ask for a flush at any of them. */
    method SkipIt(obj: Object, skip: nat, skipBytes: int, timeUp: bool) returns (skip': nat, skipBytes': int)
      requires Books(skip, skipBytes, 1)
      modifies this
      ensures Books(skip', skipBytes', 0)
      ensures log == old(log) + [Event(Skip, obj)] && limit == old(limit)
      ensures if skip < 100 && !timeUp
              then skip' == skip + 1 && skipBytes' == skipBytes + obj.size && handled == old(handled)
              else skip' == 0 && skipBytes' == 0 && handled == old(handled) + skip + 1
    {
      hide TasksOf, DelayedOf, Count, Bytes;
      OneMore(log, Event(Skip, obj));
      skip', skipBytes' := skip + 1, skipBytes + obj.size;
      log := log + [Event(Skip, obj)];
      if skip' > 100 || timeUp {
        FlushProgress(skip', skipBytes', 0);
        skip', skipBytes' := 0, 0;
      }
    }

    /** Queues what the event asks for, except a skip. */
    method Emit(e: Event, ghost skip: nat, ghost skipBytes: int)
      requires Books(skip, skipBytes, 1)
      requires e.action != Skip && e.action != KeepExtra
      modifies this`tasks, this`srcDelayDel, this`dstDelayDel, this`log
      ensures Books(skip, skipBytes, 0)
      ensures log == old(log) + [e]
    {
      hide TasksOf, DelayedOf, Count, Bytes;
      OneMore(log, e);
      log := log + [e];
      var key, dir := e.obj.key, e.obj.isDir;
      match e.action
      case Copy => tasks := tasks + [Plain(e.obj)];
      case Checksum => tasks := tasks + [Marked(e.obj, MARK_CHECKSUM)];
      case CopyPerms => tasks := tasks + [Marked(e.obj, MARK_COPY_PERMS)];
      case DeleteSrc =>
        if dir { srcDelayDel := srcDelayDel + [key]; } else { tasks := tasks + [Marked(e.obj, MARK_DELETE_SRC)]; }
      case DeleteDst =>
        if dir { dstDelayDel := dstDelayDel + [key]; } else { tasks := tasks + [Marked(e.obj, MARK_DELETE_DST)]; }
      case _ =>
    }

    /** Deletes or keeps an object that only the destination has; tells whether the limit is used up. */
    method HandleExtraObject(d: Object, ghost skip: nat, ghost skipBytes: int, ghost open: nat) returns (done: bool)
      requires Books(skip, skipBytes, open)
      modifies this
      ensures Books(skip, skipBytes, open)
      ensures log == old(log) + [Event(WhenExtra(config, old(limit), d), d)]
      ensures limit == Charged(config, old(limit), d)
      ensures done <==> WhenExtra(config, old(limit), d) == DeleteDst && old(limit) == 1
    {
      hide TasksOf, DelayedOf, Count, Bytes;
      OneMore(log, Event(WhenExtra(config, limit, d), d));
      IncrTotal(1);
      if !config.deleteDst || (!config.dirs && d.isDir) || limit == 0 {
        extra := extra + 1;
        extraBytes := extraBytes + d.size;
        log := log + [Event(KeepExtra, d)];
        return false;
      }
      limit := limit - 1;
      log := log + [Event(DeleteDst, d)];
      if d.isDir {
        dstDelayDel := dstDelayDel + [d.key];
      } else {
        tasks := tasks + [Marked(d, MARK_DELETE_DST)];
      }
      return limit == 0;
    }

    /** The result of the run so far and the plan for the rest make up the whole plan. */
    ghost predicate OnPlan(whole: Result, was: seq<Event>, rest: Result)
      reads this
    {
      && was + whole.log == log + rest.log
      && whole.limit == rest.limit && whole.err == rest.err
    }

    /** Gives up the object in hand: the limit is used up, or the destination listing has failed. */
    method Abandon(obj: Object, ghost skip: nat, ghost skipBytes: int)
      requires Books(skip, skipBytes, 1)
      modifies this`log
      ensures Books(skip, skipBytes, 0) && log == old(log) + [Event(Unfinished, obj)]
    {
      hide TasksOf, DelayedOf, Count, Bytes;
      OneMore(log, Event(Unfinished, obj));
      log := log + [Event(Unfinished, obj)];
    }

    /** Handles one destination object in front of the source object in hand, and gives that one up
    when the limit is used up. */
    method ExtraInFront(ghost src: Listing, obj: Object, d: Object, ghost dst: Listing,
                        ghost skip: nat, ghost skipBytes: int)
      returns (stop: bool)
      requires src.objs != [] && src.objs[0] == obj && dst.objs != [] && dst.objs[0] == d
      requires Less(d.key, obj.key) && Books(skip, skipBytes, 1)
      modifies this
      ensures Books(skip, skipBytes, if stop then 0 else 1)
      ensures OnPlan(Join(config, old(limit), src, dst), old(log),
                     if stop then Result([], limit, false) else Join(config, limit, src, Tail(dst)))
    {
      hide Books, Join, Plan, TasksOf, DelayedOf, Count, Bytes;
      JoinAtExtra(config, limit, src, dst);
      stop := HandleExtraObject(d, skip, skipBytes, 1);
      if stop {
        Abandon(obj, skip, skipBytes);
      }
    }

    /** Handles the destination objects in front of the source object in hand, and finds the one to
    compare it with. `held` is an object already taken from the destination listing. */
    method FindPartner(ghost src: Listing, obj: Object, dst: Listing, from: nat, held: Option<Object>,
                       ghost skip: nat, ghost skipBytes: int)
      returns (j: nat, dstobj: Option<Object>, stop: bool, err: bool)
      requires src.objs != [] && src.objs[0] == obj && from <= |dst.objs|
      requires Books(skip, skipBytes, 1)
      modifies this
      ensures var whole := Join(config, old(limit), src, Pending(dst, from, held));
        && (stop ==> Books(skip, skipBytes, 0) && OnPlan(whole, old(log), Result([], limit, err)))
        && (!stop ==>
             && Books(skip, skipBytes, 1) && j <= |dst.objs|
             && OnPlan(whole, old(log), Join(config, limit, src, Pending(dst, j, dstobj))))
      ensures !stop && dstobj.Some? ==> !Less(dstobj.value.key, obj.key)
      ensures !stop && dstobj.None? ==> j == |dst.objs| && !dst.failed
    {
      hide Books, Join, Plan, TasksOf, DelayedOf, Count, Bytes, WhenExtra, Charged, Less, Pending, Tail;
      j, dstobj := from, held;
      ghost var whole := Join(config, limit, src, Pending(dst, j, dstobj));
      if dstobj.Some? && Less(dstobj.value.key, obj.key) {
        Held(dst, j, dstobj.value);
        stop := ExtraInFront(src, obj, dstobj.value, Pending(dst, j, dstobj), skip, skipBytes);
        if stop {
          return j, dstobj, true, false;
        }
        dstobj := None;
      }
      while dstobj.None? && j < |dst.objs|
        invariant j <= |dst.objs| && Books(skip, skipBytes, 1)
        invariant OnPlan(whole, old(log), Join(config, limit, src, Pending(dst, j, dstobj)))
        invariant dstobj.Some? ==> !Less(dstobj.value.key, obj.key)
        decreases |dst.objs| - j, dstobj.None?
      {
        var d := dst.objs[j];
        Hold(dst, j);
        Held(dst, j + 1, d);
        j := j + 1;
        if !Less(d.key, obj.key) {
          dstobj := Some(d);
        } else {
          stop := ExtraInFront(src, obj, d, Pending(dst, j, Some(d)), skip, skipBytes);
          if stop {
            return j, dstobj, true, false;
          }
        }
      }
      if dstobj.None? && dst.failed {
        Exhausted(dst);
        JoinAtFailure(config, limit, src, Pending(dst, j, dstobj));
        Abandon(obj, skip, skipBytes);
        return j, dstobj, true, true;
      }
      stop, err := false, false;
    }

    /** Handles what is left of the destination behind the last source object. */
    method DrainDestination(dst: Listing, from: nat, held: Option<Object>, ghost skip: nat, ghost skipBytes: int)
      returns (err: bool)
      requires from <= |dst.objs| && Books(skip, skipBytes, 0)
      modifies this
      ensures Books(skip, skipBytes, 0)
      ensures OnPlan(Drain(config, old(limit), Pending(dst, from, held)), old(log), Result([], limit, err))
    {
      hide Books, Drain, TasksOf, DelayedOf, Count, Bytes, WhenExtra, Pending, Tail;
      var j, dstobj := from, held;
      ghost var whole := Drain(config, limit, Pending(dst, j, dstobj));
      if dstobj.Some? {
        Held(dst, j, dstobj.value);
        DrainOne(config, limit, Pending(dst, j, dstobj));
        var done := HandleExtraObject(dstobj.value, skip, skipBytes, 0);
        if done { return false; }
      }
      while j < |dst.objs|
        invariant j <= |dst.objs| && Books(skip, skipBytes, 0)
        invariant OnPlan(whole, old(log), Drain(config, limit, Pending(dst, j, None)))
      {
        Hold(dst, j);
        Held(dst, j + 1, dst.objs[j]);
        DrainOne(config, limit, Pending(dst, j, None));
        var done := HandleExtraObject(dst.objs[j], skip, skipBytes, 0);
        if done { return false; }
        j := j + 1;
      }
      Exhausted(dst);
      DrainEmpty(config, limit, Pending(dst, j, None));
      return dst.failed;
    }

    /** Emits the action for a source object and the destination object found for it. */
    method Decide(ghost src: Listing, obj: Object, ghost dst: Listing, ghost j: nat, held: Option<Object>,
                  skip: nat, skipBytes: int)
      returns (dstobj: Option<Object>, skip': nat, skipBytes': int)
      requires src.objs != [] && src.objs[0] == obj && j <= |dst.objs|
      requires Books(skip, skipBytes, 1)
      requires held.Some? ==> !Less(held.value.key, obj.key)
      requires held.None? ==> j == |dst.objs| && !dst.failed
      modifies this
      ensures Books(skip', skipBytes', 0)
      ensures limit == old(limit)
      ensures OnPlan(Join(config, limit, src, Pending(dst, j, held)), old(log),
                     Plan(config, limit, Tail(src), Pending(dst, j, dstobj)))
    {
      hide Books, Plan, Join, TasksOf, DelayedOf, Count, Bytes;
      var action;
      JoinAtSource(config, limit, src, Pending(dst, j, held));
      if held.None? || Less(obj.key, held.value.key) {
        LessIrreflexive(obj.key);
        action, dstobj := WhenMissing(config), held;
      } else {
        LessTotal(obj.key, held.value.key);
        action, dstobj := WhenPresent(config, obj, held.value), None;
        assert Tail(Pending(dst, j, held)) == Pending(dst, j, None);
      }
      if action == Skip {
        var timeUp: bool := *;
        skip', skipBytes' := SkipIt(obj, skip, skipBytes, timeUp);
      } else {
        Emit(Event(action, obj), skip, skipBytes);
        skip', skipBytes' := skip, skipBytes;
      }
    }

    /** The merge of the two listings behind their filters. */
    method Merge(src: Listing, dst: Listing) returns (err: bool)
      requires Valid()
      modifies this
      ensures Valid()
      ensures var plan := Plan(config, old(limit), src, dst);
        log == old(log) + plan.log && limit == plan.limit && err == plan.err
    {
      hide TasksOf, DelayedOf, Count, Bytes, Plan, Join, Drain;
      var skip: nat := 0;
      var skipBytes := 0;
      var i: nat, j: nat, dstobj := 0, 0, None;
      ghost var whole := Plan(config, limit, src, dst);
      assert Pending(dst, 0, None) == dst;
      while i < |src.objs|
        invariant i <= |src.objs| && j <= |dst.objs| && Books(skip, skipBytes, 0)
        invariant OnPlan(whole, old(log), Plan(config, limit, Left(src, i), Pending(dst, j, dstobj)))
      {
        var obj := src.objs[i];
        assert Tail(Left(src, i)) == Left(src, i + 1);
        PlanCases(config, limit, Left(src, i), Pending(dst, j, dstobj));
        i := i + 1;
        if !config.dirs && obj.isDir {
          continue;
        }
        if limit >= 0 {
          if limit == 0 {
            FlushProgress(skip, skipBytes, 0);
            return false;
          }
          limit := limit - 1;
        }
        IncrTotal(1);
        var stop;
        j, dstobj, stop, err := FindPartner(Left(src, i - 1), obj, dst, j, dstobj, skip, skipBytes);
        if stop {
          FlushProgress(skip, skipBytes, 0);
          return;
        }
        dstobj, skip, skipBytes := Decide(Left(src, i - 1), obj, dst, j, dstobj, skip, skipBytes);
      }
      PlanCases(config, limit, Left(src, i), Pending(dst, j, dstobj));
      if src.failed {
        FlushProgress(skip, skipBytes, 0);
        return true;
      }
      err := false;
      if config.deleteDst {
        err := DrainDestination(dst, j, dstobj, skip, skipBytes);
      }
      FlushProgress(skip, skipBytes, 0);
    }

    /** Compares two listings and plans what to do about every object. The clock is arbitrary: the
    progress may be flushed at any skip. What is planned is queued: a copy as the object, a comparison, a copy
    of permissions and a deletion as the object with its mark, each once and nothing else; only directories
    that are to be deleted are put aside instead, by their keys. */
    method Produce(srckeys: Channel, dstkeys: Channel) returns (err: bool)
      requires Valid()
      modifies this
      ensures Valid()
      ensures var plan := Plan(config, old(limit), Filtered(srckeys), Filtered(dstkeys));
        log == old(log) + plan.log && limit == plan.limit && err == plan.err
      ensures old(tasks) <= tasks && old(srcDelayDel) <= srcDelayDel && old(dstDelayDel) <= dstDelayDel
      ensures var events, queued := multiset(log[|old(log)|..]), multiset(tasks[|old(tasks)|..]);
        && (forall o :: queued[Plain(o)] == events[Event(Copy, o)])
        && (forall o :: queued[Marked(o, -4)] == events[Event(Checksum, o)])
        && (forall o :: queued[Marked(o, -3)] == events[Event(CopyPerms, o)])
        && (forall o :: queued[Marked(o, -1)] == if o.isDir then 0 else events[Event(DeleteSrc, o)])
        && (forall o :: queued[Marked(o, -2)] == if o.isDir then 0 else events[Event(DeleteDst, o)])
        && (forall t :: t in queued && t.Marked? ==> -4 <= t.nsize <= -1)
      ensures var more := log[|old(log)|..];
        forall k :: multiset(srcDelayDel[|old(srcDelayDel)|..])[k]
          == |set i | 0 <= i < |more| && more[i].action == DeleteSrc && more[i].obj.isDir && more[i].obj.key == k|
      ensures var more := log[|old(log)|..];
        forall k :: multiset(dstDelayDel[|old(dstDelayDel)|..])[k]
          == |set i | 0 <= i < |more| && more[i].action == DeleteDst && more[i].obj.isDir && more[i].obj.key == k|
      ensures var more := log[|old(log)|..];
        && skipped - old(skipped) == |set i | 0 <= i < |more| && more[i].action == Skip|
        && extra - old(extra) == |set i | 0 <= i < |more| && more[i].action == KeepExtra|
        && skippedBytes - old(skippedBytes) == Bytes(more, Skip)
        && extraBytes - old(extraBytes) == Bytes(more, KeepExtra)
      ensures handled - old(handled) == skipped - old(skipped)
      ensures totalHandled + handledTotal == old(totalHandled) + old(handledTotal) + |log| - |old(log)|
    {
      var src, _ := Filter.Run(selection, srckeys);
      var dst, _ := Filter.Run(selection, dstkeys);
      err := Merge(src, dst);
      hide Plan, Filter.Admitted, Received, Filter.FilterKey, TasksOf, DelayedOf, Count, Bytes;
      ghost var more := log[|old(log)|..];
      assert log == old(log) + more;
      TasksAdd(old(log), more);
      assert tasks[|old(tasks)|..] == TasksOf(more);
      assert srcDelayDel[|old(srcDelayDel)|..] == DelayedOf(more, DeleteSrc);
      assert dstDelayDel[|old(dstDelayDel)|..] == DelayedOf(more, DeleteDst);
      forall o { TasksAre(more, o); }
      OnlyTheseTasks(more);
      forall k { DelayedAre(more, DeleteSrc, k); }
      forall k { DelayedAre(more, DeleteDst, k); }
      CountIs(more, Skip);
      CountIs(more, KeepExtra);
    }

    ghost function Filtered(keys: Channel): Listing {
      Listing(Filter.Admitted(selection, Received(keys).objs), Received(keys).failed)
    }
  }

  lemma Hold(l: Listing, j: nat)
    requires j < |l.objs|
    ensures Pending(l, j, None) == Pending(l, j + 1, Some(l.objs[j]))
  {
  }

  lemma Held(l: Listing, j: nat, d: Object)
    requires j <= |l.objs|
    ensures var p := Pending(l, j, Some(d)); p.objs != [] && p.objs[0] == d && Tail(p) == Pending(l, j, None)
  {
    assert Tail(Pending(l, j, Some(d))).objs == Pending(l, j, None).objs;
  }

  lemma Exhausted(l: Listing)
    ensures Pending(l, |l.objs|, None) == Listing([], l.failed)
  {
  }

  /** A listing from position `i` on. */
  function Left(l: Listing, i: nat): Listing
    requires i <= |l.objs|
  {
    l.(objs := l.objs[i..])
  }

  /** What is left of a listing from position `j` on, with an object held in front of it. */
  function Pending(l: Listing, j: nat, held: Option<Object>): Listing
    requires j <= |l.objs|
  {
    l.(objs := (if held.Some? then [held.value] else []) + l.objs[j..])
  }
}

/** The recursive producer, which lists one directory level at a time and hands the directories below
to further producers, against the flat producer, which lists everything under a prefix: which keys each
of them plans, and when these are the same. */
module ParallelProducer {
  import opened Keys
  import opened Objects
  import opened Planner
  import opened DecisionTable
  import opened Hierarchy
  import opened Filter
  import opened Rules

  /** The two sides of a run, and the first and the last key asked for; an empty end asks for all. With
  forced updates the destination is not listed at all. */
  datatype Sides = Sides(c: Config, sel: Selection, src: Store, dst: Store, start: Key, end: Key)

  ghost predicate Admissible(s: Sides) {
    Contract(s.src) && Contract(s.dst)
  }

  predicate InRange(s: Sides, k: Key) {
    !Less(k, s.start) && !(s.end != "" && Less(s.end, k))
  }

  /** Extra objects that are kept anyway are counted differently by the two producers when nothing is
  to be deleted; every other event matters. */
  predicate Relevant(c: Config, e: Event) {
    e.action != KeepExtra || c.deleteDst
  }

  /** The admitted object under a key. */
  ghost function At(sel: Selection, objects: map<Key, Object>, k: Key): Option<Object> {
    if k in objects && FilterKey(sel, objects[k]) then Some(objects[k]) else None
  }

  /** What is to become of a key, read off the two stores. */
  ghost function Local(s: Sides, k: Key): Option<Event> {
    var a := At(s.sel, s.src.objects, k);
    var b := if s.c.forceUpdate then None else At(s.sel, s.dst.objects, k);
    var o := if a.Some? && !s.c.dirs && a.value.isDir then None else a;
    if o.Some? && b.Some? then Some(Event(WhenPresent(s.c, o.value, b.value), o.value))
    else if o.Some? then Some(Event(WhenMissing(s.c), o.value))
    else if b.None? || !s.c.deleteDst then None
    else Some(Event(if !s.c.dirs && b.value.isDir then KeepExtra else DeleteDst, b.value))
  }

  /** The log holds every relevant event of the keys in a region, once, and none of other keys. */
  ghost predicate Exactly(s: Sides, region: Key -> bool, log: seq<Event>) {
    forall e :: Relevant(s.c, e) ==>
      multiset(log)[e] == if region(e.obj.key) && Local(s, e.obj.key) == Some(e) then 1 else 0
  }

  lemma {:induction false} DistinctOnce(log: seq<Event>, e: Event)
    requires KeysAscending(log)
    ensures multiset(log)[e] == if e in log then 1 else 0
  {
    if log != [] {
      assert log == [log[0]] + log[1..];
      DistinctOnce(log[1..], e);
      LessIrreflexive(log[0].obj.key);
    }
  }

  /** What a plan over two listings sees of a store is the region they list. */
  ghost predicate Shows(sel: Selection, objects: map<Key, Object>, region: Key -> bool, objs: seq<Object>) {
    Ascending(objs) && forall k :: Lookup(objs, k) == if region(k) then At(sel, objects, k) else None
  }

  lemma PlanExactly(s: Sides, limit: int, region: Key -> bool, a: seq<Object>, b: seq<Object>)
    requires limit < 0
    requires Shows(s.sel, s.src.objects, region, a)
    requires if s.c.forceUpdate then b == [] else Shows(s.sel, s.dst.objects, region, b)
    ensures Exactly(s, region, Plan(s.c, limit, Listing(a, false), Listing(b, false)).log)
  {
    var log := Plan(s.c, limit, Listing(a, false), Listing(b, false)).log;
    PlanTable(s.c, limit, Listing(a, false), Listing(b, false));
    forall e | Relevant(s.c, e)
      ensures multiset(log)[e] == if region(e.obj.key) && Local(s, e.obj.key) == Some(e) then 1 else 0
    {
      DistinctOnce(log, e);
      var k := e.obj.key;
      assert Verdict(s.c, a, b, k) == Some(e) <==> region(k) && Local(s, k) == Some(e);
    }
  }

  /** Filtering a listing shows the admitted objects of the region it lists. */
  lemma FilteredShows(sel: Selection, objects: map<Key, Object>, region: Key -> bool, objs: seq<Object>)
    requires WellKeyed(objects) && Ascending(objs)
    requires forall o :: o in objs <==> o.key in objects && objects[o.key] == o && region(o.key)
    ensures Shows(sel, objects, region, Admitted(sel, objs))
  {
    AdmittedAscending(sel, objs);
    forall k ensures Lookup(Admitted(sel, objs), k) == if region(k) then At(sel, objects, k) else None {
      if k in objects && region(k) { assert objects[k] in objs; }
    }
  }

  // ------------------------------------------------------------------ the two producers

  function Under(s: Sides, p: Key): Key -> bool {
    k => HasPrefix(k, p) && InRange(s, k)
  }

  /** A flat listing from the first key asked for to the last one. */
  function Ranged(s: Sides, objs: seq<Object>): (r: seq<Object>)
    ensures forall o :: o in r <==> o in objs && InRange(s, o.key)
  {
    if objs == [] then [] else (if InRange(s, objs[0].key) then [objs[0]] else []) + Ranged(s, objs[1..])
  }

  lemma {:induction false} RangedAscending(s: Sides, objs: seq<Object>)
    requires Ascending(objs)
    ensures Ascending(Ranged(s, objs))
  {
    if objs != [] {
      RangedAscending(s, objs[1..]);
      TailAbove(objs);
    }
  }

  function DirectlyUnder(p: Key): Key -> bool {
    k => HasPrefix(k, p) && Direct(p, k)
  }

  /** The flat producer: one plan over everything under the prefix that was asked for. */
  function SingleProducer(s: Sides, p: Key): seq<Event> {
    Plan(s.c, -1, Listing(Admitted(s.sel, Ranged(s, s.src.flat(p))), false),
         Listing(if s.c.forceUpdate then [] else Admitted(s.sel, Ranged(s, s.dst.flat(p))), false)).log
  }

  lemma FlatShows(s: Sides, st: Store, p: Key)
    requires Contract(st)
    ensures Shows(s.sel, st.objects, Under(s, p), Admitted(s.sel, Ranged(s, st.flat(p))))
  {
    hide InRange;
    assert ListsFlat(st.objects, p, st.flat(p));
    RangedAscending(s, st.flat(p));
    FilteredShows(s.sel, st.objects, Under(s, p), Ranged(s, st.flat(p)));
  }

  lemma SingleExactly(s: Sides, p: Key)
    requires Admissible(s)
    ensures Exactly(s, Under(s, p), SingleProducer(s, p))
  {
    FlatShows(s, s.src, p);
    FlatShows(s, s.dst, p);
    PlanExactly(s, -1, Under(s, p), Admitted(s.sel, Ranged(s, s.src.flat(p))),
                if s.c.forceUpdate then [] else Admitted(s.sel, Ranged(s, s.dst.flat(p))));
  }

  /** Splits a delimited listing into its objects and its common prefixes. */
  method ListCommonPrefix(p: Key, total: seq<Object>) returns (objs: seq<Object>, prefixes: seq<Key>)
    ensures objs == Plain(p, total) && prefixes == Prefixes(p, total)
  {
    hide Plain, Prefixes;
    objs, prefixes := [], [];
    PlainUnfold(p, total, 0);
    for i := 0 to |total|
      invariant objs + Plain(p, total[i..]) == Plain(p, total)
      invariant prefixes + Prefixes(p, total[i..]) == Prefixes(p, total)
    {
      PlainUnfold(p, total, i);
      Regroup(objs, total[i], Plain(p, total[i + 1..]));
      Regroup(prefixes, total[i].key, Prefixes(p, total[i + 1..]));
      if IsPrefixEntry(p, total[i]) {
        prefixes := prefixes + [total[i].key];
      } else {
        objs := objs + [total[i]];
      }
    }
    PlainUnfold(p, total, |total|);
  }

  lemma Regroup<T>(a: seq<T>, x: T, b: seq<T>)
    ensures a + ([x] + b) == (a + [x]) + b
    ensures a + ([] + b) == a + b
  {
    assert [] + b == b;
  }

  lemma PlainUnfold(p: Key, total: seq<Object>, i: nat)
    requires i <= |total|
    ensures i == 0 ==> total[i..] == total
    ensures i == |total| ==> Plain(p, total[i..]) == [] && Prefixes(p, total[i..]) == []
    ensures i < |total| ==>
      && Plain(p, total[i..]) == (if IsPrefixEntry(p, total[i]) then [] else [total[i]]) + Plain(p, total[i + 1..])
      && Prefixes(p, total[i..])
          == (if IsPrefixEntry(p, total[i]) then [total[i].key] else []) + Prefixes(p, total[i + 1..])
  {
  }

  function Plain(p: Key, total: seq<Object>): (r: seq<Object>)
    ensures forall o :: o in r <==> o in total && !IsPrefixEntry(p, o)
  {
    if total == [] then []
    else (if IsPrefixEntry(p, total[0]) then [] else [total[0]]) + Plain(p, total[1..])
  }

  function Prefixes(p: Key, total: seq<Object>): (r: seq<Key>)
    ensures forall c :: c in r <==> exists o :: o in total && IsPrefixEntry(p, o) && o.key == c
  {
    if total == [] then []
    else
      var rest := Prefixes(p, total[1..]);
      assert forall o :: o in total <==> o == total[0] || o in total[1..];
      (if IsPrefixEntry(p, total[0]) then [total[0].key] else []) + rest
  }

  lemma {:induction false} PlainAscending(p: Key, total: seq<Object>)
    requires Ascending(total)
    ensures Ascending(Plain(p, total))
  {
    if total != [] {
      PlainAscending(p, total[1..]);
      TailAbove(total);
    }
  }

  /** The direct part of a level: one plan over the objects that the level shows as they are. */
  function LevelPlan(s: Sides, p: Key): seq<Event> {
    Plan(s.c, -1, Listing(Admitted(s.sel, Plain(p, s.src.delimited(p))), false),
         Listing(if s.c.forceUpdate then [] else Admitted(s.sel, Plain(p, s.dst.delimited(p))), false)).log
  }

  lemma PlainShows(sel: Selection, st: Store, p: Key)
    requires Contract(st)
    ensures Shows(sel, st.objects, DirectlyUnder(p), Admitted(sel, Plain(p, st.delimited(p))))
  {
    var objs := Plain(p, st.delimited(p));
    assert ListsDelimited(st.objects, p, st.delimited(p));
    PlainAscending(p, st.delimited(p));
    forall o ensures o in objs <==> o.key in st.objects && st.objects[o.key] == o && DirectlyUnder(p)(o.key) {
      if o.key in st.objects && st.objects[o.key] == o && DirectlyUnder(p)(o.key) {
        DirectIsNoPrefixEntry(st.objects, p, o.key);
      }
    }
    FilteredShows(sel, st.objects, DirectlyUnder(p), objs);
  }

  lemma LevelExactly(s: Sides, p: Key)
    requires Admissible(s)
    ensures Exactly(s, DirectlyUnder(p), LevelPlan(s, p))
  {
    PlainShows(s.sel, s.src, p);
    PlainShows(s.sel, s.dst, p);
    PlanExactly(s, -1, DirectlyUnder(p), Admitted(s.sel, Plain(p, s.src.delimited(p))),
                if s.c.forceUpdate then [] else Admitted(s.sel, Plain(p, s.dst.delimited(p))));
  }

  /** The common prefixes that are passed over: those the rules exclude, by leveled matching whatever the
  matching of the run, and those that lie outside of what was asked for. */
  predicate PassedOver(s: Sides, c: Key) {
    || (|s.sel.rules| > 0 && !MatchLeveledPath(s.sel.rules, c))
    || Less(c, s.start)
    || (s.end != "" && Less(s.end, c))
  }

  /** The keys that the recursive producer lists: at its last level those asked for, above it whatever is
  on a level, and what is below a common prefix that is not passed over. */
  ghost predicate Reached(s: Sides, p: Key, k: Key, depth: nat)
    decreases depth
  {
    HasPrefix(k, p) &&
    if depth == 0 then InRange(s, k)
    else Direct(p, k) || (!PassedOver(s, CommonPrefix(p, k)) && Reached(s, CommonPrefix(p, k), k, depth - 1))
  }

  ghost function ReachedFrom(s: Sides, p: Key, depth: nat): Key -> bool {
    k => Reached(s, p, k, depth)
  }

  /** The keys covered by a level and the common prefixes done so far. */
  ghost function Covered(s: Sides, p: Key, done: set<Key>, depth: nat): Key -> bool
    requires depth > 0
  {
    k => Reached(s, p, k, depth) && (Direct(p, k) || CommonPrefix(p, k) in done)
  }

  lemma ReachedBelow(s: Sides, p: Key, c: Key, k: Key, depth: nat)
    requires IsCommonPrefix(p, c) && HasPrefix(k, c) && depth > 0
    ensures HasPrefix(k, p) && !Direct(p, k) && CommonPrefix(p, k) == c
    ensures Reached(s, p, k, depth) <==> !PassedOver(s, c) && Reached(s, c, k, depth - 1)
  {
    CommonPrefixUnique(p, c, k);
  }

  /** A child producer adds exactly the keys it reaches, none of them twice. */
  lemma AddChild(s: Sides, p: Key, done: set<Key>, c: Key, depth: nat, log: seq<Event>, sub: seq<Event>)
    requires IsCommonPrefix(p, c) && c !in done && depth > 0 && !PassedOver(s, c)
    requires Exactly(s, Covered(s, p, done, depth), log) && Exactly(s, ReachedFrom(s, c, depth - 1), sub)
    ensures Exactly(s, Covered(s, p, done + {c}, depth), log + sub)
  {
    hide Local, Relevant, IsCommonPrefix, PassedOver, InRange, Reached;
    forall e | Relevant(s.c, e)
      ensures multiset(log + sub)[e]
           == if Covered(s, p, done + {c}, depth)(e.obj.key) && Local(s, e.obj.key) == Some(e) then 1 else 0
    {
      AddedKeys(s, p, done, c, depth, e.obj.key);
    }
  }

  lemma AddedKeys(s: Sides, p: Key, done: set<Key>, c: Key, depth: nat, k: Key)
    requires IsCommonPrefix(p, c) && c !in done && depth > 0 && !PassedOver(s, c)
    ensures Covered(s, p, done + {c}, depth)(k) <==> Covered(s, p, done, depth)(k) || ReachedFrom(s, c, depth - 1)(k)
    ensures !(Covered(s, p, done, depth)(k) && ReachedFrom(s, c, depth - 1)(k))
  {
    hide InRange, PassedOver;
    if HasPrefix(k, c) {
      ReachedBelow(s, p, c, k, depth);
    }
  }

  /** A common prefix that is passed over adds nothing. */
  lemma SkipChild(s: Sides, p: Key, done: set<Key>, c: Key, depth: nat, log: seq<Event>)
    requires IsCommonPrefix(p, c) && depth > 0 && PassedOver(s, c)
    requires Exactly(s, Covered(s, p, done, depth), log)
    ensures Exactly(s, Covered(s, p, done + {c}, depth), log)
  {
    hide Local, Relevant, IsCommonPrefix, PassedOver, InRange;
    forall k ensures Covered(s, p, done + {c}, depth)(k) == Covered(s, p, done, depth)(k) {}
  }

  lemma PrefixListed(st: Store, p: Key, k: Key)
    requires Contract(st) && k in st.objects && HasPrefix(k, p) && !Direct(p, k)
    ensures CommonPrefix(p, k) in Prefixes(p, st.delimited(p))
  {
    assert ListsDelimited(st.objects, p, st.delimited(p));
  }

  /** A relevant event is about a key of the source, or of a destination that is searched. */
  lemma EventSide(s: Sides, e: Event)
    requires Admissible(s) && Relevant(s.c, e) && Local(s, e.obj.key) == Some(e)
    ensures e.obj.key in s.src.objects || (e.obj.key in s.dst.objects && s.c.deleteDst && !s.c.forceUpdate)
  {
  }

  /** Once the listed common prefixes are done, every relevant key that is reached is covered. */
  lemma AllCovered(s: Sides, p: Key, done: set<Key>, depth: nat, log: seq<Event>)
    requires Admissible(s) && depth > 0 && Exactly(s, Covered(s, p, done, depth), log)
    requires forall c :: c in Prefixes(p, s.src.delimited(p)) ==> c in done
    requires s.c.deleteDst && !s.c.forceUpdate ==> forall c :: c in Prefixes(p, s.dst.delimited(p)) ==> c in done
    ensures Exactly(s, ReachedFrom(s, p, depth), log)
  {
    hide Local, Relevant, Prefixes, IsCommonPrefix, Contract, PassedOver, InRange;
    forall e | Relevant(s.c, e)
      ensures multiset(log)[e] == if ReachedFrom(s, p, depth)(e.obj.key) && Local(s, e.obj.key) == Some(e) then 1 else 0
    {
      var k := e.obj.key;
      if Reached(s, p, k, depth) && Local(s, k) == Some(e) && !Direct(p, k) {
        EventSide(s, e);
        if k in s.src.objects { PrefixListed(s.src, p, k); }
        if k in s.dst.objects { PrefixListed(s.dst, p, k); }
        assert CommonPrefix(p, k) in done;
      }
    }
  }

  /** The common prefixes of a level; those of the destination are searched only for deletions. */
  method CommonPrefixes(s: Sides, p: Key) returns (commonPrefix: seq<Key>)
    requires Admissible(s)
    ensures forall c :: c in commonPrefix ==> IsCommonPrefix(p, c)
    ensures forall c :: c in Prefixes(p, s.src.delimited(p)) ==> c in commonPrefix
    ensures s.c.deleteDst && !s.c.forceUpdate ==> forall c :: c in Prefixes(p, s.dst.delimited(p)) ==> c in commonPrefix
    ensures forall c :: c in commonPrefix ==>
      || c in Prefixes(p, s.src.delimited(p))
      || (s.c.deleteDst && !s.c.forceUpdate && c in Prefixes(p, s.dst.delimited(p)))
  {
    PrefixesAreCommon(s.src, p);
    PrefixesAreCommon(s.dst, p);
    hide Prefixes, Plain, IsCommonPrefix, Contract;
    var objs;
    objs, commonPrefix := ListCommonPrefix(p, s.src.delimited(p));
    if s.c.deleteDst && !s.c.forceUpdate {
      var dcp;
      objs, dcp := ListCommonPrefix(p, s.dst.delimited(p));
      commonPrefix := commonPrefix + dcp;
    }
  }

  /** The recursive producer: it plans exactly the keys it reaches, each once. The sends of its concurrent
  children interleave arbitrarily; the log stands for the multiset of all events. */
  method StartProducer(s: Sides, p: Key, listDepth: nat, listThreads: int) returns (log: seq<Event>)
    requires Admissible(s)
    ensures Exactly(s, ReachedFrom(s, p, if listThreads <= 1 then 0 else listDepth), log)
    decreases listDepth
  {
    hide Prefixes, Plain, Exactly, SingleProducer, LevelPlan, Relevant, Admissible, IsCommonPrefix;
    hide Covered, Under, ReachedFrom, PassedOver;
    if listThreads <= 1 || listDepth == 0 {
      SingleExactly(s, p);
      SingleReached(s, p, SingleProducer(s, p));
      return SingleProducer(s, p);
    }
    var commonPrefix := CommonPrefixes(s, p);
    log := LevelPlan(s, p);
    LevelExactly(s, p);
    StartCovered(s, p, listDepth, log);
    var processing: set<Key> := {};
    for i := 0 to |commonPrefix|
      invariant Exactly(s, Covered(s, p, processing, listDepth), log)
      invariant forall j :: 0 <= j < i ==> commonPrefix[j] in processing
    {
      var c := commonPrefix[i];
      if c in processing {
        continue;
      }
      ghost var done := processing;
      processing := processing + {c};
      if PassedOver(s, c) {
        SkipChild(s, p, done, c, listDepth, log);
        continue;
      }
      var sub := StartProducer(s, c, listDepth - 1, listThreads);
      AddChild(s, p, done, c, listDepth, log, sub);
      log := log + sub;
    }
    AllCovered(s, p, processing, listDepth, log);
  }

  lemma SingleReached(s: Sides, p: Key, log: seq<Event>)
    requires Exactly(s, Under(s, p), log)
    ensures Exactly(s, ReachedFrom(s, p, 0), log)
  {
    hide Local, Relevant, InRange;
    forall k ensures ReachedFrom(s, p, 0)(k) == Under(s, p)(k) {}
  }

  lemma PrefixesAreCommon(st: Store, p: Key)
    requires Contract(st)
    ensures forall c :: c in Prefixes(p, st.delimited(p)) ==> IsCommonPrefix(p, c)
  {
    assert ListsDelimited(st.objects, p, st.delimited(p));
  }

  lemma StartCovered(s: Sides, p: Key, depth: nat, log: seq<Event>)
    requires depth > 0 && Exactly(s, DirectlyUnder(p), log)
    ensures Exactly(s, Covered(s, p, {}, depth), log)
  {
    hide Local, Relevant, InRange, PassedOver;
    forall k ensures Covered(s, p, {}, depth)(k) == DirectlyUnder(p)(k) {}
  }

  // ------------------------------------------------------------------ when the two agree

  ghost predicate SameRelevant(c: Config, a: seq<Event>, b: seq<Event>) {
    forall e :: Relevant(c, e) ==> multiset(a)[e] == multiset(b)[e]
  }

  /** Something that matters is to become of the key. */
  ghost predicate Matters(s: Sides, k: Key) {
    Local(s, k).Some? && Relevant(s.c, Local(s, k).value)
  }

  lemma LocalKey(s: Sides, k: Key)
    requires Admissible(s) && Local(s, k).Some?
    ensures Local(s, k).value.obj.key == k
  {
  }

  /** The recursive and the flat producer plan the same if and only if the keys that matter are reached
  exactly when they were asked for. */
  lemma AgreeIffReached(s: Sides, p: Key, depth: nat, log: seq<Event>)
    requires Admissible(s) && Exactly(s, ReachedFrom(s, p, depth), log)
    ensures SameRelevant(s.c, log, SingleProducer(s, p))
       <==> forall k :: Matters(s, k) && HasPrefix(k, p) ==> (Reached(s, p, k, depth) <==> InRange(s, k))
  {
    SingleExactly(s, p);
    hide Local, Relevant, InRange, PassedOver, SingleProducer, Admissible;
    var flat := SingleProducer(s, p);
    if SameRelevant(s.c, log, flat) {
      forall k | Matters(s, k) && HasPrefix(k, p) ensures Reached(s, p, k, depth) <==> InRange(s, k) {
        LocalKey(s, k);
        var e := Local(s, k).value;
        assert multiset(log)[e] == multiset(flat)[e];
      }
    }
    if forall k :: Matters(s, k) && HasPrefix(k, p) ==> (Reached(s, p, k, depth) <==> InRange(s, k)) {
      forall e | Relevant(s.c, e) ensures multiset(log)[e] == multiset(flat)[e] {
        assert Local(s, e.obj.key) == Some(e) ==> Matters(s, e.obj.key);
      }
    }
  }

  lemma AdmittedAbove(s: Sides, p: Key, k: Key)
    requires HasPrefix(k, p) && !Direct(p, k) && MatchLeveledPath(s.sel.rules, k)
    ensures MatchLeveledPath(s.sel.rules, CommonPrefix(p, k))
  {
    hide MatchLeveledPath;
    ExcludedDirectoryExcludesBelow(s.sel.rules, CommonPrefix(p, k), k);
  }

  /** A key asked for that leveled matching admits is missed exactly when the start lies in the same
  directory of the first level. */
  lemma {:induction false} MissedWithStart(s: Sides, p: Key, k: Key, depth: nat)
    requires HasPrefix(k, p) && InRange(s, k) && MatchLeveledPath(s.sel.rules, k)
    ensures !Reached(s, p, k, depth)
       <==> depth > 0 && !Direct(p, k) && HasPrefix(s.start, CommonPrefix(p, k)) && s.start != CommonPrefix(p, k)
    decreases depth
  {
    hide Less, MatchLeveledPath;
    if depth > 0 && !Direct(p, k) {
      var c := CommonPrefix(p, k);
      AdmittedAbove(s, p, k);
      PrefixNotGreater(c, k);
      LessIrreflexive(c);
      if HasPrefix(s.start, c) {
        PrefixNotGreater(c, s.start);
      } else if Less(c, s.start) {
        OutsidePrefix(c, k, s.start);
      }
      if s.end != "" && Less(s.end, c) && c != k { LessTransitive(s.end, c, k); }
      MissedWithStart(s, c, k, depth - 1);
    }
  }

  /** A key before the start is planned, without having been asked for, exactly if it lies on the first
  level; everything below that is passed over or held against the start. */
  lemma StrayBeforeStart(s: Sides, p: Key, k: Key, depth: nat)
    requires HasPrefix(k, p) && Less(k, s.start)
    ensures Reached(s, p, k, depth) <==> depth > 0 && Direct(p, k)
  {
    hide Less, MatchLeveledPath;
    if depth > 0 && !Direct(p, k) {
      var c := CommonPrefix(p, k);
      PrefixNotGreater(c, k);
      if c != k {
        LessTotal(c, k);
        LessTransitive(c, k, s.start);
      }
    }
  }

  /** A key behind the end is planned, without having been asked for, exactly if it lies on a level above
  the last one and every common prefix on the way to it is one of the end's. */
  lemma StrayBehindEnd(s: Sides, p: Key, k: Key, depth: nat)
    requires HasPrefix(k, p) && s.start == "" && s.end != "" && Less(s.end, k) && MatchLeveledPath(s.sel.rules, k)
    ensures Reached(s, p, k, depth)
       <==> depth > 0 && (Direct(p, k) || (
              HasPrefix(s.end, CommonPrefix(p, k)) && Reached(s, CommonPrefix(p, k), k, depth - 1)))
  {
    if depth > 0 && !Direct(p, k) {
      var c := CommonPrefix(p, k);
      AdmittedAbove(s, p, k);
      assert !Less(c, s.start);
      hide Less, MatchLeveledPath;
      if HasPrefix(s.end, c) {
        PrefixNotGreater(c, s.end);
        LessIrreflexive(c);
        if Less(c, s.end) { LessAsymmetric(c, s.end); }
      } else {
        LessTotal(s.end, c);
        if !Less(s.end, c) {
          if s.end != c { OutsidePrefix(c, k, s.end); }
          LessAsymmetric(s.end, k);
        }
      }
    }
  }

  /** Nothing is passed over with leveled matching and no start: so the two producers then agree, if there
  is no end either, for every hierarchy, depth and list of rules. */
  lemma LeveledAgree(s: Sides, p: Key, depth: nat, log: seq<Event>)
    requires Admissible(s) && !s.sel.matchFullPath && s.start == "" && s.end == ""
    requires Exactly(s, ReachedFrom(s, p, depth), log)
    ensures SameRelevant(s.c, log, SingleProducer(s, p))
  {
    forall k | Matters(s, k) && HasPrefix(k, p) ensures Reached(s, p, k, depth) && InRange(s, k) {
      assert InRange(s, k);
      MatteringIsAdmitted(s, k);
      MissedWithStart(s, p, k, depth);
    }
    hide Matters, Reached, InRange;
    AgreeIffReached(s, p, depth, log);
  }

  lemma MatteringIsAdmitted(s: Sides, k: Key)
    requires Admissible(s) && Matters(s, k) && !s.sel.matchFullPath
    ensures MatchLeveledPath(s.sel.rules, k)
  {
  }

  // ------------------------------------------------------------------ where they differ

  /** A store with a single object. */
  function OneObject(o: Object): Store {
    Store(map[o.key := o],
          p => if HasPrefix(o.key, p) then [o] else [],
          p => if !HasPrefix(o.key, p) then [] else if Direct(p, o.key) then [o]
               else [Object(CommonPrefix(p, o.key), 0, 0, true, false, o.perms)])
  }

  function Empty(): Store {
    Store(map[], p => [], p => [])
  }

  lemma OneObjectContract(o: Object)
    requires !o.isDir
    ensures Contract(OneObject(o)) && Contract(Empty())
  {
    var st := OneObject(o);
    forall p ensures ListsDelimited(st.objects, p, st.delimited(p)) {
      if HasPrefix(o.key, p) && !Direct(p, o.key) {
        var d := st.delimited(p)[0];
        PrefixNotGreater(p, d.key);
        assert d in st.delimited(p);
      }
    }
  }

  /** With whole-path matching the rule that excludes `a/` admits `a/b`, which the flat producer plans and
  the recursive one, passing over `a/`, does not. */
  lemma WholePathLoses(s: Sides, o: Object, log: seq<Event>)
    requires o.key == "a/b" && !o.isDir && WithinLimits(s.sel.limits, o) && !s.c.existing
    requires s.sel.matchFullPath && s.sel.rules == [Rule("a/", false)] && s.start == "" && s.end == ""
    requires s.src == OneObject(o) && s.dst == Empty()
    requires Exactly(s, ReachedFrom(s, "", 1), log)
    ensures Admissible(s) && !SameRelevant(s.c, log, SingleProducer(s, ""))
    ensures Event(Copy, o) !in log && Event(Copy, o) in SingleProducer(s, "")
  {
    OneObjectContract(o);
    FullPathKeepsBelowExcluded();
    assert Local(s, "a/b") == Some(Event(Copy, o));
    CommonPrefixUnique("", "a/", "a/b");
    assert !Reached(s, "", "a/b", 1);
    hide PathAdmitted, MatchLeveledPath, MatchFullPath;
    SingleExactly(s, "");
    assert Under(s, "")("a/b");
    assert multiset(log)[Event(Copy, o)] == 0 && multiset(SingleProducer(s, ""))[Event(Copy, o)] == 1;
  }

  /** With a start, the recursive producer plans objects of its levels that were not asked for. */
  lemma StrayKey(s: Sides, o: Object, log: seq<Event>)
    requires o.key == "a" && !o.isDir && WithinLimits(s.sel.limits, o) && !s.c.existing
    requires s.sel.rules == [] && s.start == "b"
    requires s.src == OneObject(o) && s.dst == Empty()
    requires Exactly(s, ReachedFrom(s, "", 1), log)
    ensures Admissible(s) && Event(Copy, o) in log && Event(Copy, o) !in SingleProducer(s, "")
  {
    OneObjectContract(o);
    assert Local(s, "a") == Some(Event(Copy, o)) by { assert PathAdmitted(s.sel, "a"); }
    assert Reached(s, "", "a", 1);
    SingleExactly(s, "");
    assert Less("a", "b") && !Under(s, "")("a");
    assert multiset(log)[Event(Copy, o)] == 1 && multiset(SingleProducer(s, ""))[Event(Copy, o)] == 0;
  }
}

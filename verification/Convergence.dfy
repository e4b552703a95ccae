/** What a run achieves: a mirroring run makes the admitted part of the destination agree with the
source and leaves the rest alone, and the next run has nothing to do. */
module Convergence {
  import opened Keys
  import opened Objects
  import opened Planner
  import opened DecisionTable
  import opened PlannerRuns
  import opened Filter
  import Multipart
  import Worker

  /** A store, seen through its listings: the object listed under each key. */
  type Store = map<Key, Object>

  ghost predicate WellKeyed(s: Store) {
    forall k :: k in s ==> s[k].key == k
  }

  /** `objs` lists the store in key order. */
  ghost predicate Lists(objs: seq<Object>, s: Store) {
    Ascending(objs) && forall o :: o in objs <==> o.key in s && s[o.key] == o
  }

  /** Mirroring by size: everything that the destination alone has is deleted. */
  predicate Mirroring(c: Config) {
    && c.deleteDst && c.dirs
    && !c.update && !c.forceUpdate && !c.existing && !c.ignoreExisting
    && !c.checkAll && !c.perms && !c.deleteSrc
  }

  /** The age limits are off, so that only the path rules and the size limits select. */
  predicate NoAges(l: Limits) {
    l.maxAge <= 0 && l.minAge <= 0 && l.startTime.None? && l.endTime.None?
  }

  /** No object of the store is outside the size limits. */
  ghost predicate SizesAdmitted(l: Limits, s: Store) {
    forall k :: k in s ==> WithinLimits(l, s[k])
  }

  /** An event to be carried out; for a copy in parts, how the object is cut. */
  datatype Deed = Deed(e: Event, copy: Option<Multipart.Copy>)

  ghost predicate Fitting(d: Deed) {
    d.copy.Some? ==>
      && d.e.action == Copy && Multipart.Valid(d.copy.value)
      && d.copy.value.key == d.e.obj.key && |d.copy.value.src| == d.e.obj.size
  }

  /** The key is the temporary name of a part that nests. */
  ghost predicate Takes(d: Deed, k: Key) {
    Fitting(d) && d.copy.Some? && Multipart.IsTmp(d.copy.value, k)
  }

  lemma TakesOthers(d: Deed, k: Key)
    requires Takes(d, k)
    ensures k != d.e.obj.key
  {
    var p: nat :| p < Multipart.Count(d.copy.value) && k == Multipart.TmpKey(d.copy.value.key, p);
    Multipart.TmpKeysApart(d.copy.value.key, p, p);
  }

  /** Carrying out one event on the destination. A copy has the size and kind of its source; its
  modification time and owner may come out differently. What bore a temporary name of it is gone. */
  ghost predicate Carried(d: Deed, before: Store, after: Store) {
    match d.e.action
    case Copy =>
      && Done(d.e, after)
      && forall k :: k != d.e.obj.key ==> if Takes(d, k) then k !in after else SameAt(k, before, after)
    case DeleteDst => after == before - {d.e.obj.key}
    case _ => false
  }

  /** `states` are the stores a destination goes through while the deeds of `work` are carried out. */
  ghost predicate Execution(work: seq<Deed>, states: seq<Store>) {
    && |states| == |work| + 1
    && forall i, j :: 0 <= i < |work| && j == i + 1 ==> Carried(work[i], states[i], states[j])
  }

  /** The workers and the delayed deletions carry out every emitted event, in any order; a retried
  event may be carried out again. */
  ghost predicate CarriesOut(work: seq<Deed>, log: seq<Event>) {
    && (forall d :: d in work ==> Fitting(d) && d.e in log && Emits(d.e))
    && (forall e :: e in log && Emits(e) ==> exists d :: d in work && d.e == e)
  }

  /** The last deed to concern the key has taken it as a temporary name. */
  ghost predicate Taken(work: seq<Deed>, k: Key)
    decreases |work|
  {
    work != [] &&
    var d := work[|work| - 1];
    d.e.obj.key != k && (Takes(d, k) || Taken(work[..|work| - 1], k))
  }

  ghost predicate SameAt(k: Key, a: Store, b: Store) {
    (k in a <==> k in b) && (k in a ==> a[k] == b[k])
  }

  /** What a store has under the key of an event once that event is carried out. */
  ghost predicate Done(e: Event, s: Store) {
    match e.action
    case Copy =>
      && e.obj.key in s && s[e.obj.key].key == e.obj.key && s[e.obj.key].size == e.obj.size
      && s[e.obj.key].isDir == e.obj.isDir && s[e.obj.key].isSymlink == e.obj.isSymlink
    case DeleteDst => e.obj.key !in s
    case _ => true
  }

  lemma {:induction false} KeyTaken(work: seq<Deed>, states: seq<Store>, k: Key)
    requires Execution(work, states) && Taken(work, k)
    ensures k !in states[|work|]
    decreases |work|
  {
    var n := |work| - 1;
    assert Carried(work[n], states[n], states[n + 1]);
    if !Takes(work[n], k) {
      hide Takes;
      KeyTaken(work[..n], states[..|work|], k);
      assert states[..|work|][n] == states[n];
    }
  }

  lemma {:induction false} KeyUntouched(work: seq<Deed>, states: seq<Store>, k: Key)
    requires Execution(work, states) && !Taken(work, k) && forall d :: d in work ==> d.e.obj.key != k
    ensures SameAt(k, states[0], states[|work|])
    decreases |work|
  {
    hide Takes;
    if work != [] {
      var n := |work| - 1;
      KeyUntouched(work[..n], states[..|work|], k);
      assert Carried(work[n], states[n], states[n + 1]) && work[n] in work;
    }
  }

  lemma {:induction false} KeyDone(work: seq<Deed>, states: seq<Store>, e: Event)
    requires Execution(work, states) && exists d :: d in work && d.e == e
    requires forall d :: d in work && d.e.obj.key == e.obj.key ==> d.e == e
    requires e.action == DeleteDst || !Taken(work, e.obj.key)
    ensures Done(e, states[|work|])
    decreases |work|
  {
    var n := |work| - 1;
    assert Carried(work[n], states[n], states[n + 1]) && work[n] in work;
    if work[n].e != e && !Takes(work[n], e.obj.key) {
      assert work == work[..n] + [work[n]];
      KeyDone(work[..n], states[..|work|], e);
      assert states[..|work|][n] == states[n];
    }
  }

  lemma LookupListed(objs: seq<Object>, s: Store, k: Key)
    requires WellKeyed(s) && Lists(objs, s)
    ensures Lookup(objs, k) == if k in s then Some(s[k]) else None
  {
    if k in s { assert s[k] in objs; }
  }

  /** The admitted objects of a listing list the admitted part of the store. */
  function AdmittedPart(sel: Selection, s: Store): Store {
    map k | k in s && PathAdmitted(sel, k) :: s[k]
  }

  lemma AdmittedLists(sel: Selection, objs: seq<Object>, s: Store)
    requires WellKeyed(s) && Lists(objs, s) && SizesAdmitted(sel.limits, s)
    ensures Lists(Admitted(sel, objs), AdmittedPart(sel, s)) && WellKeyed(AdmittedPart(sel, s))
  {
    AdmittedAscending(sel, objs);
    forall o ensures o in Admitted(sel, objs) <==> o.key in AdmittedPart(sel, s) && AdmittedPart(sel, s)[o.key] == o {
      if o.key in s && s[o.key] == o { assert o in objs; }
    }
  }

  /** The plan of a mirroring run for two listed stores. */
  function Mirror(c: Config, limit: int, sel: Selection, srcObjs: seq<Object>, dstObjs: seq<Object>): seq<Event> {
    Plan(c, limit, Listing(Admitted(sel, srcObjs), false), Listing(Admitted(sel, dstObjs), false)).log
  }

  /** The verdicts of a mirroring run, in terms of the stores. */
  lemma MirrorVerdict(c: Config, limit: int, sel: Selection, srcObjs: seq<Object>, dstObjs: seq<Object>, src: Store,
                      dst: Store, e: Event)
    requires Mirroring(c) && limit < 0
    requires WellKeyed(src) && WellKeyed(dst) && Lists(srcObjs, src) && Lists(dstObjs, dst)
    requires SizesAdmitted(sel.limits, src) && SizesAdmitted(sel.limits, dst)
    ensures var k := e.obj.key; e in Mirror(c, limit, sel, srcObjs, dstObjs) <==>
      && PathAdmitted(sel, k)
      && (if k in src then
            e == Event(if k in dst && src[k].size == dst[k].size then Skip else Copy, src[k])
          else k in dst && e == Event(DeleteDst, dst[k]))
  {
    var s, d := Admitted(sel, srcObjs), Admitted(sel, dstObjs);
    AdmittedLists(sel, srcObjs, src);
    AdmittedLists(sel, dstObjs, dst);
    PlanTable(c, limit, Listing(s, false), Listing(d, false));
    var k := e.obj.key;
    LookupListed(s, AdmittedPart(sel, src), k);
    LookupListed(d, AdmittedPart(sel, dst), k);
  }

  /** A key that the destination is to have in the end. */
  predicate Needed(sel: Selection, src: Store, dst: Store, k: Key) {
    if PathAdmitted(sel, k) then k in src else k in dst
  }

  /** What a mirroring run is for: the admitted keys of the destination are those of the source, with equal
  sizes, and what is excluded is as it was. */
  ghost predicate Mirrored(sel: Selection, src: Store, dst: Store, end: Store) {
    forall k ::
      && (!PathAdmitted(sel, k) ==> SameAt(k, dst, end))
      && (PathAdmitted(sel, k) ==> (k in end <==> k in src))
      && (PathAdmitted(sel, k) && k in src ==> end[k].size == src[k].size)
  }

  predicate SameKind(a: Object, b: Object) {
    a.isDir == b.isDir && a.isSymlink == b.isSymlink && a.size == b.size
  }

  ghost predicate MirroredAt(sel: Selection, k: Key, src: Store, dst: Store, end: Store) {
    && (!PathAdmitted(sel, k) ==> SameAt(k, dst, end))
    && (PathAdmitted(sel, k) ==> (k in end <==> k in src))
    && (PathAdmitted(sel, k) && k in src ==> end[k].size == src[k].size)
    && (k in end ==> end[k].key == k)
    && (k in end ==> SameAt(k, dst, end) || (k in src && SameKind(end[k], src[k])))
  }

  /** A run to mirror `src` at `dst`: the listings of both, and the deeds with the states they lead to. */
  datatype Run = Run(srcObjs: seq<Object>, dstObjs: seq<Object>, work: seq<Deed>, states: seq<Store>)

  ghost predicate Listed(sel: Selection, objs: seq<Object>, s: Store) {
    WellKeyed(s) && Lists(objs, s) && SizesAdmitted(sel.limits, s)
  }

  ghost predicate IsRun(c: Config, limit: int, sel: Selection, src: Store, dst: Store, r: Run) {
    && Mirroring(c) && limit < 0
    && Listed(sel, r.srcObjs, src) && Listed(sel, r.dstObjs, dst)
    && CarriesOut(r.work, Mirror(c, limit, sel, r.srcObjs, r.dstObjs))
    && Execution(r.work, r.states) && r.states[0] == dst
  }

  function End(r: Run): Store
    requires |r.states| == |r.work| + 1
  {
    r.states[|r.work|]
  }

  /** What a mirroring run plans for a key, if anything. */
  function Planned(sel: Selection, src: Store, dst: Store, k: Key): Option<Event> {
    if !PathAdmitted(sel, k) then None
    else if k in src then if k in dst && src[k].size == dst[k].size then None else Some(Event(Copy, src[k]))
    else if k in dst then Some(Event(DeleteDst, dst[k]))
    else None
  }

  lemma DeedsOn(c: Config, limit: int, sel: Selection, src: Store, dst: Store, r: Run, k: Key)
    requires IsRun(c, limit, sel, src, dst, r)
    ensures forall d :: d in r.work && d.e.obj.key == k ==> Planned(sel, src, dst, k) == Some(d.e)
    ensures Planned(sel, src, dst, k).Some? ==>
      var e := Planned(sel, src, dst, k).value; e.obj.key == k && exists d :: d in r.work && d.e == e
  {
    forall d | d in r.work && d.e.obj.key == k ensures Planned(sel, src, dst, k) == Some(d.e) {
      MirrorVerdict(c, limit, sel, r.srcObjs, r.dstObjs, src, dst, d.e);
    }
    if Planned(sel, src, dst, k).Some? {
      MirrorVerdict(c, limit, sel, r.srcObjs, r.dstObjs, src, dst, Planned(sel, src, dst, k).value);
    }
  }

  /** A key comes out right, unless it is needed and has been taken: then it is gone. */
  lemma MirrorKey(c: Config, limit: int, sel: Selection, src: Store, dst: Store, r: Run, k: Key)
    requires IsRun(c, limit, sel, src, dst, r)
    ensures Taken(r.work, k) ==> k !in End(r)
    ensures MirroredAt(sel, k, src, dst, End(r)) <==> !(Needed(sel, src, dst, k) && Taken(r.work, k))
  {
    DeedsOn(c, limit, sel, src, dst, r, k);
    hide Mirror, PathAdmitted, Takes, Fitting, Lists, CarriesOut, Carried, SizesAdmitted;
    if Taken(r.work, k) { KeyTaken(r.work, r.states, k); }
    var e := Planned(sel, src, dst, k);
    if e.Some? {
      if e.value.action == DeleteDst || !Taken(r.work, k) { KeyDone(r.work, r.states, e.value); }
    } else if !Taken(r.work, k) {
      KeyUntouched(r.work, r.states, k);
    }
  }

  /** A mirroring run does what it is for if and only if no key that is needed has been taken last. */
  lemma MirrorConverges(c: Config, limit: int, sel: Selection, src: Store, dst: Store, r: Run)
    requires IsRun(c, limit, sel, src, dst, r)
    ensures Mirrored(sel, src, dst, End(r)) <==> forall k :: Needed(sel, src, dst, k) ==> !Taken(r.work, k)
    ensures WellKeyed(End(r))
  {
    hide PathAdmitted, Taken, Lists, Mirror, CarriesOut, SizesAdmitted;
    forall k
      ensures Needed(sel, src, dst, k) && Taken(r.work, k) ==> k !in End(r)
      ensures MirroredAt(sel, k, src, dst, End(r)) <==> !(Needed(sel, src, dst, k) && Taken(r.work, k))
    {
      MirrorKey(c, limit, sel, src, dst, r, k);
    }
  }

  // ------------------------------------------------------------------ which runs do

  ghost predicate UsesCuts(work: seq<Deed>, cut: Event -> Option<Multipart.Copy>) {
    forall d :: d in work ==> d.copy == cut(d.e)
  }

  /** Each planned copy can be cut in that way. */
  ghost predicate Cuts(log: seq<Event>, cut: Event -> Option<Multipart.Copy>) {
    forall e :: e in log ==> Fitting(Deed(e, cut(e)))
  }

  /** Every mirroring run does what it is for, in whatever order the tasks are carried out, if and only if
  no key that is needed is a temporary name of an object that is copied. */
  lemma ConvergesIff(c: Config, limit: int, sel: Selection, src: Store, dst: Store, srcObjs: seq<Object>,
                     dstObjs: seq<Object>,
                     cut: Event -> Option<Multipart.Copy>)
    requires Mirroring(c) && limit < 0 && Listed(sel, srcObjs, src) && Listed(sel, dstObjs, dst)
    requires Cuts(Mirror(c, limit, sel, srcObjs, dstObjs), cut)
    ensures
      (forall work, states ::
         IsRun(c, limit, sel, src, dst, Run(srcObjs, dstObjs, work, states)) && UsesCuts(work, cut) ==>
           Mirrored(sel, src, dst, End(Run(srcObjs, dstObjs, work, states))))
      <==> (forall e, k :: e in Mirror(c, limit, sel, srcObjs, dstObjs) && Emits(e) && Needed(sel, src, dst, k) ==>
              !Takes(Deed(e, cut(e)), k))
  {
    var log := Mirror(c, limit, sel, srcObjs, dstObjs);
    forall e | e in log && Emits(e) ensures e.action == Copy || e.action == DeleteDst {
      MirrorVerdict(c, limit, sel, srcObjs, dstObjs, src, dst, e);
    }
    hide Mirror, PathAdmitted, Takes, Fitting, Lists, SizesAdmitted, WellKeyed, Mirroring, Mirrored;
    if e, k :| e in log && Emits(e) && Needed(sel, src, dst, k) && Takes(Deed(e, cut(e)), k) {
      var work, states := TakerLast(log, cut, e, dst);
      var r := Run(srcObjs, dstObjs, work, states);
      TakesOthers(Deed(e, cut(e)), k);
      assert IsRun(c, limit, sel, src, dst, r) && UsesCuts(work, cut);
      MirrorConverges(c, limit, sel, src, dst, r);
      assert Taken(work, k);
    } else {
      forall work, states | IsRun(c, limit, sel, src, dst, Run(srcObjs, dstObjs, work, states)) && UsesCuts(work, cut)
        ensures Mirrored(sel, src, dst, End(Run(srcObjs, dstObjs, work, states)))
      {
        forall k | Needed(sel, src, dst, k) ensures !Taken(work, k) {
          NeverTaken(work, k);
        }
        MirrorConverges(c, limit, sel, src, dst, Run(srcObjs, dstObjs, work, states));
      }
    }
  }

  lemma {:induction false} NeverTaken(work: seq<Deed>, k: Key)
    requires forall d :: d in work ==> !Takes(d, k)
    ensures !Taken(work, k)
    decreases |work|
  {
    hide Takes;
    if work != [] { NeverTaken(work[..|work| - 1], k); }
  }

  /** One way to carry out the log, with a given event last. */
  lemma TakerLast(log: seq<Event>, cut: Event -> Option<Multipart.Copy>, e: Event, dst: Store)
    returns (work: seq<Deed>, states: seq<Store>)
    requires Cuts(log, cut) && e in log && Emits(e)
    requires forall x :: x in log && Emits(x) ==> x.action == Copy || x.action == DeleteDst
    ensures CarriesOut(work, log) && UsesCuts(work, cut) && Execution(work, states) && states[0] == dst
    ensures work != [] && work[|work| - 1] == Deed(e, cut(e))
  {
    hide Fitting;
    work := Others(log, cut, e);
    OthersAre(log, cut, e);
    work := work + [Deed(e, cut(e))];
    states := Performed(work, dst);
  }

  /** The deeds for the emitted events but one. */
  function Others(log: seq<Event>, cut: Event -> Option<Multipart.Copy>, e: Event): seq<Deed> {
    if log == [] then []
    else (if Emits(log[0]) && log[0] != e then [Deed(log[0], cut(log[0]))] else []) + Others(log[1..], cut, e)
  }

  lemma {:induction false} OthersAre(log: seq<Event>, cut: Event -> Option<Multipart.Copy>, e: Event)
    ensures forall d :: d in Others(log, cut, e) <==> d.e in log && Emits(d.e) && d.e != e && d.copy == cut(d.e)
  {
    if log != [] {
      OthersAre(log[1..], cut, e);
    }
  }

  /** Any deeds can be carried out. */
  lemma {:induction false} Performed(work: seq<Deed>, dst: Store) returns (states: seq<Store>)
    requires forall d :: d in work ==> d.e.action == Copy || d.e.action == DeleteDst
    ensures Execution(work, states) && states[0] == dst
    decreases |work|
  {
    states := [dst];
    if work != [] {
      var n := |work| - 1;
      states := Performed(work[..n], dst);
      assert work[n] in work;
      states := states + [After(work[n], states[n])];
      AfterIsCarried(work[n], states[n]);
      hide Carried;
    }
  }

  ghost function After(d: Deed, s: Store): Store {
    if d.e.action == DeleteDst then s - {d.e.obj.key}
    else (map k | k in s && !Takes(d, k) :: s[k])[d.e.obj.key := d.e.obj]
  }

  lemma AfterIsCarried(d: Deed, s: Store)
    requires d.e.action == Copy || d.e.action == DeleteDst
    ensures Carried(d, s, After(d, s))
  {
    hide Takes;
  }

  /** What is taken for a temporary name and written by nobody else, being excluded or the same on both
  sides, is gone after every such run. */
  lemma MirrorLoses(c: Config, limit: int, sel: Selection, src: Store, dst: Store, r: Run, d: Deed, k: Key)
    requires IsRun(c, limit, sel, src, dst, r) && d in r.work && Takes(d, k) && k in dst
    requires PathAdmitted(sel, k) ==> k in src && src[k].size == dst[k].size
    ensures k !in End(r) && !Mirrored(sel, src, dst, End(r))
  {
    DeedsOn(c, limit, sel, src, dst, r, k);
    TakenOnce(r.work, d, k);
    hide Mirror, PathAdmitted, Takes;
    MirrorKey(c, limit, sel, src, dst, r, k);
  }

  lemma {:induction false} TakenOnce(work: seq<Deed>, d: Deed, k: Key)
    requires d in work && Takes(d, k) && forall x :: x in work ==> x.e.obj.key != k
    ensures Taken(work, k)
    decreases |work|
  {
    hide Takes;
    var n := |work| - 1;
    if work[n] != d {
      assert work == work[..n] + [work[n]];
      TakenOnce(work[..n], d, k);
    }
    assert work[n] in work;
  }

  // ------------------------------------------------------------------ the next run

  /** The run after a mirroring run plans nothing if and only if no admitted key of the source has been
  taken last. */
  lemma MirrorIdempotent(c: Config, limit: int, sel: Selection, src: Store, dst: Store, r: Run, endObjs: seq<Object>)
    requires IsRun(c, limit, sel, src, dst, r) && NoAges(sel.limits) && Lists(endObjs, End(r))
    ensures Emitted(Mirror(c, limit, sel, r.srcObjs, endObjs)) == []
       <==> forall k :: PathAdmitted(sel, k) && k in src ==> !Taken(r.work, k)
  {
    hide Mirror, PathAdmitted, Taken, CarriesOut, Carried, Lists, SizesAdmitted, NoAges, Mirroring;
    EndIsListed(c, limit, sel, src, dst, r, endObjs);
    var log := Mirror(c, limit, sel, r.srcObjs, endObjs);
    if k :| PathAdmitted(sel, k) && k in src && Taken(r.work, k) {
      MirrorKey(c, limit, sel, src, dst, r, k);
      MirrorVerdict(c, limit, sel, r.srcObjs, endObjs, src, End(r), Event(Copy, src[k]));
      SomethingEmitted(log, Event(Copy, src[k]));
    } else {
      forall e | e in log ensures !Emits(e) {
        MirrorKey(c, limit, sel, src, dst, r, e.obj.key);
        MirrorVerdict(c, limit, sel, r.srcObjs, endObjs, src, End(r), e);
      }
      NothingEmitted(log);
    }
  }

  /** What is there in the end is within the limits. */
  lemma EndIsListed(c: Config, limit: int, sel: Selection, src: Store, dst: Store, r: Run, endObjs: seq<Object>)
    requires IsRun(c, limit, sel, src, dst, r) && NoAges(sel.limits) && Lists(endObjs, End(r))
    ensures Listed(sel, endObjs, End(r))
  {
    hide PathAdmitted, Taken, Lists, Mirror, CarriesOut, Carried;
    forall k | k in End(r) ensures WithinLimits(sel.limits, End(r)[k]) && End(r)[k].key == k {
      MirrorKey(c, limit, sel, src, dst, r, k);
    }
  }

  lemma {:induction false} NothingEmitted(log: seq<Event>)
    requires forall e :: e in log ==> !Emits(e)
    ensures Emitted(log) == []
  {
    if log != [] {
      assert log[0] in log;
      NothingEmitted(log[1..]);
    }
  }

  lemma {:induction false} SomethingEmitted(log: seq<Event>, e: Event)
    requires e in log && Emits(e)
    ensures Emitted(log) != []
  {
    if log[0] != e {
      SomethingEmitted(log[1..], e);
    }
  }

  // ------------------------------------------------------------------ what a worker does

  /** The contents of a store and its listing. */
  ghost predicate Shows(s: Store, contents: Worker.Store) {
    forall k :: (k in s <==> k in contents) && (k in s ==> s[k].key == k)
  }

  /** A copy that ends well, with the deletions it asks for, is carried out in this sense. The new object is
  listed with the length and kind of the one copied, and what has not changed as before. */
  lemma CopyIsCarried(o: Worker.Options, obj: Object, copy: Worker.CopyCalls, src: Worker.Store, was: Worker.Store,
                      before: Store, after: Store)
    requires Worker.Suits(o, obj, copy, src, was) && Worker.Outcome(copy) == Worker.Works
    requires copy.InParts? ==> copy.run[|copy.run| - 1].stuck == {}
    requires Shows(before, was) && Shows(after, Worker.LeftBy(copy, obj.key, was))
    requires obj.key in after ==> SameKind(after[obj.key], obj)
    requires forall k :: k != obj.key && Multipart.SameAt(Worker.LeftBy(copy, obj.key, was), was, k) ==>
               SameAt(k, before, after)
    ensures Carried(Deed(Event(Copy, obj), if copy.InParts? then Some(copy.c) else None), before, after)
  {
    Worker.CopyDoes(o, obj, copy, src, was);
    var d := Deed(Event(Copy, obj), if copy.InParts? then Some(copy.c) else None);
    forall k | Takes(d, k) ensures k !in after {
      var p: nat :| p < Multipart.Count(copy.c) && Multipart.Nests(copy.c, p) && k == Multipart.TmpKey(copy.c.key, p);
      Multipart.SuccessTakesNames(copy.c, copy.run, p);
    }
    hide Multipart.IsTmp, Multipart.IsRun, Multipart.Valid;
    assert Done(d.e, after);
  }
}

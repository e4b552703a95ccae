/** What every planning run is safe from, whether or not a limit or a failed listing cuts it short. */
module PlanSafety {
  import opened Keys
  import opened Objects
  import opened Planner
  import opened DecisionTable
  import opened PlannerRuns

  lemma {:induction false} EmittedHolds(log: seq<Event>, e: Event)
    ensures e in Emitted(log) <==> e in log && Emits(e)
  {
    if log != [] {
      EmittedHolds(log[1..], e);
    }
  }

  lemma {:induction false} SubsequenceHolds(a: seq<Event>, b: seq<Event>, e: Event)
    requires Subsequence(a, b) && e in a
    ensures e in b
    decreases |b|
  {
    if a != [] {
      if a[0] == b[0] && Subsequence(a[1..], b[1..]) {
        if e != a[0] { SubsequenceHolds(a[1..], b[1..], e); }
      } else {
        SubsequenceHolds(a, b[1..], e);
      }
    }
  }

  /** Whatever the limit, and wherever a listing fails, an action that a run plans is the verdict that the
  complete run over what was listed has on that key. */
  lemma ActionsAreVerdicts(c: Config, limit: int, src: Listing, dst: Listing, e: Event)
    requires Ascending(src.objs) && Ascending(dst.objs)
    requires e in Plan(c, limit, src, dst).log && Emits(e)
    ensures Verdict(c, src.objs, dst.objs, e.obj.key) == Some(e)
  {
    hide Plan, Verdict;
    var wsrc, wdst := Listing(src.objs, false), Listing(dst.objs, false);
    var log, whole := Plan(c, limit, src, dst).log, Plan(c, limit, wsrc, wdst).log;
    FailureIsPrefix(c, limit, src, dst, wsrc, wdst);
    assert e in Finished(log);
    assert e in whole;
    var free := Plan(c, -1, wsrc, wdst).log;
    if limit >= 0 {
      LimitedIsSubsequence(c, limit, -1, wsrc, wdst);
      EmittedHolds(whole, e);
      SubsequenceHolds(Emitted(whole), Emitted(free), e);
      EmittedHolds(free, e);
      PlanTable(c, -1, wsrc, wdst);
    } else {
      PlanTable(c, limit, wsrc, wdst);
    }
  }

  /** An object of a listing that is likely the same as another. */
  ghost predicate HasTwin(c: Config, o: Object, others: seq<Object>) {
    exists d :: d in others && d.key == o.key && LikelySame(c, o, d)
  }

  /** A source object is planned for deletion or comparison, and its permissions for copying, only if the
  destination lists an object that is likely the same. A destination object is planned for deletion only
  if the source does not list its key, directories aside that do not take part. A source object is planned
  for copying only if the destination does not list its key, or lists it as different or, under an update,
  as older, unless everything is to be copied. */
  lemma PlansAreSafe(c: Config, limit: int, src: Listing, dst: Listing, e: Event)
    requires Ascending(src.objs) && Ascending(dst.objs)
    requires e in Plan(c, limit, src, dst).log
    ensures e.action in {DeleteSrc, Checksum, CopyPerms} ==> e.obj in src.objs && HasTwin(c, e.obj, dst.objs)
    ensures e.action == DeleteDst ==>
      c.deleteDst && e.obj in dst.objs && forall o :: o in src.objs && o.key == e.obj.key ==> !c.dirs && o.isDir
    ensures e.action == Copy ==> e.obj in src.objs
    ensures e.action == Copy && !c.forceUpdate ==>
      forall d :: d in dst.objs && d.key == e.obj.key ==>
        !c.ignoreExisting && if c.update then Unix(e.obj.mtime) > Unix(d.mtime) else e.obj.size != d.size
  {
    if Emits(e) {
      ActionsAreVerdicts(c, limit, src, dst, e);
      hide Plan;
      OnlyOne(src.objs, e.obj.key);
      OnlyOne(dst.objs, e.obj.key);
      if e.action in {DeleteSrc, Checksum, CopyPerms} {
        var d := Lookup(dst.objs, e.obj.key);
        PresentMeans(c, e.obj, d.value);
      }
    }
  }

  /** A listing in order has one object a key. */
  lemma OnlyOne(objs: seq<Object>, k: Key)
    requires Ascending(objs)
    ensures forall o :: o in objs && o.key == k ==> Lookup(objs, k) == Some(o)
  {
    forall o | o in objs && o.key == k ensures Lookup(objs, k) == Some(o) {
      var i :| 0 <= i < |objs| && objs[i] == o;
      var x := Lookup(objs, k).value;
      var j :| 0 <= j < |objs| && objs[j] == x;
      LessIrreflexive(k);
    }
  }

  /** Sizes are compared unless times are: a comparison is then planned only for listed sizes that agree. */
  lemma ComparedSizesAgree(c: Config, limit: int, src: Listing, dst: Listing, e: Event)
    requires Ascending(src.objs) && Ascending(dst.objs) && !c.update
    requires e in Plan(c, limit, src, dst).log && e.action in {Checksum, DeleteSrc, CopyPerms}
    ensures Lookup(dst.objs, e.obj.key).Some? && Lookup(dst.objs, e.obj.key).value.size == e.obj.size
  {
    PlansAreSafe(c, limit, src, dst, e);
    OnlyOne(dst.objs, e.obj.key);
  }

  /** Under an update they need not: written in the same second is enough. */
  lemma UpdateIgnoresSizes(c: Config, s: Object, d: Object)
    requires c.update && c.checkAll && !c.ignoreExisting && !c.forceUpdate && (c.dirs || !s.isDir)
    requires s.key == d.key && Unix(s.mtime) == Unix(d.mtime)
    ensures Event(Checksum, s) in Plan(c, -1, Listing([s], false), Listing([d], false)).log
  {
    LessIrreflexive(s.key);
    PlanCases(c, -1, Listing([s], false), Listing([d], false));
    JoinAtSource(c, -1, Listing([s], false), Listing([d], false));
  }

  /** Objects whose sizes differ are copied. */
  lemma DifferentIsCopied(c: Config, s: Object, d: Object)
    requires !c.update && !c.ignoreExisting && (c.dirs || !s.isDir) && s.key == d.key && s.size != d.size
    ensures Event(Copy, s) in Plan(c, -1, Listing([s], false), Listing([d], false)).log
  {
    LessIrreflexive(s.key);
    PlanCases(c, -1, Listing([s], false), Listing([d], false));
    JoinAtSource(c, -1, Listing([s], false), Listing([d], false));
  }

  /** An object that the destination lacks is copied, unless only existing ones are to be: then it is skipped. */
  lemma MissingIsCopied(c: Config, src: Listing, dst: Listing, o: Object)
    requires Ascending(src.objs) && Ascending(dst.objs) && !src.failed && !dst.failed
    requires o in src.objs && (c.dirs || !o.isDir) && forall d :: d in dst.objs ==> d.key != o.key
    ensures var log := Plan(c, -1, src, dst).log;
      (Event(Copy, o) in log <==> !c.existing) && (Event(Skip, o) in log <==> c.existing)
  {
    PlanTable(c, -1, src, dst);
    OnlyOne(src.objs, o.key);
    hide Plan;
    assert Verdict(c, src.objs, dst.objs, o.key) == Some(Event(if c.existing then Skip else Copy, o));
  }
}

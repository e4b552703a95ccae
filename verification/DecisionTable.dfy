/** What a whole planning run amounts to: one verdict per key, read off the two listings. */
module DecisionTable {
  import opened Keys
  import opened Objects
  import opened Planner

  /** The source object of a key, unless it is a directory and directories are ignored. */
  function SourceOf(c: Config, src: seq<Object>, k: Key): Option<Object> {
    var s := Lookup(src, k);
    if s.Some? && !c.dirs && s.value.isDir then None else s
  }

  ghost predicate SourceBeyond(c: Config, src: seq<Object>, k: Key) {
    exists s :: s in src && (c.dirs || !s.isDir) && Less(k, s.key)
  }

  /** The verdict on a key. Extra objects behind the last source object are noticed only when they
  are to be deleted. */
  ghost function Verdict(c: Config, src: seq<Object>, dst: seq<Object>, k: Key): Option<Event> {
    var s, d := SourceOf(c, src, k), Lookup(dst, k);
    if s.Some? && d.Some? then Some(Event(WhenPresent(c, s.value, d.value), s.value))
    else if s.Some? then Some(Event(WhenMissing(c), s.value))
    else if d.None? then None
    else if c.deleteDst then Some(Event(if !c.dirs && d.value.isDir then KeepExtra else DeleteDst, d.value))
    else if SourceBeyond(c, src, k) then Some(Event(KeepExtra, d.value))
    else None
  }

  /** Two objects that are taken for the same: written in the same second, or of the same size. */
  predicate LikelySame(c: Config, s: Object, d: Object) {
    if c.update then Unix(s.mtime) == Unix(d.mtime) else s.size == d.size
  }

  /** When each action is chosen for an object that both sides have. The source's object is given up, and
  permissions are copied, only for objects that are likely the same. */
  lemma PresentMeans(c: Config, s: Object, d: Object)
    ensures var a, same := WhenPresent(c, s, d), !c.ignoreExisting && !c.forceUpdate && LikelySame(c, s, d);
      && (a == Copy <==>
            !c.ignoreExisting
            && (c.forceUpdate || if c.update then Unix(s.mtime) > Unix(d.mtime) else s.size != d.size))
      && (a == Checksum <==> same && c.checkAll)
      && (a == DeleteSrc <==> same && !c.checkAll && c.deleteSrc)
      && (a == CopyPerms <==> same && !c.checkAll && !c.deleteSrc && c.perms && s.perms != d.perms)
      && a in {Copy, Checksum, DeleteSrc, CopyPerms, Skip}
  {
  }

  ghost predicate KeysAscending(log: seq<Event>) {
    forall i, j :: 0 <= i < j < |log| ==> Less(log[i].obj.key, log[j].obj.key)
  }

  /** The log is the table of verdicts, in key order. */
  ghost predicate IsTable(c: Config, src: seq<Object>, dst: seq<Object>, log: seq<Event>) {
    && KeysAscending(log)
    && forall e :: e in log <==> Verdict(c, src, dst, e.obj.key) == Some(e)
  }

  lemma {:induction false} LookupAbove(objs: seq<Object>, k: Key)
    requires forall o :: o in objs ==> Less(k, o.key)
    ensures Lookup(objs, k) == None
  {
    LessIrreflexive(k);
  }

  lemma TailAbove(objs: seq<Object>)
    requires Ascending(objs) && objs != []
    ensures Ascending(objs[1..]) && forall o :: o in objs[1..] ==> Less(objs[0].key, o.key)
  {
  }

  /** Every verdict is about a listed object. */
  lemma VerdictListed(c: Config, src: seq<Object>, dst: seq<Object>, k: Key)
    ensures Verdict(c, src, dst, k).Some? ==>
      var e := Verdict(c, src, dst, k).value;
      e.obj.key == k && (e.obj in src || e.obj in dst)
  {
  }

  /** A table grows at its front by the verdict on a smaller key. */
  lemma Grow(c: Config, e: Event, src: seq<Object>, dst: seq<Object>, src': seq<Object>, dst': seq<Object>,
             log: seq<Event>)
    requires IsTable(c, src', dst', log)
    requires Verdict(c, src, dst, e.obj.key) == Some(e)
    requires forall k :: k != e.obj.key ==> Verdict(c, src, dst, k) == Verdict(c, src', dst', k)
    requires forall o :: o in src' || o in dst' ==> Less(e.obj.key, o.key)
    ensures IsTable(c, src, dst, [e] + log)
  {
    forall x | x in log ensures Less(e.obj.key, x.obj.key) {
      VerdictListed(c, src', dst', x.obj.key);
    }
    var log' := [e] + log;
    LessIrreflexive(e.obj.key);
    forall x ensures x in log' <==> Verdict(c, src, dst, x.obj.key) == Some(x) {
      if x.obj.key == e.obj.key {
        assert x !in log;
      }
    }
  }

  lemma {:induction false} DrainTable(c: Config, limit: int, dst: Listing)
    requires limit < 0 && !dst.failed && Ascending(dst.objs) && c.deleteDst
    ensures !Drain(c, limit, dst).err && IsTable(c, [], dst.objs, Drain(c, limit, dst).log)
    decreases |dst.objs|
  {
    if dst.objs != [] {
      var d := dst.objs[0];
      DrainOne(c, limit, dst);
      DrainTable(c, Charged(c, limit, d), Tail(dst));
      TailAbove(dst.objs);
      hide Drain, WhenPresent, WhenMissing;
      Grow(c, Event(WhenExtra(c, limit, d), d), [], dst.objs, [], Tail(dst).objs,
           Drain(c, Charged(c, limit, d), Tail(dst)).log);
    } else {
      DrainEmpty(c, limit, dst);
    }
  }

  lemma {:induction false} PlanTable(c: Config, limit: int, src: Listing, dst: Listing)
    requires limit < 0 && !src.failed && !dst.failed && Ascending(src.objs) && Ascending(dst.objs)
    ensures !Plan(c, limit, src, dst).err && IsTable(c, src.objs, dst.objs, Plan(c, limit, src, dst).log)
    decreases |src.objs| + |dst.objs|, 1
  {
    if src.objs == [] {
      if c.deleteDst { DrainTable(c, limit, dst); }
    } else if !c.dirs && src.objs[0].isDir {
      PlanTable(c, limit, Tail(src), dst);
      TailAbove(src.objs);
      DropIgnored(c, src.objs, dst.objs, Plan(c, limit, Tail(src), dst).log);
    } else {
      JoinTable(c, limit, src, dst);
    }
  }

  lemma DropIgnored(c: Config, src: seq<Object>, dst: seq<Object>, log: seq<Event>)
    requires src != [] && Ascending(src) && !c.dirs && src[0].isDir
    requires IsTable(c, src[1..], dst, log)
    ensures IsTable(c, src, dst, log)
  {
    TailAbove(src);
    LookupAbove(src[1..], src[0].key);
    forall k ensures Verdict(c, src, dst, k) == Verdict(c, src[1..], dst, k) {
      assert SourceOf(c, src, k) == SourceOf(c, src[1..], k);
      assert SourceBeyond(c, src, k) <==> SourceBeyond(c, src[1..], k) by {
        assert forall s :: s in src <==> s == src[0] || s in src[1..];
      }
    }
  }

  lemma {:induction false} JoinTable(c: Config, limit: int, src: Listing, dst: Listing)
    requires limit < 0 && !src.failed && !dst.failed && Ascending(src.objs) && Ascending(dst.objs)
    requires src.objs != [] && (c.dirs || !src.objs[0].isDir)
    ensures !Join(c, limit, src, dst).err && IsTable(c, src.objs, dst.objs, Join(c, limit, src, dst).log)
    decreases |src.objs| + |dst.objs|, 0
  {
    var obj := src.objs[0];
    TailAbove(src.objs);
    if dst.objs == [] {
      PlanTable(c, limit, Tail(src), dst);
      TakeSource(c, src.objs, dst.objs, dst.objs, Plan(c, limit, Tail(src), dst).log);
    } else {
      var d := dst.objs[0];
      TailAbove(dst.objs);
      if Less(d.key, obj.key) {
        JoinTable(c, Charged(c, limit, d), src, Tail(dst));
        TakeExtra(c, limit, src.objs, dst.objs, Join(c, Charged(c, limit, d), src, Tail(dst)).log);
      } else if d.key == obj.key {
        PlanTable(c, limit, Tail(src), Tail(dst));
        TakeSource(c, src.objs, dst.objs, dst.objs[1..], Plan(c, limit, Tail(src), Tail(dst)).log);
      } else {
        LessTotal(d.key, obj.key);
        PlanTable(c, limit, Tail(src), dst);
        TakeSource(c, src.objs, dst.objs, dst.objs, Plan(c, limit, Tail(src), dst).log);
      }
    }
  }

  /** The first destination object is extra. */
  lemma TakeExtra(c: Config, limit: int, src: seq<Object>, dst: seq<Object>, log: seq<Event>)
    requires limit < 0 && Ascending(src) && Ascending(dst) && src != [] && dst != []
    requires c.dirs || !src[0].isDir
    requires Less(dst[0].key, src[0].key) && IsTable(c, src, dst[1..], log)
    ensures IsTable(c, src, dst, [Event(WhenExtra(c, limit, dst[0]), dst[0])] + log)
  {
    var d := dst[0];
    TailAbove(src);
    TailAbove(dst);
    forall o | o in src ensures Less(d.key, o.key) {
      if o != src[0] { LessTransitive(d.key, src[0].key, o.key); }
    }
    LookupAbove(src, d.key);
    assert SourceBeyond(c, src, d.key);
    Grow(c, Event(WhenExtra(c, limit, d), d), src, dst, src, dst[1..], log);
  }

  /** The first source object, with `dst'` what is left of the destination behind it. */
  lemma TakeSource(c: Config, src: seq<Object>, dst: seq<Object>, dst': seq<Object>, log: seq<Event>)
    requires Ascending(src) && Ascending(dst) && src != [] && (c.dirs || !src[0].isDir)
    requires IsTable(c, src[1..], dst', log)
    requires
      || (dst' == dst && (dst != [] ==> Less(src[0].key, dst[0].key)))
      || (dst != [] && dst' == dst[1..] && dst[0].key == src[0].key)
    ensures var d := Lookup(dst, src[0].key);
      IsTable(c, src, dst,
              [Event(if d.Some? then WhenPresent(c, src[0], d.value) else WhenMissing(c), src[0])] + log)
  {
    var obj := src[0];
    TailAbove(src);
    if dst != [] { TailAbove(dst); }
    forall o | o in dst' ensures Less(obj.key, o.key) {
      if dst' == dst && o != dst[0] { LessTransitive(obj.key, dst[0].key, o.key); }
    }
    if dst' == dst { LookupAbove(dst, obj.key); }
    var d := Lookup(dst, obj.key);
    var e := Event(if d.Some? then WhenPresent(c, obj, d.value) else WhenMissing(c), obj);
    forall k | k != obj.key ensures Verdict(c, src, dst, k) == Verdict(c, src[1..], dst', k) {
      OtherVerdict(c, src, dst, dst', k);
    }
    hide WhenPresent, WhenMissing, Lookup;
    Grow(c, e, src, dst, src[1..], dst', log);
  }

  lemma OtherVerdict(c: Config, src: seq<Object>, dst: seq<Object>, dst': seq<Object>, k: Key)
    requires src != [] && k != src[0].key
    requires dst' == dst || (dst != [] && dst' == dst[1..] && dst[0].key == src[0].key)
    requires forall o :: o in dst' ==> Less(src[0].key, o.key)
    ensures Verdict(c, src, dst, k) == Verdict(c, src[1..], dst', k)
  {
    assert Lookup(dst, k) == Lookup(dst', k);
    if Lookup(dst', k).Some? {
      LessAsymmetric(src[0].key, k);
      assert forall s :: s in src <==> s == src[0] || s in src[1..];
      assert SourceBeyond(c, src, k) <==> SourceBeyond(c, src[1..], k);
    }
  }
}

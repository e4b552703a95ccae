/** The filter in front of the planner: size, age and time limits, then the include/exclude rules. */
module Filter {
  import opened Objects
  import opened Rules

  datatype Limits = Limits(
    minSize: int, maxSize: int,
    maxAge: int, minAge: int,
    startTime: Option<int>, endTime: Option<int>,
    now: int)

  datatype Selection = Selection(limits: Limits, matchFullPath: bool, rules: seq<Rule>)

  /** Directories and links are not subject to the size and time limits. */
  predicate WithinLimits(l: Limits, o: Object) {
    o.isDir || o.isSymlink ||
    (&& l.minSize <= o.size <= l.maxSize
     && (l.maxAge > 0 ==> o.mtime > l.now - l.maxAge)
     && (l.minAge > 0 ==> o.mtime < l.now - l.minAge)
     && (l.startTime.Some? ==> o.mtime > l.startTime.value)
     && (l.endTime.Some? ==> o.mtime < l.endTime.value))
  }

  predicate PathAdmitted(s: Selection, key: string) {
    if s.matchFullPath then MatchFullPath(s.rules, key) else MatchLeveledPath(s.rules, key)
  }

  predicate FilterKey(s: Selection, o: Object) {
    WithinLimits(s.limits, o) && PathAdmitted(s, o.key)
  }

  function Admitted(s: Selection, objs: seq<Object>): (r: seq<Object>)
    ensures forall o :: o in r <==> o in objs && FilterKey(s, o)
  {
    if objs == [] then []
    else if FilterKey(s, objs[0]) then [objs[0]] + Admitted(s, objs[1..])
    else Admitted(s, objs[1..])
  }

  lemma {:induction false} AdmittedAscending(s: Selection, objs: seq<Object>)
    requires Ascending(objs)
    ensures Ascending(Admitted(s, objs))
  {
    if objs != [] {
      AdmittedAscending(s, objs[1..]);
      var r := Admitted(s, objs[1..]);
      assert forall j :: 0 <= j < |r| ==> r[j] in objs[1..];
    }
  }

  lemma {:induction false} AdmittedSnoc(s: Selection, objs: seq<Object>, o: Object)
    ensures Admitted(s, objs + [o]) == Admitted(s, objs) + if FilterKey(s, o) then [o] else []
  {
    if objs != [] {
      assert (objs + [o])[1..] == objs[1..] + [o];
      AdmittedSnoc(s, objs[1..], o);
    }
  }

  lemma AdmittedNone(s: Selection)
    ensures Admitted(s, []) == []
  {
  }

  /** An admitted object is there as often as it was received, another not at all. */
  lemma {:induction false} AdmittedTimes(s: Selection, objs: seq<Object>, o: Object)
    ensures multiset(Admitted(s, objs))[o] == if FilterKey(s, o) then multiset(objs)[o] else 0
  {
    hide FilterKey;
    if objs != [] {
      AdmittedTimes(s, objs[1..], o);
      assert objs == [objs[0]] + objs[1..];
    }
  }

  /** Copies the admitted objects of a channel until it ends or fails. A file passes if its size lies between
  the bounds, it is younger and older than the ages that are set, and its time lies between the times that
  are set, and the rules let it through; for a directory or a link only the rules decide. */
  method Run(s: Selection, keys: Channel) returns (r: Listing, excluded: nat)
    ensures r == Listing(Admitted(s, Received(keys).objs), Received(keys).failed)
    ensures excluded == |Received(keys).objs| - |r.objs|
    ensures forall o ::
      multiset(r.objs)[o] ==
        if (if s.matchFullPath then MatchFullPath(s.rules, o.key) else MatchLeveledPath(s.rules, o.key))
           && (o.isDir || o.isSymlink || (
                 && s.limits.minSize <= o.size && o.size <= s.limits.maxSize
                 && (s.limits.maxAge > 0 ==> s.limits.now - o.mtime < s.limits.maxAge)
                 && (s.limits.minAge > 0 ==> s.limits.now - o.mtime > s.limits.minAge)
                 && (s.limits.startTime.Some? ==> o.mtime > s.limits.startTime.value)
                 && (s.limits.endTime.Some? ==> o.mtime < s.limits.endTime.value)))
        then multiset(Received(keys).objs)[o] else 0
  {
    r, excluded := Pass(s, keys);
    hide Received, Admitted, MatchFullPath, MatchLeveledPath;
    forall o { AdmittedTimes(s, Received(keys).objs, o); }
  }

  /** The loop over the channel. */
  method Pass(s: Selection, keys: Channel) returns (r: Listing, excluded: nat)
    ensures r == Listing(Admitted(s, Received(keys).objs), Received(keys).failed)
    ensures excluded == |Received(keys).objs| - |r.objs|
  {
    hide FilterKey, Admitted;
    var objs := [];
    assert Admitted(s, []) == [] by { AdmittedNone(s); }
    ghost var seen := [];
    excluded := 0;
    var i := 0;
    while i < |keys|
      invariant 0 <= i <= |keys|
      invariant seen + Received(keys[i..]).objs == Received(keys).objs
      invariant Received(keys[i..]).failed == Received(keys).failed
      invariant objs == Admitted(s, seen) && excluded == |seen| - |objs|
    {
      if keys[i].None? {
        assert seen + [] == seen;
        return Listing(objs, true), excluded;
      }
      var o := keys[i].value;
      AdmittedSnoc(s, seen, o);
      if FilterKey(s, o) {
        objs := objs + [o];
      } else {
        excluded := excluded + 1;
      }
      assert seen + ([o] + Received(keys[i + 1..]).objs) == seen + [o] + Received(keys[i + 1..]).objs;
      seen := seen + [o];
      i := i + 1;
    }
    assert seen + [] == seen;
    r := Listing(objs, false);
  }
}

/** Planning runs that are cut short: by the limit on the number of objects, or by a failed listing. */
module PlannerRuns {
  import opened Keys
  import opened Objects
  import opened Planner

  // ------------------------------------------------------------------ the limit

  /** Every event but a kept extra object uses up one unit of the limit. */
  function Spent(log: seq<Event>): nat {
    if log == [] then 0 else (if log[0].action == KeepExtra then 0 else 1) + Spent(log[1..])
  }

  function Unfinished(log: seq<Event>): nat {
    if log == [] then 0 else (if log[0].action == Action.Unfinished then 1 else 0) + Unfinished(log[1..])
  }

  lemma Front(e: Event, log: seq<Event>)
    ensures Spent([e] + log) == (if e.action == KeepExtra then 0 else 1) + Spent(log)
    ensures Unfinished([e] + log) == (if e.action == Action.Unfinished then 1 else 0) + Unfinished(log)
  {
    assert ([e] + log)[1..] == log;
  }

  /** With a limit, what was planned and what is left of the limit always add up to the limit, and
  at most one object is left without an outcome; this for any two listings, failed ones included. */
  lemma {:induction false} LimitConserved(c: Config, limit: nat, src: Listing, dst: Listing)
    ensures var r := Plan(c, limit, src, dst);
      r.limit >= 0 && Spent(r.log) + r.limit == limit && Unfinished(r.log) <= 1
    decreases |src.objs| + |dst.objs|, 1
  {
    if src.objs == [] {
      if !src.failed && c.deleteDst { LimitConservedDrain(c, limit, dst); }
    } else if !c.dirs && src.objs[0].isDir {
      LimitConserved(c, limit, Tail(src), dst);
    } else if limit > 0 {
      LimitConservedJoin(c, limit - 1, src, dst);
    }
  }

  lemma Outcomes(c: Config, obj: Object, d: Object)
    ensures WhenPresent(c, obj, d) != KeepExtra && WhenPresent(c, obj, d) != Action.Unfinished
    ensures WhenMissing(c) != KeepExtra && WhenMissing(c) != Action.Unfinished
  {
  }

  lemma {:induction false} LimitConservedJoin(c: Config, limit: nat, src: Listing, dst: Listing)
    requires src.objs != []
    ensures var r := Join(c, limit, src, dst);
      r.limit >= 0 && Spent(r.log) + r.limit == limit + 1 && Unfinished(r.log) <= 1
    decreases |src.objs| + |dst.objs|, 0
  {
    hide Join, Plan, WhenPresent, WhenMissing;
    var obj := src.objs[0];
    if dst.objs != [] && Less(dst.objs[0].key, obj.key) {
      var d := dst.objs[0];
      JoinAtExtra(c, limit, src, dst);
      if WhenExtra(c, limit, d) == DeleteDst && limit == 1 {
        Front(Event(Action.Unfinished, obj), []);
        Front(Event(DeleteDst, d), [Event(Action.Unfinished, obj)]);
      } else {
        LimitConservedJoin(c, Charged(c, limit, d), src, Tail(dst));
        Front(Event(WhenExtra(c, limit, d), d), Join(c, Charged(c, limit, d), src, Tail(dst)).log);
      }
    } else if dst.objs == [] && dst.failed {
      JoinAtFailure(c, limit, src, dst);
      Front(Event(Action.Unfinished, obj), []);
    } else {
      var same := dst.objs != [] && dst.objs[0].key == obj.key;
      var dst' := if same then Tail(dst) else dst;
      JoinAtSource(c, limit, src, dst);
      Outcomes(c, obj, if same then dst.objs[0] else obj);
      LimitConserved(c, limit, Tail(src), dst');
      Front(Event(if same then WhenPresent(c, obj, dst.objs[0]) else WhenMissing(c), obj),
            Plan(c, limit, Tail(src), dst').log);
    }
  }

  lemma {:induction false} LimitConservedDrain(c: Config, limit: nat, dst: Listing)
    ensures var r := Drain(c, limit, dst);
      r.limit >= 0 && Spent(r.log) + r.limit == limit && Unfinished(r.log) == 0
    decreases |dst.objs|
  {
    if dst.objs != [] {
      var d := dst.objs[0];
      if !(WhenExtra(c, limit, d) == DeleteDst && limit == 1) {
        LimitConservedDrain(c, Charged(c, limit, d), Tail(dst));
        Front(Event(WhenExtra(c, limit, d), d), Drain(c, Charged(c, limit, d), Tail(dst)).log);
      }
    }
  }

  // ------------------------------------------------------------------ limited against unlimited

  /** The events that change a store: the queued tasks and the delayed deletions. */
  function Emitted(log: seq<Event>): seq<Event> {
    if log == [] then []
    else (if Emits(log[0]) then [log[0]] else []) + Emitted(log[1..])
  }

  predicate Emits(e: Event) {
    e.action != Skip && e.action != KeepExtra && e.action != Action.Unfinished
  }

  predicate Subsequence<T(==)>(a: seq<T>, b: seq<T>) {
    a == [] || (b != [] && ((a[0] == b[0] && Subsequence(a[1..], b[1..])) || Subsequence(a, b[1..])))
  }

  lemma EmittedFront(e: Event, log: seq<Event>)
    ensures Emitted([e] + log) == (if Emits(e) then [e] else []) + Emitted(log)
  {
    assert ([e] + log)[1..] == log;
  }

  lemma Keep(e: Event, a: seq<Event>, b: seq<Event>)
    requires Subsequence(Emitted(a), Emitted(b))
    ensures Subsequence(Emitted([e] + a), Emitted([e] + b))
  {
    EmittedFront(e, a);
    EmittedFront(e, b);
    assert [] + Emitted(a) == Emitted(a) && [] + Emitted(b) == Emitted(b);
    if Emits(e) {
      var x, y := [e] + Emitted(a), [e] + Emitted(b);
      assert x[1..] == Emitted(a) && y[1..] == Emitted(b);
    }
  }

  lemma Drop(e: Event, f: Event, a: seq<Event>, b: seq<Event>)
    requires Subsequence(Emitted(a), Emitted(b)) && !Emits(e)
    ensures Subsequence(Emitted([e] + a), Emitted([f] + b))
  {
    EmittedFront(e, a);
    EmittedFront(f, b);
    assert [] + Emitted(a) == Emitted(a) && [] + Emitted(b) == Emitted(b);
    if Emits(f) {
      assert ([f] + Emitted(b))[1..] == Emitted(b);
    }
  }

  /** A limited run plans nothing that the unlimited one would not, and in the same order. */
  lemma {:induction false} LimitedIsSubsequence(c: Config, limit: nat, free: int, src: Listing, dst: Listing)
    requires free < 0
    ensures Subsequence(Emitted(Plan(c, limit, src, dst).log), Emitted(Plan(c, free, src, dst).log))
    decreases |src.objs| + |dst.objs|, 1
  {
    if src.objs == [] {
      if !src.failed && c.deleteDst { LimitedDrain(c, limit, free, dst); }
    } else if !c.dirs && src.objs[0].isDir {
      LimitedIsSubsequence(c, limit, free, Tail(src), dst);
    } else if limit > 0 {
      LimitedJoin(c, limit - 1, free, src, dst);
    }
  }

  lemma {:induction false} LimitedJoin(c: Config, limit: nat, free: int, src: Listing, dst: Listing)
    requires free < 0 && src.objs != []
    ensures Subsequence(Emitted(Join(c, limit, src, dst).log), Emitted(Join(c, free, src, dst).log))
    decreases |src.objs| + |dst.objs|, 0
  {
    var obj := src.objs[0];
    if dst.objs != [] && Less(dst.objs[0].key, obj.key) {
      var d := dst.objs[0];
      JoinAtExtra(c, limit, src, dst);
      JoinAtExtra(c, free, src, dst);
      var e, f := Event(WhenExtra(c, limit, d), d), Event(WhenExtra(c, free, d), d);
      var b := Join(c, Charged(c, free, d), src, Tail(dst)).log;
      if e.action == DeleteDst && limit == 1 {
        OneDeletion(d, obj, b);
      } else {
        LimitedJoin(c, Charged(c, limit, d), Charged(c, free, d), src, Tail(dst));
        var a := Join(c, Charged(c, limit, d), src, Tail(dst)).log;
        if Emits(e) { Keep(e, a, b); } else { Drop(e, f, a, b); }
      }
    } else if dst.objs == [] && dst.failed {
      JoinAtFailure(c, limit, src, dst);
      EmittedFront(Event(Action.Unfinished, obj), []);
    } else {
      var same := dst.objs != [] && dst.objs[0].key == obj.key;
      var dst' := if same then Tail(dst) else dst;
      LimitedIsSubsequence(c, limit, free, Tail(src), dst');
      Keep(Event(if same then WhenPresent(c, obj, dst.objs[0]) else WhenMissing(c), obj),
           Plan(c, limit, Tail(src), dst').log, Plan(c, free, Tail(src), dst').log);
    }
  }

  lemma OneDeletion(d: Object, obj: Object, b: seq<Event>)
    ensures Subsequence(Emitted([Event(DeleteDst, d), Event(Action.Unfinished, obj)]),
                        Emitted([Event(DeleteDst, d)] + b))
  {
    EmittedFront(Event(Action.Unfinished, obj), []);
    assert [Event(Action.Unfinished, obj)] + [] == [Event(Action.Unfinished, obj)];
    Keep(Event(DeleteDst, d), [Event(Action.Unfinished, obj)], b);
    assert [Event(DeleteDst, d)] + [Event(Action.Unfinished, obj)]
        == [Event(DeleteDst, d), Event(Action.Unfinished, obj)];
  }

  lemma {:induction false} LimitedDrain(c: Config, limit: nat, free: int, dst: Listing)
    requires free < 0
    ensures Subsequence(Emitted(Drain(c, limit, dst).log), Emitted(Drain(c, free, dst).log))
    decreases |dst.objs|
  {
    if dst.objs != [] {
      var d := dst.objs[0];
      DrainOne(c, limit, dst);
      DrainOne(c, free, dst);
      var e, f := Event(WhenExtra(c, limit, d), d), Event(WhenExtra(c, free, d), d);
      var b := Drain(c, Charged(c, free, d), Tail(dst)).log;
      if e.action == DeleteDst && limit == 1 {
        assert [e] + [] == [e];
        Keep(e, [], b);
      } else {
        LimitedDrain(c, Charged(c, limit, d), Charged(c, free, d), Tail(dst));
        var a := Drain(c, Charged(c, limit, d), Tail(dst)).log;
        if Emits(e) { Keep(e, a, b); } else { Drop(e, f, a, b); }
      }
    }
  }

  // ------------------------------------------------------------------ failed listings

  /** `whole` is a listing that `part` may have been, had it not failed. */
  ghost predicate Completes(whole: Listing, part: Listing) {
    if part.failed then !whole.failed && part.objs <= whole.objs else whole == part
  }

  /** The log without the object a run gave up at its end. */
  function Finished(log: seq<Event>): seq<Event> {
    if log != [] && log[|log| - 1].action == Action.Unfinished then log[..|log| - 1] else log
  }

  lemma FinishedFront(e: Event, a: seq<Event>, b: seq<Event>)
    requires Finished(a) <= b && e.action != Action.Unfinished
    ensures Finished([e] + a) <= [e] + b
  {
    if a != [] {
      assert ([e] + a)[|a|] == a[|a| - 1];
      assert Finished([e] + a) == [e] + Finished(a);
    }
  }

  lemma CompletesTail(whole: Listing, part: Listing)
    requires Completes(whole, part) && part.objs != []
    ensures whole.objs != [] && whole.objs[0] == part.objs[0] && Completes(Tail(whole), Tail(part))
  {
  }

  /** A failed listing never makes a run do something wrong: what it does is the beginning of what
  it would have done with the complete listings, whatever these are. */
  lemma {:induction false} FailureIsPrefix(c: Config, limit: int, src: Listing, dst: Listing, wsrc: Listing,
                                           wdst: Listing)
    requires Completes(wsrc, src) && Completes(wdst, dst)
    ensures Finished(Plan(c, limit, src, dst).log) <= Plan(c, limit, wsrc, wdst).log
    decreases |src.objs| + |dst.objs|, 1
  {
    if src.objs == [] {
      if !src.failed && c.deleteDst { FailurePrefixDrain(c, limit, dst, wdst); }
    } else {
      CompletesTail(wsrc, src);
      if !c.dirs && src.objs[0].isDir {
        FailureIsPrefix(c, limit, Tail(src), dst, Tail(wsrc), wdst);
      } else if limit != 0 {
        FailurePrefixJoin(c, if limit > 0 then limit - 1 else limit, src, dst, wsrc, wdst);
      }
    }
  }

  lemma {:induction false} FailurePrefixJoin(c: Config, limit: int, src: Listing, dst: Listing, wsrc: Listing,
                                             wdst: Listing)
    requires Completes(wsrc, src) && Completes(wdst, dst) && src.objs != [] && wsrc.objs != []
    ensures Finished(Join(c, limit, src, dst).log) <= Join(c, limit, wsrc, wdst).log
    decreases |src.objs| + |dst.objs|, 0
  {
    var obj := src.objs[0];
    CompletesTail(wsrc, src);
    if dst.objs == [] && dst.failed {
      JoinAtFailure(c, limit, src, dst);
    } else if dst.objs != [] && Less(dst.objs[0].key, obj.key) {
      CompletesTail(wdst, dst);
      var d := dst.objs[0];
      JoinAtExtra(c, limit, src, dst);
      JoinAtExtra(c, limit, wsrc, wdst);
      if !(WhenExtra(c, limit, d) == DeleteDst && limit == 1) {
        FailurePrefixJoin(c, Charged(c, limit, d), src, Tail(dst), wsrc, Tail(wdst));
        FinishedFront(Event(WhenExtra(c, limit, d), d), Join(c, Charged(c, limit, d), src, Tail(dst)).log,
                      Join(c, Charged(c, limit, d), wsrc, Tail(wdst)).log);
      }
    } else {
      if dst.objs != [] { CompletesTail(wdst, dst); }
      var same := dst.objs != [] && dst.objs[0].key == obj.key;
      var dst', wdst' := if same then Tail(dst) else dst, if same then Tail(wdst) else wdst;
      FailureIsPrefix(c, limit, Tail(src), dst', Tail(wsrc), wdst');
      FinishedFront(Event(if same then WhenPresent(c, obj, dst.objs[0]) else WhenMissing(c), obj),
                    Plan(c, limit, Tail(src), dst').log, Plan(c, limit, Tail(wsrc), wdst').log);
    }
  }

  lemma {:induction false} FailurePrefixDrain(c: Config, limit: int, dst: Listing, wdst: Listing)
    requires Completes(wdst, dst)
    ensures Finished(Drain(c, limit, dst).log) <= Drain(c, limit, wdst).log
    decreases |dst.objs|
  {
    if dst.objs != [] {
      CompletesTail(wdst, dst);
      var d := dst.objs[0];
      DrainOne(c, limit, dst);
      DrainOne(c, limit, wdst);
      if !(WhenExtra(c, limit, d) == DeleteDst && limit == 1) {
        FailurePrefixDrain(c, Charged(c, limit, d), Tail(dst), Tail(wdst));
        FinishedFront(Event(WhenExtra(c, limit, d), d), Drain(c, Charged(c, limit, d), Tail(dst)).log,
                      Drain(c, Charged(c, limit, d), Tail(wdst)).log);
      }
    }
  }
}

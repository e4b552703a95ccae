/** The lister over a store that lists in pages. */
module PagedListing {
  import opened Keys
  import opened Objects
  import Hierarchy

  /** What one call of `List` returns. */
  datatype Answer = Error | Page(objs: seq<Object>, hasMore: bool)

  /** How the listing ends: the first call failed; complete; a failure is told by a nil; or the answers
  given do not suffice to end it. */
  datatype Status = Refused | Done | Broken | Waiting

  predicate Past(end: Key, key: Key) {
    end != "" && Less(end, key)
  }

  // ------------------------------------------------------------------ what is asked for

  /** Where the objects behind a marker begin. */
  function Behind(objs: seq<Object>, marker: Key, from: nat): (b: nat)
    requires from <= |objs|
    ensures from <= b <= |objs|
    ensures forall k :: from <= k < b ==> !Less(marker, objs[k].key)
    ensures b < |objs| ==> Less(marker, objs[b].key)
    decreases |objs| - from
  {
    if from == |objs| || Less(marker, objs[from].key) then from else Behind(objs, marker, from + 1)
  }

  /** Where the objects up to the end, which belongs to them, stop. */
  function Reach(objs: seq<Object>, end: Key, from: nat): (r: nat)
    requires from <= |objs|
    ensures from <= r <= |objs|
    ensures forall k :: from <= k < r ==> !Past(end, objs[k].key)
    ensures r < |objs| ==> Past(end, objs[r].key)
    decreases |objs| - from
  {
    if from == |objs| || Past(end, objs[from].key) then from else Reach(objs, end, from + 1)
  }

  function Wanted(objs: seq<Object>, start: Key, end: Key): seq<Object> {
    var from := Behind(objs, start, 0);
    objs[from..Reach(objs, end, from)]
  }

  lemma LessTransitiveAt(m: Key, objs: seq<Object>, i: nat, k: nat)
    requires Ascending(objs) && i < k < |objs|
    ensures Less(m, objs[i].key) ==> Less(m, objs[k].key)
  {
    if Less(m, objs[i].key) {
      LessTransitive(m, objs[i].key, objs[k].key);
    }
  }

  /** Wanted is every object behind the start and not past the end, in order. */
  lemma WantedIsExactly(objs: seq<Object>, start: Key, end: Key, o: Object)
    requires Ascending(objs)
    ensures o in Wanted(objs, start, end) <==> o in objs && Less(start, o.key) && !Past(end, o.key)
    ensures Ascending(Wanted(objs, start, end))
  {
    hide Less, Behind, Reach, Ascending;
    var from := Behind(objs, start, 0);
    var to := Reach(objs, end, from);
    if k :| 0 <= k < |objs| && objs[k] == o {
      PositionWanted(objs, start, end, k);
    }
    if i :| 0 <= i < to - from && objs[from..to][i] == o {
      PositionWanted(objs, start, end, from + i);
    }
    InOrder(objs, from, objs[from..to]);
  }

  lemma PositionWanted(objs: seq<Object>, start: Key, end: Key, k: nat)
    requires Ascending(objs) && k < |objs|
    ensures var from := Behind(objs, start, 0);
      from <= k < Reach(objs, end, from) <==> Less(start, objs[k].key) && !Past(end, objs[k].key)
  {
    hide Less, Behind, Reach, Ascending;
    var from := Behind(objs, start, 0);
    var to := Reach(objs, end, from);
    if from < k { LessTransitiveAt(start, objs, from, k); }
    if to < k { LessTransitiveAt(end, objs, to, k); }
  }

  lemma InSequence(objs: seq<Object>, i: nat, j: nat)
    requires Ascending(objs) && i < j < |objs|
    ensures Less(objs[i].key, objs[j].key)
  {
  }

  lemma NotBehind(objs: seq<Object>, i: nat, b: nat)
    requires Ascending(objs) && b <= i < |objs|
    ensures !Less(objs[i].key, objs[b].key)
  {
    LessIrreflexive(objs[i].key);
    if b < i {
      LessAsymmetric(objs[b].key, objs[i].key);
    }
  }

  /** Behind the object at a position come the ones after it. */
  lemma BehindAt(objs: seq<Object>, i: nat)
    requires Ascending(objs) && i < |objs|
    ensures Behind(objs, objs[i].key, 0) == i + 1
  {
    var b := Behind(objs, objs[i].key, 0);
    if b <= i { NotBehind(objs, i, b); }
    if i + 1 < |objs| { InSequence(objs, i, i + 1); }
    hide Less, Behind, Ascending;
  }

  /** A stretch of a listing. */
  ghost predicate Lies(page: seq<Object>, objs: seq<Object>, at: nat) {
    at + |page| <= |objs| && page == objs[at..at + |page|]
  }

  lemma InOrder(objs: seq<Object>, from: nat, sent: seq<Object>)
    requires Ascending(objs) && Lies(sent, objs, from)
    ensures Ascending(sent)
  {
    hide Less;
  }

  // ------------------------------------------------------------------ a store that keeps the contract

  /** A repeated marker at the front of a page is ignored. */
  function Unrepeated(objs: seq<Object>, marker: Key): seq<Object> {
    if |objs| > 0 && objs[0].key == marker then objs[1..] else objs
  }

  /** The marker of the next call: the last key that went out. */
  function MarkerOf(sent: seq<Object>): Key {
    if sent == [] then "" else sent[|sent| - 1].key
  }

  /** The answers to calls of `List`, the first of them behind `marker`, when `last` is the last key that
  went out: a page holds the next objects, all if it says that there are no more; and any call may fail. */
  ghost predicate Honest(objs: seq<Object>, marker: Key, last: Key, answers: seq<Answer>)
    decreases |answers|
  {
    answers == [] ||
    match answers[0]
    case Error => Honest(objs, marker, last, answers[1..])
    case Page(page, more) =>
      var next := if page != [] && page[0].key == marker then page[1..] else page;
      HonestPage(objs, Behind(objs, marker, 0), next, more)
      && var last' := if next == [] then last else MarkerOf(next);
         (more ==> Honest(objs, last', last', answers[1..]))
  }

  ghost predicate HonestPage(objs: seq<Object>, at: nat, page: seq<Object>, more: bool) {
    Lies(page, objs, at) && (!more ==> at + |page| == |objs|)
  }

  lemma HonestNext(objs: seq<Object>, marker: Key, last: Key, answers: seq<Answer>)
    requires Honest(objs, marker, last, answers) && answers != [] && answers[0].Page?
    ensures var next := Unrepeated(answers[0].objs, marker);
      && HonestPage(objs, Behind(objs, marker, 0), next, answers[0].hasMore)
      && var last' := if next == [] then last else MarkerOf(next);
         (answers[0].hasMore ==> Honest(objs, last', last', answers[1..]))
  {
    hide Behind, HonestPage, MarkerOf;
  }

  /** The first page does not repeat the marker. */
  ghost predicate HonestStart(objs: seq<Object>, start: Key, answers: seq<Answer>) {
    && Honest(objs, start, "", answers)
    && (answers != [] && answers[0].Page? && answers[0].objs != [] ==> answers[0].objs[0].key != start)
  }

  /** A first page that is empty and announces more makes the lister start over from the beginning: no key
  has gone out that could be the next marker. */
  predicate StartsOver(answers: seq<Answer>) {
    answers != [] && answers[0] == Page([], true)
  }

  function StartOf(answers: seq<Answer>, start: Key): Key {
    if StartsOver(answers) then "" else start
  }

  /** That does harm exactly if there is something up to the start that is not past the end: it is listed
  though it was not asked for. */
  lemma StartingOverStrays(objs: seq<Object>, start: Key, end: Key)
    requires Ascending(objs)
    ensures Wanted(objs, "", end) == Wanted(objs, start, end)
       <==> forall o :: o in objs && Less("", o.key) && !Past(end, o.key) ==> Less(start, o.key)
  {
    hide Less, Ascending, Behind, Reach, Wanted;
    forall o
      ensures o in Wanted(objs, "", end) <==> o in objs && Less("", o.key) && !Past(end, o.key)
      ensures o in Wanted(objs, start, end) <==> o in objs && Less(start, o.key) && !Past(end, o.key)
    {
      WantedIsExactly(objs, "", end, o);
      WantedIsExactly(objs, start, end, o);
    }
    if forall o :: o in objs && Less("", o.key) && !Past(end, o.key) ==> Less(start, o.key) {
      SameStretch(objs, start, end);
    }
  }

  /** A store that keeps the contract may answer so. */
  lemma MayStartOver(objs: seq<Object>, start: Key) returns (answers: seq<Answer>)
    requires Ascending(objs)
    ensures HonestStart(objs, start, answers) && StartsOver(answers)
    ensures |answers| == 2 && answers[1] == Page(objs[Behind(objs, "", 0)..], false)
  {
    var b := Behind(objs, "", 0);
    answers := [Page([], true), Page(objs[b..], false)];
    hide Ascending, Behind;
    assert answers[1..] == [answers[1]];
    assert Unrepeated(objs[b..], "") == objs[b..];
    assert HonestPage(objs, b, objs[b..], false);
    assert Honest(objs, "", "", answers[1..]);
    assert HonestPage(objs, Behind(objs, start, 0), [], true);
  }

  lemma SameStretch(objs: seq<Object>, start: Key, end: Key)
    requires Ascending(objs)
    requires forall o :: o in objs && Less("", o.key) && !Past(end, o.key) ==> Less(start, o.key)
    ensures Wanted(objs, "", end) == Wanted(objs, start, end)
  {
    var a, b := Behind(objs, "", 0), Behind(objs, start, 0);
    assert b < |objs| ==> objs[b].key != "" && Less("", objs[b].key);
    hide Less, Ascending, Behind, Reach;
    if a < b {
      assert objs[a] in objs && Past(end, objs[a].key);
      if b < |objs| { LessTransitiveAt(end, objs, a, b); }
    }
  }

  ghost predicate FourFailures(answers: seq<Answer>) {
    exists k :: 0 <= k && k + 4 <= |answers| && FailAt(answers, k)
  }

  ghost predicate FailAt(answers: seq<Answer>, k: nat)
    requires k + 4 <= |answers|
  {
    answers[k].Error? && answers[k + 1].Error? && answers[k + 2].Error? && answers[k + 3].Error?
  }

  // ------------------------------------------------------------------ the lister

  ghost predicate Within(objs: seq<Object>, end: Key) {
    forall k :: 0 <= k < |objs| ==> !Past(end, objs[k].key)
  }

  datatype Verdict = Next | Enough | Disorder

  /** One page: its objects go out until one is out of order or past the end. */
  method SendPage(objs: seq<Object>, end: Key, sent: seq<Object>) returns (n: nat, verdict: Verdict)
    requires Ascending(sent) && Within(sent, end)
    ensures n <= |objs| && Ascending(sent + objs[..n]) && Within(sent + objs[..n], end)
    ensures verdict == Next <==> n == |objs|
    ensures verdict == Enough ==> Past(end, objs[n].key)
    ensures verdict == Disorder ==> !Ascending(sent + objs[..n + 1])
  {
    hide Less, Past, Ascending, Within;
    var lastkey := if sent == [] then "" else sent[|sent| - 1].key;
    var first := sent == [];
    n := 0;
    assert sent + objs[..0] == sent;
    while n < |objs|
      invariant n <= |objs| && Ascending(sent + objs[..n])
      invariant first <==> sent + objs[..n] == []
      invariant !first ==> lastkey == (sent + objs[..n])[|sent| + n - 1].key
      invariant Within(sent + objs[..n], end)
    {
      var key := objs[n].key;
      ghost var out := sent + objs[..n];
      assert sent + objs[..n + 1] == out + [objs[n]];
      if !first && !Less(lastkey, key) {
        NotAscending(out, objs[n]);
        return n, Disorder;
      }
      if Past(end, key) {
        return n, Enough;
      }
      StillAscending(out, objs[n]);
      StillWithin(out, objs[n], end);
      lastkey := key;
      n := n + 1;
      first := false;
    }
    verdict := Next;
  }

  lemma StillWithin(out: seq<Object>, o: Object, end: Key)
    requires Within(out, end) && !Past(end, o.key)
    ensures Within(out + [o], end)
  {
  }

  lemma StillAscending(out: seq<Object>, o: Object)
    requires Ascending(out) && (out == [] || Less(out[|out| - 1].key, o.key))
    ensures Ascending(out + [o])
  {
    forall i | 0 <= i < |out| ensures Less(out[i].key, o.key) {
      if i < |out| - 1 {
        LessTransitive(out[i].key, out[|out| - 1].key, o.key);
      }
    }
  }

  lemma NotAscending(out: seq<Object>, o: Object)
    requires out != [] && !Less(out[|out| - 1].key, o.key)
    ensures !Ascending(out + [o])
  {
    var all := out + [o];
    assert !Less(all[|out| - 1].key, all[|out|].key);
  }

  /** The answer that the retries come to: at most three failures are put up with. */
  method Retry(answers: seq<Answer>, i: nat) returns (j: nat)
    requires i <= |answers|
    ensures i <= j <= |answers|
    ensures forall k :: i <= k < j ==> answers[k].Error?
    ensures j <= i + 3 && (j < |answers| && answers[j].Error? ==> j == i + 3 && FourFailures(answers))
  {
    j := i;
    var count := 0;
    while j < |answers| && answers[j].Error? && count < 3
      invariant i <= j <= |answers| && count == j - i <= 3
      invariant forall k :: i <= k < j ==> answers[k].Error?
    {
      j := j + 1;
      count := count + 1;
    }
    assert j < |answers| && answers[j].Error? ==> FailAt(answers, i);
  }

  /** Failed calls in between do not matter. */
  lemma {:induction false} SkipErrors(objs: seq<Object>, marker: Key, last: Key, answers: seq<Answer>, i: nat, j: nat)
    requires i <= j <= |answers| && Honest(objs, marker, last, answers[i..])
    requires forall k :: i <= k < j ==> answers[k].Error?
    ensures Honest(objs, marker, last, answers[j..])
    decreases j - i
  {
    if i < j {
      assert answers[i..][0].Error? && answers[i..][1..] == answers[i + 1..];
      SkipErrors(objs, marker, last, answers, i + 1, j);
    }
  }

  /** What went out and the page at hand, in a listing behind the start. */
  ghost predicate InStep(objs: seq<Object>, from: nat, sent: seq<Object>, page: seq<Object>, more: bool) {
    Lies(sent, objs, from) && HonestPage(objs, from + |sent|, page, more)
  }

  lemma LiesOn(a: seq<Object>, b: seq<Object>, objs: seq<Object>, at: nat, n: nat)
    requires Lies(a, objs, at) && Lies(b, objs, at + |a|) && n <= |b|
    ensures Lies(a + b[..n], objs, at)
  {
    assert a + b[..n] == objs[at..at + |a| + n];
  }

  /** Where the next page is to be found: behind what went out, or, with nothing out, at the beginning. */
  ghost function Resumed(objs: seq<Object>, from: nat, out: seq<Object>): nat {
    if out == [] then Behind(objs, "", 0) else from
  }

  /** The page after the one that was sent. */
  lemma NextPage(objs: seq<Object>, from: nat, out: seq<Object>, later: seq<Answer>)
    requires Ascending(objs) && Lies(out, objs, from)
    requires Honest(objs, MarkerOf(out), MarkerOf(out), later) && later != [] && later[0].Page?
    ensures var next := Unrepeated(later[0].objs, MarkerOf(out));
      Step(objs, Resumed(objs, from, out), out, next, later[0].hasMore, later[1..])
  {
    hide Honest, Less, Ascending, Behind, Unrepeated;
    HonestNext(objs, MarkerOf(out), MarkerOf(out), later);
    var next := Unrepeated(later[0].objs, MarkerOf(out));
    if out != [] { BehindAt(objs, from + |out| - 1); }
    assert Lies(next, objs, Behind(objs, MarkerOf(out), 0));
    assert MarkerOf(out + next) == if next == [] then MarkerOf(out) else MarkerOf(next);
    hide Lies;
    assert out == [] ==> Lies(out, objs, Behind(objs, "", 0)) by { NothingLies(objs, Behind(objs, "", 0)); }
  }

  lemma NothingLies(objs: seq<Object>, at: nat)
    requires at <= |objs|
    ensures Lies([], objs, at)
  {
  }

  lemma SentPage(objs: seq<Object>, from: nat, sent: seq<Object>, page: seq<Object>, more: bool)
    requires InStep(objs, from, sent, page, more)
    ensures Lies(sent + page, objs, from)
  {
    LiesOn(sent, page, objs, from, |page|);
    assert page[..|page|] == page;
  }

  /** Where the page that ends the listing leaves what was sent. */
  lemma PageSent(objs: seq<Object>, start: Key, end: Key, sent: seq<Object>, page: seq<Object>, more: bool, n: nat)
    requires InStep(objs, Behind(objs, start, 0), sent, page, more) && n <= |page|
    requires Within(sent + page[..n], end)
    ensures sent + page[..n] <= Wanted(objs, start, end)
    ensures n < |page| && Past(end, page[n].key) ==> sent + page[..n] == Wanted(objs, start, end)
    ensures n == |page| && !more ==> sent + page[..n] == Wanted(objs, start, end)
  {
    hide Past, Behind, Reach;
    var from := Behind(objs, start, 0);
    var to, m := Reach(objs, end, from), from + |sent| + n;
    LiesOn(sent, page, objs, from, n);
    var out := sent + page[..n];
    forall k | from <= k < m ensures !Past(end, objs[k].key) {
      assert objs[k] == out[k - from];
    }
    assert n < |page| ==> page[n] == objs[m];
    hide InStep, Lies, HonestPage, Within;
    assert m <= to && out == objs[from..m];
  }

  /** The state of the loop over a store that keeps the contract. */
  ghost predicate Step(objs: seq<Object>, from: nat, sent: seq<Object>, page: seq<Object>, more: bool,
                       later: seq<Answer>) {
    && InStep(objs, from, sent, page, more)
    && (more ==> Honest(objs, MarkerOf(sent + page), MarkerOf(sent + page), later))
  }

  /** A store that keeps the contract lists in order. */
  lemma NoDisorder(objs: seq<Object>, from: nat, sent: seq<Object>, page: seq<Object>, more: bool, n: nat)
    requires Ascending(objs) && InStep(objs, from, sent, page, more) && n < |page|
    ensures Ascending(sent + page[..n + 1])
  {
    LiesOn(sent, page, objs, from, n + 1);
    InOrder(objs, from, sent + page[..n + 1]);
  }

  lemma NextStep(objs: seq<Object>, from: nat, sent: seq<Object>, page: seq<Object>, answers: seq<Answer>, i: nat,
                 j: nat)
    requires i <= j < |answers| && answers[j].Page? && forall k :: i <= k < j ==> answers[k].Error?
    requires Ascending(objs) && Step(objs, from, sent, page, true, answers[i..])
    ensures var out := sent + page;
      Step(objs, Resumed(objs, from, out), out,
           Unrepeated(answers[j].objs, MarkerOf(out)), answers[j].hasMore, answers[j + 1..])
  {
    SentPage(objs, from, sent, page, true);
    hide Honest, InStep, Ascending;
    SkipErrors(objs, MarkerOf(sent + page), MarkerOf(sent + page), answers, i, j);
    NextPage(objs, from, sent + page, answers[j..]);
    assert answers[j..][1..] == answers[j + 1..];
  }

  /** The loop over a store that keeps the contract, at a page; the page of the first turn is the first
  answer, and nothing has gone out after it only if the listing starts over. */
  ghost predicate OnTrack(objs: seq<Object>, start: Key, answers: seq<Answer>, i: nat,
                          sent: seq<Object>, page: seq<Object>, more: bool) {
    && 1 <= i <= |answers|
    && Step(objs, Behind(objs, FromKey(answers, start, i), 0), sent, page, more, answers[i..])
    && (if i == 1 then sent == [] && Page(page, more) == answers[0] else sent == [] ==> StartsOver(answers))
  }

  function FromKey(answers: seq<Answer>, start: Key, i: nat): Key {
    if i == 1 then start else StartOf(answers, start)
  }

  lemma FirstPage(objs: seq<Object>, start: Key, answers: seq<Answer>)
    requires HonestStart(objs, start, answers) && answers != [] && answers[0].Page?
    ensures OnTrack(objs, start, answers, 1, [], answers[0].objs, answers[0].hasMore)
  {
    HonestNext(objs, start, "", answers);
    hide Honest, Behind;
    assert [] + answers[0].objs == answers[0].objs;
  }

  /** What has gone out is what is wanted or the beginning of it, and a failure has been four in a row. */
  ghost predicate Delivers(objs: seq<Object>, start: Key, end: Key, answers: seq<Answer>, sent: seq<Object>,
                           status: Status) {
    var wanted := Wanted(objs, StartOf(answers, start), end);
    && sent <= wanted
    && (status == Done ==> sent == wanted)
    && (status == Broken ==> FourFailures(answers))
  }

  lemma NothingSent(objs: seq<Object>, start: Key, end: Key, answers: seq<Answer>)
    ensures Delivers(objs, start, end, answers, [], Waiting) && Delivers(objs, start, end, answers, [], Refused)
    ensures Ascending([]) && Within([], end)
  {
  }

  /** What has gone out when the listing ends at an object of the page, or behind it. */
  lemma TrackEnds(objs: seq<Object>, start: Key, end: Key, answers: seq<Answer>, i: nat,
                  sent: seq<Object>, page: seq<Object>, more: bool, n: nat)
    requires Ascending(objs) && OnTrack(objs, start, answers, i, sent, page, more)
    requires n <= |page| && Within(sent + page[..n], end)
    ensures n < |page| ==> Ascending(sent + page[..n + 1])
    ensures forall status ::
      && (status == Done ==> if n < |page| then Past(end, page[n].key) else !more)
      && (status == Broken ==> FourFailures(answers))
      ==> Delivers(objs, start, end, answers, sent + page[..n], status)
  {
    hide FourFailures;
    hide Ascending, Within, Wanted, Past, Honest, Behind, InStep;
    var key := FromKey(answers, start, i);
    InStepHere(objs, Behind(objs, key, 0), sent, page, more, answers[i..]);
    hide Step;
    PageSent(objs, key, end, sent, page, more, n);
    if n < |page| { NoDisorder(objs, Behind(objs, key, 0), sent, page, more, n); }
  }

  lemma InStepHere(objs: seq<Object>, from: nat, sent: seq<Object>, page: seq<Object>, more: bool, later: seq<Answer>)
    requires Step(objs, from, sent, page, more, later)
    ensures InStep(objs, from, sent, page, more)
  {
  }

  lemma TrackGoesOn(objs: seq<Object>, start: Key, answers: seq<Answer>, i: nat, sent: seq<Object>, page: seq<Object>,
                    j: nat)
    requires Ascending(objs) && OnTrack(objs, start, answers, i, sent, page, true)
    requires i <= j < |answers| && answers[j].Page? && forall k :: i <= k < j ==> answers[k].Error?
    ensures OnTrack(objs, start, answers, j + 1, sent + page,
                    Unrepeated(answers[j].objs, MarkerOf(sent + page)), answers[j].hasMore)
  {
    hide Step, Behind, Ascending, Unrepeated;
    NextStep(objs, Behind(objs, FromKey(answers, start, i), 0), sent, page, answers, i, j);
  }

  /** Everything in the pages among some answers, without the markers they repeat. */
  ghost function Taken(answers: seq<Answer>): seq<Object> {
    if answers == [] then []
    else
      var n := |answers| - 1;
      var before := Taken(answers[..n]);
      if answers[n].Error? then before
      else before + if n == 0 then answers[n].objs else Unrepeated(answers[n].objs, MarkerOf(before))
  }

  lemma {:induction false} ErrorsTaken(answers: seq<Answer>, i: nat, j: nat)
    requires i <= j <= |answers| && forall k :: i <= k < j ==> answers[k].Error?
    ensures Taken(answers[..j]) == Taken(answers[..i])
  {
    if i < j {
      ErrorsTaken(answers, i, j - 1);
      assert answers[..j][..j - 1] == answers[..j - 1];
    }
  }

  lemma PageTaken(answers: seq<Answer>, i: nat, j: nat)
    requires 0 < i <= j < |answers| && answers[j].Page? && forall k :: i <= k < j ==> answers[k].Error?
    ensures var out := Taken(answers[..i]);
      Taken(answers[..j + 1]) == out + Unrepeated(answers[j].objs, MarkerOf(out))
  {
    ErrorsTaken(answers, i, j);
    assert answers[..j + 1][..j] == answers[..j];
  }

  /** How far a listing has got with what it took: nothing is left out unless it is past the end or out of
  order, and what is out of order breaks the listing off. */
  ghost predicate GotTo(taken: seq<Object>, sent: seq<Object>, end: Key, status: Status) {
    && sent <= taken
    && (sent == taken || (status == Done && Past(end, taken[|sent|].key))
                      || (status == Broken && !Ascending(taken[..|sent| + 1])))
  }

  lemma PageGot(taken: seq<Object>, before: seq<Object>, page: seq<Object>, n: nat, end: Key, status: Status)
    requires taken == before + page && n <= |page|
    requires n == |page| || (status == Done && Past(end, page[n].key))
                         || (status == Broken && !Ascending(before + page[..n + 1]))
    ensures GotTo(taken, before + page[..n], end, status)
  {
    hide Past, Ascending;
    if n < |page| { assert taken[..|before| + n + 1] == before + page[..n + 1]; }
  }

  /** The loop over the pages. Whatever the store answers, what goes out is strictly ascending and not
  past the end, and it is all of the first `k` answers up to an object past the end, which ends the listing,
  or out of order, which breaks it off. If the store keeps the contract, it is what is wanted, or, after four
  failures in a row or while answers are outstanding, the beginning of it; and then a failure is always told. */
  method ListPages(answers: seq<Answer>, start: Key, end: Key, ghost objs: seq<Object>)
    returns (sent: seq<Object>, status: Status, ghost k: nat)
    ensures Ascending(sent) && Within(sent, end)
    ensures k <= |answers| && GotTo(Taken(answers[..k]), sent, end, status)
    ensures status == Done && sent == Taken(answers[..k]) ==>
      k > 0 && answers[k - 1].Page? && !answers[k - 1].hasMore
    ensures status == Refused <==> answers != [] && answers[0].Error?
    ensures Ascending(objs) && HonestStart(objs, start, answers) ==> Delivers(objs, start, end, answers, sent, status)
  {
    hide FourFailures, Wanted, Past, Ascending, Within, HonestStart, OnTrack, Unrepeated, MarkerOf, Delivers;
    NothingSent(objs, start, end, answers);
    sent := [];
    if answers == [] {
      return sent, Waiting, 0;
    }
    if answers[0].Error? {
      return sent, Refused, 0;
    }
    assert answers[..1][..0] == [];
    var page, hasMore, i := answers[0].objs, answers[0].hasMore, 1;
    ghost var honest := Ascending(objs) && HonestStart(objs, start, answers);
    if honest { FirstPage(objs, start, answers); }
    while true
      invariant 1 <= i <= |answers| && Ascending(sent) && Within(sent, end)
      invariant Taken(answers[..i]) == sent + page && answers[i - 1].Page? && hasMore == answers[i - 1].hasMore
      invariant honest ==> OnTrack(objs, start, answers, i, sent, page, hasMore)
      decreases |answers| - i
    {
      ghost var before := sent;
      var n, verdict := SendPage(page, end, sent);
      if honest { TrackEnds(objs, start, end, answers, i, sent, page, hasMore, n); }
      sent := sent + page[..n];
      PageGot(Taken(answers[..i]), before, page, n, end, if verdict == Disorder then Broken else Done);
      if verdict == Disorder {
        return sent, Broken, i;
      }
      if verdict == Enough || !hasMore {
        return sent, Done, i;
      }
      assert sent == Taken(answers[..i]);
      var marker := MarkerOf(sent);
      var j := Retry(answers, i);
      if j == |answers| {
        return sent, Waiting, i;
      }
      if answers[j].Error? {
        return sent, Broken, i;
      }
      PageTaken(answers, i, j);
      if honest {
        assert page[..n] == page;
        TrackGoesOn(objs, start, answers, i, before, page, j);
      }
      page, hasMore, i := Unrepeated(answers[j].objs, marker), answers[j].hasMore, j + 1;
    }
  }

  // ------------------------------------------------------------------ the whole listing

  /** What the store offers: a listing of its own, or pages. */
  datatype Source = Whole(keys: Channel) | Paged(answers: seq<Answer>)

  /** The start itself is asked for separately; an error of that request is dropped. */
  function Head(head: Option<Object>, prefix: Key, start: Key): seq<Object> {
    if start != "" && HasPrefix(start, prefix) && head.Some? then [head.value] else []
  }

  function Sent(objs: seq<Object>): (ch: Channel)
    ensures |ch| == |objs| && forall k :: 0 <= k < |ch| ==> ch[k] == Some(objs[k])
  {
    seq(|objs|, k requires 0 <= k < |objs| => Some(objs[k]))
  }

  /** What a store's own listing is cut to; a nil in it is handed on. */
  function Cut(keys: Channel, end: Key): Channel {
    if keys == [] || (keys[0].Some? && Past(end, keys[0].value.key)) then []
    else [keys[0]] + Cut(keys[1..], end)
  }

  lemma {:induction false} ReceivedSent(objs: seq<Object>, rest: Channel)
    ensures Received(Sent(objs) + rest) == Listing(objs + Received(rest).objs, Received(rest).failed)
  {
    if objs == [] {
      assert Sent(objs) + rest == rest;
      assert objs + Received(rest).objs == Received(rest).objs;
    } else {
      var ch := Sent(objs) + rest;
      assert ch[1..] == Sent(objs[1..]) + rest;
      ReceivedSent(objs[1..], rest);
      assert objs + Received(rest).objs == [objs[0]] + (objs[1..] + Received(rest).objs);
    }
  }

  lemma ReachShift(objs: seq<Object>, end: Key)
    requires objs != [] && !Past(end, objs[0].key)
    ensures Reach(objs, end, 0) == Reach(objs[1..], end, 0) + 1
  {
    hide Past;
    var r, q := Reach(objs, end, 0), Reach(objs[1..], end, 0);
    assert 0 < r < |objs| ==> objs[r] == objs[1..][r - 1];
    if q < |objs| - 1 { assert objs[1..][q] == objs[q + 1]; }
  }

  /** A reader of the cut listing gets what comes before the end, and learns of a failure before that. */
  lemma {:induction false} CutReceived(keys: Channel, end: Key)
    ensures var r, m := Received(keys), Reach(Received(keys).objs, end, 0);
      Received(Cut(keys, end)) == Listing(r.objs[..m], r.failed && m == |r.objs|)
  {
    hide Past;
    if keys != [] && keys[0].Some? && !Past(end, keys[0].value.key) {
      CutReceived(keys[1..], end);
      ReachShift(Received(keys).objs, end);
      assert Cut(keys, end)[1..] == Cut(keys[1..], end);
    }
  }

  /** Of a listing that begins behind the start, what comes before the end is wanted. */
  lemma UptoIsWanted(objs: seq<Object>, start: Key, end: Key, part: seq<Object>)
    requires part <= objs[Behind(objs, start, 0)..]
    ensures var out, wanted := part[..Reach(part, end, 0)], Wanted(objs, start, end);
      out <= wanted && (out != part || part == objs[Behind(objs, start, 0)..] ==> out == wanted)
  {
    hide Past, Behind;
    var from := Behind(objs, start, 0);
    var m, r := Reach(part, end, 0), Reach(objs, end, from);
    assert forall k :: 0 <= k < |part| ==> part[k] == objs[from + k];
    if m < |part| { assert r == from + m; }
  }

  /** What is to come of a listing: the start, if one is given that has the prefix and was found, and what is
  wanted behind it. */
  function Meant(head: Option<Object>, prefix: Key, objs: seq<Object>, start: Key, from: Key, end: Key): seq<Object> {
    (if start != "" && HasPrefix(start, prefix) && head.Some? then [head.value] else []) + Wanted(objs, from, end)
  }

  /** The lister. From a store that keeps the contract its reader gets the start, if it was found, and
  everything wanted behind it; or, when the listing fails, the beginning of that and a nil. A store with a
  listing of its own lists what is behind the start; from one that lists in pages, the listing starts over
  if the first page is empty and announces more. */
  method ListAll(source: Source, head: Option<Object>, prefix: Key, start: Key, end: Key, ghost objs: seq<Object>)
    returns (out: Channel, status: Status)
    ensures source.Whole? ==> status == Done && out == Sent(Head(head, prefix, start)) + Cut(source.keys, end)
    ensures source.Whole? && Received(source.keys).objs <= objs[Behind(objs, start, 0)..] ==>
      var meant := Meant(head, prefix, objs, start, start, end);
      && Received(out).objs <= meant
      && (Received(source.keys) == Listing(objs[Behind(objs, start, 0)..], false) ==>
          Received(out) == Listing(meant, false))
      && (Received(source.keys).failed ==> Received(out).failed || Received(out).objs == meant)
    ensures source.Paged? && Ascending(objs) && HonestStart(objs, start, source.answers) ==>
      var meant := Meant(head, prefix, objs, start, StartOf(source.answers, start), end);
      && (status == Done ==> Received(out) == Listing(meant, false))
      && (status == Broken ==> Received(out).failed && FourFailures(source.answers))
      && Received(out).objs <= meant
      && (status == Refused <==> source.answers != [] && source.answers[0].Error?)
  {
    hide FourFailures, Wanted, Past, Ascending, HonestStart, StartOf;
    var first := Head(head, prefix, start);
    match source
    case Whole(keys) =>
      out := Sent(first);
      var i := 0;
      while i < |keys| && !(keys[i].Some? && Past(end, keys[i].value.key))
        invariant i <= |keys|
        invariant Sent(first) + Cut(keys, end) == out + Cut(keys[i..], end)
      {
        assert keys[i..][1..] == keys[i + 1..];
        out := out + [keys[i]];
        i := i + 1;
      }
      status := Done;
      WholeMeans(keys, head, prefix, objs, start, end);
    case Paged(answers) =>
      var sent;
      ghost var k;
      sent, status, k := ListPages(answers, start, end, objs);
      ReceivedSent(first + sent, []);
      ReceivedSent(first + sent, [None]);
      out := Sent(first + sent);
      assert out + [] == out && (first + sent) + [] == first + sent;
      if status == Broken {
        out := out + [None];
      }
  }

  lemma WholeMeans(keys: Channel, head: Option<Object>, prefix: Key, objs: seq<Object>, start: Key, end: Key)
    ensures Received(keys).objs <= objs[Behind(objs, start, 0)..] ==>
      var out, meant := Sent(Head(head, prefix, start)) + Cut(keys, end), Meant(head, prefix, objs, start, start, end);
      && Received(out).objs <= meant
      && (Received(keys) == Listing(objs[Behind(objs, start, 0)..], false) ==> Received(out) == Listing(meant, false))
      && (Received(keys).failed ==> Received(out).failed || Received(out).objs == meant)
  {
    hide Past, Behind, Wanted, Reach, Cut, Received;
    ReceivedSent(Head(head, prefix, start), Cut(keys, end));
    CutReceived(keys, end);
    if Received(keys).objs <= objs[Behind(objs, start, 0)..] {
      UptoIsWanted(objs, start, end, Received(keys).objs);
    }
  }

  ghost predicate InInterval(objects: map<Key, Object>, prefix: Key, start: Key, end: Key, o: Object) {
    o.key in objects && objects[o.key] == o && HasPrefix(o.key, prefix) && !Less(o.key, start) && !Past(end, o.key)
  }

  /** A completed listing holds exactly the keys from `start` to `end`, both included, if and only if the
  start was found and is not past the end, or there is no such key to be found. */
  lemma CompleteExactly(objects: map<Key, Object>, objs: seq<Object>, head: Option<Object>, prefix: Key, start: Key,
                        end: Key)
    requires Hierarchy.ListsFlat(objects, prefix, objs)
    requires head.Some? ==> head.value.key == start && start in objects && objects[start] == head.value
    requires start in objects ==> objects[start].key == start
    ensures var first := Head(head, prefix, start);
      (forall o :: o in first + Wanted(objs, start, end) <==> InInterval(objects, prefix, start, end, o))
      <==> (if first != [] then !Past(end, start)
            else !(start in objects && HasPrefix(start, prefix) && !Past(end, start)))
  {
    hide Less, Past, Wanted, Ascending;
    var first, wanted := Head(head, prefix, start), Wanted(objs, start, end);
    LessIrreflexive(start);
    forall o
      ensures o in wanted <==> InInterval(objects, prefix, start, end, o) && o.key != start
    {
      WantedIsExactly(objs, start, end, o);
      LessTotal(start, o.key);
      if Less(start, o.key) { LessAsymmetric(start, o.key); }
    }
    if start in objects {
      assert objects[start] !in wanted;
      assert InInterval(objects, prefix, start, end, objects[start]) <==> HasPrefix(start, prefix) && !Past(end, start);
    }
    assert forall o :: o in first + wanted <==> (first != [] && o == objects[start]) || o in wanted;
  }
}

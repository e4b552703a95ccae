/** The global bandwidth limiter: requests queue for credit, the first one asks a server for more with
the lock released, and idle credit is paid back. */
module Limiter {
  import opened Objects

  /** A queued request; its number tells requests of the same size apart. */
  datatype Req = Req(id: nat, bytes: int)

  const PAYBACK_MAX: int := 0x4000_0000

  /** `balance`, `need` and `waiters` are the limiter's own; the rest is history. */
  datatype State = State(
    balance: int,
    need: int,
    waiters: seq<Req>,
    asking: Option<int>,
    arrived: seq<Req>,
    finished: seq<Req>,
    granted: int,
    charged: int,
    free: int,
    paidBack: int)

  /** A request enters, the first waiter takes its turn, the answer to its question arrives, or the
  periodic check runs (`due` tells whether the credit has expired). */
  datatype Step = Enter(bytes: int) | Turn | Answer(granted: Option<int>) | CheckBalance(due: bool)

  function Start(balance: int): State {
    State(balance, 0, [], None, [], [], balance, 0, 0, 0)
  }

  function Ask(balance: int, need: int, bytes: int): (ask: int) {
    if need - balance >= 10 * bytes then 10 * bytes else need - balance
  }

  function Served(s: State): State
    requires s.waiters != []
  {
    var r := s.waiters[0];
    s.(balance := s.balance - r.bytes, need := s.need - r.bytes, waiters := s.waiters[1..], asking := None,
       finished := s.finished + [r], charged := s.charged + r.bytes)
  }

  function Payback(s: State, due: bool): int {
    if s.balance > 0 && s.need == 0 && due then
      if s.balance > PAYBACK_MAX then PAYBACK_MAX else s.balance
    else 0
  }

  /** A step that cannot happen leaves the state alone. */
  function Apply(s: State, step: Step): State {
    match step
    case Enter(bytes) =>
      var r := Req(|s.arrived|, bytes);
      if bytes <= 0 then
        s.(balance := s.balance - bytes, charged := s.charged + bytes, free := s.free + bytes)
      else if s.balance >= bytes && s.waiters == [] then
        s.(balance := s.balance - bytes, charged := s.charged + bytes,
           arrived := s.arrived + [r], finished := s.finished + [r])
      else
        s.(need := s.need + bytes, waiters := s.waiters + [r], arrived := s.arrived + [r])
    case Turn =>
      if s.waiters == [] || s.asking.Some? then s
      else if s.balance < s.waiters[0].bytes then
        s.(asking := Some(Ask(s.balance, s.need, s.waiters[0].bytes)))
      else Served(s)
    case Answer(granted) =>
      if s.waiters == [] || s.asking.None? then s
      else if granted.Some? then
        Served(s.(balance := s.balance + granted.value, granted := s.granted + granted.value))
      else Served(s)
    case CheckBalance(due) =>
      s.(balance := s.balance - Payback(s, due), paidBack := s.paidBack + Payback(s, due))
  }

  function Run(s: State, steps: seq<Step>): State
    decreases |steps|
  {
    if steps == [] then s else Apply(Run(s, steps[..|steps| - 1]), steps[|steps| - 1])
  }

  // ------------------------------------------------------------------ the invariant

  function Sum(rs: seq<Req>): int {
    if rs == [] then 0 else rs[0].bytes + Sum(rs[1..])
  }

  lemma {:induction false} SumSnoc(rs: seq<Req>, r: Req)
    ensures Sum(rs + [r]) == Sum(rs) + r.bytes
  {
    if rs == [] {
      assert Sum([r]) == r.bytes + Sum([]);
    } else {
      SumSnoc(rs[1..], r);
      assert (rs + [r])[1..] == rs[1..] + [r];
    }
  }

  lemma {:induction false} SumPositive(rs: seq<Req>)
    requires AllPositive(rs)
    ensures Sum(rs) >= |rs|
    ensures rs != [] ==> Sum(rs) >= rs[0].bytes
  {
    if rs != [] {
      SumPositive(rs[1..]);
    }
  }

  ghost predicate AllPositive(rs: seq<Req>) {
    forall k :: 0 <= k < |rs| ==> rs[k].bytes > 0
  }

  /** The book-keeping: what is needed is what is queued, the balance is what was granted less what was
  charged and paid back, and the finished requests are the first ones that arrived. */
  ghost predicate Inv(s: State) {
    && s.need == Sum(s.waiters)
    && AllPositive(s.waiters)
    && s.arrived == s.finished + s.waiters
    && s.balance == s.granted - s.charged - s.paidBack
    && s.charged == Sum(s.finished) + s.free
    && s.free <= 0 <= s.paidBack
    && (s.asking.Some? ==> s.waiters != [] && s.asking.value > 0)
  }

  lemma ServedInv(s: State)
    requires Inv(s) && s.waiters != []
    ensures Inv(Served(s))
  {
    SumSnoc(s.finished, s.waiters[0]);
    assert s.finished + s.waiters == (s.finished + [s.waiters[0]]) + s.waiters[1..];
  }

  lemma EnterInv(s: State, bytes: int)
    requires Inv(s)
    ensures Inv(Apply(s, Enter(bytes)))
  {
    hide Sum;
    var r := Req(|s.arrived|, bytes);
    SumSnoc(s.waiters, r);
    SumSnoc(s.finished, r);
    assert (s.finished + s.waiters) + [r] == s.finished + (s.waiters + [r]);
    assert s.waiters == [] ==> s.arrived == s.finished;
  }

  lemma StepInv(s: State, step: Step)
    requires Inv(s)
    ensures Inv(Apply(s, step))
  {
    SumPositive(s.waiters);
    hide Sum, Served;
    match step
    case Enter(bytes) => EnterInv(s, bytes);
    case Turn =>
      if s.waiters != [] { ServedInv(s); }
    case Answer(granted) =>
      if s.waiters != [] {
        ServedInv(s);
        if granted.Some? {
          ServedInv(s.(balance := s.balance + granted.value, granted := s.granted + granted.value));
        }
      }
    case CheckBalance(_) =>
  }

  /** Every run, whatever the server answers: the books balance, requests for a positive amount finish
  in the order they arrived, and every question asks for a positive amount. */
  lemma {:induction false} RunInv(balance: int, steps: seq<Step>)
    ensures Inv(Run(Start(balance), steps))
    decreases |steps|
  {
    if steps != [] {
      RunInv(balance, steps[..|steps| - 1]);
      StepInv(Run(Start(balance), steps[..|steps| - 1]), steps[|steps| - 1]);
    }
  }

  /** What every interleaving promises, spelled out. */
  lemma Ledger(balance: int, steps: seq<Step>)
    ensures var s := Run(Start(balance), steps);
      && s.need == Sum(s.waiters) >= |s.waiters|
      && s.balance == s.granted - s.charged - s.paidBack
      && s.charged == Sum(s.finished) + s.free && s.free <= 0
      && |s.finished| <= |s.arrived|
      && s.finished == s.arrived[..|s.finished|] && s.waiters == s.arrived[|s.finished|..]
      && (s.asking.Some? ==> s.asking.value > 0 && s.waiters != [])
  {
    RunInv(balance, steps);
    SumPositive(Run(Start(balance), steps).waiters);
  }

  /** Credit is paid back only while nobody waits, never more than there is and never more than a
  gibibyte at once; what is left is not negative. */
  lemma PaybackWhenIdle(balance: int, steps: seq<Step>, due: bool)
    ensures var s := Run(Start(balance), steps);
      var p := Payback(s, due);
      && 0 <= p <= PAYBACK_MAX
      && (p > 0 <==> due && s.waiters == [] && s.balance > 0)
      && (p > 0 ==> s.asking == None && Apply(s, CheckBalance(due)).balance >= 0)
  {
    RunInv(balance, steps);
    SumPositive(Run(Start(balance), steps).waiters);
  }

  /** A payback that is due leaves what is beyond a gibibyte, and nothing else. */
  lemma PaybackIs(balance: int, steps: seq<Step>, due: bool)
    ensures var s := Run(Start(balance), steps);
      Apply(s, CheckBalance(due)).balance ==
        if due && s.waiters == [] && s.balance > 0 then (if s.balance > 0x4000_0000 then s.balance - 0x4000_0000 else 0)
        else s.balance
  {
    RunInv(balance, steps);
    SumPositive(Run(Start(balance), steps).waiters);
  }

  // ------------------------------------------------------------------ full grants

  ghost predicate InFull(s: State, step: Step) {
    step.Answer? && s.asking.Some? ==> step.granted == s.asking
  }

  ghost predicate AllInFull(s: State, steps: seq<Step>)
    decreases |steps|
  {
    steps == [] ||
    (AllInFull(s, steps[..|steps| - 1]) && InFull(Run(s, steps[..|steps| - 1]), steps[|steps| - 1]))
  }

  ghost predicate Solvent(s: State) {
    && s.balance >= 0
    && (s.asking.Some? && s.waiters != [] ==> s.balance + s.asking.value >= s.waiters[0].bytes)
  }

  lemma StepSolvent(s: State, step: Step)
    requires Inv(s) && Solvent(s) && InFull(s, step)
    ensures Solvent(Apply(s, step))
  {
    SumPositive(s.waiters);
  }

  /** When every question is granted in full, the balance never gets negative. */
  lemma {:induction false} NeverOverdrawn(steps: seq<Step>)
    requires AllInFull(Start(0), steps)
    ensures Solvent(Run(Start(0), steps))
    decreases |steps|
  {
    if steps != [] {
      var init := steps[..|steps| - 1];
      NeverOverdrawn(init);
      RunInv(0, init);
      StepSolvent(Run(Start(0), init), steps[|steps| - 1]);
    }
  }

  /** The turns of those who wait, one after the other. */
  function Turns(s: State, n: nat): State
    decreases n
  {
    if n == 0 then s else Turns(Apply(s, Turn), n - 1)
  }

  ghost predicate Covered(s: State) {
    Inv(s) && s.asking.None? && s.balance >= Sum(s.waiters)
  }

  lemma CoveredIsServed(s: State)
    requires Covered(s) && s.waiters != []
    ensures var s', r := Apply(s, Turn), s.waiters[0];
      && Covered(s') && s'.waiters == s.waiters[1..] && s'.finished == s.finished + [r]
      && s'.balance - Sum(s'.waiters) == s.balance - Sum(s.waiters)
  {
    SumPositive(s.waiters);
    SumPositive(s.waiters[1..]);
    StepInv(s, Turn);
    hide Inv;
  }

  /** With a balance that covers all who wait, each is served at its turn without a question. */
  lemma {:induction false} CoveredAreServed(s: State, n: nat)
    requires Covered(s) && n <= |s.waiters|
    ensures var t := Turns(s, n);
      && Covered(t) && t.waiters == s.waiters[n..] && t.finished == s.finished + s.waiters[..n]
      && t.balance - Sum(t.waiters) == s.balance - Sum(s.waiters)
    decreases n
  {
    hide Covered, Apply, Sum;
    if n == 0 {
      assert s.finished + [] == s.finished;
    } else {
      var s' := Apply(s, Turn);
      CoveredIsServed(s);
      CoveredAreServed(s', n - 1);
      assert s.waiters[..n] == [s.waiters[0]] + s.waiters[1..][..n - 1];
    }
  }

  /** A question of the first waiter asks for the others too. It names ten times its own need if and only if
  they are all together short by at least that much; else, granted in full before anybody else arrives, it
  lets everybody who waits be served in turn without another question. */
  lemma AskCoversAll(balance: int, steps: seq<Step>)
    requires var s := Run(Start(balance), steps);
      s.asking.None? && s.waiters != [] && s.balance < s.waiters[0].bytes
    ensures var s := Run(Start(balance), steps);
      var asked := Apply(s, Turn);
      var answered := Apply(asked, Answer(asked.asking));
      && asked.asking.Some? && asked.waiters == s.waiters && asked.balance == s.balance
      && (asked.asking == Some(10 * s.waiters[0].bytes) <==> Sum(s.waiters) - s.balance >= 10 * s.waiters[0].bytes)
      && asked.asking.value <= 10 * s.waiters[0].bytes
      && (asked.asking.value < 10 * s.waiters[0].bytes ==>
            && answered.balance == Sum(answered.waiters)
            && var t := Turns(answered, |answered.waiters|);
               t.waiters == [] && t.asking.None? && t.balance == 0 && t.finished == t.arrived)
  {
    RunInv(balance, steps);
    var s := Run(Start(balance), steps);
    var asked := Apply(s, Turn);
    var answered := Apply(asked, Answer(asked.asking));
    StepInv(s, Turn);
    StepInv(asked, Answer(asked.asking));
    hide Inv;
    if asked.asking.value < 10 * s.waiters[0].bytes {
      AllServed(answered);
    }
  }

  lemma AllServed(s: State)
    requires Inv(s) && s.asking.None? && s.balance == Sum(s.waiters)
    ensures var t := Turns(s, |s.waiters|);
      t.waiters == [] && t.asking.None? && t.balance == 0 && t.finished == t.arrived
  {
    CoveredAreServed(s, |s.waiters|);
    var t := Turns(s, |s.waiters|);
    assert t.finished + [] == t.finished;
  }

  /** What an answer adds to the balance. */
  function Credit(granted: Option<int>): int {
    if granted.Some? then granted.value else 0
  }

  /** The request that asked is let through whatever the answer; the balance stays non-negative exactly
  when what there was and what was granted cover it. */
  lemma AnswerCovers(balance: int, steps: seq<Step>, granted: Option<int>)
    requires Run(Start(balance), steps).asking.Some?
    ensures var s := Run(Start(balance), steps);
      && s.waiters != [] && Apply(s, Answer(granted)).waiters == s.waiters[1..]
      && (Apply(s, Answer(granted)).balance >= 0 <==> s.balance + Credit(granted) >= s.waiters[0].bytes)
  {
    RunInv(balance, steps);
  }

  predicate NothingGivenBack(steps: seq<Step>) {
    forall k :: 0 <= k < |steps| && steps[k].Enter? ==> steps[k].bytes >= 0
  }

  /** While no request gives credit back, a question is open only as long as the balance does not cover
  the request that asked. */
  lemma {:induction false} AskingIsShort(balance: int, steps: seq<Step>)
    requires NothingGivenBack(steps)
    ensures var s := Run(Start(balance), steps); s.asking.Some? && s.waiters != [] ==> s.balance < s.waiters[0].bytes
    decreases |steps|
  {
    if steps != [] {
      var init := steps[..|steps| - 1];
      AskingIsShort(balance, init);
      RunInv(balance, init);
      SumPositive(Run(Start(balance), init).waiters);
    }
  }

  /** So a question that is refused, by an error or by a grant of nothing, always leaves the balance
  below zero. */
  lemma RefusedIsOverdrawn(balance: int, steps: seq<Step>, granted: Option<int>)
    requires NothingGivenBack(steps) && Run(Start(balance), steps).asking.Some? && Credit(granted) <= 0
    ensures Apply(Run(Start(balance), steps), Answer(granted)).balance < 0
  {
    AskingIsShort(balance, steps);
    AnswerCovers(balance, steps, granted);
  }

  /** It takes a request that gives back meanwhile to make up for a refusal. */
  lemma GivenBackMakesUp()
    ensures var steps := [Enter(5), Turn, Enter(-10)];
      Run(Start(0), steps).asking.Some? && Apply(Run(Start(0), steps), Answer(None)).balance == 5
  {
    var steps := [Enter(5), Turn, Enter(-10)];
    assert steps[..2] == [Enter(5), Turn] && steps[..2][..1] == [Enter(5)] && steps[..2][..1][..0] == [];
    assert Run(Start(0), [Enter(5)]) == Apply(Start(0), Enter(5));
    assert Run(Start(0), steps[..2]) == Apply(Apply(Start(0), Enter(5)), Turn);
  }

  // ------------------------------------------------------------------ the object

  /** The limiter, its methods cut where the lock is released. The ghost field is the state above. */
  class GlobalLimit {
    var balance: int
    var need: int
    var waiters: seq<Req>
    ghost var view: State

    ghost predicate Valid()
      reads this
    {
      Inv(view) && view.balance == balance && view.need == need && view.waiters == waiters
    }

    constructor (balance: int)
      ensures Valid() && view == Start(balance)
    {
      this.balance, need, waiters := balance, 0, [];
      view := Start(balance);
    }

    /** The fast path of `wait`, or the place in the queue. */
    method Arrive(id: nat, bytes: int) returns (done: bool)
      requires Valid() && id == |view.arrived|
      modifies this
      ensures Valid() && view == Apply(old(view), Enter(bytes))
      ensures done <==> bytes <= 0 || (old(balance) >= bytes && old(waiters) == [])
      ensures balance == if done then old(balance) - bytes else old(balance)
      ensures waiters == if done then old(waiters) else old(waiters) + [Req(id, bytes)]
    {
      StepInv(view, Enter(bytes));
      if bytes <= 0 || (balance >= bytes && |waiters| == 0) {
        balance := balance - bytes;
        done := true;
      } else {
        need := need + bytes;
        waiters := waiters + [Req(id, bytes)];
        done := false;
      }
      view := Apply(view, Enter(bytes));
    }

    /** The first waiter is served from the balance, or names the amount it is going to ask for. */
    method TakeTurn() returns (ask: Option<int>)
      requires Valid() && waiters != [] && view.asking.None?
      modifies this
      ensures Valid() && view == Apply(old(view), Turn) && ask == view.asking
      ensures ask.Some? <==> old(balance) < old(waiters)[0].bytes
      ensures ask.Some? ==> waiters == old(waiters) && balance == old(balance)
      ensures ask.Some? ==> var short := Sum(waiters) - balance;
                ask.value == if short >= 10 * waiters[0].bytes then 10 * waiters[0].bytes else short
      ensures ask.None? ==> waiters == old(waiters)[1..] && balance == old(balance) - old(waiters)[0].bytes >= 0
    {
      StepInv(view, Turn);
      var bytes := waiters[0].bytes;
      if balance < bytes {
        var a := need - balance;
        if a >= bytes * 10 {
          a := bytes * 10;
        }
        ask := Some(a);
      } else {
        ask := None;
        Leave(bytes);
      }
      view := Apply(view, Turn);
    }

    /** The answer to the question, or the failure to get one. */
    method Receive(granted: Option<int>)
      requires Valid() && waiters != [] && view.asking.Some?
      modifies this
      ensures Valid() && view == Apply(old(view), Answer(granted)) && waiters == old(waiters)[1..]
      ensures balance == old(balance) + (if granted.Some? then granted.value else 0) - old(waiters)[0].bytes
    {
      StepInv(view, Answer(granted));
      if granted.Some? {
        balance := balance + granted.value;
      }
      Leave(waiters[0].bytes);
      view := Apply(view, Answer(granted));
    }

    method Leave(bytes: int)
      requires waiters != []
      modifies `balance, `need, `waiters
      ensures balance == old(balance) - bytes && need == old(need) - bytes && waiters == old(waiters)[1..]
    {
      balance := balance - bytes;
      need := need - bytes;
      waiters := waiters[1..];
    }

    method Check(due: bool) returns (payback: int)
      requires Valid()
      modifies this
      ensures Valid() && view == Apply(old(view), CheckBalance(due)) && waiters == old(waiters)
      ensures payback == old(balance) - balance && 0 <= payback <= PAYBACK_MAX
      ensures balance ==
                if due && waiters == [] && old(balance) > 0 then
                  if old(balance) > 0x4000_0000 then old(balance) - 0x4000_0000 else 0
                else old(balance)
    {
      StepInv(view, CheckBalance(due));
      SumPositive(waiters);
      payback := 0;
      if balance > 0 && need == 0 && due {
        payback := balance;
        if payback > PAYBACK_MAX {
          payback := PAYBACK_MAX;
        }
        balance := balance - payback;
      }
      view := Apply(view, CheckBalance(due));
    }
  }
}

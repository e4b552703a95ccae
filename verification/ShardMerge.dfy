/** A store spread over shards by the hash of the key, and the heap that merges their listings. */
module ShardMerge {
  import opened Keys
  import opened Objects

  // ------------------------------------------------------------------ the hash

  /** The 32-bit FNV-1a hash. */
  function Hash(key: Key): bv32 {
    if key == "" then 0x811C_9DC5
    else (Hash(key[..|key| - 1]) ^ ((key[|key| - 1] as int) as bv32)) * 0x0100_0193
  }

  function Pick(key: Key, n: nat): (i: nat)
    requires n > 0
    ensures i < n
  {
    (Hash(key) as int) % n
  }

  // ------------------------------------------------------------------ the store

  /** The shards, and the operations that go to the shard of their key. */
  type Shards = seq<map<Key, Object>>

  function HeadAt(stores: Shards, key: Key): Option<Object>
    requires |stores| > 0
  {
    var st := stores[Pick(key, |stores|)];
    if key in st then Some(st[key]) else None
  }

  function PutAt(stores: Shards, key: Key, o: Object): (r: Shards)
    requires |stores| > 0
    ensures |r| == |stores|
  {
    var i := Pick(key, |stores|);
    stores[i := stores[i][key := o]]
  }

  function DeleteAt(stores: Shards, key: Key): (r: Shards)
    requires |stores| > 0
    ensures |r| == |stores|
  {
    var i := Pick(key, |stores|);
    stores[i := stores[i] - {key}]
  }

  /** Every key lives only in the shard of its hash. */
  ghost predicate Routed(stores: Shards) {
    |stores| > 0 && forall i, k :: 0 <= i < |stores| && k in stores[i] ==> Pick(k, |stores|) == i
  }

  /** The shards behave as one store: what is put is found, what is deleted is gone, no other key is
  touched, every key stays in the shard of its hash, and a key is found exactly if some shard holds it. */
  lemma ActAsOne(stores: Shards, key: Key, o: Object, q: Key)
    requires Routed(stores)
    ensures Routed(PutAt(stores, key, o)) && Routed(DeleteAt(stores, key))
    ensures HeadAt(PutAt(stores, key, o), q) == if q == key then Some(o) else HeadAt(stores, q)
    ensures HeadAt(DeleteAt(stores, key), q) == if q == key then None else HeadAt(stores, q)
    ensures HeadAt(stores, q).Some? <==> exists i :: 0 <= i < |stores| && q in stores[i]
  {
    hide Pick;
    assert HeadAt(stores, q).Some? ==> q in stores[Pick(q, |stores|)];
  }

  // ------------------------------------------------------------------ the heap

  /** The head of a shard's listing, the shard, and what its channel still holds. */
  datatype NextKey = NextKey(o: Object, shard: nat, ch: Channel)

  predicate Leq(a: NextKey, b: NextKey) {
    !Less(b.o.key, a.o.key)
  }

  lemma LeqOrder(a: NextKey, b: NextKey, c: NextKey)
    ensures Leq(a, a) && (Leq(a, b) || Leq(b, a))
    ensures Leq(a, b) && Leq(b, c) ==> Leq(a, c)
  {
    LessIrreflexive(a.o.key);
    LessTotal(a.o.key, b.o.key);
    LessTotal(b.o.key, c.o.key);
    if Less(a.o.key, b.o.key) { LessAsymmetric(a.o.key, b.o.key); }
    if Less(c.o.key, a.o.key) && Less(a.o.key, b.o.key) { LessTransitive(c.o.key, a.o.key, b.o.key); }
  }

  predicate IsChild(p: int, j: int) {
    j == 2 * p + 1 || j == 2 * p + 2
  }

  /** The heap order among the first `n` slots, from slot `lo` on, but for the children of `hole`. */
  ghost predicate Ordered(s: seq<NextKey>, lo: nat, n: nat, hole: int) {
    n <= |s| && forall p, j :: IsChild(p, j) && lo <= p && p != hole && j < n ==> Leq(s[p], s[j])
  }

  /** The parent of the hole is no larger than the children of the hole. */
  ghost predicate Bridged(s: seq<NextKey>, lo: nat, n: nat, hole: int) {
    n <= |s| && forall p, j :: IsChild(p, hole) && IsChild(hole, j) && lo <= p && j < n ==> Leq(s[p], s[j])
  }

  ghost predicate IsHeap(s: seq<NextKey>) {
    Ordered(s, 0, |s|, -1)
  }

  function Swapped<T>(s: seq<T>, i: nat, j: nat): (r: seq<T>)
    requires i < |s| && j < |s|
    ensures |r| == |s| && r[i] == s[j] && r[j] == s[i] && multiset(r) == multiset(s)
    ensures forall k :: 0 <= k < |s| && k != i && k != j ==> r[k] == s[k]
  {
    s[i := s[j]][j := s[i]]
  }

  lemma {:induction false} RootIsLeast(s: seq<NextKey>, k: nat)
    requires IsHeap(s) && k < |s|
    ensures Leq(s[0], s[k])
  {
    if k == 0 {
      LeqOrder(s[0], s[0], s[0]);
    } else {
      var p := (k - 1) / 2;
      assert IsChild(p, k);
      RootIsLeast(s, p);
      LeqOrder(s[0], s[p], s[k]);
    }
  }

  /** Moving the hole down to the smaller child keeps the order everywhere else. */
  lemma DownKeeps(s: seq<NextKey>, lo: nat, n: nat, i: nat, j: nat)
    requires Ordered(s, lo, n, i) && Bridged(s, lo, n, i) && lo <= i && IsChild(i, j) && j < n
    requires Leq(s[j], s[i]) && forall c :: IsChild(i, c) && c < n ==> Leq(s[j], s[c])
    ensures Ordered(Swapped(s, i, j), lo, n, j) && Bridged(Swapped(s, i, j), lo, n, j)
  {
    hide Leq;
    var r := Swapped(s, i, j);
    forall p, c | IsChild(p, c) && lo <= p && p != j && c < n ensures Leq(r[p], r[c]) {
      if p == i {
        assert r[p] == s[j];
      } else if c == i {
        assert IsChild(i, j);
      } else {
        assert c != j;
      }
    }
    forall p, c | IsChild(p, j) && IsChild(j, c) && lo <= p && c < n ensures Leq(r[p], r[c]) {
      assert p == i && r[p] == s[j] && r[c] == s[c];
    }
  }

  /** The order without the bridge at a slot in order: the whole order. */
  lemma NoHole(s: seq<NextKey>, lo: nat, n: nat, i: nat)
    requires i < n && Ordered(s, lo, n, i) && forall c :: IsChild(i, c) && c < n ==> Leq(s[i], s[c])
    ensures Ordered(s, lo, n, -1)
  {
  }

  /** All in order but slot `j` and its parent. */
  ghost predicate OrderedBut(s: seq<NextKey>, j: nat) {
    && (forall p, c :: IsChild(p, c) && 0 <= p && c < |s| && c != j ==> Leq(s[p], s[c]))
    && (forall p, c :: IsChild(p, j) && IsChild(j, c) && 0 <= p && c < |s| ==> Leq(s[p], s[c]))
  }

  lemma UpKeeps(s: seq<NextKey>, i: nat, j: nat)
    requires OrderedBut(s, j) && IsChild(i, j) && j < |s| && Leq(s[j], s[i])
    ensures OrderedBut(Swapped(s, i, j), i)
  {
    var r := Swapped(s, i, j);
    forall p, c | IsChild(p, c) && 0 <= p && c < |r| && c != i ensures Leq(r[p], r[c]) {
      if p == i {
        assert r[p] == s[j];
        if c != j { LeqOrder(s[j], s[i], s[c]); }
      } else if p == j {
        assert r[p] == s[i] && r[c] == s[c];
      }
    }
    forall p, c | IsChild(p, i) && IsChild(i, c) && 0 <= p && c < |r| ensures Leq(r[p], r[c]) {
      assert r[p] == s[p];
      LeqOrder(s[p], s[i], s[c]);
    }
  }

  method SmallerChild(s: seq<NextKey>, i: nat, n: nat) returns (j: nat)
    requires 2 * i + 1 < n <= |s|
    ensures i < j < n && IsChild(i, j) && forall c :: IsChild(i, c) && c < n ==> Leq(s[j], s[c])
  {
    hide Leq;
    j := 2 * i + 1;
    LeqOrder(s[j], s[j], s[j]);
    if j + 1 < n {
      LeqOrder(s[j], s[j + 1], s[j]);
      LeqOrder(s[j + 1], s[j + 1], s[j + 1]);
      if !Leq(s[j], s[j + 1]) {
        j := j + 1;
      }
    }
  }

  lemma StaysAbove(s: seq<NextKey>, i: nat, j: nat, n: nat)
    requires i < n <= |s| && j < n && Leq(s[i], s[j]) && forall c :: IsChild(i, c) && c < n ==> Leq(s[j], s[c])
    ensures forall c :: IsChild(i, c) && c < n ==> Leq(s[i], s[c])
  {
    hide Leq;
    forall c | IsChild(i, c) && c < n ensures Leq(s[i], s[c]) {
      LeqOrder(s[i], s[j], s[c]);
    }
  }

  lemma NoChildren(s: seq<NextKey>, i: nat, n: nat)
    requires n <= |s| && i < n <= 2 * i + 1
    ensures forall c :: IsChild(i, c) && c < n ==> Leq(s[i], s[c])
  {
  }

  lemma SwappedTail<T>(s: seq<T>, i: nat, j: nat, n: nat)
    requires i < n && j < n <= |s|
    ensures Swapped(s, i, j)[n..] == s[n..]
  {
  }

  /** The heap of the merge. */
  class NextObjects {
    var os: seq<NextKey>

    constructor ()
      ensures os == []
    {
      os := [];
    }

    method Down(i0: nat, n: nat)
      requires i0 < n <= |os| && Ordered(os, i0, n, i0)
      modifies this
      ensures Ordered(os, i0, n, -1) && multiset(os) == multiset(old(os)) && os[n..] == old(os)[n..]
    {
      hide Leq, Ordered, Bridged, Swapped, IsChild;
      RootBridged(os, i0, n);
      var i := i0;
      while 2 * i + 1 < n
        invariant i0 <= i < n <= |os| && Ordered(os, i0, n, i) && Bridged(os, i0, n, i)
        invariant multiset(os) == multiset(old(os)) && os[n..] == old(os)[n..]
        decreases n - i
      {
        var j := SmallerChild(os, i, n);
        if Leq(os[i], os[j]) {
          StaysAbove(os, i, j, n);
          NoHole(os, i0, n, i);
          return;
        }
        LeqOrder(os[i], os[j], os[i]);
        DownKeeps(os, i0, n, i, j);
        SwappedTail(os, i, j, n);
        os := Swapped(os, i, j);
        i := j;
      }
      NoChildren(os, i, n);
      NoHole(os, i0, n, i);
    }

    method Up(j0: nat)
      requires j0 < |os| && OrderedBut(os, j0)
      modifies this
      ensures IsHeap(os) && multiset(os) == multiset(old(os))
    {
      hide Leq, OrderedBut;
      var j: nat := j0;
      while j > 0
        invariant j < |os| && OrderedBut(os, j) && multiset(os) == multiset(old(os))
      {
        var i := (j - 1) / 2;
        LeqOrder(os[i], os[j], os[i]);
        if Leq(os[i], os[j]) {
          break;
        }
        UpKeeps(os, i, j);
        os := Swapped(os, i, j);
        j := i;
      }
      InPlace(os, j);
    }

    method Init()
      modifies this
      ensures IsHeap(os) && multiset(os) == multiset(old(os))
    {
      hide Leq;
      var n := |os|;
      var i := n / 2;
      while i > 0
        invariant n == |os| && 0 <= i <= n / 2 && Ordered(os, i, n, -1) && multiset(os) == multiset(old(os))
      {
        i := i - 1;
        Down(i, n);
      }
    }

    method Push(x: NextKey)
      requires IsHeap(os)
      modifies this
      ensures IsHeap(os) && multiset(os) == multiset(old(os)) + multiset{x}
    {
      os := os + [x];
      Up(|os| - 1);
    }

    method Pop() returns (x: NextKey)
      requires IsHeap(os) && os != []
      modifies this
      ensures IsHeap(os) && multiset(old(os)) == multiset(os) + multiset{x}
      ensures forall y :: y in multiset(old(os)) ==> Leq(x, y)
    {
      hide Leq, Swapped, Ordered, IsHeap, IsChild;
      LeastOfAll(os);
      PopHole(os);
      var n := |os| - 1;
      ghost var least := os[0];
      os := Swapped(os, 0, n);
      if n > 0 {
        Down(0, n);
      }
      LastIs(os, n, least);
      x := os[n];
      os := os[..n];
    }
  }

  lemma LastIs(s: seq<NextKey>, n: nat, x: NextKey)
    requires |s| == n + 1 && s[n..] == [x] && (n > 0 ==> Ordered(s, 0, n, -1))
    ensures s[n] == x && IsHeap(s[..n]) && multiset(s) == multiset(s[..n]) + multiset{x}
  {
    assert s[n] == s[n..][0];
    assert s == s[..n] + [x];
  }

  lemma RootBridged(s: seq<NextKey>, lo: nat, n: nat)
    requires n <= |s|
    ensures Bridged(s, lo, n, lo)
  {
  }

  lemma InPlace(s: seq<NextKey>, j: nat)
    requires OrderedBut(s, j) && j < |s|
    requires j == 0 || Leq(s[(j - 1) / 2], s[j])
    ensures IsHeap(s)
  {
    hide Leq;
    forall p, c | IsChild(p, c) && 0 <= p && c < |s| ensures Leq(s[p], s[c]) {
      if c == j { assert p == (j - 1) / 2; }
    }
  }

  lemma LeastOfAll(s: seq<NextKey>)
    requires IsHeap(s) && s != []
    ensures forall y :: y in multiset(s) ==> Leq(s[0], y)
  {
    forall y | y in multiset(s) ensures Leq(s[0], y) {
      var k :| 0 <= k < |s| && s[k] == y;
      RootIsLeast(s, k);
    }
  }

  lemma PopHole(s: seq<NextKey>)
    requires IsHeap(s) && s != []
    ensures Ordered(Swapped(s, 0, |s| - 1), 0, |s| - 1, 0) && Swapped(s, 0, |s| - 1)[|s| - 1..] == [s[0]]
  {
    hide Leq;
  }

  // ------------------------------------------------------------------ the merge

  /** What a head still stands for. */
  function Content(x: NextKey): seq<Object> {
    [x.o] + Received(x.ch).objs
  }

  /** What the next receive from a channel gives: nothing when it is closed or tells a failure. */
  function Next(ch: Channel, shard: nat): (r: Option<NextKey>)
    ensures r.None? ==> Received(ch).objs == []
    ensures r.Some? ==> Content(r.value) == Received(ch).objs && r.value.shard == shard
  {
    if ch == [] || ch[0].None? then None else Some(NextKey(ch[0].value, shard, ch[1..]))
  }

  ghost predicate Listed(shards: seq<Channel>, o: Object) {
    exists i :: 0 <= i < |shards| && o in Received(shards[i]).objs
  }

  /** Every shard lists in order, and only what the hash puts there. */
  ghost predicate ShardsRight(shards: seq<Channel>) {
    forall i :: 0 <= i < |shards| ==>
      && Ascending(Received(shards[i]).objs)
      && forall o :: o in Received(shards[i]).objs ==> Pick(o.key, |shards|) == i
  }

  /** Shards that hold every key in its place list only what the hash puts there; and if none of them
  fails, what they list together is what the store finds. */
  lemma ListedIsFound(stores: Shards, shards: seq<Channel>, o: Object)
    requires Routed(stores) && |shards| == |stores|
    requires forall i :: 0 <= i < |stores| ==> ListsShard(stores[i], shards[i])
    ensures ShardsRight(shards)
    ensures (forall i :: 0 <= i < |shards| ==> !Received(shards[i]).failed) ==>
      (Listed(shards, o) <==> HeadAt(stores, o.key) == Some(o))
  {
    hide Pick, Ascending;
    if HeadAt(stores, o.key) == Some(o) {
      var i := Pick(o.key, |stores|);
      assert ListsShard(stores[i], shards[i]);
    }
    if i :| 0 <= i < |shards| && o in Received(shards[i]).objs {
      assert ListsShard(stores[i], shards[i]);
    }
  }

  /** A listing of a shard, in order; all of it, unless it fails. */
  ghost predicate ListsShard(st: map<Key, Object>, ch: Channel) {
    && Ascending(Received(ch).objs)
    && (forall o :: o in Received(ch).objs ==> o.key in st && st[o.key] == o)
    && (!Received(ch).failed ==> forall o: Object :: o.key in st && st[o.key] == o ==> o in Received(ch).objs)
  }

  ghost predicate HeadRight(x: NextKey, n: nat) {
    && n > 0 && Ascending(Content(x))
    && forall o :: o in Content(x) ==> Pick(o.key, n) == x.shard
  }

  /** At most one head for a shard. */
  ghost predicate OneEach(m: multiset<NextKey>) {
    && (forall x :: m[x] <= 1)
    && (forall x, y :: x in m && y in m && x.shard == y.shard ==> x == y)
  }

  ghost predicate Pending(m: multiset<NextKey>, o: Object) {
    exists x :: x in m && o in Content(x)
  }

  /** Between two rounds: what is out comes before what is pending, and together they are everything. */
  ghost predicate MergeRight(shards: seq<Channel>, out: seq<Object>, m: multiset<NextKey>) {
    && OneEach(m) && (forall x :: x in m ==> HeadRight(x, |shards|))
    && Ascending(out)
    && (forall a, o :: a in out && Pending(m, o) ==> Less(a.key, o.key))
    && (forall o :: Listed(shards, o) <==> o in out || Pending(m, o))
  }

  /** The least head comes before everything else that is pending. */
  lemma LeastHead(n: nat, m: multiset<NextKey>, x: NextKey, o: Object)
    requires OneEach(m) && (forall y :: y in m ==> HeadRight(y, n)) && x in m && forall y :: y in m ==> Leq(x, y)
    requires Pending(m, o) && o != x.o
    ensures Less(x.o.key, o.key)
  {
    var y :| y in m && o in Content(y);
    var k :| 0 <= k < |Content(y)| && Content(y)[k] == o;
    var f := Content(y)[0];
    assert f == y.o && k > 0 ==> Less(f.key, o.key);
    if x == y {
      assert k > 0;
    } else {
      assert x.o in Content(x) && x.shard != y.shard;
      LessTotal(x.o.key, y.o.key);
      assert x.o.key != y.o.key && Less(x.o.key, y.o.key);
      if k > 0 { LessTransitive(x.o.key, y.o.key, o.key); }
    }
  }

  /** A head replaced by the next one of its shard, or gone. */
  function Replaced(m: multiset<NextKey>, x: NextKey): multiset<NextKey> {
    var next := Next(x.ch, x.shard);
    m - multiset{x} + (if next.Some? then multiset{next.value} else multiset{})
  }

  lemma ReplacedRight(n: nat, m: multiset<NextKey>, x: NextKey)
    requires OneEach(m) && (forall y :: y in m ==> HeadRight(y, n)) && x in m
    ensures OneEach(Replaced(m, x)) && forall y :: y in Replaced(m, x) ==> HeadRight(y, n)
  {
    hide Pick, Ascending;
    var next := Next(x.ch, x.shard);
    if next.Some? {
      NextRight(x, n);
      assert next.value !in m - multiset{x};
    }
  }

  lemma NextRight(x: NextKey, n: nat)
    requires HeadRight(x, n) && Next(x.ch, x.shard).Some?
    ensures HeadRight(Next(x.ch, x.shard).value, n)
  {
    hide Pick, Less;
    var next := Next(x.ch, x.shard).value;
    assert Content(x)[1..] == Content(next);
  }

  lemma ReplacedPending(m: multiset<NextKey>, x: NextKey, o: Object)
    requires OneEach(m) && x in m
    ensures Pending(m, o) <==> Pending(Replaced(m, x), o) || o == x.o
  {
    var next, rest := Next(x.ch, x.shard), m - multiset{x};
    assert x.o == Content(x)[0];
    assert o in Content(x) <==> o == x.o || o in Received(x.ch).objs;
    if y :| y in m && o in Content(y) {
      if y != x {
        assert y in Replaced(m, x);
      } else if o != x.o {
        assert next.Some? && next.value in Replaced(m, x);
      }
    }
    if y :| y in Replaced(m, x) && o in Content(y) {
      if y !in rest {
        assert y == next.value;
      }
    }
  }

  lemma MergeStep(shards: seq<Channel>, out: seq<Object>, m: multiset<NextKey>, x: NextKey)
    requires MergeRight(shards, out, m) && x in m && forall y :: y in m ==> Leq(x, y)
    ensures MergeRight(shards, out + [x.o], Replaced(m, x))
    ensures Listed(shards, x.o) && x.o !in out
  {
    hide HeadRight, OneEach, Pending, Listed, Content, Replaced, Leq, Less;
    var m', out' := Replaced(m, x), out + [x.o];
    HeadPending(m, x);
    ReplacedRight(|shards|, m, x);
    forall o ensures Pending(m, o) <==> Pending(m', o) || o == x.o {
      ReplacedPending(m, x, o);
    }
    LessIrreflexive(x.o.key);
    forall o | Pending(m', o) ensures Less(x.o.key, o.key) {
      NotAgain(|shards|, m, x);
      LeastHead(|shards|, m, x, o);
    }
  }

  lemma HeadPending(m: multiset<NextKey>, x: NextKey)
    requires x in m
    ensures Pending(m, x.o)
  {
    assert x.o == Content(x)[0];
  }

  /** What went out is not pending any more. */
  lemma NotAgain(n: nat, m: multiset<NextKey>, x: NextKey)
    requires OneEach(m) && (forall y :: y in m ==> HeadRight(y, n)) && x in m
    ensures !Pending(Replaced(m, x), x.o)
  {
    hide Pick, Less;
    ReplacedRight(n, m, x);
    LessIrreflexive(x.o.key);
    assert x.o == Content(x)[0];
    if y :| y in Replaced(m, x) && x.o in Content(y) {
      assert HeadRight(y, n) && HeadRight(x, n);
      assert y.shard == x.shard;
      assert y == Next(x.ch, x.shard).value;
      NextIsLater(x, n, x.o);
    }
  }

  lemma NextIsLater(x: NextKey, n: nat, o: Object)
    requires HeadRight(x, n) && Next(x.ch, x.shard).Some? && o in Content(Next(x.ch, x.shard).value)
    ensures Less(x.o.key, o.key)
  {
    hide Pick, Less;
    var rest := Content(Next(x.ch, x.shard).value);
    var k :| 0 <= k < |rest| && rest[k] == o;
    assert Content(x)[0] == x.o && Content(x)[k + 1] == rest[k];
  }

  ghost function Remaining(shards: seq<Channel>, out: seq<Object>): set<Object> {
    set i, o | 0 <= i < |shards| && o in Received(shards[i]).objs && o !in out :: o
  }

  lemma FewerRemain(shards: seq<Channel>, out: seq<Object>, o: Object)
    requires Listed(shards, o) && o !in out
    ensures |Remaining(shards, out + [o])| < |Remaining(shards, out)|
  {
    Smaller(Remaining(shards, out + [o]), Remaining(shards, out), o);
  }

  /** The heads of the first `i` shards. */
  ghost predicate HeadsRight(shards: seq<Channel>, i: nat, m: multiset<NextKey>)
    requires i <= |shards|
  {
    && OneEach(m)
    && (forall x :: x in m ==> x.shard < i && Content(x) == Received(shards[x.shard]).objs)
    && (forall k :: 0 <= k < i && Received(shards[k]).objs != [] ==> exists x :: x in m && x.shard == k)
  }

  lemma HeadsMerge(shards: seq<Channel>, m: multiset<NextKey>)
    requires ShardsRight(shards) && HeadsRight(shards, |shards|, m)
    ensures MergeRight(shards, [], m)
  {
    hide Pick, Less;
    forall x | x in m ensures HeadRight(x, |shards|) {
      assert Content(x) == Received(shards[x.shard]).objs;
    }
    forall o ensures Listed(shards, o) <==> Pending(m, o) {
      if i :| 0 <= i < |shards| && o in Received(shards[i]).objs {
        var x :| x in m && x.shard == i;
        assert o in Content(x);
      }
      if x :| x in m && o in Content(x) {
        assert o in Received(shards[x.shard]).objs;
      }
    }
  }

  /** The listing of all shards: the union of what they list, each object once, in order. */
  method ListAll(shards: seq<Channel>) returns (out: seq<Object>)
    requires |shards| > 0 && ShardsRight(shards)
    ensures Ascending(out)
    ensures forall o :: o in out <==> Listed(shards, o)
  {
    hide ShardsRight, HeadsRight, MergeRight, Listed, IsHeap, Content, Remaining, Ascending, Next, Leq;
    var heads := new NextObjects();
    NoHeads(shards);
    for i := 0 to |shards|
      invariant HeadsRight(shards, i, multiset(heads.os))
    {
      var first := Next(shards[i], i);
      OneMoreHead(shards, i, multiset(heads.os));
      if first.Some? {
        heads.os := heads.os + [first.value];
      }
    }
    heads.Init();
    HeadsMerge(shards, multiset(heads.os));
    out := [];
    while |heads.os| > 0
      invariant IsHeap(heads.os) && MergeRight(shards, out, multiset(heads.os))
      decreases |Remaining(shards, out)|
    {
      ghost var m := multiset(heads.os);
      var n := heads.Pop();
      assert n in m && m - multiset{n} == multiset(heads.os);
      MergeStep(shards, out, m, n);
      FewerRemain(shards, out, n.o);
      out := out + [n.o];
      var o := Next(n.ch, n.shard);
      if o.Some? {
        heads.Push(o.value);
      }
      assert multiset(heads.os) == Replaced(m, n);
    }
    AllOut(shards, out);
  }

  lemma NoHeads(shards: seq<Channel>)
    ensures HeadsRight(shards, 0, multiset{})
  {
  }

  lemma OneMoreHead(shards: seq<Channel>, i: nat, m: multiset<NextKey>)
    requires i < |shards| && HeadsRight(shards, i, m)
    ensures var first := Next(shards[i], i);
      HeadsRight(shards, i + 1, if first.Some? then m + multiset{first.value} else m)
  {
    var first := Next(shards[i], i);
    if first.Some? {
      assert first.value !in m;
      assert first.value in m + multiset{first.value};
    }
  }

  lemma AllOut(shards: seq<Channel>, out: seq<Object>)
    requires MergeRight(shards, out, multiset{})
    ensures Ascending(out) && forall o :: o in out <==> Listed(shards, o)
  {
    assert forall o :: !Pending(multiset{}, o);
  }

  /** A shard whose listing fails counts as exhausted. So the merge, which tells no failure, is the
  listing of the whole store if and only if no shard was cut short. */
  lemma ShortIffCut(shards: seq<Channel>, full: seq<seq<Object>>)
    requires |full| == |shards| && ShardsRight(shards)
    requires forall i :: 0 <= i < |full| ==> Ascending(full[i]) && Received(shards[i]).objs <= full[i]
    requires forall i, o :: 0 <= i < |full| && o in full[i] ==> Pick(o.key, |shards|) == i
    ensures (forall i, o :: 0 <= i < |full| && o in full[i] ==> Listed(shards, o))
       <==> (forall i :: 0 <= i < |full| ==> Received(shards[i]).objs == full[i])
  {
    hide Pick, Less, Ascending, Listed, ShardsRight;
    if i :| 0 <= i < |full| && Received(shards[i]).objs != full[i] {
      CutIsLost(shards, full, i);
      assert full[i][|Received(shards[i]).objs|] in full[i];
    } else {
      forall i, o | 0 <= i < |full| && o in full[i] ensures Listed(shards, o) {
        ListedAt(shards, i, o);
      }
    }
  }

  lemma ListedAt(shards: seq<Channel>, i: nat, o: Object)
    requires i < |shards| && o in Received(shards[i]).objs
    ensures Listed(shards, o)
  {
  }

  lemma CutIsLost(shards: seq<Channel>, full: seq<seq<Object>>, i: nat)
    requires |full| == |shards| && ShardsRight(shards) && i < |full|
    requires Ascending(full[i]) && Received(shards[i]).objs < full[i]
    requires forall o :: o in full[i] ==> Pick(o.key, |shards|) == i
    ensures !Listed(shards, full[i][|Received(shards[i]).objs|])
  {
    hide Pick, Less;
    var got := Received(shards[i]).objs;
    var o := full[i][|got|];
    LessIrreflexive(o.key);
    assert o in full[i];
    assert o !in got by {
      assert forall j :: 0 <= j < |got| ==> got[j] == full[i][j];
    }
  }
}

/** The lister for stores that list one directory at a time. */
module TreeWalk {
  import opened Keys
  import opened Objects
  import opened Hierarchy
  import Handshake
  import PagedListing

  /** A store of directories, and its listing of one level. */
  datatype Tree = Tree(objects: map<Key, Object>, level: Key -> seq<Object>)

  predicate IsDirKey(k: Key) {
    k != "" && k[|k| - 1] == '/'
  }

  /** Every object has its own key, the directories are those whose keys end in `/`, and every
  directory on the way to an object is there. */
  ghost predicate WellFormed(objects: map<Key, Object>) {
    && (forall k :: k in objects ==> objects[k].key == k && (k != "" ==> (objects[k].isDir <==> IsDirKey(k))))
    && (forall k, d :: k in objects && HasPrefix(k, d) && IsDirKey(d) ==> d in objects)
  }

  /** What is listed for a prefix: the keys with no further `/`, and the directories next to them. */
  ghost predicate OnLevel(objects: map<Key, Object>, p: Key, o: Object) {
    && o.key in objects && objects[o.key] == o && HasPrefix(o.key, p)
    && (Direct(p, o.key) || IsCommonPrefix(p, o.key))
  }

  ghost predicate Lists(t: Tree) {
    forall p :: Ascending(t.level(p)) && forall o :: o in t.level(p) <==> OnLevel(t.objects, p, o)
  }

  ghost predicate Valid(t: Tree) {
    WellFormed(t.objects) && Lists(t)
  }

  /** The listing without the directory itself. */
  function Children(t: Tree, p: Key): (r: seq<Object>)
    ensures r <= t.level(p) || (t.level(p) != [] && r == t.level(p)[1..])
  {
    if t.level(p) != [] && t.level(p)[0].key == p then t.level(p)[1..] else t.level(p)
  }

  predicate Ends(end: Key, key: Key) {
    end != "" && !Less(key, end)
  }

  /** What comes out for an entry: itself and, for a directory below the prefix, what is in it. */
  predicate Below(p: Key, e: Object, k: Key) {
    k == e.key || (e.isDir && e.key != p && HasPrefix(k, e.key))
  }

  ghost predicate InRegion(p: Key, entries: seq<Object>, n: nat, k: Key)
    requires n <= |entries|
  {
    exists j :: 0 <= j < n && Below(p, entries[j], k)
  }

  ghost predicate Stored(objects: map<Key, Object>, o: Object) {
    o.key in objects && objects[o.key] == o
  }

  /** The output for some entries: all stored objects in their region, before the end, in order. */
  ghost predicate WalkRight(t: Tree, p: Key, entries: seq<Object>, n: nat, end: Key, out: seq<Object>)
    requires n <= |entries|
  {
    && Ascending(out)
    && forall o :: o in out <==> Stored(t.objects, o) && InRegion(p, entries, n, o.key) && !Ends(end, o.key)
  }

  ghost function Inside(t: Tree, p: Key): set<Key> {
    set k | k in t.objects && HasPrefix(k, p) && k != p
  }

  // ------------------------------------------------------------------ levels

  /** An entry of a level is not inside another one. */
  lemma EntriesApart(t: Tree, p: Key, a: Object, b: Object)
    requires WellFormed(t.objects) && OnLevel(t.objects, p, a) && OnLevel(t.objects, p, b)
    requires a.isDir && a.key != p && a.key != b.key
    ensures !HasPrefix(b.key, a.key)
  {
    DirEntry(t, p, a);
    if HasPrefix(b.key, a.key) {
      CommonPrefixUnique(p, a.key, b.key);
      if IsCommonPrefix(p, b.key) {
        CommonPrefixUnique(p, b.key, b.key);
      }
    }
  }

  lemma DirEntry(t: Tree, p: Key, a: Object)
    requires WellFormed(t.objects) && OnLevel(t.objects, p, a) && a.isDir && a.key != p
    ensures IsCommonPrefix(p, a.key)
  {
    if |p| < |a.key| {
      assert a.key[|p|..][|a.key| - |p| - 1] == a.key[|a.key| - 1];
    }
  }

  /** Everything below an entry comes before everything below a later one. */
  lemma RegionsOrdered(t: Tree, p: Key, a: Object, b: Object, k: Key, m: Key)
    requires WellFormed(t.objects) && OnLevel(t.objects, p, a) && OnLevel(t.objects, p, b)
    requires Less(a.key, b.key) && Below(p, a, k) && Below(p, b, m)
    ensures Less(k, m)
  {
    LessAsymmetric(a.key, b.key);
    if k != a.key {
      EntriesApart(t, p, a, b);
      OutsidePrefix(a.key, k, b.key);
    }
    assert Less(k, b.key);
    if m != b.key {
      PrefixNotGreater(b.key, m);
      LessTransitive(k, b.key, m);
    }
  }

  lemma PrefixOfEntry(t: Tree, p: Key, e: Object, k: Key)
    requires Valid(t) && e in t.level(p) && Below(p, e, k)
    ensures HasPrefix(k, p)
  {
    assert OnLevel(t.objects, p, e);
    assert e.key[..|p|] == p;
  }

  /** The region of a whole level is everything with the prefix. */
  lemma LevelRegion(t: Tree, p: Key, k: Key)
    requires Valid(t) && k in t.objects
    ensures InRegion(p, t.level(p), |t.level(p)|, k) <==> HasPrefix(k, p)
  {
    var entries := t.level(p);
    if HasPrefix(k, p) {
      var e := if Direct(p, k) then k else CommonPrefix(p, k);
      assert !Direct(p, k) ==> e in t.objects && IsCommonPrefix(p, e);
      var o := t.objects[e];
      assert OnLevel(t.objects, p, o);
      var j :| 0 <= j < |entries| && entries[j] == o;
      assert Below(p, entries[j], k);
    } else if InRegion(p, entries, |entries|, k) {
      var j :| 0 <= j < |entries| && Below(p, entries[j], k);
      PrefixOfEntry(t, p, entries[j], k);
    }
  }

  /** The region of what is in a directory is everything below it. */
  lemma ChildrenRegion(t: Tree, c: Key, k: Key)
    requires Valid(t) && k in t.objects && IsDirKey(c)
    ensures InRegion(c, Children(t, c), |Children(t, c)|, k) <==> HasPrefix(k, c) && k != c
  {
    var level, entries := t.level(c), Children(t, c);
    LevelRegion(t, c, k);
    if j :| 0 <= j < |entries| && Below(c, entries[j], k) {
      ChildNotSelf(t, c, entries[j]);
      var i := if entries == level then j else j + 1;
      assert level[i] == entries[j];
      assert Below(c, level[i], k);
      assert HasPrefix(entries[j].key, c);
    }
    if HasPrefix(k, c) && k != c {
      var i :| 0 <= i < |level| && Below(c, level[i], k);
      var j := if entries == level then i else i - 1;
      assert entries[j] == level[i];
    }
  }

  lemma ChildNotSelf(t: Tree, c: Key, e: Object)
    requires Valid(t) && e in Children(t, c)
    ensures e in t.level(c) && e.key != c && Less(c, e.key)
  {
    var level := t.level(c);
    var i :| 0 <= i < |level| && level[i] == e && (Children(t, c) == level || i > 0);
    assert OnLevel(t.objects, c, e) && OnLevel(t.objects, c, level[0]);
    PrefixNotGreater(c, e.key);
    PrefixNotGreater(c, level[0].key);
    if e.key == c {
      LessIrreflexive(c);
      if i > 0 {
        LessAsymmetric(level[0].key, c);
        assert false;
      }
      assert false;
    }
  }

  ghost predicate Entries(t: Tree, p: Key, entries: seq<Object>) {
    Ascending(entries) && forall e :: e in entries ==> OnLevel(t.objects, p, e)
  }

  lemma ChildrenAreEntries(t: Tree, c: Key)
    requires Valid(t)
    ensures Entries(t, c, t.level(c)) && Entries(t, c, Children(t, c))
  {
  }

  /** The stored objects in a directory, before the end, in order. */
  ghost predicate InsideRight(t: Tree, p: Key, e: Object, end: Key, out: seq<Object>) {
    && Ascending(out)
    && forall o :: o in out <==> Stored(t.objects, o) && Below(p, e, o.key) && o.key != e.key && !Ends(end, o.key)
  }

  /** Some of the stored objects in a directory, in order. */
  ghost predicate InsideSound(t: Tree, p: Key, e: Object, end: Key, out: seq<Object>) {
    && Ascending(out)
    && forall o :: o in out ==> Stored(t.objects, o) && Below(p, e, o.key) && o.key != e.key && !Ends(end, o.key)
  }

  /** What a walk of a directory has sent when it fails: the first of the stored objects. */
  ghost predicate InsidePart(t: Tree, p: Key, e: Object, end: Key, out: seq<Object>) {
    && InsideSound(t, p, e, end, out)
    && forall o, x :: Stored(t.objects, o) && Below(p, e, o.key) && o.key != e.key && !Ends(end, o.key) ==>
         o !in out && x in out ==> Less(x.key, o.key)
  }

  ghost predicate WalkPart(t: Tree, p: Key, entries: seq<Object>, end: Key, out: seq<Object>) {
    && Ascending(out)
    && (forall o :: o in out ==> Stored(t.objects, o) && InRegion(p, entries, |entries|, o.key) && !Ends(end, o.key))
    && forall o, x :: Stored(t.objects, o) && InRegion(p, entries, |entries|, o.key) && !Ends(end, o.key) ==>
         o !in out && x in out ==> Less(x.key, o.key)
  }

  lemma AddEntry(t: Tree, p: Key, entries: seq<Object>, i: nat, end: Key, out: seq<Object>, inside: seq<Object>)
    requires Valid(t) && Entries(t, p, entries) && i < |entries| && !Ends(end, entries[i].key)
    requires WalkRight(t, p, entries, i, end, out) && InsideRight(t, p, entries[i], end, inside)
    ensures WalkRight(t, p, entries, i + 1, end, out + [entries[i]] + inside)
  {
    var e := entries[i];
    var all := out + [e] + inside;
    assert Below(p, e, e.key) && e in entries;
    forall o ensures o in all <==> Stored(t.objects, o) && InRegion(p, entries, i + 1, o.key) && !Ends(end, o.key) {
      RegionGrows(p, entries, i, o.key);
    }
    hide WalkRight, InsideSound, InsideRight, InRegion, Below, Less, Stored, OnLevel;
    forall a, b | 0 <= a < b < |all| ensures Less(all[a].key, all[b].key) {
      InOrderAcross(t, p, entries, i, end, out, inside, a, b);
    }
  }

  /** A failure inside a directory leaves the beginning of the whole. */
  lemma AddPart(t: Tree, p: Key, entries: seq<Object>, i: nat, end: Key, out: seq<Object>, inside: seq<Object>)
    requires Valid(t) && Entries(t, p, entries) && i < |entries| && !Ends(end, entries[i].key)
    requires WalkRight(t, p, entries, i, end, out) && InsidePart(t, p, entries[i], end, inside)
    ensures WalkPart(t, p, entries, end, out + [entries[i]] + inside)
  {
    var e := entries[i];
    var all := out + [e] + inside;
    assert Below(p, e, e.key) && e in entries;
    forall o | o in all
      ensures Stored(t.objects, o) && InRegion(p, entries, |entries|, o.key) && !Ends(end, o.key)
    {
      if o in out { RegionWithin(p, entries, i, o.key); }
    }
    forall o, x | Stored(t.objects, o) && InRegion(p, entries, |entries|, o.key) && !Ends(end, o.key)
        && o !in all && x in all
      ensures Less(x.key, o.key)
    {
      Missing(t, p, entries, i, end, out, inside, o, x);
    }
    hide WalkRight, InsidePart, InsideSound, InRegion, Below, Less, Stored, OnLevel;
    forall a, b | 0 <= a < b < |all| ensures Less(all[a].key, all[b].key) {
      InsidePartIsSound(t, p, e, end, inside);
      InOrderAcross(t, p, entries, i, end, out, inside, a, b);
    }
  }

  lemma InsidePartIsSound(t: Tree, p: Key, e: Object, end: Key, out: seq<Object>)
    requires InsidePart(t, p, e, end, out)
    ensures InsideSound(t, p, e, end, out)
  {
  }

  lemma RegionWithin(p: Key, entries: seq<Object>, i: nat, k: Key)
    requires i <= |entries| && InRegion(p, entries, i, k)
    ensures InRegion(p, entries, |entries|, k)
  {
  }

  lemma Missing(t: Tree, p: Key, entries: seq<Object>, i: nat, end: Key, out: seq<Object>, inside: seq<Object>,
                o: Object, x: Object)
    requires Valid(t) && Entries(t, p, entries) && i < |entries|
    requires WalkRight(t, p, entries, i, end, out) && InsidePart(t, p, entries[i], end, inside)
    requires Stored(t.objects, o) && InRegion(p, entries, |entries|, o.key) && !Ends(end, o.key)
    requires o !in out + [entries[i]] + inside && x in out + [entries[i]] + inside
    ensures Less(x.key, o.key)
  {
    hide Less, Ends, OnLevel, Lists, Valid;
    var e := entries[i];
    var j :| 0 <= j < |entries| && Below(p, entries[j], o.key);
    assert e in entries && entries[j] in entries && Below(p, e, e.key);
    NotInRegion(p, entries, i, o.key);
    if x in out {
      var h :| 0 <= h < i && Below(p, entries[h], x.key);
      assert entries[h] in entries;
      InOrderEntries(t, p, entries, h, j, x.key, o.key);
    } else if j > i {
      InOrderEntries(t, p, entries, i, j, x.key, o.key);
    } else {
      assert j == i && o.key != e.key by { assert Stored(t.objects, e) by { EntryStored(t, p, e); } }
      if x == e { PrefixNotGreater(e.key, o.key); }
    }
  }

  lemma NotInRegion(p: Key, entries: seq<Object>, n: nat, k: Key)
    requires n <= |entries| && !InRegion(p, entries, n, k)
    ensures forall j :: 0 <= j < n ==> !Below(p, entries[j], k)
  {
  }

  lemma EntryStored(t: Tree, p: Key, e: Object)
    requires OnLevel(t.objects, p, e)
    ensures Stored(t.objects, e)
  {
  }

  lemma InOrderEntries(t: Tree, p: Key, entries: seq<Object>, h: nat, j: nat, k: Key, m: Key)
    requires Valid(t) && Entries(t, p, entries) && h < j < |entries|
    requires Below(p, entries[h], k) && Below(p, entries[j], m)
    ensures Less(k, m)
  {
    hide Less, OnLevel;
    assert entries[h] in entries && entries[j] in entries;
    RegionsOrdered(t, p, entries[h], entries[j], k, m);
  }

  lemma RegionGrows(p: Key, entries: seq<Object>, i: nat, k: Key)
    requires i < |entries|
    ensures InRegion(p, entries, i + 1, k) <==> InRegion(p, entries, i, k) || Below(p, entries[i], k)
  {
  }

  lemma InOrderAcross(t: Tree, p: Key, entries: seq<Object>, i: nat, end: Key, out: seq<Object>, inside: seq<Object>,
                      a: nat, b: nat)
    requires Valid(t) && Entries(t, p, entries) && i < |entries|
    requires WalkRight(t, p, entries, i, end, out) && InsideSound(t, p, entries[i], end, inside)
    requires a < b < |out + [entries[i]] + inside|
    ensures var all := out + [entries[i]] + inside; Less(all[a].key, all[b].key)
  {
    hide Less;
    var e, all := entries[i], out + [entries[i]] + inside;
    assert Below(p, e, e.key) && e in entries;
    if b < |out| {
      assert all[a] == out[a] && all[b] == out[b];
    } else if a < |out| {
      assert all[a] == out[a] && all[a] in out;
      var j :| 0 <= j < i && Below(p, entries[j], all[a].key);
      assert b > |out| ==> all[b] in inside;
      RegionsOrdered(t, p, entries[j], e, all[a].key, all[b].key);
    } else if a == |out| {
      assert all[b] in inside;
      PrefixNotGreater(e.key, all[b].key);
    } else {
      assert all[a] == inside[a - |out| - 1] && all[b] == inside[b - |out| - 1];
    }
  }

  /** Once an entry is past the end, so is everything behind it. */
  lemma StopsAtEnd(t: Tree, p: Key, entries: seq<Object>, i: nat, end: Key, out: seq<Object>)
    requires Valid(t) && Entries(t, p, entries) && i < |entries| && Ends(end, entries[i].key)
    requires WalkRight(t, p, entries, i, end, out)
    ensures WalkRight(t, p, entries, |entries|, end, out)
  {
    hide Less;
    forall k | InRegion(p, entries, |entries|, k) && !InRegion(p, entries, i, k) ensures Ends(end, k) {
      var j :| 0 <= j < |entries| && Below(p, entries[j], k);
      assert i <= j;
      PastEnd(entries[i].key, entries[j].key, end);
      if k != entries[j].key { PrefixNotGreater(entries[j].key, k); }
      PastEnd(entries[j].key, k, end);
    }
  }

  lemma PastEnd(a: Key, b: Key, end: Key)
    requires Ends(end, a) && (a == b || Less(a, b))
    ensures Ends(end, b)
  {
    if a != b && Less(b, end) {
      LessTransitive(a, b, end);
    }
  }

  // ------------------------------------------------------------------ the walk

  /** The walk over the entries of a level; `broken` are the directories whose listing fails. A failure
  ends the walk; what came out is then the beginning of the whole. */
  method Walk(t: Tree, p: Key, entries: seq<Object>, end: Key, broken: set<Key>) returns (out: seq<Object>, err: bool)
    requires Valid(t) && Entries(t, p, entries)
    ensures !err ==> WalkRight(t, p, entries, |entries|, end, out)
    ensures err ==> WalkPart(t, p, entries, end, out) && broken != {}
    decreases |Inside(t, p)|
  {
    hide WalkRight, WalkPart, InsideRight, InsidePart, Less, Ascending, Valid;
    out, err := [], false;
    NothingYet(t, p, entries, end);
    var i := 0;
    while i < |entries|
      invariant i <= |entries| && !err && WalkRight(t, p, entries, i, end, out)
    {
      var e := entries[i];
      assert e in entries;
      if Ends(end, e.key) {
        StopsAtEnd(t, p, entries, i, end, out);
        return;
      }
      var inside := [];
      if e.isDir && e.key != p {
        ChildrenAreEntries(t, e.key);
        Deeper(t, p, e);
        if e.key in broken {
          NothingYetInside(t, p, e, end);
          err := true;
        } else {
          inside, err := Walk(t, e.key, Children(t, e.key), end, broken);
          InsideIs(t, p, e, end, inside, err);
        }
        if err {
          AddPart(t, p, entries, i, end, out, inside);
          out := out + [e] + inside;
          return;
        }
      } else {
        NothingInside(t, p, e, end);
      }
      AddEntry(t, p, entries, i, end, out, inside);
      out := out + [e] + inside;
      i := i + 1;
    }
  }

  lemma NothingYet(t: Tree, p: Key, entries: seq<Object>, end: Key)
    ensures WalkRight(t, p, entries, 0, end, [])
  {
  }

  lemma NothingInside(t: Tree, p: Key, e: Object, end: Key)
    requires !(e.isDir && e.key != p)
    ensures InsideRight(t, p, e, end, [])
  {
  }

  lemma NothingYetInside(t: Tree, p: Key, e: Object, end: Key)
    ensures InsidePart(t, p, e, end, [])
  {
  }

  lemma InsideIs(t: Tree, p: Key, e: Object, end: Key, out: seq<Object>, err: bool)
    requires Valid(t) && OnLevel(t.objects, p, e) && e.isDir && e.key != p
    requires !err ==> WalkRight(t, e.key, Children(t, e.key), |Children(t, e.key)|, end, out)
    requires err ==> WalkPart(t, e.key, Children(t, e.key), end, out)
    ensures !err ==> InsideRight(t, p, e, end, out)
    ensures err ==> InsidePart(t, p, e, end, out)
  {
    hide InRegion, Ends;
    DirEntry(t, p, e);
    forall o | Stored(t.objects, o)
      ensures InRegion(e.key, Children(t, e.key), |Children(t, e.key)|, o.key) <==> Below(p, e, o.key) && o.key != e.key
    {
      ChildrenRegion(t, e.key, o.key);
    }
  }

  /** There is less inside a directory than inside what it is in. */
  lemma Deeper(t: Tree, p: Key, e: Object)
    requires Valid(t) && OnLevel(t.objects, p, e) && e.isDir && e.key != p
    ensures |Inside(t, e.key)| < |Inside(t, p)|
  {
    DirEntry(t, p, e);
    var a, b := Inside(t, e.key), Inside(t, p);
    assert e.key in b && e.key !in a && a <= b;
    Smaller(a, b, e.key);
  }

  // ------------------------------------------------------------------ where the children come from

  /** The entries in front of the end, as the listing threads see them: which of them have to be listed. */
  function LevelOf(p: Key, entries: seq<Object>, end: Key): (l: Handshake.Level)
    ensures |l.dirs| <= |entries|
    ensures forall i: nat :: Handshake.Work(l, i) ==>
        entries[i].isDir && entries[i].key != p && !Ends(end, entries[i].key)
    ensures forall i :: 0 <= i < |l.dirs| && entries[i].isDir && entries[i].key != p ==> Handshake.Work(l, i)
    ensures |l.dirs| < |entries| ==> Ends(end, entries[|l.dirs|].key)
  {
    var n := InFront(entries, end, 0);
    Handshake.Level(seq(n, i requires 0 <= i < n => entries[i].isDir && entries[i].key != p))
  }

  function InFront(entries: seq<Object>, end: Key, from: nat): (n: nat)
    requires from <= |entries|
    ensures from <= n <= |entries| && forall i :: from <= i < n ==> !Ends(end, entries[i].key)
    ensures n < |entries| ==> Ends(end, entries[n].key)
    decreases |entries| - from
  {
    if from == |entries| || Ends(end, entries[from].key) then from else InFront(entries, end, from + 1)
  }

  /** The children that the listing threads hand to the walk for an entry. */
  function Handed(t: Tree, entries: seq<Object>, taken: map<nat, nat>, i: nat): seq<Object>
    requires i in taken && taken[i] < |entries|
  {
    Children(t, entries[taken[i]].key)
  }

  /** The walk over a level descends with what its listing threads hand over. In every interleaving that is,
  for every directory it descends into, what is in that directory; and the threads list no other. */
  lemma ThreadsHandChildren(t: Tree, p: Key, entries: seq<Object>, end: Key,
                            run: seq<Handshake.State>, steps: seq<Handshake.Step>, i: nat)
    requires Handshake.IsRun(LevelOf(p, entries, end), run, steps)
    ensures var s := run[|steps|];
      && (i in s.taken <==> i < s.pos && Handshake.Work(LevelOf(p, entries, end), i))
      && (i in s.taken ==> s.taken[i] < |entries| && Handed(t, entries, s.taken, i) == Children(t, entries[i].key))
  {
    Handshake.ChildrenAreOwn(LevelOf(p, entries, end), run, steps);
  }

  // ------------------------------------------------------------------ the listing

  /** The entry of the level that a key comes out under. */
  function TopEntry(p: Key, k: Key): Key
    requires HasPrefix(k, p)
  {
    if Direct(p, k) then k else CommonPrefix(p, k)
  }

  predicate Behind(start: Key, k: Key) {
    start == "" || Less(start, k)
  }

  /** The first level is listed behind the start; an empty start excludes nothing. */
  function FirstLevel(t: Tree, prefix: Key, start: Key): seq<Object> {
    var level := t.level(prefix);
    if start == "" then level else level[PagedListing.Behind(level, start, 0)..]
  }

  lemma FirstLevelIs(t: Tree, prefix: Key, start: Key, e: Object)
    requires Valid(t)
    ensures e in FirstLevel(t, prefix, start) <==> OnLevel(t.objects, prefix, e) && Behind(start, e.key)
  {
    ChildrenAreEntries(t, prefix);
    var level := t.level(prefix);
    hide Ascending, Less, PagedListing.Behind, PagedListing.Reach;
    assert forall k: Key :: !PagedListing.Past("", k);
    var from := PagedListing.Behind(level, start, 0);
    assert PagedListing.Reach(level, "", from) == |level|;
    PagedListing.WantedIsExactly(level, start, "", e);
  }

  lemma FirstLevelEntries(t: Tree, prefix: Key, start: Key)
    requires Valid(t)
    ensures Entries(t, prefix, FirstLevel(t, prefix, start))
  {
    ChildrenAreEntries(t, prefix);
  }

  lemma FirstRegion(t: Tree, prefix: Key, start: Key, k: Key)
    requires Valid(t) && k in t.objects
    ensures var entries := FirstLevel(t, prefix, start);
      InRegion(prefix, entries, |entries|, k) <==> HasPrefix(k, prefix) && Behind(start, TopEntry(prefix, k))
  {
    hide FirstLevel, Behind, Less;
    var entries := FirstLevel(t, prefix, start);
    if HasPrefix(k, prefix) {
      TopIsEntry(t, prefix, k);
      FirstLevelIs(t, prefix, start, t.objects[TopEntry(prefix, k)]);
      if Behind(start, TopEntry(prefix, k)) {
        var j :| 0 <= j < |entries| && entries[j] == t.objects[TopEntry(prefix, k)];
        assert Below(prefix, entries[j], k);
      }
    }
    if j :| 0 <= j < |entries| && Below(prefix, entries[j], k) {
      FirstLevelIs(t, prefix, start, entries[j]);
      assert entries[j] in entries;
      OnlyTop(t, prefix, entries[j], k);
    }
  }

  lemma TopIsEntry(t: Tree, p: Key, k: Key)
    requires Valid(t) && k in t.objects && HasPrefix(k, p)
    ensures TopEntry(p, k) in t.objects
    ensures OnLevel(t.objects, p, t.objects[TopEntry(p, k)]) && Below(p, t.objects[TopEntry(p, k)], k)
  {
  }

  lemma OnlyTop(t: Tree, p: Key, e: Object, k: Key)
    requires Valid(t) && OnLevel(t.objects, p, e) && Below(p, e, k)
    ensures HasPrefix(k, p) && (k in t.objects ==> TopEntry(p, k) == e.key)
  {
    assert e.key[..|p|] == p;
    if k != e.key {
      DirEntry(t, p, e);
      CommonPrefixUnique(p, e.key, k);
    } else if IsCommonPrefix(p, k) {
      CommonPrefixUnique(p, k, k);
    }
  }

  /** What the listing is meant to hold: the objects under the prefix, before the end if there is one,
  whose entry on the first level is behind the start. */
  ghost predicate Meant(t: Tree, prefix: Key, start: Key, end: Key, o: Object) {
    && Stored(t.objects, o) && HasPrefix(o.key, prefix) && (end == "" || Less(o.key, end))
    && Behind(start, TopEntry(prefix, o.key))
  }

  lemma MeantIs(t: Tree, prefix: Key, start: Key, end: Key, o: Object)
    ensures Meant(t, prefix, start, end, o) <==>
      && Stored(t.objects, o) && HasPrefix(o.key, prefix) && Behind(start, TopEntry(prefix, o.key)) && !Ends(end, o.key)
  {
  }

  /** The whole listing: in order exactly what it is meant to hold, which without a start and an end is
  what a flat listing gives; or, if some listing fails, the beginning of that and a nil. */
  method ListAllWithDelimiter(t: Tree, prefix: Key, start: Key, end: Key, broken: set<Key>)
    returns (out: Channel, refused: bool)
    requires Valid(t)
    ensures refused <==> prefix in broken
    ensures broken == {} ==> !Received(out).failed
    ensures Ascending(Received(out).objs)
    ensures forall o :: o in Received(out).objs ==> Meant(t, prefix, start, end, o)
    ensures !refused && !Received(out).failed ==>
      forall o :: Meant(t, prefix, start, end, o) ==> o in Received(out).objs
    ensures forall o, x :: Meant(t, prefix, start, end, o) && o !in Received(out).objs && x in Received(out).objs ==>
              Less(x.key, o.key)
    ensures !refused && !Received(out).failed && start == "" && end == "" ==>
        ListsFlat(t.objects, prefix, Received(out).objs)
  {
    if prefix in broken {
      return [], true;
    }
    refused := false;
    var entries := FirstLevel(t, prefix, start);
    FirstLevelEntries(t, prefix, start);
    var listed, err := Walk(t, prefix, entries, end, broken);
    out := PagedListing.Sent(listed) + (if err then [None] else []);
    PagedListing.ReceivedSent(listed, if err then [None] else []);
    assert Received(out).objs == listed && Received(out).failed == err;
    forall o { MeantIs(t, prefix, start, end, o); }
    hide PagedListing.Sent, Received, FirstLevel, Less, Behind, Ends, Meant;
    forall o | Stored(t.objects, o)
      ensures InRegion(prefix, entries, |entries|, o.key)
          <==> HasPrefix(o.key, prefix) && Behind(start, TopEntry(prefix, o.key))
    {
      FirstRegion(t, prefix, start, o.key);
    }
  }

  /** A key behind the start is lost exactly when the start is in the same directory of the first level. */
  lemma LostWithStart(prefix: Key, start: Key, k: Key)
    requires HasPrefix(k, prefix) && Behind(start, k) && start != ""
    ensures !Behind(start, TopEntry(prefix, k)) <==> !Direct(prefix, k) && HasPrefix(start, CommonPrefix(prefix, k))
  {
    if !Direct(prefix, k) {
      var c := CommonPrefix(prefix, k);
      LessTotal(start, c);
      LessIrreflexive(c);
      if HasPrefix(start, c) {
        PrefixNotGreater(c, start);
        if Less(start, c) && start != c { LessAsymmetric(start, c); }
      } else if Less(c, start) {
        OutsidePrefix(c, k, start);
        LessAsymmetric(start, k);
      }
    }
  }
}

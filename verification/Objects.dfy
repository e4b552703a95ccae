/** Listed objects and the streams they arrive in. */
module Objects {
  import opened Keys

  type byte = bv8

  datatype Option<+T> = None | Some(value: T)

  datatype Perms = Perms(mode: nat, owner: string, group: string)

  /** What a store lists about one key; `mtime` counts nanoseconds. */
  datatype Object = Object(key: Key, size: int, mtime: int, isDir: bool, isSymlink: bool, perms: Perms)

  /** `Time.Unix()`: whole seconds, rounded down. */
  function Unix(nanos: int): int {
    nanos / 1_000_000_000
  }

  /** Times agree in seconds exactly if they lie within the same whole second. */
  lemma UnixAgrees(a: int, b: int)
    ensures Unix(a) == Unix(b) <==> exists s: int :: s * 1_000_000_000 <= a < (s + 1) * 1_000_000_000
                                                && s * 1_000_000_000 <= b < (s + 1) * 1_000_000_000
    ensures Unix(a) > Unix(b) <==> exists s: int :: b < s * 1_000_000_000 <= a
  {
    var s := Unix(a);
    assert s * 1_000_000_000 <= a < (s + 1) * 1_000_000_000;
  }

  /** What a listing channel delivers: a `None` tells that the listing has failed. */
  type Channel = seq<Option<Object>>

  /** A listing read to its end: the objects delivered, and whether a failure cut it short. */
  datatype Listing = Listing(objs: seq<Object>, failed: bool)

  /** What a reader that stops at the first failure gets out of a channel. */
  function Received(keys: Channel): Listing {
    if keys == [] then Listing([], false)
    else if keys[0].None? then Listing([], true)
    else
      var rest := Received(keys[1..]);
      Listing([keys[0].value] + rest.objs, rest.failed)
  }

  /** That is everything in front of the first `None`, if there is one, and the failure exactly then. */
  lemma {:induction false} ReceivedIs(keys: Channel)
    ensures var r := Received(keys);
      && |r.objs| <= |keys| && (forall i :: 0 <= i < |r.objs| ==> keys[i] == Some(r.objs[i]))
      && (if r.failed then |r.objs| < |keys| && keys[|r.objs|] == None else |r.objs| == |keys|)
  {
    if keys != [] && keys[0].Some? {
      ReceivedIs(keys[1..]);
    }
  }

  ghost predicate Ascending(objs: seq<Object>) {
    forall i, j :: 0 <= i < j < |objs| ==> Less(objs[i].key, objs[j].key)
  }

  /** The object listed under a key. */
  function Lookup(objs: seq<Object>, key: Key): (o: Option<Object>)
    ensures o.Some? ==> o.value in objs && o.value.key == key
    ensures o.None? ==> forall x :: x in objs ==> x.key != key
  {
    if objs == [] then None
    else if objs[0].key == key then Some(objs[0])
    else Lookup(objs[1..], key)
  }

  /** A set that lacks an element of another is smaller. */
  lemma {:induction false} Smaller<T>(a: set<T>, b: set<T>, x: T)
    requires a <= b && x in b && x !in a
    ensures |a| < |b|
  {
    if a != {} {
      var y :| y in a;
      Smaller(a - {y}, b - {y}, x);
    }
  }
}

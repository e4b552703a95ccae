/** Keys as paths: what a listing with the delimiter `/` shows of a store, and the contract of a
store's listings. */
module Hierarchy {
  import opened Keys
  import opened Objects
  import opened Glob

  function FirstSlash(t: string): (j: nat)
    ensures j <= |t| && NoSlash(t[..j])
    ensures j < |t| ==> t[j] == '/'
  {
    if t == [] || t[0] == '/' then 0 else 1 + FirstSlash(t[1..])
  }

  /** A key that a delimited listing of `p` shows as it is. */
  predicate Direct(p: Key, k: Key)
    requires HasPrefix(k, p)
  {
    NoSlash(k[|p|..])
  }

  /** The common prefix that a delimited listing of `p` shows instead of any other key. */
  function CommonPrefix(p: Key, k: Key): (c: Key)
    requires HasPrefix(k, p) && !Direct(p, k)
    ensures IsCommonPrefix(p, c) && HasPrefix(k, c)
  {
    var j := FirstSlash(k[|p|..]);
    var c := k[..|p| + j + 1];
    assert c[..|c| - 1][|p|..] == k[|p|..][..j];
    c
  }

  predicate IsCommonPrefix(p: Key, c: Key) {
    |c| > |p| && HasPrefix(c, p) && c[|c| - 1] == '/' && NoSlash(c[..|c| - 1][|p|..])
  }

  lemma InnerNoSlash(p: Key, c: Key, i: nat)
    requires IsCommonPrefix(p, c) && |p| <= i < |c| - 1
    ensures c[i] != '/'
  {
    assert c[..|c| - 1][|p|..][i - |p|] == c[i];
  }

  lemma NotShorter(p: Key, c: Key, d: Key, k: Key)
    requires IsCommonPrefix(p, c) && IsCommonPrefix(p, d) && HasPrefix(k, c) && HasPrefix(k, d)
    ensures |c| <= |d|
  {
    if |d| < |c| {
      InnerNoSlash(p, c, |d| - 1);
      assert false;
    }
  }

  /** Keys below a common prefix have no other common prefix, and are not direct. */
  lemma CommonPrefixUnique(p: Key, c: Key, k: Key)
    requires IsCommonPrefix(p, c) && HasPrefix(k, c)
    ensures HasPrefix(k, p) && !Direct(p, k) && CommonPrefix(p, k) == c
  {
    assert p == c[..|p|] == k[..|p|];
    assert k[|p|..][|c| - 1 - |p|] == '/';
    var d := CommonPrefix(p, k);
    NotShorter(p, c, d, k);
    NotShorter(p, d, c, k);
  }

  /** A store and its two kinds of listings. */
  datatype Store = Store(objects: map<Key, Object>, flat: Key -> seq<Object>, delimited: Key -> seq<Object>)

  /** Directory objects have keys that end in `/`. */
  ghost predicate WellKeyed(objects: map<Key, Object>) {
    forall k :: k in objects ==> objects[k].key == k && (objects[k].isDir ==> k == "" || k[|k| - 1] == '/')
  }

  ghost predicate ListsFlat(objects: map<Key, Object>, p: Key, objs: seq<Object>) {
    Ascending(objs) && forall o :: o in objs <==> o.key in objects && objects[o.key] == o && HasPrefix(o.key, p)
  }

  /** The test by which the lister tells common prefixes from objects. */
  predicate IsPrefixEntry(p: Key, o: Object) {
    o.isDir && Less(p, o.key)
  }

  /** A delimited listing: the direct objects, and one directory entry for each common prefix. */
  ghost predicate ListsDelimited(objects: map<Key, Object>, p: Key, objs: seq<Object>) {
    && Ascending(objs)
    && (forall o :: o in objs && !IsPrefixEntry(p, o) ==>
          o.key in objects && objects[o.key] == o && HasPrefix(o.key, p) && Direct(p, o.key))
    && (forall o :: o in objs && IsPrefixEntry(p, o) ==>
          IsCommonPrefix(p, o.key) && exists k :: k in objects && HasPrefix(k, o.key))
    && (forall k :: k in objects && HasPrefix(k, p) && Direct(p, k) ==> objects[k] in objs)
    && (forall k :: k in objects && HasPrefix(k, p) && !Direct(p, k) ==>
          exists o :: o in objs && IsPrefixEntry(p, o) && o.key == CommonPrefix(p, k))
  }

  ghost predicate Contract(s: Store) {
    && WellKeyed(s.objects)
    && (forall p :: ListsFlat(s.objects, p, s.flat(p)))
    && (forall p :: ListsDelimited(s.objects, p, s.delimited(p)))
  }

  /** A direct object is never taken for a common prefix. */
  lemma DirectIsNoPrefixEntry(objects: map<Key, Object>, p: Key, k: Key)
    requires WellKeyed(objects) && k in objects && HasPrefix(k, p) && Direct(p, k)
    ensures !IsPrefixEntry(p, objects[k])
  {
    if k == p {
      LessIrreflexive(p);
    } else {
      assert k[|p|..][|k| - |p| - 1] == k[|k| - 1];
    }
  }
}

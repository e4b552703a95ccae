/** Pattern matching of include/exclude rules: `path.Match` on one name, and the `**` extension
that the sync engine builds on top of it. */
module Glob {

  /** `path.Match` for patterns made of literals, `?` and `*`; neither wildcard crosses a `/`. */
  predicate PathMatch(p: string, t: string)
    decreases |p| + |t|
  {
    if p == [] then t == []
    else if p[0] == '*' then
      PathMatch(p[1..], t) || (t != [] && t[0] != '/' && PathMatch(p, t[1..]))
    else
      t != [] && MatchChar(p[0], t[0]) && PathMatch(p[1..], t[1..])
  }

  predicate MatchChar(p: char, c: char) {
    if p == '?' then c != '/' else c == p
  }

  /** `strings.Join(s, "/")`. */
  function Join(s: seq<string>): string {
    if s == [] then "" else if |s| == 1 then s[0] else s[0] + "/" + Join(s[1..])
  }

  /** `strings.Index(p, "**")`, with `|p|` standing for "not found". */
  function IndexTwoStar(p: string): (i: nat)
    ensures i == |p| || i + 2 <= |p|
    ensures i < |p| ==> p[i] == '*' && p[i + 1] == '*'
    ensures forall j, k :: 0 <= j < i && k == j + 1 < |p| ==> !(p[j] == '*' && p[k] == '*')
  {
    if |p| < 2 then |p|
    else if p[0] == '*' && p[1] == '*' then 0
    else 1 + IndexTwoStar(p[1..])
  }

  /** Matches the pattern component `p` against the path components `s`. */
  predicate MatchTwoStar(p: string, s: seq<string>)
    decreases |p|
  {
    if s == [] then p == "*"
    else
      var idx := IndexTwoStar(p);
      if idx == |p| then PathMatch(p, Join(s))
      else
        && PathMatch(p[..idx + 1], s[0])
        && exists i :: 0 <= i <= |s| && MatchTwoStar(TwoStarRest(p, idx, i == 0), s[i..])
  }

  /** What is left of the pattern once the first `**` has swallowed some components. */
  function TwoStarRest(p: string, idx: nat, same: bool): string
    requires idx < |p|
  {
    if same then p[..idx] + p[idx + 1..] else p[idx + 1..]
  }

  // ------------------------------------------------------------------ reference meaning

  predicate NoSlash(t: string) {
    forall i :: 0 <= i < |t| ==> t[i] != '/'
  }

  function Stars(p: string): (k: nat)
    ensures k <= |p|
    ensures k < |p| ==> p[k] != '*'
    ensures forall j :: 0 <= j < k ==> p[j] == '*'
  {
    if p == [] || p[0] != '*' then 0 else 1 + Stars(p[1..])
  }

  /** The language of a pattern: a run of two or more stars matches any string, a single star any
  string without `/`, everything else one character. */
  ghost predicate Matches(p: string, t: string)
    decreases |p|, 1
  {
    if Stars(p) == 0 then
      if p == [] then t == []
      else t != [] && MatchChar(p[0], t[0]) && Matches(p[1..], t[1..])
    else
      exists b: nat :: StarTakes(p, t, b)
  }

  /** The leading stars of `p` match the first `b` characters of `t`, the rest of `p` the rest. */
  ghost predicate StarTakes(p: string, t: string, b: nat)
    requires Stars(p) >= 1
    decreases |p|, 0
  {
    && b <= |t|
    && (Stars(p) >= 2 || NoSlash(t[..b]))
    && Matches(p[Stars(p)..], t[b..])
  }

  // ------------------------------------------------------------------ lemmas

  lemma StarsOf(p: string, k: nat)
    requires k <= |p|
    requires forall j :: 0 <= j < k ==> p[j] == '*'
    requires k < |p| ==> p[k] != '*'
    ensures Stars(p) == k
  {
    var m := Stars(p);
    assert m < |p| ==> p[m] != '*';
  }

  lemma EmptyPattern(t: string)
    ensures Matches("", t) <==> t == ""
  {
  }

  lemma StarElim(p: string, t: string) returns (y: string, z: string)
    requires Stars(p) >= 1 && Matches(p, t)
    ensures t == y + z && (Stars(p) >= 2 || NoSlash(y)) && Matches(p[Stars(p)..], z)
  {
    var b: nat :| StarTakes(p, t, b);
    y, z := t[..b], t[b..];
  }

  lemma StarIntro(p: string, y: string, z: string)
    requires Stars(p) >= 1 && (Stars(p) >= 2 || NoSlash(y)) && Matches(p[Stars(p)..], z)
    ensures Matches(p, y + z)
  {
    var t := y + z;
    assert t[..|y|] == y && t[|y|..] == z;
    assert StarTakes(p, t, |y|);
  }

  lemma CharElim(p: string, t: string) returns (c: char, u: string)
    requires p != [] && Stars(p) == 0 && Matches(p, t)
    ensures t == [c] + u && MatchChar(p[0], c) && Matches(p[1..], u)
  {
    c, u := t[0], t[1..];
  }

  lemma CharIntro(p: string, c: char, u: string)
    requires p != [] && Stars(p) == 0 && MatchChar(p[0], c) && Matches(p[1..], u)
    ensures Matches(p, [c] + u)
  {
    assert ([c] + u)[1..] == u;
  }

  /** The concatenation of `pre` and `q` does not merge two runs of stars. */
  predicate Separate(pre: string, q: string) {
    pre == [] || q == [] || pre[|pre| - 1] != '*' || q[0] != '*'
  }

  /** A pattern splits wherever no run of stars is cut. */
  lemma {:induction false} SplitElim(pre: string, q: string, t: string) returns (x: string, y: string)
    requires Separate(pre, q)
    requires Matches(pre + q, t)
    ensures t == x + y && Matches(pre, x) && Matches(q, y)
    decreases |pre|
  {
    hide Matches, StarTakes;
    var p := pre + q;
    var k := Stars(pre);
    if pre == [] {
      EmptyPattern("");
      assert p == q;
      x, y := "", t;
    } else if k == 0 {
      StarsOf(p, 0);
      assert p[1..] == pre[1..] + q;
      var c, u := CharElim(p, t);
      x, y := SplitElim(pre[1..], q, u);
      CharIntro(pre, c, x);
      x := [c] + x;
    } else {
      StarsOf(p, k);
      assert p[k..] == pre[k..] + q;
      var w, u := StarElim(p, t);
      x, y := SplitElim(pre[k..], q, u);
      StarIntro(pre, w, x);
      x := w + x;
    }
  }

  lemma {:induction false} SplitIntro(pre: string, q: string, x: string, y: string)
    requires Separate(pre, q)
    requires Matches(pre, x) && Matches(q, y)
    ensures Matches(pre + q, x + y)
    decreases |pre|
  {
    hide Matches, StarTakes;
    var p := pre + q;
    var k := Stars(pre);
    if pre == [] {
      EmptyPattern(x);
      assert p == q && x + y == y;
    } else if k == 0 {
      StarsOf(p, 0);
      assert p[1..] == pre[1..] + q;
      var c, u := CharElim(pre, x);
      SplitIntro(pre[1..], q, u, y);
      CharIntro(p, c, u + y);
      assert x + y == [c] + (u + y);
    } else {
      StarsOf(p, k);
      assert p[k..] == pre[k..] + q;
      var w, u := StarElim(pre, x);
      SplitIntro(pre[k..], q, u, y);
      StarIntro(p, w, u + y);
      assert x + y == w + (u + y);
    }
  }

  /** Without `**`, `path.Match` decides exactly the language of the pattern. */
  lemma {:induction false} PathMatchIsMatches(p: string, t: string)
    requires IndexTwoStar(p) == |p|
    ensures PathMatch(p, t) <==> Matches(p, t)
    decreases |p|, |t|
  {
    hide Matches, StarTakes, IndexTwoStar;
    if p == [] {
      EmptyPattern(t);
    } else if p[0] == '*' {
      NoTwoStarTail(p);
      StarsOf(p, 1);
      PathMatchIsMatches(p[1..], t);
      if t != [] { PathMatchIsMatches(p, t[1..]); }
      if Matches(p, t) {
        var y, z := StarElim(p, t);
        if y == "" {
          assert z == t;
        } else {
          StarIntro(p, y[1..], z);
          assert t[1..] == y[1..] + z;
        }
      }
      if Matches(p[1..], t) {
        StarIntro(p, "", t);
        assert "" + t == t;
      }
      if t != [] && t[0] != '/' && Matches(p, t[1..]) {
        var y, z := StarElim(p, t[1..]);
        StarIntro(p, [t[0]] + y, z);
        assert t == [t[0]] + y + z;
      }
    } else {
      NoTwoStarTail(p);
      StarsOf(p, 0);
      if t != [] {
        PathMatchIsMatches(p[1..], t[1..]);
        assert t == [t[0]] + t[1..];
        if PathMatch(p, t) { CharIntro(p, t[0], t[1..]); }
      }
      if Matches(p, t) {
        var c, u := CharElim(p, t);
        assert t[1..] == u;
      }
    }
  }

  lemma NoTwoStarTail(p: string)
    requires p != [] && IndexTwoStar(p) == |p|
    ensures IndexTwoStar(p[1..]) == |p[1..]|
    ensures |p| > 1 ==> !(p[0] == '*' && p[1] == '*')
  {
  }

  /** A pattern without `/` and without `**` matches no text with a `/`. */
  lemma {:induction false} PlainPatternStaysInName(p: string, t: string)
    requires NoSlash(p) && IndexTwoStar(p) == |p| && Matches(p, t)
    ensures NoSlash(t)
    decreases |p|
  {
    if p == [] {
    } else if p[0] == '*' {
      NoTwoStarTail(p);
      StarsOf(p, 1);
      var y, z := StarElim(p, t);
      PlainPatternStaysInName(p[1..], z);
    } else {
      NoTwoStarTail(p);
      StarsOf(p, 0);
      var c, u := CharElim(p, t);
      PlainPatternStaysInName(p[1..], u);
    }
  }

  /** The components before `i`, with the `/` that ends them. */
  lemma {:induction false} JoinSplit(s: seq<string>, i: nat) returns (h: string)
    requires 0 < i < |s|
    ensures Join(s) == h + Join(s[i..]) && s[0] <= h
    decreases i
  {
    h := s[0] + "/";
    if i > 1 {
      var h' := JoinSplit(s[1..], i - 1);
      assert s[1..][i - 1..] == s[i..];
      h := h + h';
    }
  }

  /** A suffix of the joined path starts inside some component `i`, of which `w` is cut off. */
  lemma {:induction false} Locate(s: seq<string>, v: string, z: string) returns (i: nat, w: string)
    requires s != [] && Components(s) && Join(s) == v + z
    ensures i < |s| && Join(s[i..]) == w + z && NoSlash(w)
    ensures i == 0 ==> w == v
    decreases |s|
  {
    if |v| <= |s[0]| {
      i, w := 0, v;
      assert s[0..] == s;
      assert forall k :: 0 <= k < |v| ==> v[k] == Join(s)[k] == s[0][k];
    } else {
      var off := |s[0]| + 1;
      assert Join(s) == (s[0] + "/") + Join(s[1..]);
      assert Join(s)[off..] == Join(s[1..]) == v[off..] + z;
      i, w := Locate(s[1..], v[off..], z);
      i := i + 1;
      assert s[1..][i - 1..] == s[i..];
    }
  }

  ghost predicate Components(s: seq<string>) {
    forall i :: 0 <= i < |s| ==> NoSlash(s[i])
  }

  // A pattern around its first star run: `pre`, then `k` stars, then `post`.

  function Rep(k: nat): string {
    seq(k, i => '*')
  }

  ghost predicate Shape(pre: string, k: nat, post: string) {
    && k >= 1
    && (pre != [] ==> pre[|pre| - 1] != '*')
    && (post != [] ==> post[0] != '*')
  }

  lemma {:induction false} AroundElim(pre: string, k: nat, post: string, t: string)
    returns (x: string, y: string, z: string)
    requires Shape(pre, k, post) && Matches(pre + (Rep(k) + post), t)
    ensures t == x + y + z && Matches(pre, x) && Matches(post, z) && (k >= 2 || NoSlash(y))
  {
    var u;
    x, u := SplitElim(pre, Rep(k) + post, t);
    y, z := StarRunElim(k, post, u);
  }

  lemma {:induction false} StarRunElim(k: nat, post: string, u: string) returns (y: string, z: string)
    requires Shape("", k, post) && Matches(Rep(k) + post, u)
    ensures u == y + z && Matches(post, z) && (k >= 2 || NoSlash(y))
  {
    var q := Rep(k) + post;
    StarsOf(q, k);
    assert q[k..] == post;
    y, z := StarElim(q, u);
  }

  lemma {:induction false} StarRunIntro(k: nat, post: string, y: string, z: string)
    requires Shape("", k, post) && Matches(post, z) && (k >= 2 || NoSlash(y))
    ensures Matches(Rep(k) + post, y + z)
  {
    var q := Rep(k) + post;
    StarsOf(q, k);
    assert q[k..] == post;
    StarIntro(q, y, z);
  }

  lemma {:induction false} AroundIntro(pre: string, k: nat, post: string, x: string, y: string, z: string)
    requires Shape(pre, k, post)
    requires Matches(pre, x) && Matches(post, z) && (k >= 2 || NoSlash(y))
    ensures Matches(pre + (Rep(k) + post), x + y + z)
  {
    StarRunIntro(k, post, y, z);
    SplitIntro(pre, Rep(k) + post, x, y + z);
    assert x + y + z == x + (y + z);
  }

  lemma {:induction false} NoTwoStarBefore(p: string)
    requires forall j, k :: 0 <= j && k == j + 1 < |p| ==> !(p[j] == '*' && p[k] == '*')
    ensures IndexTwoStar(p) == |p|
  {
    if |p| >= 2 {
      NoTwoStarBefore(p[1..]);
    }
  }

  /** A pattern cut at its first `**`, and the patterns the loop goes on with. */
  lemma TwoStarShape(p: string) returns (pre: string, k: nat, post: string)
    requires IndexTwoStar(p) < |p|
    ensures var idx := IndexTwoStar(p);
      && k >= 2 && Shape(pre, k, post)
      && p == pre + (Rep(k) + post)
      && pre <= p && IndexTwoStar(pre) == |pre|
      && p[..idx + 1] == pre + (Rep(1) + "") && IndexTwoStar(p[..idx + 1]) == idx + 1
      && TwoStarRest(p, idx, true) == pre + (Rep(k - 1) + post)
      && TwoStarRest(p, idx, false) == Rep(k - 1) + post
  {
    hide IndexTwoStar, Rep;
    var idx := IndexTwoStar(p);
    BeforeTwoStar(p);
    var q := p[idx..];
    pre := p[..idx];
    k, post := StarRun(q);
    assert p == pre + q;
    assert p[idx + 1..] == q[1..];
    RepOne();
    assert p[..idx + 1] == pre + "*";
  }

  lemma RepOne()
    ensures Rep(1) + "" == "*"
  {
  }

  lemma BeforeTwoStar(p: string)
    requires IndexTwoStar(p) < |p|
    ensures var idx := IndexTwoStar(p);
      && IndexTwoStar(p[..idx]) == idx && IndexTwoStar(p[..idx + 1]) == idx + 1
      && (idx > 0 ==> p[idx - 1] != '*')
  {
    var idx := IndexTwoStar(p);
    NoTwoStarBefore(p[..idx]);
    NoTwoStarBefore(p[..idx + 1]);
  }

  lemma StarRun(q: string) returns (k: nat, post: string)
    requires |q| >= 2 && q[0] == '*' && q[1] == '*'
    ensures k >= 2 && Shape("", k, post) && q == Rep(k) + post && q[1..] == Rep(k - 1) + post
  {
    k := Stars(q);
    post := q[k..];
  }

  /** What precedes the first `**` matches a prefix of the first component. */
  lemma {:induction false} HeadIntro(pre: string, s: seq<string>, x: string, u: string)
    requires s != [] && Components(s) && NoSlash(pre) && IndexTwoStar(pre) == |pre|
    requires Shape(pre, 1, "") && IndexTwoStar(pre + (Rep(1) + "")) == |pre| + 1
    requires Join(s) == x + u && Matches(pre, x)
    ensures x <= s[0] && PathMatch(pre + (Rep(1) + ""), s[0])
  {
    PlainPatternStaysInName(pre, x);
    assert Join(s) == s[0] + Join(s)[|s[0]|..];
    if |s[0]| < |Join(s)| {
      assert Join(s)[|s[0]|] == '/';
    }
    assert forall i :: 0 <= i < |x| ==> Join(s)[i] == x[i];
    var y := s[0][|x|..];
    AroundIntro(pre, 1, "", x, y, "");
    assert x + y + "" == s[0];
    PathMatchIsMatches(pre + (Rep(1) + ""), s[0]);
  }

  lemma {:induction false} HeadElim(pre: string, s: seq<string>) returns (x: string)
    requires s != []
    requires Shape(pre, 1, "") && IndexTwoStar(pre + (Rep(1) + "")) == |pre| + 1
    requires PathMatch(pre + (Rep(1) + ""), s[0])
    ensures x <= s[0] && Matches(pre, x)
  {
    PathMatchIsMatches(pre + (Rep(1) + ""), s[0]);
    var y, z;
    x, y, z := AroundElim(pre, 1, "", s[0]);
    assert x + y + z == x + (y + z);
  }

  /** A match of `p` tells how many components its first `**` swallows, and what is left to do. */
  lemma {:induction false} CompleteStep(p: string, s: seq<string>) returns (i: nat)
    requires s != [] && Components(s) && NoSlash(p) && IndexTwoStar(p) < |p|
    requires Matches(p, Join(s))
    ensures i < |s| && PathMatch(p[..IndexTwoStar(p) + 1], s[0])
    ensures Matches(TwoStarRest(p, IndexTwoStar(p), i == 0), Join(s[i..]))
  {
    hide Matches, StarTakes, PathMatch, IndexTwoStar, TwoStarRest, Join, Stars;
    var pre, k, post := TwoStarShape(p);
    var x, y, z := AroundElim(pre, k, post, Join(s));
    assert x + y + z == x + (y + z) == Join(s);
    HeadIntro(pre, s, x, y + z);
    i := 0;
    if k >= 3 || NoSlash(y) {
      AroundIntro(pre, k - 1, post, x, y, z);
      assert s[0..] == s;
    } else {
      i := LaterStep(k, post, s, x, y, z);
    }
  }

  lemma NoSlashConcat(x: string, y: string)
    ensures NoSlash(x + y) ==> NoSlash(y)
  {
    assert forall n :: 0 <= n < |y| ==> y[n] == (x + y)[|x| + n];
  }

  lemma {:induction false} LaterStep(k: nat, post: string, s: seq<string>, x: string, y: string, z: string)
    returns (i: nat)
    requires s != [] && Components(s) && Join(s) == (x + y) + z
    requires k >= 2 && Shape("", k - 1, post) && Matches(post, z) && !NoSlash(y)
    ensures 0 < i < |s| && Matches(Rep(k - 1) + post, Join(s[i..]))
  {
    hide Matches, StarTakes;
    var w;
    i, w := Locate(s, x + y, z);
    NoSlashConcat(x, y);
    StarRunIntro(k - 1, post, w, z);
  }

  lemma {:induction false} SoundStep(p: string, s: seq<string>, i: nat)
    requires s != [] && IndexTwoStar(p) < |p| && i <= |s|
    requires PathMatch(p[..IndexTwoStar(p) + 1], s[0])
    requires i == |s| ==> TwoStarRest(p, IndexTwoStar(p), false) == "*"
    requires i < |s| ==> Matches(TwoStarRest(p, IndexTwoStar(p), i == 0), Join(s[i..]))
    ensures Matches(p, Join(s))
  {
    hide Matches, StarTakes, PathMatch, IndexTwoStar, TwoStarRest, Join, Stars;
    var pre, k, post := TwoStarShape(p);
    if i == 0 {
      assert s[0..] == s;
      var x, y, z := AroundElim(pre, k - 1, post, Join(s));
      AroundIntro(pre, k, post, x, y, z);
    } else {
      var x := HeadElim(pre, s);
      var h, y, z := Join(s), "", "";
      if i < |s| {
        y, z := StarRunElim(k - 1, post, Join(s[i..]));
        h := JoinSplit(s, i);
      } else {
        assert post == "";
        EmptyPattern("");
        FirstComponent(s);
      }
      AroundIntro(pre, k, post, x, h[|x|..] + y, z);
      assert x + (h[|x|..] + y) + z == h + (y + z) == Join(s);
    }
  }

  lemma {:induction false} TwoStarComplete(p: string, s: seq<string>)
    requires s != [] && Components(s) && NoSlash(p)
    requires Matches(p, Join(s))
    ensures MatchTwoStar(p, s)
    decreases |p|
  {
    if IndexTwoStar(p) == |p| {
      PathMatchIsMatches(p, Join(s));
    } else {
      var i := CompleteStep(p, s);
      TwoStarComplete(TwoStarRest(p, IndexTwoStar(p), i == 0), s[i..]);
    }
  }

  lemma {:induction false} TwoStarSound(p: string, s: seq<string>)
    requires s != [] && MatchTwoStar(p, s)
    ensures Matches(p, Join(s))
    decreases |p|
  {
    var idx := IndexTwoStar(p);
    if idx == |p| {
      PathMatchIsMatches(p, Join(s));
    } else {
      var i :| 0 <= i <= |s| && MatchTwoStar(TwoStarRest(p, idx, i == 0), s[i..]);
      if i < |s| {
        TwoStarSound(TwoStarRest(p, idx, i == 0), s[i..]);
      }
      SoundStep(p, s, i);
    }
  }

  lemma FirstComponent(s: seq<string>)
    requires s != []
    ensures s[0] <= Join(s)
  {
    if |s| > 1 {
      assert Join(s) == s[0] + ("/" + Join(s[1..]));
    }
  }

  /** `matchTwoStar` accepts exactly the paths in the language of the pattern component. */
  lemma MatchTwoStarExact(p: string, s: seq<string>)
    requires s != [] && Components(s) && NoSlash(p)
    ensures MatchTwoStar(p, s) <==> Matches(p, Join(s))
  {
    if MatchTwoStar(p, s) { TwoStarSound(p, s); }
    if Matches(p, Join(s)) { TwoStarComplete(p, s); }
  }
}

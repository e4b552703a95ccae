/** What a rule means for a whole path: the component-wise matching of the code against the language
of the whole pattern, slashes included. */
module RuleMeaning {
  import opened Glob
  import opened Rules

  lemma {:induction false} JoinConcat(a: seq<string>, b: seq<string>)
    requires a != [] && b != []
    ensures Join(a + b) == Join(a) + ("/" + Join(b))
  {
    if |a| == 1 {
      assert (a + b)[1..] == b;
    } else {
      assert (a + b)[1..] == a[1..] + b;
      JoinConcat(a[1..], b);
    }
  }

  /** A `/` of the joined path is a border between two components. */
  lemma {:induction false} SlashIsBorder(s: seq<string>, x: string, u: string) returns (i: nat)
    requires s != [] && Components(s) && Join(s) == x + ("/" + u)
    ensures 0 < i < |s| && x == Join(s[..i]) && u == Join(s[i..])
    decreases |s|
  {
    FirstComponent(s);
    var t := Join(s);
    assert t[|x|] == '/';
    assert |x| >= |s[0]| by {
      assert forall k :: 0 <= k < |s[0]| ==> s[0][k] == t[k];
    }
    assert |s| > 1;
    assert t == s[0] + ("/" + Join(s[1..]));
    if |x| == |s[0]| {
      i := 1;
      assert x == t[..|x|] == s[0] && u == t[|x| + 1..] == Join(s[1..]);
      assert s[..1] == [s[0]];
    } else {
      var x' := x[|s[0]| + 1..];
      assert Join(s[1..]) == t[|s[0]| + 1..] == x' + ("/" + u);
      var i' := SlashIsBorder(s[1..], x', u);
      i := i' + 1;
      assert s[1..][..i'] == s[1..i] && s[1..][i'..] == s[i..];
      assert s[..i] == [s[0]] + s[1..i];
      JoinConcat([s[0]], s[1..i]);
      assert x == t[..|s[0]| + 1] + x';
    }
  }

  lemma SlashPattern(q: string)
    ensures Stars("/" + q) == 0 && ("/" + q)[1..] == q
  {
    StarsOf("/" + q, 0);
  }

  /** A pattern `l/r` matches a path exactly at some border: `l` before it, `r` behind it. */
  lemma {:induction false} BorderElim(l: string, r: string, s: seq<string>) returns (i: nat)
    requires s != [] && Components(s) && Matches(l + ("/" + r), Join(s))
    ensures 0 < i < |s| && Matches(l, Join(s[..i])) && Matches(r, Join(s[i..]))
  {
    hide Matches, Join;
    var x, y := SplitElim(l, "/" + r, Join(s));
    SlashPattern(r);
    var c, u := CharElim("/" + r, y);
    assert y == "/" + u;
    i := SlashIsBorder(s, x, u);
  }

  lemma {:induction false} BorderIntro(l: string, r: string, s: seq<string>, i: nat)
    requires 0 < i < |s| && Matches(l, Join(s[..i])) && Matches(r, Join(s[i..]))
    ensures Matches(l + ("/" + r), Join(s))
  {
    hide Matches, Join;
    SlashPattern(r);
    CharIntro("/" + r, '/', Join(s[i..]));
    SplitIntro(l, "/" + r, Join(s[..i]), "/" + Join(s[i..]));
    JoinConcat(s[..i], s[i..]);
    assert s[..i] + s[i..] == s;
  }

  predicate OnlyStars(c: string) {
    c == "**" || c == "***"
  }

  lemma OnlyStarsMatchAny(c: string, t: string)
    requires OnlyStars(c)
    ensures Matches(c, t)
  {
    StarsOf(c, |c|);
    EmptyPattern("");
    StarIntro(c, t, "");
    assert t + "" == t;
  }

  /** A component without `**` matches one path component and no more. */
  lemma {:induction false} PlainComponent(c: string, s: seq<string>)
    requires s != [] && Components(s) && NoSlash(c) && !ContainsTwoStar(c)
    ensures Matches(c, Join(s)) <==> |s| == 1 && PathMatch(c, s[0])
  {
    PathMatchIsMatches(c, s[0]);
    if Matches(c, Join(s)) {
      PlainPatternStaysInName(c, Join(s));
      assert |s| > 1 ==> Join(s)[|s[0]|] == '/';
    }
  }

  /** One component of a pattern, as both matchers test it, against a group of path components. */
  predicate MatchGroup(c: string, s: seq<string>)
    requires s != []
  {
    c == "***"
    || (if ContainsTwoStar(c) then MatchTwoStar(c, s) else |s| == 1 && PathMatch(c, s[0]))
  }

  lemma {:induction false} MatchGroupExact(c: string, s: seq<string>)
    requires s != [] && Components(s) && NoSlash(c)
    ensures MatchGroup(c, s) <==> Matches(c, Join(s))
  {
    if c == "***" {
      OnlyStarsMatchAny(c, Join(s));
    } else if ContainsTwoStar(c) {
      MatchTwoStarExact(c, s);
    } else {
      PlainComponent(c, s);
    }
  }

  lemma PrefixLast(c: string, s: seq<string>)
    requires s != []
    ensures MatchPrefix([c], s) <==> MatchGroup(c, s)
  {
    assert [c][1..] == [];
    if c != "***" && ContainsTwoStar(c) {
      if MatchPrefix([c], s) {
        var i :| 1 <= i <= |s| && MatchTwoStar(c, s[..i]) && MatchPrefix([], s[i..]);
        assert i == |s| && s[..i] == s;
      }
      if MatchTwoStar(c, s) {
        assert s[..|s|] == s && MatchPrefix([], s[|s|..]);
      }
    }
  }

  lemma PrefixFirst(c: string, rest: seq<string>, s: seq<string>)
    requires rest != [] && s != [] && c != "***"
    ensures MatchPrefix([c] + rest, s)
       <==> exists i :: 0 < i < |s| && MatchGroup(c, s[..i]) && MatchPrefix(rest, s[i..])
  {
    var p := [c] + rest;
    assert p[1..] == rest;
    if ContainsTwoStar(c) {
      if MatchPrefix(p, s) {
        var i :| 1 <= i <= |s| && MatchTwoStar(c, s[..i]) && MatchPrefix(rest, s[i..]);
        assert i < |s| && MatchGroup(c, s[..i]);
      }
      if i :| 0 < i < |s| && MatchGroup(c, s[..i]) && MatchPrefix(rest, s[i..]) {
        assert MatchTwoStar(c, s[..i]);
      }
    } else {
      assert s[..1] == [s[0]];
      if MatchPrefix(p, s) {
        assert MatchGroup(c, s[..1]) && MatchPrefix(rest, s[1..]) && 1 < |s|;
      }
    }
  }

  /** An anchored pattern with `***` at most at its end matches exactly the paths in its language. */
  lemma {:induction false} MatchPrefixPlain(p: seq<string>, s: seq<string>)
    requires p != [] && s != [] && Components(p) && Components(s)
    requires forall i :: 0 <= i < |p| - 1 ==> p[i] != "***"
    ensures MatchPrefix(p, s) <==> Matches(Join(p), Join(s))
    decreases |p|
  {
    hide Matches, MatchPrefix, MatchGroup;
    if |p| == 1 {
      assert p == [p[0]];
      PrefixLast(p[0], s);
      MatchGroupExact(p[0], s);
      assert Join(p) == p[0];
    } else {
      var rest := p[1..];
      assert p == [p[0]] + rest;
      PrefixFirst(p[0], rest, s);
      assert Join(p) == p[0] + ("/" + Join(rest));
      forall i | 0 < i < |s| ensures MatchGroup(p[0], s[..i]) <==> Matches(p[0], Join(s[..i]))
        ensures MatchPrefix(rest, s[i..]) <==> Matches(Join(rest), Join(s[i..]))
      {
        MatchGroupExact(p[0], s[..i]);
        MatchPrefixPlain(rest, s[i..]);
      }
      if Matches(Join(p), Join(s)) {
        var i := BorderElim(p[0], Join(rest), s);
      }
      if MatchPrefix(p, s) {
        var i :| 0 < i < |s| && MatchGroup(p[0], s[..i]) && MatchPrefix(rest, s[i..]);
        BorderIntro(p[0], Join(rest), s, i);
      }
    }
  }

  // ------------------------------------------------------------------ patterns not anchored

  /** Some suffix of the path, starting at a component, is in the language of the pattern. */
  ghost predicate EndsIn(p: seq<string>, s: seq<string>) {
    exists i :: 0 <= i < |s| && Matches(Join(p), Join(s[i..]))
  }

  /** A leading `**` or `***` may also match no component at all. */
  ghost predicate SkipsLead(p: seq<string>, s: seq<string>) {
    |p| >= 2 && OnlyStars(p[0]) && Matches(Join(p[1..]), Join(s))
  }

  lemma SuffixFirst(c: string, s: seq<string>)
    requires s != []
    ensures MatchSuffix([c], s) <==> exists j :: 0 <= j < |s| && MatchGroup(c, s[j..])
  {
    var p := [c];
    assert p[..0] == [];
    forall t: seq<string> ensures MatchSuffix([], t) {}
    if c == "***" {
      assert MatchSuffix(p[..0], s[..0]) && MatchGroup(c, s[0..]);
    } else if ContainsTwoStar(c) {
      assert forall j :: 0 <= j < |s| ==> (MatchGroup(c, s[j..]) <==> MatchTwoStar(c, s[j..]));
    } else {
      assert s[|s| - 1..] == [s[|s| - 1]];
      assert MatchGroup(c, s[|s| - 1..]) <==> PathMatch(c, s[|s| - 1]);
      assert forall j :: 0 <= j < |s| && MatchGroup(c, s[j..]) ==> j == |s| - 1;
    }
  }

  ghost predicate LastGroup(front: seq<string>, c: string, s: seq<string>, j: nat)
    requires j < |s|
  {
    MatchGroup(c, s[j..]) && MatchSuffix(front, s[..j])
  }

  lemma SuffixLastAny(front: seq<string>, s: seq<string>)
    requires front != [] && s != []
    ensures MatchSuffix(front + ["***"], s) <==> exists j :: 0 <= j < |s| && LastGroup(front, "***", s, j)
  {
    hide MatchTwoStar, PathMatch;
    var p := front + ["***"];
    assert p[..|p| - 1] == front;
    forall j | 0 <= j < |s| ensures LastGroup(front, "***", s, j) <==> MatchSuffix(front, s[..j]) {}
  }

  lemma SuffixLastTwoStar(front: seq<string>, c: string, s: seq<string>)
    requires front != [] && s != [] && c != "***" && ContainsTwoStar(c)
    ensures MatchSuffix(front + [c], s) <==> exists j :: 0 <= j < |s| && LastGroup(front, c, s, j)
  {
    hide MatchTwoStar, PathMatch, ContainsTwoStar;
    var p := front + [c];
    assert p[..|p| - 1] == front;
    forall j | 0 <= j < |s|
      ensures LastGroup(front, c, s, j) <==> MatchTwoStar(c, s[j..]) && MatchSuffix(front, s[..j]) {}
  }

  lemma SuffixPlainStep(front: seq<string>, c: string, s: seq<string>)
    requires s != [] && c != "***" && !ContainsTwoStar(c)
    ensures MatchSuffix(front + [c], s) <==> PathMatch(c, s[|s| - 1]) && MatchSuffix(front, s[..|s| - 1])
  {
    hide PathMatch, ContainsTwoStar;
    assert (front + [c])[..|front|] == front;
  }

  lemma PlainGroup(c: string, s: seq<string>, j: nat)
    requires j < |s| && c != "***" && !ContainsTwoStar(c)
    ensures MatchGroup(c, s[j..]) <==> j == |s| - 1 && PathMatch(c, s[j])
  {
    hide PathMatch, ContainsTwoStar;
    assert s[j..][0] == s[j];
  }

  lemma SuffixLastPlain(front: seq<string>, c: string, s: seq<string>)
    requires front != [] && s != [] && c != "***" && !ContainsTwoStar(c)
    ensures MatchSuffix(front + [c], s) <==> exists j :: 0 <= j < |s| && LastGroup(front, c, s, j)
  {
    hide MatchTwoStar, PathMatch, ContainsTwoStar, MatchSuffix, MatchGroup;
    SuffixPlainStep(front, c, s);
    var n := |s| - 1;
    PlainGroup(c, s, n);
    assert LastGroup(front, c, s, n) <==> MatchGroup(c, s[n..]) && MatchSuffix(front, s[..n]);
    forall j | 0 <= j < |s| && LastGroup(front, c, s, j) ensures j == n {
      PlainGroup(c, s, j);
    }
  }

  lemma SuffixLast(front: seq<string>, c: string, s: seq<string>)
    requires front != [] && s != []
    ensures MatchSuffix(front + [c], s)
       <==> exists j :: 0 <= j < |s| && MatchGroup(c, s[j..]) && MatchSuffix(front, s[..j])
  {
    hide MatchSuffix, MatchGroup, MatchTwoStar, ContainsTwoStar;
    assert forall j :: 0 <= j < |s| ==>
        (LastGroup(front, c, s, j) <==> MatchGroup(c, s[j..]) && MatchSuffix(front, s[..j]));
    if c == "***" {
      SuffixLastAny(front, s);
    } else if ContainsTwoStar(c) {
      SuffixLastTwoStar(front, c, s);
    } else {
      SuffixLastPlain(front, c, s);
    }
  }

  /** A pattern that is not anchored matches exactly the paths of which some suffix, cut at a `/`,
  is in its language; a leading `**` or `***` may also match nothing. */
  lemma {:induction false} MatchSuffixExact(p: seq<string>, s: seq<string>)
    requires p != [] && s != [] && Components(p) && Components(s)
    ensures MatchSuffix(p, s) <==> EndsIn(p, s) || SkipsLead(p, s)
    decreases |p|, 0
  {
    hide Matches, MatchSuffix, MatchGroup, Join;
    var front, c := p[..|p| - 1], p[|p| - 1];
    assert p == front + [c];
    forall j | 0 <= j < |s| ensures MatchGroup(c, s[j..]) <==> Matches(c, Join(s[j..])) {
      MatchGroupExact(c, s[j..]);
    }
    JoinOne(c);
    if |p| == 1 {
      assert p == [c];
      SuffixFirst(c, s);
    } else {
      SuffixLast(front, c, s);
      if MatchSuffix(p, s) {
        var j :| 0 <= j < |s| && MatchGroup(c, s[j..]) && MatchSuffix(front, s[..j]);
        SuffixSound(front, c, s, j);
      }
      if EndsIn(p, s) || SkipsLead(p, s) {
        var j := SuffixComplete(front, c, s);
      }
    }
  }

  lemma EmptyPath(front: seq<string>)
    requires front != []
    ensures MatchSuffix(front, []) <==> |front| == 1 && OnlyStars(front[0])
  {
  }

  lemma {:induction false} SuffixSound(front: seq<string>, c: string, s: seq<string>, j: nat)
    requires front != [] && Components(front) && Components(s) && NoSlash(c) && j < |s|
    requires Matches(c, Join(s[j..])) && MatchSuffix(front, s[..j])
    ensures EndsIn(front + [c], s) || SkipsLead(front + [c], s)
    decreases |front|, 1
  {
    hide Matches, MatchSuffix, Join;
    var p := front + [c];
    JoinOne(c);
    JoinConcat(front, [c]);
    if j == 0 {
      EmptyPath(front);
      assert s[..0] == [] && s[0..] == s;
      assert p[1..] == [c];
    } else {
      MatchSuffixExact(front, s[..j]);
      if EndsIn(front, s[..j]) {
        var i :| 0 <= i < j && Matches(Join(front), Join(s[..j][i..]));
        var t := s[i..];
        assert t[..j - i] == s[..j][i..] && t[j - i..] == s[j..];
        BorderIntro(Join(front), c, t, j - i);
      } else {
        assert p[1..] == front[1..] + [c];
        JoinConcat(front[1..], [c]);
        BorderIntro(Join(front[1..]), c, s, j);
      }
    }
  }

  lemma {:induction false} SuffixComplete(front: seq<string>, c: string, s: seq<string>) returns (j: nat)
    requires front != [] && s != [] && Components(front) && Components(s) && NoSlash(c)
    requires EndsIn(front + [c], s) || SkipsLead(front + [c], s)
    ensures j < |s| && Matches(c, Join(s[j..])) && MatchSuffix(front, s[..j])
    decreases |front|, 1
  {
    hide Matches, MatchSuffix, Join;
    var p := front + [c];
    JoinOne(c);
    JoinConcat(front, [c]);
    if EndsIn(p, s) {
      var i :| 0 <= i < |s| && Matches(Join(p), Join(s[i..]));
      var t := s[i..];
      var b := BorderElim(Join(front), c, t);
      j := i + b;
      assert t[..b] == s[..j][i..] && t[b..] == s[j..];
      MatchSuffixExact(front, s[..j]);
    } else if |front| == 1 {
      assert p[1..] == [c];
      j := 0;
      assert s[0..] == s && s[..0] == [];
      EmptyPath(front);
    } else {
      assert p[1..] == front[1..] + [c];
      JoinConcat(front[1..], [c]);
      j := BorderElim(Join(front[1..]), c, s);
      MatchSuffixExact(front, s[..j]);
    }
  }

  // ------------------------------------------------------------------ rules

  /** An anchored pattern counts only up to its first `***`: that accepts all that follows. */
  function UpToThreeStar(p: seq<string>): (r: seq<string>)
    ensures p != [] ==> r != []
    ensures Components(p) ==> Components(r)
    ensures forall i :: 0 <= i < |r| - 1 ==> r[i] != "***"
  {
    if p == [] then []
    else if p[0] == "***" then [p[0]]
    else [p[0]] + UpToThreeStar(p[1..])
  }

  lemma {:induction false} RestIgnored(p: seq<string>, s: seq<string>)
    ensures MatchPrefix(p, s) <==> MatchPrefix(UpToThreeStar(p), s)
    decreases |p|
  {
    if p != [] && s != [] && p[0] != "***" {
      assert UpToThreeStar(p)[1..] == UpToThreeStar(p[1..]);
      forall i | 0 <= i <= |s| ensures MatchPrefix(p[1..], s[i..]) <==> MatchPrefix(UpToThreeStar(p[1..]), s[i..]) {
        RestIgnored(p[1..], s[i..]);
      }
    }
  }

  /** An anchored pattern matches exactly the paths in the language of its components up to the first
  `***`, which accepts whatever follows. */
  lemma MatchPrefixExact(p: seq<string>, s: seq<string>)
    requires p != [] && s != [] && Components(p) && Components(s)
    ensures MatchPrefix(p, s) <==> Matches(Join(UpToThreeStar(p)), Join(s))
  {
    RestIgnored(p, s);
    MatchPrefixPlain(UpToThreeStar(p), s);
  }

  /** The meaning of one rule for one path: anchored at the root behind a leading `/`, else at any
  level. */
  ghost predicate RuleMeans(rule: Rule, ps: seq<string>)
    requires ps != []
  {
    var p := Split(rule.pattern);
    if p[0] == "" then
      Matches(Join(UpToThreeStar(if ps[0] != "" then p[1..] else p)), Join(ps))
    else
      EndsIn(p, ps) || SkipsLead(p, ps)
  }

  /** Every rule decides by the language of its pattern. */
  lemma RuleMatchesExact(rule: Rule, ps: seq<string>)
    requires ps != [] && Components(ps)
    ensures RuleMatches(rule, ps) <==> RuleMeans(rule, ps)
  {
    var p := Split(rule.pattern);
    SplitInverse(rule.pattern);
    if p[0] == "" {
      var q := if ps[0] != "" then p[1..] else p;
      if q == [] {
        FirstComponent(ps);
        EmptyPattern(Join(ps));
      } else {
        MatchPrefixExact(q, ps);
      }
    } else {
      MatchSuffixExact(p, ps);
    }
  }

  // ------------------------------------------------------------------ lists of rules

  /** The rule means the path down to level `i`; a pattern for directories is held against an inner level with
  a `/` behind it. */
  ghost predicate MeansLevel(rule: Rule, parts: seq<string>, i: nat)
    requires i < |parts|
  {
    var p := Split(rule.pattern);
    RuleMeans(rule, parts[..i + 1] + if i + 1 < |parts| && p[|p| - 1] in ["", "***"] then [""] else [])
  }

  ghost predicate FirstAtLevel(rules: seq<Rule>, parts: seq<string>, i: nat, n: nat)
    requires i < |parts|
  {
    n < |rules| && MeansLevel(rules[n], parts, i) && forall j :: 0 <= j < n ==> !MeansLevel(rules[j], parts, i)
  }

  lemma MatchesLevel(rule: Rule, parts: seq<string>, i: nat)
    requires i < |parts| && Components(parts)
    ensures RuleMatches(rule, LevelPath(rule, parts, i)) <==> MeansLevel(rule, parts, i)
  {
    hide RuleMatches, RuleMeans;
    RuleMatchesExact(rule, LevelPath(rule, parts, i));
    assert parts[..i + 1] + [] == parts[..i + 1];
  }

  lemma FirstShifts(rules: seq<Rule>, parts: seq<string>, i: nat, n: nat)
    requires i < |parts| && rules != [] && !MeansLevel(rules[0], parts, i)
    ensures FirstAtLevel(rules[1..], parts, i, n) <==> FirstAtLevel(rules, parts, i, n + 1)
  {
    hide MeansLevel;
    var rest := rules[1..];
    if FirstAtLevel(rest, parts, i, n) {
      forall j | 0 <= j < n + 1 ensures !MeansLevel(rules[j], parts, i) {
        if j > 0 { assert rest[j - 1] == rules[j]; }
      }
    }
    if FirstAtLevel(rules, parts, i, n + 1) {
      assert forall j :: 0 <= j < n ==> rest[j] == rules[j + 1];
    }
  }

  lemma {:induction false} LevelExact(rules: seq<Rule>, parts: seq<string>, i: nat)
    requires i < |parts| && Components(parts)
    ensures LevelAdmits(rules, parts, i)
       <==> forall n: nat :: FirstAtLevel(rules, parts, i, n) ==> rules[n].admit
  {
    hide RuleMatches, LevelPath, Components, MeansLevel;
    if rules != [] {
      MatchesLevel(rules[0], parts, i);
      if MeansLevel(rules[0], parts, i) {
        assert FirstAtLevel(rules, parts, i, 0);
      } else {
        var rest := rules[1..];
        LevelExact(rest, parts, i);
        forall n: nat ensures FirstAtLevel(rest, parts, i, n) <==> FirstAtLevel(rules, parts, i, n + 1) {
          FirstShifts(rules, parts, i, n);
        }
        ShiftedVerdict(rules, parts, i);
      }
    }
  }

  lemma ShiftedVerdict(rules: seq<Rule>, parts: seq<string>, i: nat)
    requires i < |parts| && rules != [] && !MeansLevel(rules[0], parts, i)
    requires forall n: nat :: FirstAtLevel(rules[1..], parts, i, n) <==> FirstAtLevel(rules, parts, i, n + 1)
    ensures (forall n: nat :: FirstAtLevel(rules[1..], parts, i, n) ==> rules[1..][n].admit)
       <==> forall n: nat :: FirstAtLevel(rules, parts, i, n) ==> rules[n].admit
  {
    hide MeansLevel;
    var rest := rules[1..];
    if forall n: nat :: FirstAtLevel(rest, parts, i, n) ==> rest[n].admit {
      forall n: nat | FirstAtLevel(rules, parts, i, n) ensures rules[n].admit {
        if n > 0 { assert FirstAtLevel(rest, parts, i, n - 1) && rest[n - 1] == rules[n]; }
      }
    }
    if forall n: nat :: FirstAtLevel(rules, parts, i, n) ==> rules[n].admit {
      forall n: nat | FirstAtLevel(rest, parts, i, n) ensures rest[n].admit {
        assert FirstAtLevel(rules, parts, i, n + 1) && rest[n] == rules[n + 1];
      }
    }
  }

  /** A list of rules admits a key by leveled matching if and only if, at every level that has a name, the first
  rule that means the path down to it, if there is one, is an include. */
  lemma LeveledExact(rules: seq<Rule>, key: string)
    ensures MatchLeveledPath(rules, key) <==>
      forall i: nat, n: nat :: i < |Split(key)| && Split(key)[i] != "" && FirstAtLevel(rules, Split(key), i, n) ==>
        rules[n].admit
  {
    SplitInverse(key);
    var parts := Split(key);
    hide MeansLevel, LevelAdmits, Components;
    forall i: nat | i < |parts|
      ensures LevelAdmits(rules, parts, i) <==> forall n: nat :: FirstAtLevel(rules, parts, i, n) ==> rules[n].admit
    {
      LevelExact(rules, parts, i);
    }
  }

  ghost predicate FirstForPath(rules: seq<Rule>, ps: seq<string>, n: nat)
    requires ps != []
  {
    n < |rules| && RuleMeans(rules[n], ps) && forall j :: 0 <= j < n ==> !RuleMeans(rules[j], ps)
  }

  lemma {:induction false} FullPathFromExact(rules: seq<Rule>, ps: seq<string>)
    requires ps != [] && Components(ps)
    ensures FullPathFrom(rules, ps) <==> forall n: nat :: FirstForPath(rules, ps, n) ==> rules[n].admit
  {
    hide RuleMatches, RuleMeans, Components;
    if rules != [] {
      RuleMatchesExact(rules[0], ps);
      if RuleMeans(rules[0], ps) {
        assert FirstForPath(rules, ps, 0);
      } else {
        var rest := rules[1..];
        FullPathFromExact(rest, ps);
        forall n: nat ensures FirstForPath(rest, ps, n) <==> FirstForPath(rules, ps, n + 1) {
          assert forall j :: 0 <= j < |rest| ==> rest[j] == rules[j + 1];
          assert forall j :: 1 <= j < |rules| ==> rules[j] == rest[j - 1];
        }
        assert forall n: nat :: FirstForPath(rules, ps, n) ==> n > 0 && FirstForPath(rest, ps, n - 1);
      }
    }
  }

  /** By whole-path matching the first rule that means the path, if there is one, decides. */
  lemma FullPathExact(rules: seq<Rule>, key: string)
    ensures MatchFullPath(rules, key)
       <==> forall n: nat :: FirstForPath(rules, Split(key), n) ==> rules[n].admit
  {
    SplitInverse(key);
    hide FirstForPath, FullPathFrom, Components;
    FullPathFromExact(rules, Split(key));
  }
}

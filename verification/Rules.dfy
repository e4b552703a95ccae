/** Include/exclude rules: what a rule means for a path, and how a list of rules decides on a key. */
module Rules {
  import opened Glob

  datatype Rule = Rule(pattern: string, admit: bool)

  /** `strings.Split(k, "/")`. */
  function Split(k: string): (parts: seq<string>)
    ensures parts != []
  {
    if k == [] then [""] else SplitStep(k[0], Split(k[1..]))
  }

  function SplitStep(c: char, rest: seq<string>): (parts: seq<string>)
    requires rest != []
    ensures parts != []
  {
    if c == '/' then [""] + rest else [[c] + rest[0]] + rest[1..]
  }

  lemma JoinOne(c: string)
    ensures Join([c]) == c
  {
  }

  lemma StepInverse(c: char, rest: seq<string>)
    requires rest != [] && Components(rest)
    ensures Join(SplitStep(c, rest)) == [c] + Join(rest) && Components(SplitStep(c, rest))
  {
    var parts := SplitStep(c, rest);
    if c == '/' {
      assert parts[1..] == rest;
      assert Join(parts) == "" + ("/" + Join(rest)) == "/" + Join(rest);
    } else {
      assert parts[1..] == rest[1..];
      if |rest| > 1 {
        assert Join(parts) == ([c] + rest[0]) + ("/" + Join(rest[1..]));
        assert [c] + Join(rest) == [c] + (rest[0] + ("/" + Join(rest[1..])));
      }
    }
  }

  /** Splitting undoes joining, and no component has a `/`. */
  lemma {:induction false} SplitInverse(k: string)
    ensures Join(Split(k)) == k && Components(Split(k))
  {
    hide Join, SplitStep;
    if k != [] {
      SplitInverse(k[1..]);
      StepInverse(k[0], Split(k[1..]));
      assert k == [k[0]] + k[1..];
    } else {
      JoinOne("");
      assert Components([""]);
    }
  }

  /** `strings.Contains(p, "**")`. */
  predicate ContainsTwoStar(p: string) {
    IndexTwoStar(p) < |p|
  }

  /** A pattern anchored at the root against the components of a path. */
  predicate MatchPrefix(p: seq<string>, s: seq<string>)
    decreases |p|
  {
    if p == [] || s == [] then |p| == |s|
    else if p[0] == "***" then true
    else if ContainsTwoStar(p[0]) then
      exists i :: 1 <= i <= |s| && MatchTwoStar(p[0], s[..i]) && MatchPrefix(p[1..], s[i..])
    else
      PathMatch(p[0], s[0]) && MatchPrefix(p[1..], s[1..])
  }

  /** A pattern that may start at any level of the path. */
  predicate MatchSuffix(p: seq<string>, s: seq<string>)
    decreases |p|
  {
    if p == [] then true
    else
      var last, front := p[|p| - 1], p[..|p| - 1];
      if s == [] then |p| == 1 && (last == "***" || last == "**")
      else if last == "***" then
        exists i :: 0 <= i < |s| && MatchSuffix(front, s[..i])
      else if ContainsTwoStar(last) then
        exists i :: 0 <= i < |s| && MatchTwoStar(last, s[i..]) && MatchSuffix(front, s[..i])
      else
        PathMatch(last, s[|s| - 1]) && MatchSuffix(front, s[..|s| - 1])
  }

  /** The test both rule loops apply to one rule: anchored patterns start with `/`. */
  predicate RuleMatches(rule: Rule, ps: seq<string>)
    requires ps != []
  {
    var p := Split(rule.pattern);
    if p[0] == "" then
      MatchPrefix(if ps[0] != "" then p[1..] else p, ps)
    else
      MatchSuffix(p, ps)
  }

  predicate MatchFullPath(rules: seq<Rule>, key: string) {
    FullPathFrom(rules, Split(key))
  }

  predicate FullPathFrom(rules: seq<Rule>, ps: seq<string>)
    requires ps != []
  {
    if rules == [] then true
    else if RuleMatches(rules[0], ps) then rules[0].admit
    else FullPathFrom(rules[1..], ps)
  }

  /** Every level of the path has to be let through. */
  predicate MatchLeveledPath(rules: seq<Rule>, key: string) {
    var parts := Split(key);
    forall i :: 0 <= i < |parts| && parts[i] != "" ==> LevelAdmits(rules, parts, i)
  }

  /** The first rule that matches the path up to level `i` decides; no match lets it through. */
  predicate LevelAdmits(rules: seq<Rule>, parts: seq<string>, i: nat)
    requires i < |parts|
  {
    if rules == [] then true
    else if RuleMatches(rules[0], LevelPath(rules[0], parts, i)) then rules[0].admit
    else LevelAdmits(rules[1..], parts, i)
  }

  /** The path down to level `i`; a pattern for directories sees the `/` behind an inner level. */
  function LevelPath(rule: Rule, parts: seq<string>, i: nat): (ps: seq<string>)
    requires i < |parts|
    ensures ps != []
  {
    var p := Split(rule.pattern);
    var last := p[|p| - 1];
    if i < |parts| - 1 && (last == "" || last == "***") then parts[..i + 1] + [""]
    else parts[..i + 1]
  }

  // ------------------------------------------------------------------ directories

  lemma SplitStepConcat(c: char, a: seq<string>, b: seq<string>)
    requires a != []
    ensures SplitStep(c, a + b) == SplitStep(c, a) + b
  {
    assert (a + b)[1..] == a[1..] + b;
  }

  lemma SplitCons(c: char, k: string)
    ensures Split([c] + k) == SplitStep(c, Split(k))
  {
    assert ([c] + k)[1..] == k;
  }

  lemma SplitLetter(c: char)
    requires c != '/'
    ensures Split([c]) == [[c]]
  {
    SplitCons(c, "");
    assert [c] + "" == [c];
  }

  /** Paths joined at a `/` have the components of both. */
  lemma {:induction false} SplitJoined(d: string, x: string)
    ensures Split(d + ("/" + x)) == Split(d) + Split(x)
  {
    if d == [] {
      SplitCons('/', x);
      assert d + ("/" + x) == ['/'] + x;
    } else {
      hide Split, SplitStep;
      var c, e := d[0], d[1..];
      SplitJoined(e, x);
      SplitCons(c, e);
      SplitCons(c, e + ("/" + x));
      SplitStepConcat(c, Split(e), Split(x));
      assert d + ("/" + x) == [c] + (e + ("/" + x)) && d == [c] + e;
    }
  }

  /** The levels of a directory `d/` are decided as the same levels of everything below it. */
  lemma {:induction false} SameLevel(rules: seq<Rule>, parts: seq<string>, parts': seq<string>, i: nat)
    requires i + 1 < |parts| && i + 1 < |parts'| && parts[..i + 1] == parts'[..i + 1]
    ensures LevelAdmits(rules, parts, i) == LevelAdmits(rules, parts', i)
  {
    if rules != [] {
      SameLevel(rules[1..], parts, parts', i);
    }
  }

  /** A directory that the rules exclude takes every key below it along. */
  lemma ExcludedDirectoryExcludesBelow(rules: seq<Rule>, dir: string, key: string)
    requires dir != [] && dir[|dir| - 1] == '/' && dir <= key
    requires MatchLeveledPath(rules, key)
    ensures MatchLeveledPath(rules, dir)
  {
    var d := dir[..|dir| - 1];
    var x := key[|dir|..];
    assert dir == d + ("/" + "") && key == d + ("/" + x);
    SplitJoined(d, "");
    SplitJoined(d, x);
    var parts, parts' := Split(dir), Split(key);
    forall i | 0 <= i < |parts| && parts[i] != "" ensures LevelAdmits(rules, parts, i) {
      assert parts == Split(d) + [""];
      assert i < |Split(d)|;
      assert parts[..i + 1] == parts'[..i + 1];
      SameLevel(rules, parts, parts', i);
    }
  }

  /** Whole-path matching has no such law: `a/` excludes the directory but not the file in it. */
  lemma FullPathKeepsBelowExcluded()
    ensures var rules := [Rule("a/", false)];
      && !MatchLeveledPath(rules, "a/")
      && MatchFullPath(rules, "a/b")
  {
    var rules := [Rule("a/", false)];
    SplitJoined("a", "");
    SplitJoined("a", "b");
    SplitLetter('a');
    SplitLetter('b');
    assert "a/" == "a" + ("/" + "") && "a/b" == "a" + ("/" + "b");
    assert Split("") == [""] && Split("a") == ["a"] && Split("a/") == ["a", ""];
    assert Split("b") == ["b"] && Split("a/b") == ["a", "b"];
    hide Split, SplitStep;
    var p := ["a", ""];
    assert p[..1] == ["a"] && p[..0] == [];
    assert !PathMatch("", "b");
    assert !MatchSuffix(p, ["a", "b"]);
    assert PathMatch("a", "a");
    assert MatchSuffix(["a"], ["a"]);
    assert MatchSuffix(p, ["a", ""]);
    assert LevelPath(rules[0], ["a", ""], 0) == ["a", ""];
    assert !LevelAdmits(rules, ["a", ""], 0);
  }
}

// A loaded rule set as a reader sees it, and the lookup without any cache.
module RuleLookup {
  import opened Common
  import opened RuleDoc

  // A compiled `name_regex` and the name of the rule it belongs to.
  datatype Matcher = Matcher(pattern: string, name: string)

  // A rule set: names to indices, the records they index, the patterns in load order.
  datatype RuleSet = RuleSet(programs: map<string, nat>, rules: seq<Rule>, matchers: seq<Matcher>)

  ghost predicate Indexed(programs: map<string, nat>, i: nat) {
    exists n :: n in programs && programs[n] == i
  }

  // The indices are a bijection between the names and the records.
  ghost predicate Bijective(programs: map<string, nat>, rules: seq<Rule>) {
    && (forall n :: n in programs ==> programs[n] < |rules|)
    && (forall n, m :: n in programs && m in programs && programs[n] == programs[m] ==> n == m)
    && (forall i :: 0 <= i < |rules| ==> Indexed(programs, i))
  }

  // Every index names a record.
  ghost predicate InRange(programs: map<string, nat>, rules: seq<Rule>) {
    forall n :: n in programs ==> programs[n] < |rules|
  }

  // Indices are 32 bits wide, so only this many records can be told apart.
  const MAX_INDEX: nat := 0x1_0000_0000

  // Every index and every pattern names a record; and as long as indices do not
  // wrap, the indices are a bijection.
  ghost predicate Sound(s: RuleSet) {
    && InRange(s.programs, s.rules)
    && (|s.rules| <= MAX_INDEX ==> Bijective(s.programs, s.rules))
    && forall i :: 0 <= i < |s.matchers| ==> s.matchers[i].name in s.programs
  }

  // The index of the first pattern that matches, in load order.
  function FirstMatch(matchers: seq<Matcher>, isMatch: (string, string) -> bool, target: string): (i: nat)
    ensures i <= |matchers|
    ensures i < |matchers| ==> isMatch(matchers[i].pattern, target)
    ensures forall k :: 0 <= k < i ==> !isMatch(matchers[k].pattern, target)
  {
    if matchers == [] || isMatch(matchers[0].pattern, target) then 0
    else 1 + FirstMatch(matchers[1..], isMatch, target)
  }

  // The rule the first matching pattern belongs to.
  function PatternOwner(matchers: seq<Matcher>, isMatch: (string, string) -> bool, target: string): Option<string> {
    var i := FirstMatch(matchers, isMatch, target);
    if i < |matchers| then Some(matchers[i].name) else None
  }

  // Exact name, else the first matching pattern.
  function BestMatch(s: RuleSet, isMatch: (string, string) -> bool, target: string): Option<string> {
    if target in s.programs then Some(target) else PatternOwner(s.matchers, isMatch, target)
  }

  lemma {:induction false} FirstMatchConcat(a: seq<Matcher>, b: seq<Matcher>, isMatch: (string, string) -> bool, target: string)
    ensures PatternOwner(a + b, isMatch, target) ==
      if PatternOwner(a, isMatch, target).Some? then PatternOwner(a, isMatch, target) else PatternOwner(b, isMatch, target)
  {
    if a == [] {
      assert a + b == b;
    } else {
      FirstMatchConcat(a[1..], b, isMatch, target);
      assert (a + b)[0] == a[0] && (a + b)[1..] == a[1..] + b;
    }
  }

  function Resolve(s: RuleSet, name: Option<string>): Option<(string, Rule)> {
    if name.Some? && name.value in s.programs && s.programs[name.value] < |s.rules|
    then Some((name.value, s.rules[s.programs[name.value]]))
    else None
  }

  // The answer a lookup owes its caller.
  function Answer(s: RuleSet, isMatch: (string, string) -> bool, target: string): Option<(string, Rule)> {
    Resolve(s, BestMatch(s, isMatch, target))
  }

  // The scan as coded, which skips a pattern whose rule is not stored.
  method FindBestMatch(s: RuleSet, isMatch: (string, string) -> bool, target: string) returns (r: Option<string>)
    requires Sound(s)
    ensures r == BestMatch(s, isMatch, target)
    ensures r.Some? ==> r.value in s.programs
  {
    if target in s.programs {
      return Some(target);
    }
    var i := 0;
    while i < |s.matchers|
      invariant 0 <= i <= |s.matchers|
      invariant forall k :: 0 <= k < i ==> !isMatch(s.matchers[k].pattern, target)
    {
      if isMatch(s.matchers[i].pattern, target) && s.matchers[i].name in s.programs {
        return Some(s.matchers[i].name);
      }
      i := i + 1;
    }
    return None;
  }

  // ---- Storing one definition ----

  // Overwrites in place, or reserves a slot and indexes it with `(len - 1) as u32`.
  function Define(programs: map<string, nat>, rules: seq<Rule>, name: string, rule: Rule, empty: Rule)
    : (map<string, nat>, seq<Rule>)
  {
    var rules' := if name in programs then rules else rules + [empty];
    var index := if name in programs then programs[name] else |rules| % MAX_INDEX;
    (programs[name := index], if index < |rules'| then rules'[index := rule] else rules')
  }

  // A definition keeps the bijection exactly while the index fits in 32 bits.
  lemma DefineKeepsBijection(programs: map<string, nat>, rules: seq<Rule>, name: string, rule: Rule, empty: Rule)
    requires Bijective(programs, rules)
    ensures var (p, r) := Define(programs, rules, name, rule, empty);
      && (Bijective(p, r) <==> name in programs || |rules| < MAX_INDEX)
      && (Bijective(p, r) ==>
            && p.Keys == programs.Keys + {name}
            && r[p[name]] == rule
            && forall n :: n in programs && n != name ==> r[p[n]] == rules[programs[n]])
  {
    if name in programs {
      assert Define(programs, rules, name, rule, empty).0 == programs;
    } else if |rules| < MAX_INDEX {
      NewIndex(programs, rules, name, rule, empty);
    } else {
      WrappedIndex(programs, rules, name, rule, empty);
    }
  }

  lemma NewIndex(programs: map<string, nat>, rules: seq<Rule>, name: string, rule: Rule, empty: Rule)
    requires Bijective(programs, rules) && name !in programs && |rules| < MAX_INDEX
    ensures Bijective(Define(programs, rules, name, rule, empty).0, Define(programs, rules, name, rule, empty).1)
  {
    var (p, r) := Define(programs, rules, name, rule, empty);
    forall i | 0 <= i < |r| ensures Indexed(p, i) {
      if i < |rules| {
        assert Indexed(programs, i);
        var n :| n in programs && programs[n] == i;
        assert n in p && p[n] == i;
      } else {
        assert p[name] == i;
      }
    }
  }

  // The first index past 32 bits is one that is taken.
  lemma WrappedIndex(programs: map<string, nat>, rules: seq<Rule>, name: string, rule: Rule, empty: Rule)
    requires Bijective(programs, rules) && name !in programs && |rules| >= MAX_INDEX
    ensures !Bijective(Define(programs, rules, name, rule, empty).0, Define(programs, rules, name, rule, empty).1)
  {
    var (p, r) := Define(programs, rules, name, rule, empty);
    var index := |rules| % MAX_INDEX;
    assert Indexed(programs, index);
    var n :| n in programs && programs[n] == index;
    assert p[n] == p[name] == index;
  }

  // ---- Anything computed record by record ----

  function MapRules<V>(programs: map<string, nat>, rules: seq<Rule>, f: Rule -> V): map<string, V>
    requires forall n :: n in programs ==> programs[n] < |rules|
  {
    map n | n in programs :: f(rules[programs[n]])
  }

  ghost predicate AllRules(rules: seq<Rule>, p: Rule -> bool) {
    forall i :: 0 <= i < |rules| ==> p(rules[i])
  }

  lemma UpdatedMap<V>(programs: map<string, nat>, rules: seq<Rule>, programs': map<string, nat>, rules': seq<Rule>,
                      name: string, rule: Rule, f: Rule -> V)
    requires forall n :: n in programs ==> programs[n] < |rules|
    requires forall n :: n in programs' ==> programs'[n] < |rules'|
    requires programs'.Keys == programs.Keys + {name} && rules'[programs'[name]] == rule
    requires forall n :: n in programs && n != name ==> rules'[programs'[n]] == rules[programs[n]]
    ensures MapRules(programs', rules', f) == MapRules(programs, rules, f)[name := f(rule)]
  {
  }

  // What a definition keeps in any case, wrapped index or not.
  lemma DefinedRules(programs: map<string, nat>, rules: seq<Rule>, name: string, rule: Rule, empty: Rule, p: Rule -> bool)
    requires InRange(programs, rules) && AllRules(rules, p) && p(rule) && p(empty)
    ensures var d := Define(programs, rules, name, rule, empty);
      && InRange(d.0, d.1) && AllRules(d.1, p) && d.0.Keys == programs.Keys + {name}
      && |d.1| == |rules| + if name in programs then 0 else 1
  {
  }

  // Storing one definition updates whatever is computed under that one name.
  lemma DefineMaps<V>(programs: map<string, nat>, rules: seq<Rule>, name: string, rule: Rule, empty: Rule, f: Rule -> V)
    requires Bijective(programs, rules)
    requires name in programs || |rules| < MAX_INDEX
    ensures var d := Define(programs, rules, name, rule, empty);
      && Bijective(d.0, d.1)
      && d.0.Keys == programs.Keys + {name}
      && MapRules(d.0, d.1, f) == MapRules(programs, rules, f)[name := f(rule)]
  {
    DefineKeepsBijection(programs, rules, name, rule, empty);
    var d := Define(programs, rules, name, rule, empty);
    UpdatedMap(programs, rules, d.0, d.1, name, rule, f);
  }

  lemma SameMaps<V>(programs: map<string, nat>, rules: seq<Rule>, f: Rule -> V, g: Rule -> V)
    requires forall n :: n in programs ==> programs[n] < |rules|
    requires forall i :: 0 <= i < |rules| ==> f(rules[i]) == g(rules[i])
    ensures MapRules(programs, rules, f) == MapRules(programs, rules, g)
  {
  }
}

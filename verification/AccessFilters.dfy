/**
 The filters of the access control list: which methods of which plugins a role may call, compiled
 from the configured patterns, and the decisions they give.
 */
module AccessFilters {
  import opened GlobPatterns
  import opened PatternTokens
  import opened RegexMatching
  import opened Replacement

  // ----- std::map order -----

  /** The lexicographic order of std::string. */
  predicate Less(a: string, b: string) {
    if b == "" then false
    else if a == "" then true
    else a[0] < b[0] || (a[0] == b[0] && Less(a[1..], b[1..]))
  }

  lemma {:induction false} LessTransitive(a: string, b: string, c: string)
    requires Less(a, b) && Less(b, c)
    ensures Less(a, c)
    decreases |a|
  {
    if a != "" && a[0] == b[0] == c[0] {
      LessTransitive(a[1..], b[1..], c[1..]);
    }
  }

  lemma {:induction false} LessTotal(a: string, b: string)
    ensures Less(a, b) || a == b || Less(b, a)
    decreases |a|
  {
    if a != "" && b != "" && a[0] == b[0] {
      LessTotal(a[1..], b[1..]);
      if a[1..] == b[1..] {
        assert a == [a[0]] + a[1..] && b == [b[0]] + b[1..];
      }
    }
  }

  lemma {:induction false} LessAsymmetric(a: string, b: string)
    requires Less(a, b)
    ensures !Less(b, a)
    decreases |a|
  {
    if a != "" && a[0] == b[0] { LessAsymmetric(a[1..], b[1..]); }
  }

  lemma {:induction false} LessIrreflexive(a: string)
    ensures !Less(a, a)
    decreases |a|
  {
    if a != "" { LessIrreflexive(a[1..]); }
  }

  // ----- Plugins -----

  /** The configured rules of one plugin pattern. */
  datatype Rules = Rules(blocked: bool, methods: seq<string>)

  /** The same with the method patterns compiled. */
  datatype Plugin = Plugin(defaultBlocked: bool, methods: seq<string>)

  function Compiled(rules: Rules): (p: Plugin)
    ensures p.defaultBlocked == rules.blocked && |p.methods| == |rules.methods|
    ensures forall i :: 0 <= i < |rules.methods| ==> p.methods[i] == GlobRegex(rules.methods[i])
  {
    Plugin(rules.blocked, seq(|rules.methods|, i requires 0 <= i < |rules.methods| => GlobRegex(rules.methods[i])))
  }

  method NewPlugin(rules: Rules) returns (p: Plugin)
    ensures p == Compiled(rules)
  {
    var methods: seq<string> := [];
    for i := 0 to |rules.methods|
      invariant |methods| == i
      invariant forall k :: 0 <= k < i ==> methods[k] == GlobRegex(rules.methods[k])
    {
      var regex := CreateRegex(rules.methods[i]);
      methods := methods + [regex];
    }
    p := Plugin(rules.blocked, methods);
    assert p.methods == Compiled(rules).methods;
  }

  predicate MatchesAny(regexes: seq<string>, s: string) {
    exists i :: 0 <= i < |regexes| && FullMatch(regexes[i], s)
  }

  predicate Grants(p: Plugin, methodName: string) {
    p.defaultBlocked == MatchesAny(p.methods, methodName)
  }

  /** Plugin::Allowed: the list is walked up to the first expression that matches. */
  method PluginAllowed(p: Plugin, methodName: string) returns (allowed: bool)
    ensures allowed == Grants(p, methodName)
  {
    var found := false;
    var index := 0;
    while index != |p.methods| && !found
      invariant 0 <= index <= |p.methods|
      invariant forall k :: 0 <= k < index ==> !FullMatch(p.methods[k], methodName)
      invariant found ==> index < |p.methods| && FullMatch(p.methods[index], methodName)
      decreases |p.methods| - index, !found
    {
      found := FullMatch(p.methods[index], methodName);
      if !found { index := index + 1; }
    }
    allowed := !(p.defaultBlocked != found);
  }

  // ----- Filters -----

  /** The plugins by compiled callsign pattern, in map order. */
  datatype Filter = Filter(defaultBlocked: bool, plugins: seq<(string, Plugin)>)

  ghost predicate Ordered(plugins: seq<(string, Plugin)>) {
    forall i, j :: 0 <= i < j < |plugins| ==> Less(plugins[i].0, plugins[j].0)
  }

  /** std::map::emplace: a key that is there already keeps its value. */
  function Emplaced(plugins: seq<(string, Plugin)>, key: string, value: Plugin): seq<(string, Plugin)> {
    if plugins == [] then [(key, value)]
    else if key == plugins[0].0 then plugins
    else if Less(key, plugins[0].0) then [(key, value)] + plugins
    else [plugins[0]] + Emplaced(plugins[1..], key, value)
  }

  ghost predicate Holds(plugins: seq<(string, Plugin)>, key: string) {
    exists v :: (key, v) in plugins
  }

  lemma OrderedTail(plugins: seq<(string, Plugin)>)
    requires plugins != [] && Ordered(plugins)
    ensures Ordered(plugins[1..])
    ensures forall e :: e in plugins[1..] ==> Less(plugins[0].0, e.0)
  {
  }

  lemma InHeadOrTail(plugins: seq<(string, Plugin)>, e: (string, Plugin))
    requires plugins != []
    ensures e in plugins <==> e == plugins[0] || e in plugins[1..]
  {
  }

  lemma AbsentBelow(plugins: seq<(string, Plugin)>, key: string)
    requires plugins != [] && Ordered(plugins) && Less(key, plugins[0].0)
    ensures !Holds(plugins, key)
  {
    if v :| (key, v) in plugins {
      OrderedTail(plugins);
      InHeadOrTail(plugins, (key, v));
      LessIrreflexive(key);
      if key != plugins[0].0 { LessTransitive(key, plugins[0].0, key); }
    }
  }

  lemma {:induction false} EmplacedContents(plugins: seq<(string, Plugin)>, key: string, value: Plugin,
      e: (string, Plugin))
    requires Ordered(plugins)
    ensures e in Emplaced(plugins, key, value) <==> e in plugins || (e == (key, value) && !Holds(plugins, key))
  {
    if plugins != [] {
      if key == plugins[0].0 {
        assert (key, plugins[0].1) in plugins;
      } else if Less(key, plugins[0].0) {
        AbsentBelow(plugins, key);
      } else {
        OrderedTail(plugins);
        EmplacedContents(plugins[1..], key, value, e);
        InHeadOrTail(plugins, e);
        HoldsInTail(plugins, key);
      }
    }
  }

  lemma HoldsInTail(plugins: seq<(string, Plugin)>, key: string)
    requires plugins != [] && key != plugins[0].0
    ensures Holds(plugins, key) <==> Holds(plugins[1..], key)
  {
    forall v ensures (key, v) in plugins <==> (key, v) in plugins[1..] {
      InHeadOrTail(plugins, (key, v));
    }
  }

  lemma OrderedCons(head: (string, Plugin), tail: seq<(string, Plugin)>)
    requires Ordered(tail) && forall e :: e in tail ==> Less(head.0, e.0)
    ensures Ordered([head] + tail)
  {
  }

  lemma {:induction false} EmplacedOrdered(plugins: seq<(string, Plugin)>, key: string, value: Plugin)
    requires Ordered(plugins)
    ensures Ordered(Emplaced(plugins, key, value))
  {
    if plugins != [] && key != plugins[0].0 {
      OrderedTail(plugins);
      if Less(key, plugins[0].0) {
        forall e | e in plugins ensures Less(key, e.0) {
          InHeadOrTail(plugins, e);
          if e != plugins[0] { LessTransitive(key, plugins[0].0, e.0); }
        }
        OrderedCons((key, value), plugins);
      } else {
        var rest := Emplaced(plugins[1..], key, value);
        LessTotal(key, plugins[0].0);
        EmplacedOrdered(plugins[1..], key, value);
        forall e | e in rest ensures Less(plugins[0].0, e.0) {
          EmplacedContents(plugins[1..], key, value, e);
        }
        OrderedCons(plugins[0], rest);
      }
    }
  }

  /** The plugins of the first n configured patterns. */
  function Plugins(entries: seq<(string, Rules)>, n: nat): seq<(string, Plugin)>
    requires n <= |entries|
  {
    if n == 0 then []
    else Emplaced(Plugins(entries, n - 1), GlobRegex(entries[n - 1].0), Compiled(entries[n - 1].1))
  }

  /** What is configured for a role: the default, and the rules of its plugin patterns. */
  datatype Rights = Rights(blocked: bool, entries: seq<(string, Rules)>)

  function FilterOf(rights: Rights): Filter {
    Filter(rights.blocked, Plugins(rights.entries, |rights.entries|))
  }

  method NewFilter(rights: Rights) returns (f: Filter)
    ensures f == FilterOf(rights)
  {
    var plugins: seq<(string, Plugin)> := [];
    for i := 0 to |rights.entries|
      invariant plugins == Plugins(rights.entries, i)
    {
      var regex := CreateRegex(rights.entries[i].0);
      var plugin := NewPlugin(rights.entries[i].1);
      plugins := Emplaced(plugins, regex, plugin);
    }
    f := Filter(rights.blocked, plugins);
  }

  /** What the first plugin whose expression matches grants, or the default. */
  predicate FilterGrants(plugins: seq<(string, Plugin)>, defaultBlocked: bool, callsign: string, methodName: string) {
    if plugins == [] then !defaultBlocked
    else if FullMatch(plugins[0].0, callsign) then Grants(plugins[0].1, methodName)
    else FilterGrants(plugins[1..], defaultBlocked, callsign, methodName)
  }

  method FilterAllowed(f: Filter, callsign: string, methodName: string) returns (allowed: bool)
    ensures allowed == FilterGrants(f.plugins, f.defaultBlocked, callsign, methodName)
  {
    var pluginFound := false;
    var index := 0;
    while index != |f.plugins| && !pluginFound
      invariant 0 <= index <= |f.plugins|
      invariant FilterGrants(f.plugins[index..], f.defaultBlocked, callsign, methodName)
             == FilterGrants(f.plugins, f.defaultBlocked, callsign, methodName)
      invariant pluginFound ==> index < |f.plugins| && FullMatch(f.plugins[index].0, callsign)
      decreases |f.plugins| - index, !pluginFound
    {
      pluginFound := FullMatch(f.plugins[index].0, callsign);
      if !pluginFound {
        assert f.plugins[index..][1..] == f.plugins[index + 1..];
        index := index + 1;
      }
    }
    if !pluginFound {
      allowed := !f.defaultBlocked;
    } else {
      allowed := PluginAllowed(f.plugins[index].1, methodName);
    }
  }

  // ----- The decision, in terms of the configured patterns -----

  /** The first of the patterns that are compiled to the same expression. */
  predicate FirstOfItsKind(entries: seq<(string, Rules)>, i: nat) {
    i < |entries| && forall j :: 0 <= j < i ==> GlobRegex(entries[j].0) != GlobRegex(entries[i].0)
  }

  function Entry(entries: seq<(string, Rules)>, i: nat): (string, Plugin)
    requires i < |entries|
  {
    (GlobRegex(entries[i].0), Compiled(entries[i].1))
  }

  lemma {:induction false} PluginsOrdered(entries: seq<(string, Rules)>, n: nat)
    requires n <= |entries|
    ensures Ordered(Plugins(entries, n))
  {
    if n > 0 {
      PluginsOrdered(entries, n - 1);
      EmplacedOrdered(Plugins(entries, n - 1), GlobRegex(entries[n - 1].0), Compiled(entries[n - 1].1));
    }
  }

  predicate IsEntry(entries: seq<(string, Rules)>, i: nat, e: (string, Plugin)) {
    FirstOfItsKind(entries, i) && e == Entry(entries, i)
  }

  lemma {:induction false} KindHasFirst(entries: seq<(string, Rules)>, j: nat) returns (i: nat)
    requires j < |entries|
    ensures i <= j && FirstOfItsKind(entries, i) && GlobRegex(entries[i].0) == GlobRegex(entries[j].0)
  {
    if k: nat :| k < j && GlobRegex(entries[k].0) == GlobRegex(entries[j].0) {
      i := KindHasFirst(entries, k);
    } else {
      i := j;
    }
  }

  /** What the plugins of the first n entries are: each kind once, under the rules of its first entry. */
  ghost predicate HoldsFirsts(entries: seq<(string, Rules)>, n: nat, plugins: seq<(string, Plugin)>) {
    forall e :: e in plugins <==> exists i: nat :: i < n && IsEntry(entries, i, e)
  }

  lemma HeldBefore(entries: seq<(string, Rules)>, n: nat, plugins: seq<(string, Plugin)>)
    requires n < |entries| && HoldsFirsts(entries, n, plugins)
    ensures Holds(plugins, GlobRegex(entries[n].0)) <==> !FirstOfItsKind(entries, n)
  {
    var key := GlobRegex(entries[n].0);
    if v :| (key, v) in plugins {
      var i: nat :| i < n && IsEntry(entries, i, (key, v));
    }
    if !FirstOfItsKind(entries, n) {
      var j :| 0 <= j < n && GlobRegex(entries[j].0) == key;
      var i := KindHasFirst(entries, j);
      assert IsEntry(entries, i, Entry(entries, i));
      assert (key, Entry(entries, i).1) in plugins;
    }
  }

  lemma {:induction false} PluginsContents(entries: seq<(string, Rules)>, n: nat)
    requires n <= |entries|
    ensures HoldsFirsts(entries, n, Plugins(entries, n))
  {
    if n > 0 {
      var before := Plugins(entries, n - 1);
      PluginsContents(entries, n - 1);
      PluginsOrdered(entries, n - 1);
      HeldBefore(entries, n - 1, before);
      forall e ensures e in Plugins(entries, n) <==> exists i: nat :: i < n && IsEntry(entries, i, e) {
        EntryAdded(entries, n - 1, before, e);
      }
    }
  }

  lemma EntryAdded(entries: seq<(string, Rules)>, n: nat, before: seq<(string, Plugin)>, e: (string, Plugin))
    requires n < |entries| && Ordered(before) && HoldsFirsts(entries, n, before)
    requires Holds(before, GlobRegex(entries[n].0)) <==> !FirstOfItsKind(entries, n)
    ensures e in Emplaced(before, GlobRegex(entries[n].0), Compiled(entries[n].1))
       <==> exists i: nat :: i < n + 1 && IsEntry(entries, i, e)
  {
    EmplacedContents(before, GlobRegex(entries[n].0), Compiled(entries[n].1), e);
    EntriesBefore(entries, n, e);
  }

  lemma EntriesBefore(entries: seq<(string, Rules)>, n: nat, e: (string, Plugin))
    ensures (exists i: nat :: i < n + 1 && IsEntry(entries, i, e))
       <==> (exists i: nat :: i < n && IsEntry(entries, i, e)) || IsEntry(entries, n, e)
  {
  }

  /** The entry that decides: it matches, and no matching entry is compiled to a lesser expression. */
  ghost predicate Decides(entries: seq<(string, Rules)>, callsign: string, i: nat) {
    && FirstOfItsKind(entries, i) && GlobMatch(entries[i].0, callsign)
    && forall j :: 0 <= j < |entries| && GlobMatch(entries[j].0, callsign)
         ==> !Less(GlobRegex(entries[j].0), GlobRegex(entries[i].0))
  }

  lemma OneDecides(entries: seq<(string, Rules)>, callsign: string, i: nat, j: nat)
    requires Decides(entries, callsign, i) && Decides(entries, callsign, j)
    ensures i == j
  {
    LessTotal(GlobRegex(entries[i].0), GlobRegex(entries[j].0));
  }

  /** The first plugin in map order whose expression matches, if any does. */
  lemma {:induction false} FirstInOrder(plugins: seq<(string, Plugin)>, blocked: bool,
      callsign: string, methodName: string)
      returns (none: bool, e: (string, Plugin))
    requires Ordered(plugins)
    ensures none <==> forall x :: x in plugins ==> !FullMatch(x.0, callsign)
    ensures none ==> FilterGrants(plugins, blocked, callsign, methodName) == !blocked
    ensures !none ==> e in plugins && FullMatch(e.0, callsign)
    ensures !none ==> FilterGrants(plugins, blocked, callsign, methodName) == Grants(e.1, methodName)
    ensures !none ==> forall x :: x in plugins && FullMatch(x.0, callsign) ==> !Less(x.0, e.0)
  {
    none, e := true, ("", Plugin(true, []));
    if plugins != [] {
      var head := plugins[0];
      assert head in plugins;
      OrderedTail(plugins);
      if FullMatch(head.0, callsign) {
        none, e := false, head;
        forall x | x in plugins ensures !Less(x.0, e.0) {
          NotBelowHead(plugins, x);
        }
      } else {
        none, e := FirstInOrder(plugins[1..], blocked, callsign, methodName);
        assert forall x :: x in plugins <==> x == head || x in plugins[1..];
      }
    }
  }

  lemma NotBelowHead(plugins: seq<(string, Plugin)>, x: (string, Plugin))
    requires Ordered(plugins) && x in plugins
    ensures !Less(x.0, plugins[0].0)
  {
    if x == plugins[0] {
      LessIrreflexive(x.0);
    } else {
      OrderedTail(plugins);
      InHeadOrTail(plugins, x);
      LessAsymmetric(plugins[0].0, x.0);
    }
  }

  ghost predicate MethodsAreGlobs(rules: Rules) {
    forall k :: 0 <= k < |rules.methods| ==> Over(GlobCharacter, rules.methods[k])
  }

  ghost predicate AllGlobs(entries: seq<(string, Rules)>) {
    forall i :: 0 <= i < |entries| ==> Over(GlobCharacter, entries[i].0) && MethodsAreGlobs(entries[i].1)
  }

  /** Blocked plugins allow what their method patterns list, the others all else. */
  ghost predicate RulesAllow(rules: Rules, methodName: string) {
    rules.blocked <==> exists k :: 0 <= k < |rules.methods| && GlobMatch(rules.methods[k], methodName)
  }

  lemma RulesGrant(rules: Rules, methodName: string)
    requires MethodsAreGlobs(rules)
    ensures Grants(Compiled(rules), methodName) <==> RulesAllow(rules, methodName)
  {
    forall k | 0 <= k < |rules.methods|
      ensures FullMatch(Compiled(rules).methods[k], methodName) <==> GlobMatch(rules.methods[k], methodName)
    {
      CompiledGlobDenotes(rules.methods[k], methodName);
    }
  }

  /** A filter decides by the rules of the deciding entry, or by its default when no pattern matches. */
  lemma FilterDecides(blocked: bool, entries: seq<(string, Rules)>, callsign: string, methodName: string)
    requires AllGlobs(entries)
    ensures (forall i :: 0 <= i < |entries| ==> !GlobMatch(entries[i].0, callsign))
        ==> (FilterGrants(Plugins(entries, |entries|), blocked, callsign, methodName) <==> !blocked)
    ensures (exists i :: 0 <= i < |entries| && GlobMatch(entries[i].0, callsign))
        ==> exists i: nat :: Decides(entries, callsign, i)
              && FilterGrants(Plugins(entries, |entries|), blocked, callsign, methodName)
                 == RulesAllow(entries[i].1, methodName)
  {
    var plugins := Plugins(entries, |entries|);
    PluginsOrdered(entries, |entries|);
    PluginsContents(entries, |entries|);
    var none, e := FirstInOrder(plugins, blocked, callsign, methodName);
    MatchesAgree(entries, plugins, callsign);
    if !none {
      var i: nat :| i < |entries| && IsEntry(entries, i, e);
      CompiledGlobDenotes(entries[i].0, callsign);
      RulesGrant(entries[i].1, methodName);
      assert Decides(entries, callsign, i);
    }
  }

  /** Of the entries that match the rules of the deciding one are followed, and the default without one. */
  ghost predicate RightsAllow(rights: Rights, callsign: string, methodName: string) {
    if exists i :: 0 <= i < |rights.entries| && GlobMatch(rights.entries[i].0, callsign) then
      exists i: nat :: Decides(rights.entries, callsign, i) && RulesAllow(rights.entries[i].1, methodName)
    else !rights.blocked
  }

  /** The filter of a role grants what its rights allow. */
  lemma FilterAllowsRights(rights: Rights, callsign: string, methodName: string)
    requires AllGlobs(rights.entries)
    ensures FilterGrants(FilterOf(rights).plugins, FilterOf(rights).defaultBlocked, callsign, methodName)
       <==> RightsAllow(rights, callsign, methodName)
  {
    FilterDecides(rights.blocked, rights.entries, callsign, methodName);
    if exists i :: 0 <= i < |rights.entries| && GlobMatch(rights.entries[i].0, callsign) {
      var i: nat :| Decides(rights.entries, callsign, i)
                    && FilterGrants(Plugins(rights.entries, |rights.entries|), rights.blocked, callsign, methodName)
                       == RulesAllow(rights.entries[i].1, methodName);
      forall j: nat | Decides(rights.entries, callsign, j) ensures j == i {
        OneDecides(rights.entries, callsign, i, j);
      }
    }
  }

  /** An entry matches just when the plugin under its expression does. */
  lemma MatchesAgree(entries: seq<(string, Rules)>, plugins: seq<(string, Plugin)>, callsign: string)
    requires AllGlobs(entries) && HoldsFirsts(entries, |entries|, plugins)
    ensures forall j ::
      (0 <= j < |entries| && GlobMatch(entries[j].0, callsign)
       ==> exists x :: x in plugins && x.0 == GlobRegex(entries[j].0) && FullMatch(x.0, callsign))
    ensures forall x ::
      (x in plugins && FullMatch(x.0, callsign)
       ==> exists j :: 0 <= j < |entries| && GlobMatch(entries[j].0, callsign))
  {
    forall j | 0 <= j < |entries| && GlobMatch(entries[j].0, callsign)
      ensures exists x :: x in plugins && x.0 == GlobRegex(entries[j].0) && FullMatch(x.0, callsign)
    {
      CompiledGlobDenotes(entries[j].0, callsign);
      var i := KindHasFirst(entries, j);
      assert IsEntry(entries, i, Entry(entries, i));
      assert Entry(entries, i) in plugins;
    }
    forall x | x in plugins && FullMatch(x.0, callsign)
      ensures exists j :: 0 <= j < |entries| && GlobMatch(entries[j].0, callsign)
    {
      var i: nat :| i < |entries| && IsEntry(entries, i, x);
      CompiledGlobDenotes(entries[i].0, callsign);
    }
  }

  /** The patterns whose expression comes after that of a bare star, which begins with a bracket. */
  predicate AfterStar(p: string) {
    p != "" && p != "*" && (p[0] == '*' || p[0] == '.' || p[0] > '[')
  }

  /** Every other pattern that denotes the callsign is one of those. */
  ghost predicate NoneBeforeStar(entries: seq<(string, Rules)>, callsign: string) {
    forall j :: 0 <= j < |entries| && GlobMatch(entries[j].0, callsign) ==>
      entries[j].0 == "*" || AfterStar(entries[j].0)
  }

  lemma {:induction false} LessExtended(a: string, b: string)
    requires b != ""
    ensures Less(a, a + b)
    decreases |a|
  {
    if a != "" {
      assert (a + b)[1..] == a[1..] + b;
      LessExtended(a[1..], b);
    }
  }

  lemma StarText()
    ensures GlobRegex("*") == ESCAPED_RUN && ESCAPED_RUN[0] == '['
  {
    GlobOnePass("*");
    assert "*"[1..] == "" && ESCAPED_RUN + "" == ESCAPED_RUN;
  }

  lemma PassNotEmpty(p: string, afterColon: bool)
    requires p != ""
    ensures Pass(p, afterColon, GlobPiece) != ""
  {
  }

  lemma GlobStarts(p: string)
    requires p != "" && p[0] != '*'
    ensures GlobRegex(p) != "" && GlobRegex(p)[0] == if p[0] == '.' then '\\' else p[0]
  {
    GlobOnePass(p);
  }

  lemma StarThenMore(p: string)
    requires p != "" && p[0] == '*' && p != "*"
    ensures Less(GlobRegex("*"), GlobRegex(p))
  {
    StarText();
    GlobOnePass(p);
    assert p[1..] != "" by { assert p == "*" + p[1..]; }
    PassNotEmpty(p[1..], false);
    LessExtended(ESCAPED_RUN, Pass(p[1..], false, GlobPiece));
  }

  /** The order is that of the expressions, not of the patterns. */
  lemma StarOrder(p: string)
    requires Over(GlobCharacter, p) && p != "*"
    ensures if AfterStar(p) then Less(GlobRegex("*"), GlobRegex(p)) else Less(GlobRegex(p), GlobRegex("*"))
  {
    StarText();
    if p == "" {
      GlobOnePass("");
    } else if p[0] == '*' {
      StarThenMore(p);
    } else {
      GlobStarts(p);
      assert GlobCharacter(p[0]);
    }
  }

  lemma StarDenotes(callsign: string)
    requires IsRun(callsign)
    ensures GlobMatch("*", callsign)
  {
    assert callsign[..|callsign|] == callsign;
    assert RunThen("", callsign, |callsign|);
    assert "*"[1..] == "";
  }

  /**
   A bare star decides exactly when every other pattern that denotes the callsign comes after it:
   so it wins over lowercase initials, and uppercase ones and digits win over it.
   */
  lemma StarDecidesExactly(entries: seq<(string, Rules)>, callsign: string, star: nat)
    requires AllGlobs(entries) && IsRun(callsign)
    requires star < |entries| && entries[star].0 == "*" && forall j :: 0 <= j < star ==> entries[j].0 != "*"
    ensures Decides(entries, callsign, star) <==> NoneBeforeStar(entries, callsign)
  {
    StarDenotes(callsign);
    forall j | 0 <= j < |entries|
      ensures Less(GlobRegex(entries[j].0), GlobRegex("*")) <==> entries[j].0 != "*" && !AfterStar(entries[j].0)
      ensures GlobRegex(entries[j].0) == GlobRegex("*") <==> entries[j].0 == "*"
    {
      StarPlace(entries[j].0);
    }
  }

  lemma StarPlace(p: string)
    requires Over(GlobCharacter, p)
    ensures Less(GlobRegex(p), GlobRegex("*")) <==> p != "*" && !AfterStar(p)
    ensures GlobRegex(p) == GlobRegex("*") <==> p == "*"
  {
    LessIrreflexive(GlobRegex("*"));
    if p != "*" {
      StarOrder(p);
      if AfterStar(p) { LessAsymmetric(GlobRegex("*"), GlobRegex(p)); }
    }
  }
}

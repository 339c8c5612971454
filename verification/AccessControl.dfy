/**
 Who may call what: the roles and groups of the access control list, how they are loaded, and the
 decision for a caller.
 */
module AccessControl {
  import opened AccessFilters
  import opened Common
  import opened PatternTokens
  import opened RegexMatching
  import opened UrlPatterns
  import UrlOrigin

  // ----- The first pattern that is found -----

  /** The compiled origin patterns in the order of assignment, each with the role it gives. */
  function FirstFound(urls: seq<(string, string)>, origin: string): nat {
    if urls == [] then 0
    else if Search(urls[0].0, origin) then 0
    else 1 + FirstFound(urls[1..], origin)
  }

  lemma {:induction false} FirstFoundIsFirst(urls: seq<(string, string)>, origin: string)
    ensures FirstFound(urls, origin) <= |urls|
    ensures FirstFound(urls, origin) < |urls| ==> Search(urls[FirstFound(urls, origin)].0, origin)
    ensures forall i :: 0 <= i < FirstFound(urls, origin) ==> !Search(urls[i].0, origin)
  {
    if urls != [] && !Search(urls[0].0, origin) {
      FirstFoundIsFirst(urls[1..], origin);
      forall i | 0 <= i < FirstFound(urls, origin) ensures !Search(urls[i].0, origin) {
        if i > 0 { assert urls[i] == urls[1..][i - 1]; }
      }
    }
  }

  predicate UrlPatternsOnly(patterns: seq<(string, string)>) {
    forall i :: 0 <= i < |patterns| ==> Over(UrlCharacter, patterns[i].0)
  }

  ghost predicate FirstDenoting(patterns: seq<(string, string)>, origin: string, i: nat) {
    && i < |patterns| && UrlMatch(patterns[i].0, false, origin)
    && forall j :: 0 <= j < i ==> !UrlMatch(patterns[j].0, false, origin)
  }

  lemma FoundDenotes(urls: seq<(string, string)>, patterns: seq<(string, string)>, origin: string)
    requires |urls| == |patterns|
    requires forall i :: 0 <= i < |urls| ==> (Search(urls[i].0, origin) <==> UrlMatch(patterns[i].0, false, origin))
    ensures forall i: nat :: FirstDenoting(patterns, origin, i) <==> i == FirstFound(urls, origin) < |urls|
  {
    FirstFoundIsFirst(urls, origin);
  }

  predicate Granted(f: Filter, callsign: string, methodName: string) {
    FilterGrants(f.plugins, f.defaultBlocked, callsign, methodName)
  }

  // ----- The configuration -----

  datatype Role = Role(name: string, rights: Rights)

  /** An origin pattern and the role that it assigns. */
  datatype Group = Group(url: string, role: string)

  function Names(roles: seq<Role>): seq<string> {
    seq(|roles|, i requires 0 <= i < |roles| => roles[i].name)
  }

  lemma NamesNext(roles: seq<Role>, i: nat)
    requires i < |roles|
    ensures Names(roles)[..i + 1] == Names(roles)[..i] + [roles[i].name]
  {
  }

  function Filters(roles: seq<Role>): seq<(string, Filter)> {
    seq(|roles|, i requires 0 <= i < |roles| => (roles[i].name, FilterOf(roles[i].rights)))
  }

  /** The map after the first n named values; a name that is there keeps its value. */
  function AllEmplaced<F>(values: map<string, F>, named: seq<(string, F)>, n: nat): map<string, F>
    requires n <= |named|
  {
    if n == 0 then values
    else
      var before, e := AllEmplaced(values, named, n - 1), named[n - 1];
      if e.0 in before then before else before[e.0 := e.1]
  }

  /** The groups with their patterns compiled. */
  function Pairs(groups: seq<Group>): seq<(string, string)> {
    seq(|groups|, i requires 0 <= i < |groups| => (UrlRegex(groups[i].url), groups[i].role))
  }

  /** The URL list after the first n pairs: one that is there already is not added again. */
  function AllAssigned(urls: seq<(string, string)>, known: set<string>, pairs: seq<(string, string)>, n: nat)
      : seq<(string, string)>
    requires n <= |pairs|
  {
    if n == 0 then urls
    else
      var before, pair := AllAssigned(urls, known, pairs, n - 1), pairs[n - 1];
      if pair.1 in known && pair !in before then before + [pair] else before
  }

  /** One of the first n groups has the role. */
  predicate Serves(groups: seq<Group>, n: nat, role: string)
    requires n <= |groups|
  {
    exists i :: 0 <= i < n && groups[i].role == role
  }

  /** The first n roles have been looked at. */
  ghost predicate RolesAdded(filters: map<string, Filter>, unused: seq<string>, before: map<string, Filter>,
      roles: seq<Role>, n: nat)
  {
    n <= |roles| && filters == AllEmplaced(before, Filters(roles), n) && unused == Names(roles)[..n]
  }

  lemma NoneAdded(filters: map<string, Filter>, roles: seq<Role>)
    ensures RolesAdded(filters, [], filters, roles, 0)
  {
  }

  lemma AllAdded(filters: map<string, Filter>, unused: seq<string>, before: map<string, Filter>,
      roles: seq<Role>)
    requires RolesAdded(filters, unused, before, roles, |roles|)
    ensures filters == AllEmplaced(before, Filters(roles), |roles|) && unused == Names(roles)
  {
    assert Names(roles)[..|roles|] == Names(roles);
  }

  predicate KeysAre<F>(named: seq<(string, F)>, names: seq<string>) {
    |named| == |names| && forall i :: 0 <= i < |named| ==> named[i].0 == names[i]
  }

  lemma {:induction false} EmplacedKeys<F>(values: map<string, F>, named: seq<(string, F)>, names: seq<string>, n: nat)
    requires n <= |named| && KeysAre(named, names)
    ensures forall r :: r in AllEmplaced(values, named, n) <==> r in values || r in names[..n]
    ensures forall r :: r in values ==> AllEmplaced(values, named, n)[r] == values[r]
  {
    if n > 0 {
      EmplacedKeys(values, named, names, n - 1);
      assert names[..n] == names[..n - 1] + [names[n - 1]];
    }
  }

  /** A name that had no value before has the one it is given. */
  lemma {:induction false} EmplacedValue<F>(values: map<string, F>, named: seq<(string, F)>, names: seq<string>,
      n: nat, k: nat)
    requires k < n <= |named| && KeysAre(named, names) && Distinct(names) && names[k] !in values
    ensures names[k] in AllEmplaced(values, named, n) && AllEmplaced(values, named, n)[names[k]] == named[k].1
  {
    if k == n - 1 {
      EmplacedKeys(values, named, names, k);
      assert forall i :: 0 <= i < k ==> names[i] != names[k];
    } else {
      EmplacedValue(values, named, names, n - 1, k);
    }
  }

  /** Values of different names, put into an empty map. */
  lemma EmplacedAll<F>(named: seq<(string, F)>, names: seq<string>)
    requires KeysAre(named, names) && Distinct(names)
    ensures AllEmplaced(map[], named, |named|).Keys == (set r | r in names)
    ensures forall k :: 0 <= k < |names| ==> names[k] in AllEmplaced(map[], named, |named|)
    ensures forall k :: 0 <= k < |names| ==> AllEmplaced(map[], named, |named|)[names[k]] == named[k].1
  {
    EmplacedKeys(map[], named, names, |named|);
    assert names[..|named|] == names;
    forall k | 0 <= k < |names|
      ensures names[k] in AllEmplaced(map[], named, |named|)
      ensures AllEmplaced(map[], named, |named|)[names[k]] == named[k].1
    {
      EmplacedValue(map[], named, names, |named|, k);
    }
  }

  // ----- The decision, in terms of the configuration -----

  /** The role that the first found pattern gives. */
  function FoundRole(urls: seq<(string, string)>, origin: string): Option<string>
  {
    FirstFoundIsFirst(urls, origin);
    if FirstFound(urls, origin) < |urls| then Some(urls[FirstFound(urls, origin)].1) else None
  }

  lemma {:induction false} FoundAtEnd(urls: seq<(string, string)>, last: (string, string), origin: string)
    ensures FoundRole(urls + [last], origin)
         == if FoundRole(urls, origin).Some? then FoundRole(urls, origin)
            else if Search(last.0, origin) then Some(last.1) else None
    decreases |urls|
  {
    FirstFoundIsFirst(urls, origin);
    FirstFoundIsFirst(urls + [last], origin);
    if urls != [] {
      assert (urls + [last])[1..] == urls[1..] + [last];
      FoundAtEnd(urls[1..], last, origin);
    } else {
      assert (urls + [last])[0] == last && (urls + [last])[1..] == [];
    }
  }

  lemma FoundIfHeld(urls: seq<(string, string)>, pair: (string, string), origin: string)
    requires pair in urls && Search(pair.0, origin)
    ensures FoundRole(urls, origin).Some?
  {
    FirstFoundIsFirst(urls, origin);
  }

  /** Whether a group applies: its role has a filter and its pattern denotes the origin. */
  ghost predicate Applies(group: Group, known: set<string>, origin: string) {
    group.role in known && UrlMatch(group.url, false, origin)
  }

  /** The role of the first of n groups that applies. */
  ghost function AppliedRole(groups: seq<Group>, known: set<string>, origin: string, n: nat): Option<string>
    requires n <= |groups|
  {
    if n == 0 then None
    else if AppliedRole(groups, known, origin, n - 1).Some? then AppliedRole(groups, known, origin, n - 1)
    else if Applies(groups[n - 1], known, origin) then Some(groups[n - 1].role)
    else None
  }

  predicate GroupsOnly(groups: seq<Group>) {
    forall i :: 0 <= i < |groups| ==> Over(UrlCharacter, groups[i].url)
  }

  /** The compiled patterns are found where the patterns denote. */
  ghost predicate Denoting(pairs: seq<(string, string)>, groups: seq<Group>, origin: string) {
    && |pairs| == |groups|
    && (forall i :: 0 <= i < |pairs| ==> pairs[i].1 == groups[i].role)
    && (forall i :: 0 <= i < |pairs| ==> (Search(pairs[i].0, origin) <==> UrlMatch(groups[i].url, false, origin)))
  }

  lemma PairsDenote(groups: seq<Group>, origin: string)
    requires GroupsOnly(groups)
    ensures Denoting(Pairs(groups), groups, origin)
  {
    forall i | 0 <= i < |groups|
      ensures Search(Pairs(groups)[i].0, origin) <==> UrlMatch(groups[i].url, false, origin)
    {
      CompiledUrlDenotes(groups[i].url, origin);
    }
  }

  /** Leaving out the repeated pairs does not change which role is found. */
  lemma {:induction false} FoundIsApplied(known: set<string>, pairs: seq<(string, string)>, groups: seq<Group>, n: nat,
      origin: string)
    requires n <= |groups| && Denoting(pairs, groups, origin)
    ensures FoundRole(AllAssigned([], known, pairs, n), origin) == AppliedRole(groups, known, origin, n)
  {
    if n > 0 {
      var before, pair := AllAssigned([], known, pairs, n - 1), pairs[n - 1];
      FoundIsApplied(known, pairs, groups, n - 1, origin);
      if pair in before {
        if Search(pair.0, origin) { FoundIfHeld(before, pair, origin); }
      } else {
        FoundAtEnd(before, pair, origin);
      }
    }
  }

  ghost predicate FirstApplying(groups: seq<Group>, known: set<string>, origin: string, i: nat) {
    && i < |groups| && Applies(groups[i], known, origin)
    && forall j :: 0 <= j < i ==> !Applies(groups[j], known, origin)
  }

  lemma {:induction false} AppliedIsFirst(groups: seq<Group>, known: set<string>, origin: string, n: nat)
    requires n <= |groups|
    ensures AppliedRole(groups, known, origin, n) == None
        ==> forall j :: 0 <= j < n ==> !Applies(groups[j], known, origin)
    ensures AppliedRole(groups, known, origin, n).Some?
        ==> exists i: nat :: i < n && FirstApplying(groups, known, origin, i)
                             && AppliedRole(groups, known, origin, n) == Some(groups[i].role)
  {
    if n > 0 {
      AppliedIsFirst(groups, known, origin, n - 1);
      if AppliedRole(groups, known, origin, n - 1) == None && Applies(groups[n - 1], known, origin) {
        assert FirstApplying(groups, known, origin, n - 1);
      }
    }
  }

  lemma {:induction false} FirstApplied(groups: seq<Group>, known: set<string>, origin: string, n: nat, i: nat)
    requires i < n <= |groups| && FirstApplying(groups, known, origin, i)
    ensures AppliedRole(groups, known, origin, n) == Some(groups[i].role)
  {
    if i == n - 1 {
      AppliedIsFirst(groups, known, origin, n - 1);
    } else {
      FirstApplied(groups, known, origin, n - 1, i);
    }
  }

  ghost predicate RolePermits(role: Option<string>, filters: map<string, Filter>,
      callsign: string, methodName: string)
  {
    match role
    case None => false
    case Some(r) => r in filters && Granted(filters[r], callsign, methodName)
  }

  /** What the first found pattern grants; without one nothing is allowed. */
  ghost predicate Permits(urls: seq<(string, string)>, filters: map<string, Filter>,
      origin: string, callsign: string, methodName: string)
  {
    RolePermits(FoundRole(urls, origin), filters, callsign, methodName)
  }

  /** Group i is the first that applies, and its role, the k-th, grants the call. */
  ghost predicate GroupPermits(roles: seq<Role>, groups: seq<Group>,
      origin: string, callsign: string, methodName: string, i: nat, k: nat)
  {
    && FirstApplying(groups, (set r | r in Names(roles)), origin, i)
    && k < |roles| && roles[k].name == groups[i].role && Granted(FilterOf(roles[k].rights), callsign, methodName)
  }

  /** The decision for a caller, read off the configuration. */
  ghost predicate ConfigurationPermits(roles: seq<Role>, groups: seq<Group>,
      origin: string, callsign: string, methodName: string)
  {
    exists i: nat, k: nat :: GroupPermits(roles, groups, origin, callsign, methodName, i, k)
  }

  /** The filters are those of the roles. */
  ghost predicate FiltersOf(filters: map<string, Filter>, roles: seq<Role>) {
    && filters.Keys == (set r | r in Names(roles))
    && (forall k :: 0 <= k < |roles| ==> Names(roles)[k] in filters)
    && (forall k :: 0 <= k < |roles| ==> filters[Names(roles)[k]] == Filters(roles)[k].1)
  }

  lemma RolesLoaded(roles: seq<Role>)
    requires Distinct(Names(roles))
    ensures FiltersOf(AllEmplaced(map[], Filters(roles), |roles|), roles)
  {
    EmplacedAll(Filters(roles), Names(roles));
  }

  lemma RoleOfName(roles: seq<Role>, name: string) returns (k: nat)
    requires name in Names(roles)
    ensures k < |roles| && roles[k].name == name
  {
    var i :| 0 <= i < |roles| && Names(roles)[i] == name;
    k := i;
  }

  lemma FilterOfRole(filters: map<string, Filter>, roles: seq<Role>, k: nat)
    requires k < |roles| && FiltersOf(filters, roles)
    ensures roles[k].name in filters && filters[roles[k].name] == FilterOf(roles[k].rights)
  {
    assert Names(roles)[k] == roles[k].name && Filters(roles)[k].1 == FilterOf(roles[k].rights);
  }

  lemma AppliedGrants(roles: seq<Role>, groups: seq<Group>, filters: map<string, Filter>,
      origin: string, callsign: string, methodName: string, i: nat)
    requires FiltersOf(filters, roles) && FirstApplying(groups, filters.Keys, origin, i)
    requires RolePermits(Some(groups[i].role), filters, callsign, methodName)
    ensures ConfigurationPermits(roles, groups, origin, callsign, methodName)
  {
    var k := RoleOfName(roles, groups[i].role);
    FilterOfRole(filters, roles, k);
    assert GroupPermits(roles, groups, origin, callsign, methodName, i, k);
  }

  lemma GrantApplied(roles: seq<Role>, groups: seq<Group>, filters: map<string, Filter>,
      origin: string, callsign: string, methodName: string, i: nat, k: nat)
    requires FiltersOf(filters, roles) && GroupPermits(roles, groups, origin, callsign, methodName, i, k)
    ensures RolePermits(AppliedRole(groups, filters.Keys, origin, |groups|), filters, callsign, methodName)
  {
    FirstApplied(groups, filters.Keys, origin, |groups|, i);
    FilterOfRole(filters, roles, k);
  }

  lemma AppliedPermits(roles: seq<Role>, groups: seq<Group>, filters: map<string, Filter>,
      origin: string, callsign: string, methodName: string)
    requires FiltersOf(filters, roles)
    ensures RolePermits(AppliedRole(groups, filters.Keys, origin, |groups|), filters, callsign, methodName)
       <==> ConfigurationPermits(roles, groups, origin, callsign, methodName)
  {
    var role := AppliedRole(groups, filters.Keys, origin, |groups|);
    AppliedIsFirst(groups, filters.Keys, origin, |groups|);
    if RolePermits(role, filters, callsign, methodName) {
      var i: nat :| i < |groups| && FirstApplying(groups, filters.Keys, origin, i) && role == Some(groups[i].role);
      AppliedGrants(roles, groups, filters, origin, callsign, methodName, i);
    }
    if i: nat, k: nat :| GroupPermits(roles, groups, origin, callsign, methodName, i, k) {
      GrantApplied(roles, groups, filters, origin, callsign, methodName, i, k);
    }
  }

  /** What loading a configuration makes of an empty list. */
  ghost predicate Loaded(filters: map<string, Filter>, urls: seq<(string, string)>, roles: seq<Role>,
      groups: seq<Group>)
  {
    && filters == AllEmplaced(map[], Filters(roles), |roles|)
    && urls == AllAssigned([], filters.Keys, Pairs(groups), |groups|)
  }

  /**
   A list loaded from a configuration permits what the role of the first group grants that has a
   known role and denotes the origin.
   */
  lemma LoadedPermits(roles: seq<Role>, groups: seq<Group>, filters: map<string, Filter>,
      urls: seq<(string, string)>, origin: string, callsign: string, methodName: string)
    requires Distinct(Names(roles)) && GroupsOnly(groups) && Loaded(filters, urls, roles, groups)
    ensures Permits(urls, filters, origin, callsign, methodName)
       <==> ConfigurationPermits(roles, groups, origin, callsign, methodName)
  {
    RolesLoaded(roles);
    PairsDenote(groups, origin);
    FoundIsApplied(filters.Keys, Pairs(groups), groups, |groups|, origin);
    AppliedPermits(roles, groups, filters, origin, callsign, methodName);
  }

  /** Group i is the first that applies, and the rights of its role, the k-th, allow the call. */
  ghost predicate GroupAllows(roles: seq<Role>, groups: seq<Group>,
      origin: string, callsign: string, methodName: string, i: nat, k: nat)
  {
    && FirstApplying(groups, (set r | r in Names(roles)), origin, i)
    && k < |roles| && roles[k].name == groups[i].role && RightsAllow(roles[k].rights, callsign, methodName)
  }

  /**
   The same in terms of the patterns and rules that are configured, and of no expression or filter: the
   first group with a known role that denotes the origin decides by the rights of this role.
   */
  lemma LoadedAllows(roles: seq<Role>, groups: seq<Group>, filters: map<string, Filter>,
      urls: seq<(string, string)>, origin: string, callsign: string, methodName: string)
    requires Distinct(Names(roles)) && GroupsOnly(groups) && Loaded(filters, urls, roles, groups)
    requires forall k :: 0 <= k < |roles| ==> AllGlobs(roles[k].rights.entries)
    ensures Permits(urls, filters, origin, callsign, methodName)
       <==> exists i: nat, k: nat :: GroupAllows(roles, groups, origin, callsign, methodName, i, k)
  {
    LoadedPermits(roles, groups, filters, urls, origin, callsign, methodName);
    forall i: nat, k: nat
      ensures GroupPermits(roles, groups, origin, callsign, methodName, i, k)
         <==> GroupAllows(roles, groups, origin, callsign, methodName, i, k)
    {
      if k < |roles| { FilterAllowsRights(roles[k].rights, callsign, methodName); }
    }
  }

  // ----- Complete configurations -----

  /** The names that no group with a known role takes off the list. */
  ghost predicate UnusedAre(unused: seq<string>, names: seq<string>, known: set<string>, groups: seq<Group>, n: nat)
    requires n <= |groups|
  {
    forall r :: r in unused <==> r in names && !(r in known && Serves(groups, n, r))
  }

  /** The unknown roles of the groups, and those noted before. */
  ghost predicate UndefinedAre(undefined: seq<string>, before: seq<string>, known: set<string>,
      groups: seq<Group>, n: nat)
    requires n <= |groups|
  {
    forall r :: r in undefined <==> r in before || (r !in known && Serves(groups, n, r))
  }

  /** The first n groups have been looked at. */
  ghost predicate GroupsNoted(urls: seq<(string, string)>, unused: seq<string>, undefined: seq<string>,
      urlsBefore: seq<(string, string)>, unusedBefore: seq<string>, undefinedBefore: seq<string>,
      known: set<string>, groups: seq<Group>, n: nat)
  {
    && n <= |groups| && urls == AllAssigned(urlsBefore, known, Pairs(groups), n)
    && UnusedAre(unused, unusedBefore, known, groups, n) && UndefinedAre(undefined, undefinedBefore, known, groups, n)
  }

  lemma NoneNoted(urls: seq<(string, string)>, unused: seq<string>, undefined: seq<string>,
      known: set<string>, groups: seq<Group>)
    ensures GroupsNoted(urls, unused, undefined, urls, unused, undefined, known, groups, 0)
  {
  }

  lemma ServesOneMore(groups: seq<Group>, n: nat, role: string)
    requires n < |groups|
    ensures Serves(groups, n + 1, role) <==> Serves(groups, n, role) || role == groups[n].role
  {
    assert role == groups[n].role ==> Serves(groups, n + 1, role);
  }

  lemma UnusedOneMore(unused: seq<string>, after: seq<string>, names: seq<string>, known: set<string>,
      groups: seq<Group>, n: nat)
    requires n < |groups| && UnusedAre(unused, names, known, groups, n)
    requires forall r :: r in after <==> r in unused && !(groups[n].role in known && r == groups[n].role)
    ensures UnusedAre(after, names, known, groups, n + 1)
  {
    forall r ensures Serves(groups, n + 1, r) <==> Serves(groups, n, r) || r == groups[n].role {
      ServesOneMore(groups, n, r);
    }
  }

  lemma UndefinedOneMore(undefined: seq<string>, after: seq<string>, before: seq<string>, known: set<string>,
      groups: seq<Group>, n: nat)
    requires n < |groups| && UndefinedAre(undefined, before, known, groups, n)
    requires forall r :: r in after <==> r in undefined || (groups[n].role !in known && r == groups[n].role)
    ensures UndefinedAre(after, before, known, groups, n + 1)
  {
    forall r ensures Serves(groups, n + 1, r) <==> Serves(groups, n, r) || r == groups[n].role {
      ServesOneMore(groups, n, r);
    }
  }

  lemma CompleteExactly(names: seq<string>, unused: seq<string>, before: seq<string>, undefined: seq<string>,
      known: set<string>, groups: seq<Group>)
    requires UnusedAre(unused, names, known, groups, |groups|)
    requires UndefinedAre(undefined, before, known, groups, |groups|)
    requires forall r :: r in names ==> r in known
    ensures unused == [] && undefined == [] <==>
      (before == [] && (forall r :: r in names ==> Serves(groups, |groups|, r)) && AllKnown(groups, known))
  {
    if unused != [] { assert unused[0] in names; }
    if undefined != [] { assert undefined[0] in undefined; }
    if before != [] { assert before[0] in undefined; }
    forall i | 0 <= i < |groups| ensures Serves(groups, |groups|, groups[i].role) {
    }
  }

  predicate AllKnown(groups: seq<Group>, known: set<string>) {
    forall i :: 0 <= i < |groups| ==> groups[i].role in known
  }

  // ----- The list -----

  class AccessControlList {
    var urls: seq<(string, string)>
    var filters: map<string, Filter>
    var unusedRoles: seq<string>
    var undefinedUrls: seq<string>
    ghost var patterns: seq<(string, string)>

    /** Every assigned origin pattern is there, compiled, with the filter of its role. */
    ghost predicate Valid()
      reads this
    {
      && |patterns| == |urls|
      && (forall i :: 0 <= i < |urls| ==> urls[i] == (UrlRegex(patterns[i].0), patterns[i].1))
      && (forall i :: 0 <= i < |urls| ==> urls[i].1 in filters)
    }

    ghost predicate Empty()
      reads this
    {
      urls == [] && filters == map[] && unusedRoles == [] && undefinedUrls == [] && patterns == []
    }

    constructor ()
      ensures Valid() && Empty()
    {
      urls, filters, unusedRoles, undefinedUrls, patterns := [], map[], [], [], [];
    }

    method Clear()
      modifies this
      ensures Valid() && Empty()
    {
      urls, filters, unusedRoles, undefinedUrls, patterns := [], map[], [], [], [];
    }

    /** A role of the configuration gets its filter; one that is there already keeps it. */
    method AddRole(role: Role)
      requires Valid()
      modifies `filters
      ensures Valid()
      ensures filters == if role.name in old(filters) then old(filters)
                         else old(filters)[role.name := FilterOf(role.rights)]
    {
      if role.name !in filters {
        var filter := NewFilter(role.rights);
        filters := filters[role.name := filter];
      }
    }

    /** A group of the configuration: its pattern is compiled and kept unless the same pair is there. */
    method Assign(url: string, role: string) returns (known: bool)
      requires Valid()
      modifies `urls, `patterns
      ensures Valid() && known == (role in filters)
      ensures known && (UrlRegex(url), role) !in old(urls) ==>
        urls == old(urls) + [(UrlRegex(url), role)] && patterns == old(patterns) + [(url, role)]
      ensures !known || (UrlRegex(url), role) in old(urls) ==> urls == old(urls) && patterns == old(patterns)
    {
      known := role in filters;
      if known {
        var regex := CreateUrlRegex(url);
        if (regex, role) !in urls {
          urls := urls + [(regex, role)];
          patterns := patterns + [(url, role)];
        }
      }
    }

    method AddRoles(roles: seq<Role>)
      requires Valid()
      modifies `filters, `unusedRoles
      ensures Valid()
      ensures filters == AllEmplaced(old(filters), Filters(roles), |roles|) && unusedRoles == Names(roles)
    {
      unusedRoles := [];
      NoneAdded(filters, roles);
      for i := 0 to |roles|
        invariant Valid() && RolesAdded(filters, unusedRoles, old(filters), roles, i)
      {
        AddNext(roles, i, old(filters));
      }
      AllAdded(filters, unusedRoles, old(filters), roles);
    }

    /** One turn of the loop over the roles. */
    method AddNext(roles: seq<Role>, i: nat, ghost before: map<string, Filter>)
      requires i < |roles| && Valid()
      requires RolesAdded(filters, unusedRoles, before, roles, i)
      modifies `filters, `unusedRoles
      ensures Valid() && RolesAdded(filters, unusedRoles, before, roles, i + 1)
    {
      NamesNext(roles, i);
      unusedRoles := unusedRoles + [roles[i].name];
      AddRole(roles[i]);
    }

    /** A role without a filter is noted, once; any other is noted as used.  No name is unused twice. */
    method Note(role: string, known: bool)
      requires Distinct(unusedRoles)
      modifies `unusedRoles, `undefinedUrls
      ensures Distinct(unusedRoles)
      ensures forall r :: r in unusedRoles <==> r in old(unusedRoles) && !(known && r == role)
      ensures forall r :: r in undefinedUrls <==> r in old(undefinedUrls) || (!known && r == role)
      ensures unusedRoles == if known then Without(old(unusedRoles), role) else old(unusedRoles)
      ensures undefinedUrls
           == if known || role in old(undefinedUrls) then old(undefinedUrls) else [role] + old(undefinedUrls)
    {
      if known {
        WithoutDistinct(unusedRoles, role);
        unusedRoles := Without(unusedRoles, role);
      } else if role !in undefinedUrls {
        undefinedUrls := [role] + undefinedUrls;
      }
    }

    /** One turn of the loop over the groups. */
    method AssignNext(groups: seq<Group>, i: nat, ghost before: seq<(string, string)>,
        ghost unused: seq<string>, ghost undefined: seq<string>)
      requires i < |groups| && Valid() && Distinct(unusedRoles)
      requires GroupsNoted(urls, unusedRoles, undefinedUrls, before, unused, undefined, filters.Keys, groups, i)
      modifies `urls, `patterns, `unusedRoles, `undefinedUrls
      ensures Valid() && Distinct(unusedRoles)
      ensures GroupsNoted(urls, unusedRoles, undefinedUrls, before, unused, undefined, filters.Keys, groups, i + 1)
    {
      var known := Assign(groups[i].url, groups[i].role);
      Note(groups[i].role, known);
      UnusedOneMore(old(unusedRoles), unusedRoles, unused, filters.Keys, groups, i);
      UndefinedOneMore(old(undefinedUrls), undefinedUrls, undefined, filters.Keys, groups, i);
    }

    method AssignAll(groups: seq<Group>)
      requires Valid() && Distinct(unusedRoles)
      modifies `urls, `patterns, `unusedRoles, `undefinedUrls
      ensures Valid() && urls == AllAssigned(old(urls), filters.Keys, Pairs(groups), |groups|)
      ensures UnusedAre(unusedRoles, old(unusedRoles), filters.Keys, groups, |groups|)
      ensures UndefinedAre(undefinedUrls, old(undefinedUrls), filters.Keys, groups, |groups|)
    {
      NoneNoted(urls, unusedRoles, undefinedUrls, filters.Keys, groups);
      for i := 0 to |groups|
        invariant Valid() && Distinct(unusedRoles)
        invariant GroupsNoted(urls, unusedRoles, undefinedUrls, old(urls), old(unusedRoles), old(undefinedUrls),
                              filters.Keys, groups, i)
      {
        AssignNext(groups, i, old(urls), old(unusedRoles), old(undefinedUrls));
      }
    }

    /**
     Loads a configuration, and says whether it is complete: every role is used, every group has a
     known role, and no group ever loaded since the list was cleared had an unknown one.
     */
    method Load(roles: seq<Role>, groups: seq<Group>) returns (complete: bool)
      requires Valid() && Distinct(Names(roles))
      modifies this
      ensures Valid() && filters == AllEmplaced(old(filters), Filters(roles), |roles|)
      ensures urls == AllAssigned(old(urls), filters.Keys, Pairs(groups), |groups|)
      ensures old(filters) == map[] && old(urls) == [] ==> Loaded(filters, urls, roles, groups)
      ensures UnusedAre(unusedRoles, Names(roles), filters.Keys, groups, |groups|)
      ensures UndefinedAre(undefinedUrls, old(undefinedUrls), filters.Keys, groups, |groups|)
      ensures complete <==>
        (old(undefinedUrls) == [] && AllKnown(groups, filters.Keys)
         && forall r :: r in Names(roles) ==> Serves(groups, |groups|, r))
    {
      AddRoles(roles);
      AssignAll(groups);
      EmplacedKeys(old(filters), Filters(roles), Names(roles), |roles|);
      assert Names(roles)[..|roles|] == Names(roles);
      CompleteExactly(Names(roles), unusedRoles, old(undefinedUrls), undefinedUrls, filters.Keys, groups);
      complete := unusedRoles == [] && undefinedUrls == [];
    }

    /** The role whose filter applies to a URL, by position; the length of the list stands for none. */
    method FilterMapFromURL(url: string) returns (index: nat)
      ensures index == FirstFound(urls, UrlOrigin.Trimmed(UrlOrigin.BeforePath(url)))
    {
      var origin := UrlOrigin.GetUrlOrigin(url);
      index := 0;
      var result := false;
      while index != |urls| && !result
        invariant 0 <= index <= |urls|
        invariant index + FirstFound(urls[index..], origin) == FirstFound(urls, origin)
        invariant result ==> index < |urls| && Search(urls[index].0, origin)
        decreases |urls| - index, !result
      {
        result := Search(urls[index].0, origin);
        if !result {
          assert urls[index..][1..] == urls[index + 1..];
          index := index + 1;
        }
      }
    }

    /** The first assigned pattern that denotes the origin decides, and without one nothing is allowed. */
    method Allowed(url: string, callsign: string, methodName: string) returns (allowed: bool)
      requires Valid()
      ensures allowed == Permits(urls, filters, UrlOrigin.Trimmed(UrlOrigin.BeforePath(url)), callsign, methodName)
    {
      var index := FilterMapFromURL(url);
      FirstFoundIsFirst(urls, UrlOrigin.Trimmed(UrlOrigin.BeforePath(url)));
      if index == |urls| { return false; }
      allowed := FilterAllowed(filters[urls[index].1], callsign, methodName);
    }

    /** In terms of the patterns as they were assigned. */
    lemma PermittedByPattern(url: string, callsign: string, methodName: string)
      requires Valid() && UrlPatternsOnly(patterns)
      ensures Permits(urls, filters, UrlOrigin.Trimmed(UrlOrigin.BeforePath(url)), callsign, methodName)
        <==> exists i: nat :: FirstDenoting(patterns, UrlOrigin.Trimmed(UrlOrigin.BeforePath(url)), i)
                           && Granted(filters[urls[i].1], callsign, methodName)
    {
      var origin := UrlOrigin.Trimmed(UrlOrigin.BeforePath(url));
      forall i | 0 <= i < |patterns| ensures Search(urls[i].0, origin) <==> UrlMatch(patterns[i].0, false, origin) {
        CompiledUrlDenotes(patterns[i].0, origin);
      }
      FoundDenotes(urls, patterns, origin);
    }
  }
}

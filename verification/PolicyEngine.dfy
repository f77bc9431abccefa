/** The policy engine: copy-on-write updates, immutable snapshots and the block decision. */
module PolicyEngine {
  import opened Options
  import opened DomainNames
  import opened DomainTrie
  import opened Schedules

  type PathSet = set<Path>

  datatype Decision = Allowed | Blocked(reason: string, list: string)

  datatype Group = Group(name: string, baseLists: seq<string>, allowTree: Domains, schedules: seq<Schedule>)

  /** The map from list ids to compiled lists that snapshots share with the engine. */
  class ListTable {
    var entries: map<string, Domains>

    constructor (entries: map<string, Domains>)
      ensures this.entries == entries
    {
      this.entries := entries;
    }
  }

  /** An evaluation snapshot for one client; `tz` turns an instant into a local minute. */
  datatype Policy = Policy(group: Option<Group>, lists: ListTable, custom: Domains, allowlist: Domains,
                           customAllow: Domains, tz: int -> int)

  // ----- the declarative rule

  /** What a snapshot knows, with every trie replaced by the set of paths it stands for. */
  datatype View = View(baseLists: seq<string>, schedules: seq<Schedule>, groupAllow: PathSet,
                       lists: map<string, PathSet>, custom: PathSet, allow: PathSet, customAllow: PathSet,
                         tz: int -> int)

  /** One reason to block. */
  datatype Rule = ListRule(list: string, reason: string) | CustomRule

  function BaseRules(lists: seq<string>): seq<Rule> {
    if lists == [] then [] else [ListRule(lists[0], "blocklist:" + lists[0])] + BaseRules(lists[1..])
  }

  function ScheduleRules(name: string, lists: seq<string>): seq<Rule> {
    if lists == [] then [] else [ListRule(lists[0], "schedule:" + name)] + ScheduleRules(name, lists[1..])
  }

  function ActiveRules(schedules: seq<Schedule>, t: int): seq<Rule> {
    if schedules == [] then []
    else (if ActiveAt(schedules[0], t) then ScheduleRules(schedules[0].name, schedules[0].block) else [])
         + ActiveRules(schedules[1..], t)
  }

  /** Everything that may block at an instant, in order: base lists, active schedules, custom list. */
  function Rules(v: View, now: int): seq<Rule> {
    BaseRules(v.baseLists) + ActiveRules(v.schedules, v.tz(now)) + [CustomRule]
  }

  ghost predicate Fires(lib: Library, v: View, rule: Rule, qname: string) {
    match rule
    case ListRule(list, _) => list in v.lists && Matching(lib, v.lists[list], qname)
    case CustomRule => Matching(lib, v.custom, qname)
  }

  ghost predicate AnyAllow(lib: Library, v: View, qname: string) {
    Matching(lib, v.allow, qname) || Matching(lib, v.customAllow, qname) || Matching(lib, v.groupAllow, qname)
  }

  function Verdict(rule: Rule): Decision {
    match rule
    case ListRule(list, reason) => Blocked(reason, list)
    case CustomRule => Blocked("blocklist:custom", "custom")
  }

  ghost function FirstFiring(lib: Library, v: View, rules: seq<Rule>, qname: string): Decision {
    if rules == [] then Allowed
    else if Fires(lib, v, rules[0], qname) then Verdict(rules[0])
    else FirstFiring(lib, v, rules[1..], qname)
  }

  /** Any allow wins; otherwise the first rule that fires blocks. */
  ghost function Decide(lib: Library, v: View, qname: string, now: int): Decision {
    if AnyAllow(lib, v, qname) then Allowed else FirstFiring(lib, v, Rules(v, now), qname)
  }

  lemma {:induction false} FiringAppend(lib: Library, v: View, a: seq<Rule>, b: seq<Rule>, qname: string)
    ensures FirstFiring(lib, v, a + b, qname)
         == if FirstFiring(lib, v, a, qname).Blocked? then FirstFiring(lib, v, a, qname)
           else FirstFiring(lib, v, b, qname)
  {
    if a == [] {
      assert a + b == b;
    } else {
      assert (a + b)[1..] == a[1..] + b;
      FiringAppend(lib, v, a[1..], b, qname);
    }
  }

  function FirstOf(fires: Rule -> bool, rules: seq<Rule>): Decision {
    if rules == [] then Allowed else if fires(rules[0]) then Verdict(rules[0]) else FirstOf(fires, rules[1..])
  }

  lemma {:induction false} FirstOfIsFirst(fires: Rule -> bool, rules: seq<Rule>) returns (i: nat)
    ensures i <= |rules| && forall j | 0 <= j < i :: !fires(rules[j])
    ensures i < |rules| ==> fires(rules[i])
    ensures FirstOf(fires, rules) == if i < |rules| then Verdict(rules[i]) else Allowed
  {
    if rules == [] || fires(rules[0]) {
      i := 0;
    } else {
      var k := FirstOfIsFirst(fires, rules[1..]);
      assert forall j | 1 <= j < |rules| :: rules[j] == rules[1..][j - 1];
      i := k + 1;
    }
  }

  lemma {:induction false} FirstFiringIsFirstOf(lib: Library, v: View, fires: Rule -> bool, rules: seq<Rule>,
                                                qname: string)
    requires forall r | r in rules :: fires(r) == Fires(lib, v, r, qname)
    ensures FirstFiring(lib, v, rules, qname) == FirstOf(fires, rules)
  {
    if rules != [] {
      assert rules[0] in rules && forall r | r in rules[1..] :: r in rules;
      FirstFiringIsFirstOf(lib, v, fires, rules[1..], qname);
    }
  }

  /** The decision names the first rule that fires; the query is allowed exactly when none does. */
  lemma FirstFiringIsFirst(lib: Library, v: View, rules: seq<Rule>, qname: string) returns (i: nat)
    ensures i <= |rules| && forall j | 0 <= j < i :: !Fires(lib, v, rules[j], qname)
    ensures i < |rules| ==> Fires(lib, v, rules[i], qname)
    ensures FirstFiring(lib, v, rules, qname) == if i < |rules| then Verdict(rules[i]) else Allowed
  {
    var fires := r => Fires(lib, v, r, qname);
    FirstFiringIsFirstOf(lib, v, fires, rules, qname);
    i := FirstOfIsFirst(fires, rules);
  }

  // ----- what the decision is, on the sets themselves

  ghost predicate Covers(lib: Library, v: View, list: string, qname: string) {
    list in v.lists && Matching(lib, v.lists[list], qname)
  }

  /** List `i` covers the name and none before it does. */
  ghost predicate FirstAt(lib: Library, v: View, lists: seq<string>, qname: string, i: nat) {
    i < |lists| && Covers(lib, v, lists[i], qname) && forall j | 0 <= j < i :: !Covers(lib, v, lists[j], qname)
  }

  ghost predicate NoneOf(lib: Library, v: View, lists: seq<string>, qname: string) {
    forall j | 0 <= j < |lists| :: !Covers(lib, v, lists[j], qname)
  }

  /** Schedule `k` is active, list `i` is the first of its lists to cover the name, and no active one before has any. */
  ghost predicate ScheduledAt(lib: Library, v: View, schedules: seq<Schedule>, t: int, qname: string, k: nat, i: nat) {
    && k < |schedules| && ActiveAt(schedules[k], t) && FirstAt(lib, v, schedules[k].block, qname, i)
    && forall m | 0 <= m < k && ActiveAt(schedules[m], t) :: NoneOf(lib, v, schedules[m].block, qname)
  }

  ghost predicate NoneScheduled(lib: Library, v: View, schedules: seq<Schedule>, t: int, qname: string) {
    forall m | 0 <= m < |schedules| && ActiveAt(schedules[m], t) :: NoneOf(lib, v, schedules[m].block, qname)
  }

  /**
   * Any of the three allow sets wins; then the first base list that covers the name blocks it, then the first list of
   * the first active schedule that has one, then the custom list.
   */
  ghost predicate Decides(lib: Library, v: View, qname: string, now: int, d: Decision) {
    if Matching(lib, v.allow, qname) || Matching(lib, v.customAllow, qname) || Matching(lib, v.groupAllow, qname) then
      d == Allowed
    else if !NoneOf(lib, v, v.baseLists, qname) then
      exists i: nat ::
        && FirstAt(lib, v, v.baseLists, qname, i)
        && d == Blocked("blocklist:" + v.baseLists[i], v.baseLists[i])
    else if !NoneScheduled(lib, v, v.schedules, v.tz(now), qname) then
      exists k: nat, i: nat ::
        && ScheduledAt(lib, v, v.schedules, v.tz(now), qname, k, i)
        && d == Blocked("schedule:" + v.schedules[k].name, v.schedules[k].block[i])
    else d == if Matching(lib, v.custom, qname) then Blocked("blocklist:custom", "custom") else Allowed
  }

  /** The lists one after another under one reason, which may name the list. */
  lemma {:induction false} FirstOfLists(lib: Library, v: View, rules: seq<Rule>, lists: seq<string>,
                                        reasons: seq<string>, qname: string)
    requires |rules| == |lists| == |reasons|
    requires forall i | 0 <= i < |lists| :: rules[i] == ListRule(lists[i], reasons[i])
    ensures FirstFiring(lib, v, rules, qname) == Allowed ==> NoneOf(lib, v, lists, qname)
    ensures FirstFiring(lib, v, rules, qname) != Allowed ==>
      exists i: nat ::
        FirstAt(lib, v, lists, qname, i) && FirstFiring(lib, v, rules, qname) == Blocked(reasons[i], lists[i])
  {
    if lists != [] {
      assert Fires(lib, v, rules[0], qname) <==> Covers(lib, v, lists[0], qname);
      if Covers(lib, v, lists[0], qname) {
        assert FirstAt(lib, v, lists, qname, 0);
      } else {
        FirstOfLists(lib, v, rules[1..], lists[1..], reasons[1..], qname);
        assert forall j | 0 < j < |lists| :: lists[j] == lists[1..][j - 1];
        if FirstFiring(lib, v, rules, qname) != Allowed {
          var i: nat :|
            && FirstAt(lib, v, lists[1..], qname, i)
            && FirstFiring(lib, v, rules[1..], qname) == Blocked(reasons[1..][i], lists[1..][i]);
          assert FirstAt(lib, v, lists, qname, i + 1);
        }
      }
    }
  }

  lemma {:induction false} BaseRulesAre(lists: seq<string>)
    ensures |BaseRules(lists)| == |lists|
    ensures forall i | 0 <= i < |lists| :: BaseRules(lists)[i] == ListRule(lists[i], "blocklist:" + lists[i])
  {
    if lists != [] { BaseRulesAre(lists[1..]); }
  }

  lemma {:induction false} ScheduleRulesAre(name: string, lists: seq<string>)
    ensures |ScheduleRules(name, lists)| == |lists|
    ensures forall i | 0 <= i < |lists| :: ScheduleRules(name, lists)[i] == ListRule(lists[i], "schedule:" + name)
  {
    if lists != [] { ScheduleRulesAre(name, lists[1..]); }
  }

  lemma FirstBase(lib: Library, v: View, qname: string)
    ensures var d := FirstFiring(lib, v, BaseRules(v.baseLists), qname);
      if NoneOf(lib, v, v.baseLists, qname) then d == Allowed
      else exists i: nat ::
        FirstAt(lib, v, v.baseLists, qname, i) && d == Blocked("blocklist:" + v.baseLists[i], v.baseLists[i])
  {
    var lists := v.baseLists;
    BaseRulesAre(lists);
    FirstOfLists(lib, v, BaseRules(lists), lists, seq(|lists|, i requires 0 <= i < |lists| => "blocklist:" + lists[i]),
                 qname);
  }

  lemma FirstOfSchedule(lib: Library, v: View, s: Schedule, qname: string)
    ensures var d := FirstFiring(lib, v, ScheduleRules(s.name, s.block), qname);
      if NoneOf(lib, v, s.block, qname) then d == Allowed
      else exists i: nat :: FirstAt(lib, v, s.block, qname, i) && d == Blocked("schedule:" + s.name, s.block[i])
  {
    ScheduleRulesAre(s.name, s.block);
    FirstOfLists(lib, v, ScheduleRules(s.name, s.block), s.block, seq(|s.block|, _ => "schedule:" + s.name), qname);
  }

  lemma {:induction false} FirstScheduled(lib: Library, v: View, schedules: seq<Schedule>, t: int, qname: string)
    ensures var d := FirstFiring(lib, v, ActiveRules(schedules, t), qname);
      if NoneScheduled(lib, v, schedules, t, qname) then d == Allowed
      else exists k: nat, i: nat ::
        && ScheduledAt(lib, v, schedules, t, qname, k, i)
        && d == Blocked("schedule:" + schedules[k].name, schedules[k].block[i])
  {
    if schedules != [] {
      var s, rest := schedules[0], schedules[1..];
      var first := if ActiveAt(s, t) then ScheduleRules(s.name, s.block) else [];
      FiringAppend(lib, v, first, ActiveRules(rest, t), qname);
      FirstOfSchedule(lib, v, s, qname);
      FirstScheduled(lib, v, rest, t, qname);
      if ActiveAt(s, t) && !NoneOf(lib, v, s.block, qname) {
        var i: nat :| FirstAt(lib, v, s.block, qname, i)
          && FirstFiring(lib, v, first, qname) == Blocked("schedule:" + s.name, s.block[i]);
        assert ScheduledAt(lib, v, schedules, t, qname, 0, i);
      } else {
        ScheduledLater(lib, v, schedules, t, qname);
      }
    }
  }

  lemma ScheduledLater(lib: Library, v: View, schedules: seq<Schedule>, t: int, qname: string)
    requires schedules != [] && (ActiveAt(schedules[0], t) ==> NoneOf(lib, v, schedules[0].block, qname))
    ensures NoneScheduled(lib, v, schedules, t, qname) <==> NoneScheduled(lib, v, schedules[1..], t, qname)
    ensures forall k: nat, i: nat | ScheduledAt(lib, v, schedules[1..], t, qname, k, i) ::
      ScheduledAt(lib, v, schedules, t, qname, k + 1, i)
  {
    forall k: nat, i: nat | ScheduledAt(lib, v, schedules[1..], t, qname, k, i)
      ensures ScheduledAt(lib, v, schedules, t, qname, k + 1, i)
    {
      ScheduledOneLater(lib, v, schedules, t, qname, k, i);
    }
    if NoneScheduled(lib, v, schedules, t, qname) {
      forall m | 0 <= m < |schedules| - 1 ensures schedules[1..][m] == schedules[m + 1] {}
    }
  }

  lemma ScheduledOneLater(lib: Library, v: View, schedules: seq<Schedule>, t: int, qname: string, k: nat, i: nat)
    requires schedules != [] && (ActiveAt(schedules[0], t) ==> NoneOf(lib, v, schedules[0].block, qname))
    requires ScheduledAt(lib, v, schedules[1..], t, qname, k, i)
    ensures ScheduledAt(lib, v, schedules, t, qname, k + 1, i)
  {
    forall m | 0 <= m < k + 1 && ActiveAt(schedules[m], t) ensures NoneOf(lib, v, schedules[m].block, qname) {
      if m > 0 { assert schedules[1..][m - 1] == schedules[m]; }
    }
  }

  /** The declarative rule decides so. */
  lemma DecideDecides(lib: Library, v: View, qname: string, now: int)
    ensures Decides(lib, v, qname, now, Decide(lib, v, qname, now))
  {
    InThreeParts(lib, v, qname, now);
    FirstBase(lib, v, qname);
    FirstScheduled(lib, v, v.schedules, v.tz(now), qname);
    assert [CustomRule][1..] == [];
  }

  // ----- snapshots

  /** The trie lies within `foot` and stands for `paths`. */
  ghost predicate Holds(d: Domains, foot: set<object>, paths: PathSet)
    reads foot
  {
    d in foot && d.repr <= foot && d.Valid() && d.paths == paths
  }

  ghost predicate ListsHold(table: ListTable, foot: set<object>, lists: map<string, PathSet>)
    reads foot
  {
    && table in foot && table.entries.Keys == lists.Keys
    && forall id {:trigger ListAt(table, foot, lists, id)} :: ListAt(table, foot, lists, id)
  }

  /** What the table says of one list; used where it is named. */
  ghost predicate ListAt(table: ListTable, foot: set<object>, lists: map<string, PathSet>, id: string)
    requires table in foot
    reads foot
  {
    id in table.entries ==> id in lists && Holds(table.entries[id], foot, lists[id])
  }

  lemma ListsWider(table: ListTable, foot: set<object>, more: set<object>, lists: map<string, PathSet>)
    requires ListsHold(table, foot, lists)
    ensures ListsHold(table, foot + more, lists)
  {
    var wider := foot + more;
    forall id ensures ListAt(table, wider, lists, id) { assert ListAt(table, foot, lists, id); }
  }

  lemma ListsPut(before: ListTable, after: ListTable, foot: set<object>, lists: map<string, PathSet>, id: string,
                 d: Domains, paths: PathSet)
    requires ListsHold(before, foot, lists) && Holds(d, foot, paths)
    requires after in foot && after.entries == before.entries[id := d]
    ensures ListsHold(after, foot, lists[id := paths])
  {
    var sets := lists[id := paths];
    forall k ensures ListAt(after, foot, sets, k) { assert ListAt(before, foot, lists, k); }
  }

  lemma ListsDropped(before: ListTable, after: ListTable, foot: set<object>, lists: map<string, PathSet>,
                     ids: set<string>)
    requires ListsHold(before, foot, lists)
    requires after in foot && after.entries == before.entries - ids
    ensures ListsHold(after, foot, lists - ids)
  {
    var sets := lists - ids;
    forall k ensures ListAt(after, foot, sets, k) { assert ListAt(before, foot, lists, k); }
  }

  lemma HoldsWider(d: Domains, foot: set<object>, more: set<object>, paths: PathSet)
    requires Holds(d, foot, paths)
    ensures Holds(d, foot + more, paths)
  {
  }

  /** The snapshot lies within `foot` and stands for the sets in `v`. */
  ghost predicate Denotes(p: Policy, foot: set<object>, v: View)
    reads foot
  {
    && p.group.Some?
    && p.group.value.baseLists == v.baseLists && p.group.value.schedules == v.schedules && p.tz == v.tz
    && Holds(p.group.value.allowTree, foot, v.groupAllow)
    && ListsHold(p.lists, foot, v.lists)
    && Holds(p.custom, foot, v.custom) && Holds(p.allowlist, foot, v.allow) && Holds(p.customAllow, foot, v.customAllow)
  }

  method MatchList(lib: Library, p: Policy, id: string, qname: string, ghost foot: set<object>, ghost v: View,
                   ghost reason: string)
    returns (found: bool)
    requires Denotes(p, foot, v)
    ensures found <==> Fires(lib, v, ListRule(id, reason), qname)
  {
    found := false;
    assert ListAt(p.lists, foot, v.lists, id);
    if id in p.lists.entries { found := p.lists.entries[id].Match(lib, qname); }
  }

  method MatchAnyAllow(lib: Library, p: Policy, qname: string, ghost foot: set<object>, ghost v: View)
    returns (allowed: bool)
    requires Denotes(p, foot, v)
    ensures allowed <==> AnyAllow(lib, v, qname)
  {
    allowed := p.allowlist.Match(lib, qname);
    if !allowed { allowed := p.customAllow.Match(lib, qname); }
    if !allowed { allowed := p.group.value.allowTree.Match(lib, qname); }
  }

  method MatchCustom(lib: Library, p: Policy, qname: string, ghost foot: set<object>, ghost v: View)
    returns (d: Decision)
    requires Denotes(p, foot, v)
    ensures d == FirstFiring(lib, v, [CustomRule], qname)
  {
    var custom := p.custom.Match(lib, qname);
    assert [CustomRule][1..] == [];
    d := if custom then Blocked("blocklist:custom", "custom") else Allowed;
  }

  lemma InThreeParts(lib: Library, v: View, qname: string, now: int)
    ensures FirstFiring(lib, v, Rules(v, now), qname)
         == (var base := FirstFiring(lib, v, BaseRules(v.baseLists), qname);
             var active := FirstFiring(lib, v, ActiveRules(v.schedules, v.tz(now)), qname);
             if base.Blocked? then base else if active.Blocked? then active
               else FirstFiring(lib, v, [CustomRule], qname))
  {
    var base, active := BaseRules(v.baseLists), ActiveRules(v.schedules, v.tz(now));
    FiringAppend(lib, v, base + active, [CustomRule], qname);
    FiringAppend(lib, v, base, active, qname);
  }

  /** The decision for `qname` at `now`. */
  method Evaluate(lib: Library, p: Policy, qname: string, now: int, ghost foot: set<object>, ghost v: View)
    returns (d: Decision)
    requires p.group.Some? ==> Denotes(p, foot, v)
    ensures d == if p.group.Some? then Decide(lib, v, qname, now) else Allowed
    ensures p.group.Some? ==> Decides(lib, v, qname, now, d)
  {
    if p.group.None? { return Allowed; }
    DecideDecides(lib, v, qname, now);
    var allowed := MatchAnyAllow(lib, p, qname, foot, v);
    if allowed { return Allowed; }
    InThreeParts(lib, v, qname, now);
    d := EvaluateBase(lib, p, qname, foot, v);
    if d.Blocked? { return; }
    d := EvaluateSchedules(lib, p, qname, p.tz(now), foot, v);
    if d.Blocked? { return; }
    d := MatchCustom(lib, p, qname, foot, v);
  }

  method EvaluateBase(lib: Library, p: Policy, qname: string, ghost foot: set<object>, ghost v: View)
    returns (d: Decision)
    requires Denotes(p, foot, v)
    ensures d == FirstFiring(lib, v, BaseRules(p.group.value.baseLists), qname)
  {
    var lists := p.group.value.baseLists;
    for i := 0 to |lists|
      invariant FirstFiring(lib, v, BaseRules(lists), qname)
             == FirstFiring(lib, v, BaseRules(lists[i..]), qname)
    {
      var hit := MatchList(lib, p, lists[i], qname, foot, v, "blocklist:" + lists[i]);
      if hit { return Blocked("blocklist:" + lists[i], lists[i]); }
      assert lists[i..][1..] == lists[i + 1..];
    }
    return Allowed;
  }

  method EvaluateSchedule(lib: Library, p: Policy, s: Schedule, qname: string, ghost foot: set<object>, ghost v: View)
    returns (d: Decision)
    requires Denotes(p, foot, v)
    ensures d == FirstFiring(lib, v, ScheduleRules(s.name, s.block), qname)
  {
    for i := 0 to |s.block|
      invariant FirstFiring(lib, v, ScheduleRules(s.name, s.block), qname)
             == FirstFiring(lib, v, ScheduleRules(s.name, s.block[i..]), qname)
    {
      var hit := MatchList(lib, p, s.block[i], qname, foot, v, "schedule:" + s.name);
      if hit { return Blocked("schedule:" + s.name, s.block[i]); }
      assert s.block[i..][1..] == s.block[i + 1..];
    }
    return Allowed;
  }

  method EvaluateSchedules(lib: Library, p: Policy, qname: string, t: int, ghost foot: set<object>, ghost v: View)
    returns (d: Decision)
    requires Denotes(p, foot, v)
    ensures d == FirstFiring(lib, v, ActiveRules(p.group.value.schedules, t), qname)
  {
    var schedules := p.group.value.schedules;
    for i := 0 to |schedules|
      invariant FirstFiring(lib, v, ActiveRules(schedules, t), qname)
             == FirstFiring(lib, v, ActiveRules(schedules[i..], t), qname)
    {
      var s := schedules[i];
      assert schedules[i..][1..] == schedules[i + 1..];
      ghost var first := if ActiveAt(s, t) then ScheduleRules(s.name, s.block) else [];
      FiringAppend(lib, v, first, ActiveRules(schedules[i + 1..], t), qname);
      if ActiveAt(s, t) {
        d := EvaluateSchedule(lib, p, s, qname, foot, v);
        if d.Blocked? { return; }
      }
    }
    return Allowed;
  }

  // ----- compiling configuration

  /** What each domain string of a list normalises to. */
  function LabelAll(lib: Library, domains: seq<string>): (r: seq<Option<seq<string>>>)
    ensures |r| == |domains|
  {
    seq(|domains|, i requires 0 <= i < |domains| => LabelsFor(lib, domains[i]))
  }

  /** The paths of the first `n` strings. */
  ghost function PathsUpTo(labels: seq<Option<seq<string>>>, n: nat): PathSet
    requires n <= |labels|
  {
    if n == 0 then {} else Added(PathsUpTo(labels, n - 1), labels[n - 1])
  }

  ghost predicate NewAt(labels: seq<Option<seq<string>>>, i: nat)
    requires i < |labels|
  {
    labels[i].Some? && FullPath(labels[i].value) !in PathsUpTo(labels, i)
  }

  ghost predicate NewUpTo(labels: seq<Option<seq<string>>>, n: nat)
    requires n <= |labels|
  {
    n > 0 ==> NewUpTo(labels, n - 1) && NewAt(labels, n - 1)
  }

  /** Every string normalises, and to a path none before it had: what compiling a list of domains demands. */
  ghost predicate AllNew(lib: Library, domains: seq<string>) {
    NewUpTo(LabelAll(lib, domains), |domains|)
  }

  lemma {:induction false} NewBefore(labels: seq<Option<seq<string>>>, m: nat, n: nat)
    requires m <= n <= |labels| && NewUpTo(labels, n)
    ensures NewUpTo(labels, m)
  {
    if m < n { NewBefore(labels, m, n - 1); }
  }

  ghost function PathsOf(lib: Library, domains: seq<string>): PathSet {
    PathsUpTo(LabelAll(lib, domains), |domains|)
  }

  lemma {:induction false} PathUpTo(labels: seq<Option<seq<string>>>, n: nat, p: Path)
    requires n <= |labels|
    ensures p in PathsUpTo(labels, n) <==> exists i | 0 <= i < n :: labels[i].Some? && FullPath(labels[i].value) == p
  {
    if n > 0 { PathUpTo(labels, n - 1, p); }
  }

  lemma {:induction false} NewUpToIff(labels: seq<Option<seq<string>>>, n: nat)
    requires n <= |labels|
    ensures NewUpTo(labels, n) <==>
      && (forall i | 0 <= i < n :: labels[i].Some?)
      && (forall i, j | 0 <= i < j < n && labels[i].Some? && labels[j].Some? ::
            FullPath(labels[i].value) != FullPath(labels[j].value))
  {
    if n > 0 {
      NewUpToIff(labels, n - 1);
      if labels[n - 1].Some? { PathUpTo(labels, n - 1, FullPath(labels[n - 1].value)); }
    }
  }

  /** The strings of a list compile exactly when each normalises and no two to the same labels. */
  lemma AllNewIff(lib: Library, domains: seq<string>)
    ensures AllNew(lib, domains) <==>
      && (forall i | 0 <= i < |domains| :: LabelsFor(lib, domains[i]).Some?)
      && (forall i, j | 0 <= i < j < |domains| && LabelsFor(lib, domains[i]).Some? ::
            LabelsFor(lib, domains[i]) != LabelsFor(lib, domains[j]))
  {
    var labels := LabelAll(lib, domains);
    assert forall i | 0 <= i < |domains| :: labels[i] == LabelsFor(lib, domains[i]);
    NewUpToIff(labels, |domains|);
    forall i, j | 0 <= i < j < |domains| && labels[i].Some? && labels[j].Some?
      ensures FullPath(labels[i].value) == FullPath(labels[j].value) <==> labels[i] == labels[j]
    {
      if FullPath(labels[i].value) == FullPath(labels[j].value) {
        LabelsOfPathOf(labels[i].value, |labels[i].value|);
        LabelsOfPathOf(labels[j].value, |labels[j].value|);
        assert labels[i].value[..|labels[i].value|] == labels[i].value;
        assert labels[j].value[..|labels[j].value|] == labels[j].value;
      }
    }
  }

  /** Its set covers a name exactly when one of the strings names a suffix of it. */
  lemma ListCovers(lib: Library, domains: seq<string>, p: Path)
    ensures p in PathsOf(lib, domains)
       <==> exists i | 0 <= i < |domains| ::
              LabelsFor(lib, domains[i]).Some? && FullPath(LabelsFor(lib, domains[i]).value) == p
  {
    var labels := LabelAll(lib, domains);
    assert forall i | 0 <= i < |domains| :: labels[i] == LabelsFor(lib, domains[i]);
    PathUpTo(labels, |domains|, p);
  }

  /** Adds each domain in turn, and gives up on one that adds nothing. */
  method BuildTrie(lib: Library, domains: seq<string>) returns (ok: bool, d: Domains)
    ensures fresh(d) && fresh(d.repr) && d.Valid()
    ensures ok <==> AllNew(lib, domains)
    ensures ok ==> d.paths == PathsOf(lib, domains)
  {
    ok, d := BuildFrom(LabelAll(lib, domains));
  }

  method BuildFrom(labels: seq<Option<seq<string>>>) returns (ok: bool, d: Domains)
    ensures fresh(d) && fresh(d.repr) && d.Valid()
    ensures ok <==> NewUpTo(labels, |labels|)
    ensures ok ==> d.paths == PathsUpTo(labels, |labels|)
  {
    d := new Domains();
    ok := AddInto(d, labels);
  }

  method AddInto(d: Domains, labels: seq<Option<seq<string>>>) returns (ok: bool)
    requires d.Valid() && d.paths == {}
    modifies d, d.repr
    ensures d.Valid() && fresh(d.repr - old(d.repr))
    ensures ok <==> NewUpTo(labels, |labels|)
    ensures ok ==> d.paths == PathsUpTo(labels, |labels|)
  {
    for i := 0 to |labels|
      invariant d.Valid() && fresh(d.repr - old(d.repr)) && d.paths == PathsUpTo(labels, i) && NewUpTo(labels, i)
    {
      var added := AddNext(d, labels, i);
      if !added {
        if NewUpTo(labels, |labels|) { NewBefore(labels, i + 1, |labels|); }
        return false;
      }
    }
    return true;
  }

  method AddNext(d: Domains, labels: seq<Option<seq<string>>>, i: nat) returns (added: bool)
    requires d.Valid() && i < |labels| && d.paths == PathsUpTo(labels, i)
    modifies d, d.repr
    ensures d.Valid() && d.paths == PathsUpTo(labels, i + 1) && fresh(d.repr - old(d.repr))
    ensures added <==> NewAt(labels, i)
  {
    added := d.AddLabels(labels[i]);
  }

  /** A configured group, with its schedules as they are written. */
  datatype RawGroup = RawGroup(name: string, blocklists: seq<string>, allowlist: seq<string>,
                               schedules: seq<RawSchedule>)
  datatype GroupView = GroupView(baseLists: seq<string>, schedules: seq<Schedule>, allow: PathSet)

  ghost predicate Compiles(lib: Library, raw: RawGroup) {
    raw.name != "" && AllNew(lib, raw.allowlist) && AllCompiled(lib, raw.schedules).Some?
  }

  ghost predicate AllCompile(lib: Library, raws: seq<RawGroup>) {
    raws == [] || (AllCompile(lib, raws[..|raws| - 1]) && Compiles(lib, raws[|raws| - 1]))
  }

  lemma {:induction false} AllCompileAt(lib: Library, raws: seq<RawGroup>, i: nat)
    requires AllCompile(lib, raws) && i < |raws|
    ensures Compiles(lib, raws[i])
  {
    if i < |raws| - 1 { AllCompileAt(lib, raws[..|raws| - 1], i); }
  }

  /** The compiled groups by name; a later group replaces an earlier one of the same name. */
  ghost function GroupViews(lib: Library, raws: seq<RawGroup>): map<string, GroupView>
    requires AllCompile(lib, raws)
  {
    if raws == [] then map[]
    else
      var raw := raws[|raws| - 1];
      GroupViews(lib, raws[..|raws| - 1])[raw.name := GroupViewOf(lib, raw)]
  }

  /** The last group of a name is the one compiled under it. */
  lemma {:induction false} LastGroupStands(lib: Library, raws: seq<RawGroup>, i: nat)
    requires AllCompile(lib, raws) && i < |raws| && forall j | i < j < |raws| :: raws[j].name != raws[i].name
    ensures raws[i].name in GroupViews(lib, raws)
    ensures var g := GroupViews(lib, raws)[raws[i].name];
      && g.baseLists == raws[i].blocklists
      && AllCompiled(lib, raws[i].schedules) == Some(g.schedules)
      && g.allow == PathsOf(lib, raws[i].allowlist)
  {
    var last := raws[|raws| - 1];
    assert GroupViews(lib, raws) == GroupViews(lib, raws[..|raws| - 1])[last.name := GroupViewOf(lib, last)];
    if i < |raws| - 1 { LastGroupStands(lib, raws[..|raws| - 1], i); }
  }

  ghost predicate GroupHolds(g: Group, foot: set<object>, v: GroupView)
    reads foot
  {
    g.baseLists == v.baseLists && g.schedules == v.schedules && Holds(g.allowTree, foot, v.allow)
  }

  ghost predicate GroupsHold(groups: map<string, Group>, foot: set<object>, views: map<string, GroupView>)
    reads foot
  {
    && groups.Keys == views.Keys
    && forall name {:trigger GroupAt(groups, foot, views, name)} :: GroupAt(groups, foot, views, name)
  }

  /** What the table says of one group; used where it is named. */
  ghost predicate GroupAt(groups: map<string, Group>, foot: set<object>, views: map<string, GroupView>, name: string)
    reads foot
  {
    name in groups ==> name in views && GroupHolds(groups[name], foot, views[name])
  }

  lemma GroupsWider(groups: map<string, Group>, foot: set<object>, more: set<object>, views: map<string, GroupView>)
    requires GroupsHold(groups, foot, views)
    ensures GroupsHold(groups, foot + more, views)
  {
    var wider := foot + more;
    forall name ensures GroupAt(groups, wider, views, name) { assert GroupAt(groups, foot, views, name); }
  }

  ghost function GroupViewOf(lib: Library, raw: RawGroup): GroupView
    requires AllCompiled(lib, raw.schedules).Some?
  {
    GroupView(raw.blocklists, AllCompiled(lib, raw.schedules).value, PathsOf(lib, raw.allowlist))
  }

  method CompileGroup(lib: Library, raw: RawGroup) returns (g: Option<Group>, ghost foot: set<object>)
    ensures fresh(foot) && (g.Some? <==> Compiles(lib, raw))
    ensures g.Some? ==> g.value.name == raw.name && GroupHolds(g.value, foot, GroupViewOf(lib, raw))
  {
    foot := {};
    if raw.name == "" { return None, foot; }
    var schedules := CompileSchedules(lib, raw.schedules);
    if schedules.None? { return None, foot; }
    var ok, tree := BuildTrie(lib, raw.allowlist);
    if !ok { return None, foot; }
    foot := {tree} + tree.repr;
    return Some(Group(raw.name, raw.blocklists, tree, schedules.value)), foot;
  }

  lemma GroupsGrow(groups: map<string, Group>, foot: set<object>, views: map<string, GroupView>,
                   g: Group, more: set<object>, view: GroupView)
    requires GroupsHold(groups, foot, views) && GroupHolds(g, more, view)
    ensures GroupsHold(groups[g.name := g], foot + more, views[g.name := view])
  {
    var wider, after, views' := foot + more, groups[g.name := g], views[g.name := view];
    GroupsWider(groups, foot, more, views);
    HoldsWider(g.allowTree, more, foot, view.allow);
    assert more + foot == wider;
    forall name ensures GroupAt(after, wider, views', name) { assert GroupAt(groups, wider, views, name); }
  }

  method CompileGroups(lib: Library, raws: seq<RawGroup>)
    returns (groups: Option<map<string, Group>>, ghost foot: set<object>)
    ensures fresh(foot)
    ensures groups.Some? <==> AllCompile(lib, raws) && "default" in GroupViews(lib, raws)
    ensures groups.Some? ==> GroupsHold(groups.value, foot, GroupViews(lib, raws))
  {
    var out: map<string, Group> := map[];
    foot := {};
    for i := 0 to |raws|
      invariant fresh(foot) && AllCompile(lib, raws[..i]) && GroupsHold(out, foot, GroupViews(lib, raws[..i]))
    {
      var g, more := CompileGroup(lib, raws[i]);
      if g.None? {
        if AllCompile(lib, raws) { AllCompileAt(lib, raws, i); }
        return None, {};
      }
      GroupsGrow(out, foot, GroupViews(lib, raws[..i]), g.value, more, GroupViewOf(lib, raws[i]));
      foot := foot + more;
      out := out[g.value.name := g.value];
      OneMoreGroup(lib, raws, i);
    }
    assert raws[..|raws|] == raws;
    if "default" !in out { return None, {}; }
    return Some(out), foot;
  }

  lemma OneMoreGroup(lib: Library, raws: seq<RawGroup>, i: nat)
    requires i < |raws| && AllCompile(lib, raws[..i]) && Compiles(lib, raws[i])
    ensures AllCompile(lib, raws[..i + 1])
    ensures GroupViews(lib, raws[..i + 1]) == GroupViews(lib, raws[..i])[raws[i].name := GroupViewOf(lib, raws[i])]
  {
    assert raws[..i + 1][..i] == raws[..i];
  }

  // ----- the engine

  /** The groups, the allowlist and the time zone of a configuration, or nothing when one of them does not compile. */
  method CompileConfig(lib: Library, c: Config)
    returns (groups: Option<map<string, Group>>, allow: Domains, ghost more: set<object>)
    ensures fresh(more) && fresh(allow) && fresh(allow.repr) && allow.Valid()
    ensures groups.Some? <==> ConfigCompiles(lib, c)
    ensures groups.Some? ==>
      GroupsHold(groups.value, more, GroupViews(lib, c.groups)) && allow.paths == PathsOf(lib, c.allowlist)
  {
    groups, more := CompileGroups(lib, c.groups);
    var built;
    built, allow := BuildTrie(lib, c.allowlist);
    if !built || c.tz.None? { groups := None; }
  }

  /** The engine with every trie replaced by the set it stands for. */
  datatype EngineView = EngineView(groups: map<string, GroupView>, lists: map<string, PathSet>, custom: PathSet,
                                   allow: PathSet, customAllow: PathSet, tz: int -> int)

  datatype ListConfig = ListConfig(id: string, enabled: bool)
  datatype Config = Config(groups: seq<RawGroup>, allowlist: seq<string>, tz: Option<int -> int>,
                           blocklists: seq<ListConfig>)

  function EnabledIds(lists: seq<ListConfig>): set<string> {
    set l | l in lists && l.enabled :: l.id
  }

  ghost predicate ConfigCompiles(lib: Library, c: Config) {
    && AllCompile(lib, c.groups) && "default" in GroupViews(lib, c.groups)
    && AllNew(lib, c.allowlist) && c.tz.Some?
  }

  ghost function OnlyEnabled(lists: map<string, PathSet>, blocklists: seq<ListConfig>): map<string, PathSet> {
    map id | id in lists && id in EnabledIds(blocklists) :: lists[id]
  }

  /** Of a reload exactly the lists stay that some entry of their id enables. */
  lemma EnabledStays(lists: map<string, PathSet>, blocklists: seq<ListConfig>, id: string)
    ensures id in OnlyEnabled(lists, blocklists)
       <==> id in lists && exists i | 0 <= i < |blocklists| :: blocklists[i].id == id && blocklists[i].enabled
    ensures id in OnlyEnabled(lists, blocklists) ==> OnlyEnabled(lists, blocklists)[id] == lists[id]
  {
    if i :| 0 <= i < |blocklists| && blocklists[i].id == id && blocklists[i].enabled {
      assert blocklists[i] in blocklists;
    }
  }

  lemma {:induction false} SchedulesCompileIff(lib: Library, raws: seq<RawSchedule>)
    ensures AllCompiled(lib, raws).Some? <==> forall i | 0 <= i < |raws| :: Compiled(lib, raws[i]).Some?
  {
    if raws != [] { SchedulesCompileIff(lib, raws[..|raws| - 1]); }
  }

  /** A group compiles if it has a name, its allowlist compiles and so does each of its schedules. */
  ghost predicate GroupCompiles(lib: Library, raw: RawGroup) {
    && raw.name != "" && AllNew(lib, raw.allowlist)
    && forall i | 0 <= i < |raw.schedules| :: ScheduleCompiles(lib, raw.schedules[i])
  }

  ghost predicate ScheduleCompiles(lib: Library, raw: RawSchedule) {
    raw.days != [] && AllKnown(lib, raw.days) && lib.parseClock(raw.start).Some? && lib.parseClock(raw.stop).Some?
  }

  lemma GroupCompilesIff(lib: Library, raw: RawGroup)
    ensures Compiles(lib, raw) <==> GroupCompiles(lib, raw)
  {
    SchedulesCompileIff(lib, raw.schedules);
    forall i | 0 <= i < |raw.schedules|
      ensures Compiled(lib, raw.schedules[i]).Some? <==> ScheduleCompiles(lib, raw.schedules[i])
    {
      BitsMeaning(lib, raw.schedules[i].days);
    }
  }

  lemma {:induction false} AllCompileIf(lib: Library, raws: seq<RawGroup>)
    requires forall i | 0 <= i < |raws| :: GroupCompiles(lib, raws[i])
    ensures AllCompile(lib, raws)
  {
    if raws != [] {
      var before := raws[..|raws| - 1];
      forall i | 0 <= i < |before| ensures GroupCompiles(lib, before[i]) { assert before[i] == raws[i]; }
      AllCompileIf(lib, before);
      GroupCompilesIff(lib, raws[|raws| - 1]);
    }
  }

  lemma {:induction false} GroupIsNamed(lib: Library, raws: seq<RawGroup>, name: string) returns (i: nat)
    requires AllCompile(lib, raws) && name in GroupViews(lib, raws)
    ensures i < |raws| && raws[i].name == name
  {
    i := |raws| - 1;
    if raws[i].name != name { i := GroupIsNamed(lib, raws[..i], name); }
  }

  lemma {:induction false} NamedIsGroup(lib: Library, raws: seq<RawGroup>, i: nat)
    requires AllCompile(lib, raws) && i < |raws|
    ensures raws[i].name in GroupViews(lib, raws)
  {
    if i < |raws| - 1 { NamedIsGroup(lib, raws[..|raws| - 1], i); }
  }

  /** A configuration compiles exactly when each group does, one of them is the default, and so do the rest. */
  lemma ConfigCompilesIff(lib: Library, c: Config)
    ensures ConfigCompiles(lib, c) <==>
      && (forall i | 0 <= i < |c.groups| :: GroupCompiles(lib, c.groups[i]))
      && (exists i | 0 <= i < |c.groups| :: c.groups[i].name == "default")
      && AllNew(lib, c.allowlist) && c.tz.Some?
  {
    if AllCompile(lib, c.groups) {
      forall i | 0 <= i < |c.groups| ensures GroupCompiles(lib, c.groups[i]) {
        AllCompileAt(lib, c.groups, i);
        GroupCompilesIff(lib, c.groups[i]);
      }
      if "default" in GroupViews(lib, c.groups) { var i := GroupIsNamed(lib, c.groups, "default"); }
      if i :| 0 <= i < |c.groups| && c.groups[i].name == "default" { NamedIsGroup(lib, c.groups, i); }
    }
    if forall i | 0 <= i < |c.groups| :: GroupCompiles(lib, c.groups[i]) { AllCompileIf(lib, c.groups); }
  }

  /** What a reload does: configuration-derived state is replaced, disabled lists go, custom lists stay. */
  ghost function Reloaded(lib: Library, v: EngineView, c: Config): EngineView
    requires ConfigCompiles(lib, c)
  {
    EngineView(GroupViews(lib, c.groups), OnlyEnabled(v.lists, c.blocklists), v.custom, PathsOf(lib, c.allowlist),
      v.customAllow, c.tz.value)
  }

  /** What a client resolved to `resolved` sees of the engine. */
  ghost function ViewFor(v: EngineView, resolved: string): Option<View> {
    var name := if resolved != "" then resolved else "default";
    var chosen := if name in v.groups then name else "default";
    if chosen in v.groups then
      var g := v.groups[chosen];
      Some(View(g.baseLists, g.schedules, g.allow, v.lists, v.custom, v.allow, v.customAllow, v.tz))
    else None
  }

  /** Changes a copy and leaves the original alone. */
  method CopyAndAdd(lib: Library, d: Domains, domain: string) returns (copy: Domains, added: bool)
    requires d.Valid()
    ensures fresh(copy) && fresh(copy.repr) && copy.Valid() && copy.paths == Added(d.paths, LabelsFor(lib, domain))
    ensures added <==> copy.paths != d.paths
  {
    copy := d.Clone();
    added := copy.Add(lib, domain);
  }

  method CopyAndDelete(lib: Library, d: Domains, domain: string) returns (copy: Domains, deleted: bool)
    requires d.Valid()
    ensures fresh(copy) && fresh(copy.repr) && copy.Valid() && copy.paths == Deleted(d.paths, LabelsFor(lib, domain))
    ensures deleted <==> copy.paths != d.paths
  {
    copy := d.Clone();
    deleted := copy.Delete(lib, domain);
  }

  /** These fields lie within `foot` and stand for the view. */
  ghost predicate Fits(groups: map<string, Group>, lists: ListTable, custom: Domains, allowlist: Domains,
                       customAllow: Domains, tz: int -> int, foot: set<object>, view: EngineView)
    reads foot
  {
    && GroupsHold(groups, foot, view.groups) && ListsHold(lists, foot, view.lists) && tz == view.tz
    && Holds(custom, foot, view.custom) && Holds(allowlist, foot, view.allow)
      && Holds(customAllow, foot, view.customAllow)
  }

  lemma FitsWider(groups: map<string, Group>, lists: ListTable, custom: Domains, allowlist: Domains,
                  customAllow: Domains, tz: int -> int, foot: set<object>, view: EngineView, more: set<object>)
    requires Fits(groups, lists, custom, allowlist, customAllow, tz, foot, view)
    ensures Fits(groups, lists, custom, allowlist, customAllow, tz, foot + more, view)
  {
    GroupsWider(groups, foot, more, view.groups);
    ListsWider(lists, foot, more, view.lists);
    HoldsWider(custom, foot, more, view.custom);
    HoldsWider(allowlist, foot, more, view.allow);
    HoldsWider(customAllow, foot, more, view.customAllow);
  }

  lemma RegroupedFits(before: map<string, Group>, groups: map<string, Group>, lists: ListTable, custom: Domains,
                      allowlist: Domains, customAllow: Domains, tz: int -> int, foot: set<object>, view: EngineView,
                      views: map<string, GroupView>)
    requires Fits(before, lists, custom, allowlist, customAllow, tz, foot, view) && GroupsHold(groups, foot, views)
    ensures Fits(groups, lists, custom, allowlist, customAllow, tz, foot, view.(groups := views))
  {
  }

  class Engine {
    const lib: Library
    var groups: map<string, Group>
    var lists: ListTable
    var custom: Domains
    var allowlist: Domains
    var customAllow: Domains
    var tz: int -> int
    /** The sets the engine stands for. */
    ghost var view: EngineView
    /** Every table, trie and node the engine or one of its snapshots may refer to. */
    ghost var foot: set<object>

    ghost predicate Valid()
      reads this, foot
    {
      this !in foot && Fits(groups, lists, custom, allowlist, customAllow, tz, foot, view)
    }

    constructor (lib: Library, groups: map<string, Group>, lists: ListTable, custom: Domains, allowlist: Domains,
                 customAllow: Domains, tz: int -> int, ghost foot: set<object>, ghost view: EngineView)
      requires Fits(groups, lists, custom, allowlist, customAllow, tz, foot, view)
      ensures Valid() && this.lib == lib && this.foot == foot && this.view == view
    {
      this.lib, this.groups, this.lists, this.custom := lib, groups, lists, custom;
      this.allowlist, this.customAllow, this.tz := allowlist, customAllow, tz;
      this.foot, this.view := foot, view;
    }

    /** A snapshot for a client that the resolver puts in group `resolved`. */
    method For(resolved: string) returns (p: Policy)
      requires Valid()
      ensures p.group.Some? <==> ViewFor(view, resolved).Some?
      ensures p.group.Some? ==> Denotes(p, foot, ViewFor(view, resolved).value)
    {
      var groupName := "default";
      if resolved != "" { groupName := resolved; }
      var group := if groupName in groups then Some(groups[groupName])
                   else if "default" in groups then Some(groups["default"]) else None;
      assert GroupAt(groups, foot, view.groups, groupName) && GroupAt(groups, foot, view.groups, "default");
      p := Policy(group, lists, custom, allowlist, customAllow, tz);
    }

    /** A new table or trie that joins the footprint leaves what was there as it was. */
    method Admit(ghost more: set<object>)
      requires Valid() && this !in more
      modifies this`foot
      ensures Valid() && foot == old(foot) + more
    {
      FitsWider(groups, lists, custom, allowlist, customAllow, tz, foot, view, more);
      foot := foot + more;
    }

    method SetLists(table: ListTable, ghost sets: map<string, PathSet>)
      requires Valid() && ListsHold(table, foot, sets)
      modifies this`lists, this`view
      ensures Valid() && view == old(view).(lists := sets)
    {
      assert Fits(groups, table, custom, allowlist, customAllow, tz, foot, view.(lists := sets));
      lists, view := table, view.(lists := sets);
    }

    method SetCustom(d: Domains)
      requires Valid() && Holds(d, foot, d.paths)
      modifies this`custom, this`view
      ensures Valid() && view == old(view).(custom := d.paths)
    {
      ghost var after := view.(custom := d.paths);
      assert Fits(groups, lists, d, allowlist, customAllow, tz, foot, after);
      custom, view := d, after;
    }

    method SetCustomAllow(d: Domains)
      requires Valid() && Holds(d, foot, d.paths)
      modifies this`customAllow, this`view
      ensures Valid() && view == old(view).(customAllow := d.paths)
    {
      ghost var after := view.(customAllow := d.paths);
      assert Fits(groups, lists, custom, allowlist, d, tz, foot, after);
      customAllow, view := d, after;
    }

    method SetAllowlist(d: Domains)
      requires Valid() && Holds(d, foot, d.paths)
      modifies this`allowlist, this`view
      ensures Valid() && view == old(view).(allow := d.paths)
    {
      ghost var after := view.(allow := d.paths);
      assert Fits(groups, lists, custom, d, customAllow, tz, foot, after);
      allowlist, view := d, after;
    }

    method SetGroups(groups: map<string, Group>, ghost views: map<string, GroupView>)
      requires Valid() && GroupsHold(groups, foot, views)
      modifies this`groups, this`view
      ensures Valid() && view == old(view).(groups := views)
    {
      ghost var after := view.(groups := views);
      RegroupedFits(this.groups, groups, lists, custom, allowlist, customAllow, tz, foot, view, views);
      this.groups, view := groups, after;
      assert Fits(groups, lists, custom, allowlist, customAllow, tz, foot, after);
    }

    method SetTimeZone(tz: int -> int)
      requires Valid()
      modifies this`tz, this`view
      ensures Valid() && view == old(view).(tz := tz)
    {
      ghost var after := view.(tz := tz);
      assert Fits(groups, lists, custom, allowlist, customAllow, tz, foot, after);
      this.tz, view := tz, after;
    }

    /** Swaps one compiled list in, or out when there is none; the shared table is copied, never changed. */
    method ReplaceList(id: string, domains: Domains?)
      requires Valid() && (domains != null ==> domains.Valid())
      modifies this`lists, this`view, this`foot
      ensures Valid() && foot >= old(foot)
      ensures view == old(view).(lists := if domains == null then old(view).lists - {id}
        else old(view).lists[id := domains.paths])
    {
      if domains == null {
        DropLists({id});
      } else {
        AdoptList(id, domains);
      }
    }

    /** A trie that joins the footprint. */
    method AdmitTrie(d: Domains)
      requires Valid() && d.Valid()
      modifies this`foot
      ensures Valid() && foot >= old(foot) && Holds(d, foot, d.paths)
    {
      Admit({d} + d.repr);
    }

    method AdoptList(id: string, d: Domains)
      requires Valid() && d.Valid()
      modifies this`lists, this`view, this`foot
      ensures Valid() && foot >= old(foot) && view == old(view).(lists := old(view).lists[id := d.paths])
    {
      AdmitTrie(d);
      PutList(id, d);
    }

    /** A copy of the table with one more list. */
    method PutList(id: string, domains: Domains)
      requires Valid() && Holds(domains, foot, domains.paths)
      modifies this`lists, this`view, this`foot
      ensures Valid() && foot >= old(foot) && view == old(view).(lists := old(view).lists[id := domains.paths])
    {
      var table := new ListTable(lists.entries[id := domains]);
      Admit({table});
      ListsPut(lists, table, foot, view.lists, id, domains, domains.paths);
      SetLists(table, view.lists[id := domains.paths]);
    }

    /** A copy of the table without these ids. */
    method DropLists(ids: set<string>)
      requires Valid()
      modifies this`lists, this`view, this`foot
      ensures Valid() && foot >= old(foot) && view == old(view).(lists := old(view).lists - ids)
    {
      var table := new ListTable(lists.entries - ids);
      Admit({table});
      ListsDropped(lists, table, foot, view.lists, ids);
      SetLists(table, view.lists - ids);
    }

    method AdoptCustom(d: Domains)
      requires Valid() && d.Valid()
      modifies this`custom, this`view, this`foot
      ensures Valid() && foot >= old(foot) && view == old(view).(custom := d.paths)
    {
      AdmitTrie(d);
      SetCustom(d);
    }

    method AdoptCustomAllow(d: Domains)
      requires Valid() && d.Valid()
      modifies this`customAllow, this`view, this`foot
      ensures Valid() && foot >= old(foot) && view == old(view).(customAllow := d.paths)
    {
      AdmitTrie(d);
      SetCustomAllow(d);
    }

    method AddCustomBlock(domain: string) returns (added: bool)
      requires Valid()
      modifies this`custom, this`view, this`foot
      ensures Valid() && foot >= old(foot)
      ensures view == old(view).(custom := Added(old(view).custom, LabelsFor(lib, domain)))
      ensures added <==> view.custom != old(view).custom
    {
      var copy;
      copy, added := CopyAndAdd(lib, custom, domain);
      if added { AdoptCustom(copy); }
    }

    method RemoveCustomBlock(domain: string)
      requires Valid()
      modifies this`custom, this`view, this`foot
      ensures Valid() && foot >= old(foot)
      ensures view == old(view).(custom := Deleted(old(view).custom, LabelsFor(lib, domain)))
    {
      var copy, deleted := CopyAndDelete(lib, custom, domain);
      if deleted { AdoptCustom(copy); }
    }

    method AddCustomAllow(domain: string) returns (added: bool)
      requires Valid()
      modifies this`customAllow, this`view, this`foot
      ensures Valid() && foot >= old(foot)
      ensures view == old(view).(customAllow := Added(old(view).customAllow, LabelsFor(lib, domain)))
      ensures added <==> view.customAllow != old(view).customAllow
    {
      var copy;
      copy, added := CopyAndAdd(lib, customAllow, domain);
      if added { AdoptCustomAllow(copy); }
    }

    method RemoveCustomAllow(domain: string)
      requires Valid()
      modifies this`customAllow, this`view, this`foot
      ensures Valid() && foot >= old(foot)
      ensures view == old(view).(customAllow := Deleted(old(view).customAllow, LabelsFor(lib, domain)))
    {
      var copy, deleted := CopyAndDelete(lib, customAllow, domain);
      if deleted { AdoptCustomAllow(copy); }
    }

    /** The ids in the table that the configuration does not enable. */
    static method DisabledIds(ids: set<string>, enabled: set<string>) returns (disabled: set<string>)
      ensures disabled == ids - enabled
    {
      disabled := {};
      var rest := ids;
      while rest != {}
        invariant rest <= ids && disabled == ids - rest - enabled
        decreases |rest|
      {
        var id :| id in rest;
        rest := rest - {id};
        if id !in enabled { disabled := disabled + {id}; }
      }
    }

    lemma ListKeys()
      requires Valid()
      ensures lists.entries.Keys == view.lists.Keys
    {
    }

    method RemoveDisabledLists(blocklists: seq<ListConfig>)
      requires Valid()
      modifies this`lists, this`view, this`foot
      ensures Valid() && foot >= old(foot)
      ensures view == old(view).(lists := OnlyEnabled(old(view).lists, blocklists))
    {
      ListKeys();
      var disabled := DisabledIds(lists.entries.Keys, EnabledIds(blocklists));
      OnlyEnabledIsDifference(view.lists, disabled, blocklists);
      if disabled != {} { DropLists(disabled); }
    }

    method AdoptAllowlist(d: Domains)
      requires Valid() && d.Valid()
      modifies this`allowlist, this`view, this`foot
      ensures Valid() && foot >= old(foot) && view == old(view).(allow := d.paths)
    {
      AdmitTrie(d);
      SetAllowlist(d);
    }

    method AdoptGroups(groups: map<string, Group>, ghost more: set<object>, ghost views: map<string, GroupView>)
      requires Valid() && this !in more && GroupsHold(groups, more, views)
      modifies this`groups, this`view, this`foot
      ensures Valid() && foot >= old(foot) && view == old(view).(groups := views)
    {
      ghost var before := foot;
      Admit(more);
      GroupsWider(groups, more, before, views);
      assert more + before == foot;
      SetGroups(groups, views);
    }

    method AdoptConfig(groups: map<string, Group>, allow: Domains, tz: int -> int, ghost more: set<object>,
                       ghost views: map<string, GroupView>)
      requires Valid() && this !in more && GroupsHold(groups, more, views) && allow.Valid()
      modifies this`groups, this`allowlist, this`tz, this`view, this`foot
      ensures Valid() && foot >= old(foot)
      ensures view == old(view).(groups := views, allow := allow.paths, tz := tz)
    {
      AdoptGroups(groups, more, views);
      AdoptAllowlist(allow);
      SetTimeZone(tz);
    }

    /** Recompiles configuration-derived policy; an error leaves the engine as it was. */
    method ReloadConfig(c: Config) returns (ok: bool)
      requires Valid()
      modifies this`groups, this`lists, this`allowlist, this`tz, this`view, this`foot
      ensures Valid() && foot >= old(foot)
      ensures ok <==> ConfigCompiles(lib, c)
      ensures view == if ok then Reloaded(lib, old(view), c) else old(view)
      ensures view.custom == old(view).custom && view.customAllow == old(view).customAllow
      ensures ok ==> Some(view.tz) == c.tz && view.allow == PathsOf(lib, c.allowlist)
    {
      var groups, allow, more := CompileConfig(lib, c);
      if groups.None? { return false; }
      AdoptConfig(groups.value, allow, c.tz.value, more, GroupViews(lib, c.groups));
      RemoveDisabledLists(c.blocklists);
      return true;
    }
  }

  lemma OnlyEnabledIsDifference(lists: map<string, PathSet>, disabled: set<string>, blocklists: seq<ListConfig>)
    requires disabled == lists.Keys - EnabledIds(blocklists)
    ensures OnlyEnabled(lists, blocklists) == lists - disabled
    ensures disabled == {} ==> OnlyEnabled(lists, blocklists) == lists
  {
  }

  /** No list is downloaded yet and the custom lists are empty. */
  method NewEngine(lib: Library, c: Config) returns (e: Engine?)
    ensures e != null <==> ConfigCompiles(lib, c)
    ensures e != null ==>
      && fresh(e) && e.Valid() && e.lib == lib
      && e.view == EngineView(GroupViews(lib, c.groups), map[], {}, PathsOf(lib, c.allowlist), {}, c.tz.value)
  {
    var groups, allow, more := CompileConfig(lib, c);
    if groups.None? { return null; }
    e := StartEngine(lib, c.tz.value);
    e.AdoptConfig(groups.value, allow, c.tz.value, more, GroupViews(lib, c.groups));
  }

  method EmptySet() returns (d: Domains, ghost made: set<object>)
    ensures fresh(made) && Holds(d, made, {})
  {
    d := new Domains();
    made := {d} + d.repr;
  }

  method EmptyEngine(lib: Library, tz: int -> int) returns (e: Engine)
    ensures fresh(e) && e.Valid() && e.lib == lib
    ensures e.view == EngineView(map[], map[], {}, {}, {}, tz)
  {
    var table := new ListTable(map[]);
    var d, made := EmptySet();
    HoldsWider(d, made, {table}, {});
    e := new Engine(lib, map[], table, d, d, d, tz, made + {table}, EngineView(map[], map[], {}, {}, {}, tz));
  }

  /** An engine with its own empty custom lists. */
  method StartEngine(lib: Library, tz: int -> int) returns (e: Engine)
    ensures fresh(e) && e.Valid() && e.lib == lib
    ensures e.view == EngineView(map[], map[], {}, {}, {}, tz)
  {
    e := EmptyEngine(lib, tz);
    ResetCustom(e);
    ResetCustomAllow(e);
  }

  method ResetCustom(e: Engine)
    requires e.Valid()
    modifies e
    ensures e.Valid() && e.view == old(e.view).(custom := {})
  {
    var custom := new Domains();
    e.AdoptCustom(custom);
  }

  method ResetCustomAllow(e: Engine)
    requires e.Valid()
    modifies e
    ensures e.Valid() && e.view == old(e.view).(customAllow := {})
  {
    var customAllow := new Domains();
    e.AdoptCustomAllow(customAllow);
  }

  // ----- snapshot isolation

  /** Anything that may happen to the engine after a snapshot was taken. */
  datatype Update =
    | ReplaceListUpdate(id: string, domains: Domains?)
    | AddBlock(domain: string)
    | RemoveBlock(domain: string)
    | AddAllow(domain: string)
    | RemoveAllow(domain: string)
    | Reload(config: Config)

  /** Tries handed over are well-formed. */
  ghost predicate HandedOver(u: Update, given: set<object>)
    reads given
  {
    u.ReplaceListUpdate? && u.domains != null ==> u.domains in given && u.domains.repr <= given && u.domains.Valid()
  }

  ghost predicate AllHandedOver(updates: seq<Update>, given: set<object>)
    reads given
  {
    forall i | 0 <= i < |updates| :: HandedOver(updates[i], given)
  }

  method Apply(e: Engine, u: Update, ghost given: set<object>)
    requires e.Valid() && HandedOver(u, given)
    modifies e
    ensures e.Valid() && e.foot >= old(e.foot)
  {
    match u
    case ReplaceListUpdate(id, domains) => e.ReplaceList(id, domains);
    case AddBlock(domain) => var _ := e.AddCustomBlock(domain);
    case RemoveBlock(domain) => e.RemoveCustomBlock(domain);
    case AddAllow(domain) => var _ := e.AddCustomAllow(domain);
    case RemoveAllow(domain) => e.RemoveCustomAllow(domain);
    case Reload(config) => var _ := e.ReloadConfig(config);
  }

  method ApplyAll(e: Engine, updates: seq<Update>, ghost given: set<object>)
    requires e.Valid() && e !in given && AllHandedOver(updates, given)
    modifies e
    ensures e.Valid()
  {
    if updates != [] {
      Apply(e, updates[0], given);
      ApplyAll(e, updates[1..], given);
    }
  }

  /** The declarative decision for a client: unknown groups without a default block nothing. */
  ghost function DecideFor(lib: Library, v: EngineView, resolved: string, qname: string, now: int): Decision {
    match ViewFor(v, resolved)
    case Some(client) => Decide(lib, client, qname, now)
    case None => Allowed
  }

  /** The group a client is judged by: the one it is resolved to if there is such a group, else the default group. */
  ghost predicate JudgedBy(v: EngineView, resolved: string, g: GroupView) {
    if resolved != "" && resolved in v.groups then g == v.groups[resolved]
    else "default" in v.groups && g == v.groups["default"]
  }

  /** The decision on the engine's sets: by the client's group, or allowed when it has none. */
  ghost predicate DecidesFor(lib: Library, v: EngineView, resolved: string, qname: string, now: int, d: Decision) {
    && (forall g | JudgedBy(v, resolved, g) ::
          Decides(lib, View(g.baseLists, g.schedules, g.allow, v.lists, v.custom, v.allow, v.customAllow, v.tz), qname,
                  now, d))
    && ((forall g :: !JudgedBy(v, resolved, g)) ==> d == Allowed)
  }

  lemma DecideForDecides(lib: Library, v: EngineView, resolved: string, qname: string, now: int)
    ensures DecidesFor(lib, v, resolved, qname, now, DecideFor(lib, v, resolved, qname, now))
  {
    if ViewFor(v, resolved).Some? {
      DecideDecides(lib, ViewFor(v, resolved).value, qname, now);
      var name := if resolved != "" && resolved in v.groups then resolved else "default";
      assert JudgedBy(v, resolved, v.groups[name]);
    }
  }

  /** A snapshot and the part of the heap it depends on, which the engine itself is not in. */
  method TakeSnapshot(e: Engine, resolved: string) returns (p: Policy, ghost foot: set<object>, ghost v: View)
    requires e.Valid()
    ensures e !in foot
    ensures p.group.Some? <==> ViewFor(e.view, resolved).Some?
    ensures p.group.Some? ==> ViewFor(e.view, resolved) == Some(v) && Denotes(p, foot, v)
  {
    p := e.For(resolved);
    foot := e.foot;
    v := if p.group.Some? then ViewFor(e.view, resolved).value else View([], [], {}, map[], {}, {}, {}, p.tz);
  }

  /** Updates leave what a snapshot stands for as it was. */
  method RunUpdates(e: Engine, updates: seq<Update>, ghost given: set<object>)
    requires e.Valid() && e !in given && AllHandedOver(updates, given)
    modifies e
  {
    ApplyAll(e, updates, given);
  }

  method UpdateAfterSnapshot(e: Engine, updates: seq<Update>, p: Policy, ghost given: set<object>,
                             ghost foot: set<object>, ghost v: View)
    requires e.Valid() && e !in given && AllHandedOver(updates, given)
    requires e !in foot && Denotes(p, foot, v)
    modifies e
    ensures Denotes(p, foot, v)
  {
    RunUpdates(e, updates, given);
  }

  /** Whatever updates follow, a snapshot decides by the sets as they stood when it was taken. */
  method EvaluateLater(e: Engine, resolved: string, updates: seq<Update>, qname: string, now: int,
                       ghost given: set<object>)
    returns (d: Decision)
    requires e.Valid() && e !in given && AllHandedOver(updates, given)
    modifies e
    ensures d == DecideFor(e.lib, old(e.view), resolved, qname, now)
    ensures DecidesFor(e.lib, old(e.view), resolved, qname, now, d)
  {
    DecideForDecides(e.lib, e.view, resolved, qname, now);
    var p, foot, v := TakeSnapshot(e, resolved);
    if p.group.None? {
      ApplyAll(e, updates, given);
      return Allowed;
    }
    UpdateAfterSnapshot(e, updates, p, given, foot, v);
    d := Evaluate(e.lib, p, qname, now, foot, v);
  }
}

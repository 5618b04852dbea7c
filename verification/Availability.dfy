// Weekly availability: validation of rules and the stored schedules.
module Availability {
  import opened Text
  import opened Wrappers
  import opened Zones
  import opened Sorting
  import opened SlotEngine
  import opened GridOrder

  // ---------------------------------------------------------------------------
  // Pairs of a list, whatever its order
  // ---------------------------------------------------------------------------

  ghost predicate Disjoint(rules: seq<Rule>) {
    forall i, j :: 0 <= i < j < |rules| && rules[i].dayOfWeek == rules[j].dayOfWeek ==> RangesApart(rules[i], rules[j])
  }

  /** The same, over the pairs the list holds. */
  ghost predicate PairsApart(rules: multiset<Rule>) {
    forall a, b :: multiset{a, b} <= rules && a.dayOfWeek == b.dayOfWeek ==> RangesApart(a, b)
  }

  lemma {:induction false} TwoPlaces(s: seq<Rule>, a: Rule, b: Rule)
    requires multiset{a, b} <= multiset(s)
    ensures exists i, j :: 0 <= i < j < |s| && ((s[i] == a && s[j] == b) || (s[i] == b && s[j] == a))
    decreases |s|
  {
    assert multiset{a, b}[a] >= 1 && multiset{a, b}[b] >= 1;
    var t := s[1..];
    assert s == [s[0]] + t;
    if s[0] == a {
      assert multiset(t)[b] >= 1 by { assert multiset(s)[b] >= multiset{a, b}[b]; }
      var j :| 0 <= j < |t| && t[j] == b;
      assert s[0] == a && s[j + 1] == b;
    } else if s[0] == b {
      assert multiset(t)[a] >= 1;
      var j :| 0 <= j < |t| && t[j] == a;
      assert s[0] == b && s[j + 1] == a;
    } else {
      assert multiset{a, b} <= multiset(t);
      TwoPlaces(t, a, b);
      var i, j :| 0 <= i < j < |t| && ((t[i] == a && t[j] == b) || (t[i] == b && t[j] == a));
      assert s[i + 1] == t[i] && s[j + 1] == t[j];
    }
  }

  lemma TwoElements(s: seq<Rule>, i: nat, j: nat)
    requires i < j < |s|
    ensures multiset{s[i], s[j]} <= multiset(s)
  {
    assert s == s[..i] + ([s[i]] + (s[i + 1..j] + ([s[j]] + s[j + 1..])));
  }

  lemma DisjointPairs(s: seq<Rule>)
    ensures Disjoint(s) <==> PairsApart(multiset(s))
  {
    hide MinutesOf;
    if Disjoint(s) {
      forall a, b | multiset{a, b} <= multiset(s) && a.dayOfWeek == b.dayOfWeek ensures RangesApart(a, b) {
        TwoPlaces(s, a, b);
      }
    }
    if PairsApart(multiset(s)) {
      forall i, j | 0 <= i < j < |s| && s[i].dayOfWeek == s[j].dayOfWeek ensures RangesApart(s[i], s[j]) {
        TwoElements(s, i, j);
      }
    }
  }

  lemma {:induction false} DayCounts(rules: seq<Rule>, d: int, x: Rule)
    ensures multiset(RulesOn(rules, d))[x] == if x.dayOfWeek == d then multiset(rules)[x] else 0
    decreases |rules|
  {
    if rules != [] {
      DayCounts(rules[..|rules| - 1], d, x);
      assert rules == rules[..|rules| - 1] + [rules[|rules| - 1]];
    }
  }

  lemma PairOfDay(rules: seq<Rule>, d: int, a: Rule, b: Rule)
    ensures multiset{a, b} <= multiset(RulesOn(rules, d)) ==> multiset{a, b} <= multiset(rules)
    ensures multiset{a, b} <= multiset(rules) && a.dayOfWeek == b.dayOfWeek == d ==> multiset{a, b} <= multiset(RulesOn(rules, d))
  {
    hide RulesOn;
    forall x ensures multiset(RulesOn(rules, d))[x] == if x.dayOfWeek == d then multiset(rules)[x] else 0 {
      DayCounts(rules, d, x);
    }
  }

  /** The rules of a day in the order validation compares them. */
  function DayOf(rules: seq<Rule>, d: int): seq<Rule> {
    Sort(RulesOn(rules, d), RuleLess)
  }

  lemma DayHoldsPairs(rules: seq<Rule>, d: int, a: Rule, b: Rule)
    ensures multiset{a, b} <= multiset(DayOf(rules, d)) ==> multiset{a, b} <= multiset(rules)
    ensures multiset{a, b} <= multiset(rules) && a.dayOfWeek == b.dayOfWeek == d ==> multiset{a, b} <= multiset(DayOf(rules, d))
  {
    SortPermutes(RulesOn(rules, d), RuleLess);
    PairOfDay(rules, d, a, b);
  }

  lemma DayIsDisjoint(rules: seq<Rule>, d: int)
    requires Disjoint(rules)
    ensures Disjoint(DayOf(rules, d))
  {
    hide DayOf, RangesApart;
    DisjointPairs(rules);
    DisjointPairs(DayOf(rules, d));
    forall a, b | multiset{a, b} <= multiset(DayOf(rules, d)) && a.dayOfWeek == b.dayOfWeek ensures RangesApart(a, b) {
      DayHoldsPairs(rules, d, a, b);
    }
  }

  lemma DaysAreDisjoint(rules: seq<Rule>)
    requires forall d :: Disjoint(DayOf(rules, d))
    ensures Disjoint(rules)
  {
    hide DayOf, RangesApart, Disjoint;
    DisjointPairs(rules);
    forall a, b | multiset{a, b} <= multiset(rules) && a.dayOfWeek == b.dayOfWeek ensures RangesApart(a, b) {
      DayHoldsPairs(rules, a.dayOfWeek, a, b);
      DisjointPairs(DayOf(rules, a.dayOfWeek));
    }
  }

  // ---------------------------------------------------------------------------
  // Neighbours of a sorted day
  // ---------------------------------------------------------------------------

  predicate EachOrdered(rules: seq<Rule>) {
    forall i :: 0 <= i < |rules| ==> MinutesOf(rules[i].startTime) < MinutesOf(rules[i].endTime)
  }

  predicate NeighboursApart(sorted: seq<Rule>) {
    forall i :: 0 <= i < |sorted| - 1 ==> MinutesOf(sorted[i].endTime) <= MinutesOf(sorted[i + 1].startTime)
  }

  lemma {:induction false} NeighboursReach(sorted: seq<Rule>, i: nat, j: nat)
    requires EachOrdered(sorted) && NeighboursApart(sorted) && i < j < |sorted|
    ensures MinutesOf(sorted[i].endTime) <= MinutesOf(sorted[j].startTime)
    decreases j - i
  {
    hide MinutesOf;
    if i + 1 < j { NeighboursReach(sorted, i, j - 1); }
  }

  /** In a day sorted by start, comparing neighbours decides disjointness. */
  lemma NeighboursDecide(sorted: seq<Rule>)
    requires EachOrdered(sorted) && Sorted(sorted, RuleLess)
    requires forall i, j :: 0 <= i < j < |sorted| ==> sorted[i].dayOfWeek == sorted[j].dayOfWeek
    ensures NeighboursApart(sorted) <==> Disjoint(sorted)
  {
    hide MinutesOf, StringLess;
    if NeighboursApart(sorted) {
      forall i, j | 0 <= i < j < |sorted| ensures RangesApart(sorted[i], sorted[j]) {
        NeighboursReach(sorted, i, j);
      }
    }
    if Disjoint(sorted) {
      forall i | 0 <= i < |sorted| - 1 ensures MinutesOf(sorted[i].endTime) <= MinutesOf(sorted[i + 1].startTime) {
        assert RangesApart(sorted[i], sorted[i + 1]);
        assert !RuleLess(sorted[i + 1], sorted[i]);
        TimesAscend(sorted[i + 1].startTime, sorted[i].startTime);
      }
    }
  }

  lemma DayDecides(rules: seq<Rule>, d: int)
    requires EachOrdered(rules)
    ensures NeighboursApart(DayOf(rules, d)) <==> Disjoint(DayOf(rules, d))
  {
    hide MinutesOf, StringLess, NeighboursApart, Disjoint, RulesOn, Sort;
    var sorted := Sort(RulesOn(rules, d), RuleLess);
    SortKeepsMembers(RulesOn(rules, d), RuleLess);
    RuleLessOrders();
    SortSorts(RulesOn(rules, d), RuleLess);
    forall i | 0 <= i < |sorted| ensures sorted[i] in rules && sorted[i].dayOfWeek == d {
      assert sorted[i] in sorted;
    }
    NeighboursDecide(sorted);
  }

  // ---------------------------------------------------------------------------
  // validateRules
  // ---------------------------------------------------------------------------

  lemma NoRules(rules: seq<Rule>)
    requires rules == []
    ensures forall d :: RulesOn(rules, d) == []
  {
  }

  lemma OneMoreRule(rules: seq<Rule>, i: nat)
    requires i < |rules|
    ensures forall d :: RulesOn(rules[..i + 1], d) == RulesOn(rules[..i], d) + if rules[i].dayOfWeek == d then [rules[i]] else []
  {
    assert rules[..i + 1][..i] == rules[..i];
  }

  /** Groups the rules by day, in order of first appearance, unless one does not start before it ends. */
  method GroupByDay(rules: seq<Rule>) returns (ok: bool, byDay: map<int, seq<Rule>>, days: seq<int>)
    ensures ok <==> EachOrdered(rules)
    ensures ok ==> forall k :: 0 <= k < |days| ==> days[k] in byDay && byDay[days[k]] == RulesOn(rules, days[k])
    ensures ok ==> forall d :: d !in days ==> RulesOn(rules, d) == []
  {
    hide MinutesOf, StringLess, RulesOn;
    byDay, days := map[], [];
    assert forall d :: RulesOn(rules[..0], d) == [] by { NoRules(rules[..0]); }
    for i := 0 to |rules|
      invariant forall j :: 0 <= j < i ==> MinutesOf(rules[j].startTime) < MinutesOf(rules[j].endTime)
      invariant forall k :: 0 <= k < |days| ==> days[k] in byDay
      invariant forall d :: d in byDay ==> d in days
      invariant forall d :: RulesOn(rules[..i], d) == if d in byDay then byDay[d] else []
    {
      var rule := rules[i];
      TimesAscend(rule.startTime, rule.endTime);
      if !StringLess(rule.startTime, rule.endTime) {
        return false, byDay, days;
      }
      OneMoreRule(rules, i);
      if rule.dayOfWeek in byDay {
        byDay := byDay[rule.dayOfWeek := byDay[rule.dayOfWeek] + [rule]];
      } else {
        byDay := byDay[rule.dayOfWeek := [rule]];
        days := days + [rule.dayOfWeek];
      }
    }
    assert rules[..|rules|] == rules;
    ok := true;
  }

  /** Accepts exactly the rule lists of positive, pairwise disjoint ranges. */
  method ValidateRules(rules: seq<Rule>) returns (ok: bool)
    ensures ok <==> ValidRules(rules)
  {
    hide MinutesOf, StringLess, DayOf, Disjoint, NeighboursApart, ValidRules, EachOrdered;
    ValidMeans(rules);
    var ordered, byDay, days := GroupByDay(rules);
    if !ordered {
      return false;
    }
    for k := 0 to |days|
      invariant forall j :: 0 <= j < k ==> NeighboursApart(DayOf(rules, days[j]))
    {
      var sorted := Sort(byDay[days[k]], RuleLess);
      assert sorted == DayOf(rules, days[k]) by { DayIsSorted(rules, days[k], byDay[days[k]]); }
      var apart := CheckNeighbours(sorted);
      if !apart {
        DayDecides(rules, days[k]);
        if Disjoint(rules) { DayIsDisjoint(rules, days[k]); }
        assert !Disjoint(rules);
        return false;
      }
    }
    forall d ensures Disjoint(DayOf(rules, d)) {
      DayDecides(rules, d);
      if d !in days { EmptyDay(rules, d); }
    }
    DaysAreDisjoint(rules);
    return true;
  }

  lemma ValidMeans(rules: seq<Rule>)
    ensures ValidRules(rules) <==> EachOrdered(rules) && Disjoint(rules)
  {
    hide RangesApart, MinutesOf;
  }

  lemma DayIsSorted(rules: seq<Rule>, d: int, group: seq<Rule>)
    requires RulesOn(rules, d) == group
    ensures Sort(group, RuleLess) == DayOf(rules, d)
  {
  }

  lemma EmptyDay(rules: seq<Rule>, d: int)
    requires RulesOn(rules, d) == []
    ensures NeighboursApart(DayOf(rules, d))
  {
  }

  method CheckNeighbours(sorted: seq<Rule>) returns (ok: bool)
    ensures ok <==> NeighboursApart(sorted)
  {
    hide MinutesOf, StringLess;
    var i := 0;
    while i < |sorted| - 1
      invariant 0 <= i
      invariant forall j :: 0 <= j < i && j < |sorted| - 1 ==> MinutesOf(sorted[j].endTime) <= MinutesOf(sorted[j + 1].startTime)
    {
      TimesAscend(sorted[i + 1].startTime, sorted[i].endTime);
      if StringLess(sorted[i + 1].startTime, sorted[i].endTime) {
        return false;
      }
      i := i + 1;
    }
    return true;
  }

  // ---------------------------------------------------------------------------
  // Stored schedules
  // ---------------------------------------------------------------------------

  /** The stored schedules; `defaultZone` is the column default for a new one. */
  class AvailabilityService {
    const defaultZone: Zone
    var schedules: map<nat, Schedule>

    /** Every stored rule list was accepted by validation. */
    ghost predicate Valid()
      reads this
    {
      forall user :: user in schedules ==> ValidRules(schedules[user].rules)
    }

    constructor (defaultZone: Zone)
      ensures Valid() && schedules == map[] && this.defaultZone == defaultZone
    {
      this.defaultZone := defaultZone;
      schedules := map[];
    }

    /** Replaces the rules of `user`, or on an invalid list changes nothing. */
    method UpsertMine(user: nat, zone: Option<Zone>, rules: seq<Rule>) returns (ok: bool)
      requires Valid()
      modifies this
      ensures Valid() && (ok <==> ValidRules(rules))
      ensures schedules == if !ok then old(schedules) else old(schedules)[user :=
        if user in old(schedules)
        then old(schedules)[user].(rules := rules, zone := if zone.Some? then zone.value else old(schedules)[user].zone)
        else Schedule(if zone.Some? then zone.value else defaultZone, rules, [])]
    {
      ok := ValidateRules(rules);
      if !ok {
        return;
      }
      if user in schedules {
        if zone.Some? {
          schedules := schedules[user := schedules[user].(zone := zone.value)];
        }
      } else {
        schedules := schedules[user := Schedule(if zone.Some? then zone.value else defaultZone, [], [])];
      }
      schedules := schedules[user := schedules[user].(rules := [])];
      schedules := schedules[user := schedules[user].(rules := rules)];
    }
  }
}

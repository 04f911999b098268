/** Which policy an employee inherits: _resolve_kind of backend/app/policy/resolver.py. */
module PolicyInheritance {
  import opened Common

  /** From general to specific. */
  datatype Level = OrganizationLevel | DepartmentLevel | TeamLevel | EmployeeLevel | OtherTarget

  const LEVELS := [OrganizationLevel, DepartmentLevel, TeamLevel, EmployeeLevel]

  type Value = int
  type Fields = map<string, Value>

  datatype Assignment = Assignment(target: Level, targetId: nat, policy: nat, allowOverride: bool, priority: int)

  /** The employee's own targets; department and team may be missing. */
  datatype Person = Person(organization: nat, department: Option<nat>, team: Option<nat>, employee: nat)

  function TargetOf(p: Person, level: Level): Option<nat> {
    match level
    case OrganizationLevel => Some(p.organization)
    case DepartmentLevel => p.department
    case TeamLevel => p.team
    case EmployeeLevel => Some(p.employee)
    case OtherTarget => None
  }

  predicate Applies(p: Person, a: Assignment) {
    TargetOf(p, a.target) == Some(a.targetId)
  }

  /** The assignments of one level that apply to the person, in query order. */
  function Candidates(p: Person, assignments: seq<Assignment>, level: Level): seq<Assignment> {
    if assignments == [] then []
    else
      var a := assignments[|assignments| - 1];
      Candidates(p, assignments[..|assignments| - 1], level) + (if Applies(p, a) && a.target == level then [a] else [])
  }

  /** The first candidate of highest priority, as a stable descending sort puts it first. */
  function Chosen(candidates: seq<Assignment>): Option<Assignment> {
    if candidates == [] then None
    else
      var a := candidates[|candidates| - 1];
      match Chosen(candidates[..|candidates| - 1])
      case None => Some(a)
      case Some(best) => if a.priority > best.priority then Some(a) else Some(best)
  }

  /** What a level contributes: a loadable policy and whether it may be overridden below. */
  datatype Source = Source(fields: Fields, allowOverride: bool)

  function SourceOf(a: Assignment, policies: map<nat, Fields>): Option<Source> {
    if a.policy in policies then Some(Source(policies[a.policy], a.allowOverride)) else None
  }

  function SourceAt(p: Person, assignments: seq<Assignment>, policies: map<nat, Fields>, level: Level): Option<Source> {
    match Chosen(Candidates(p, assignments, level))
    case None => None
    case Some(a) => SourceOf(a, policies)
  }

  function Sources(p: Person, assignments: seq<Assignment>, policies: map<nat, Fields>): seq<Option<Source>> {
    seq(|LEVELS|, i requires 0 <= i < |LEVELS| => SourceAt(p, assignments, policies, LEVELS[i]))
  }

  /** The walk from general to specific: the fields in force and whether the next level may override. */
  function Walk(defaults: Fields, sources: seq<Option<Source>>): (Fields, bool) {
    if sources == [] then (defaults, true)
    else
      var (effective, allowed) := Walk(defaults, sources[..|sources| - 1]);
      match sources[|sources| - 1]
      case None => (effective, allowed)
      case Some(s) => (if allowed then effective + s.fields else effective, s.allowOverride)
  }

  function Resolve(p: Person, assignments: seq<Assignment>, policies: map<nat, Fields>, defaults: Fields): Fields {
    Walk(defaults, Sources(p, assignments, policies)).0
  }

  // ---------- closed form ----------

  /** The nearest level above i that has a source, if any. */
  function NearestAbove(sources: seq<Option<Source>>, i: nat): (r: Option<nat>)
    requires i <= |sources|
    ensures match r
            case None => forall j :: 0 <= j < i ==> sources[j].None?
            case Some(k) => k < i && sources[k].Some? && forall j :: k < j < i ==> sources[j].None?
  {
    if i == 0 then None
    else if sources[i - 1].Some? then Some(i - 1)
    else NearestAbove(sources, i - 1)
  }

  /** A level takes effect when it has a source and no source above it, or the nearest allows override. */
  predicate TakesEffect(sources: seq<Option<Source>>, i: nat)
    requires i < |sources|
  {
    sources[i].Some? &&
    match NearestAbove(sources, i) case None => true case Some(k) => sources[k].value.allowOverride
  }

  /** w is the most specific level that takes effect. */
  ghost predicate IsWinner(sources: seq<Option<Source>>, w: nat) {
    w < |sources| && TakesEffect(sources, w) && forall j :: w < j < |sources| ==> !TakesEffect(sources, j)
  }

  ghost predicate AllFields(defaults: Fields, sources: seq<Option<Source>>) {
    forall i :: 0 <= i < |sources| && sources[i].Some? ==> sources[i].value.fields.Keys == defaults.Keys
  }

  lemma {:induction false} NearestAboveOfPrefix(sources: seq<Option<Source>>, n: nat, i: nat)
    requires i <= n <= |sources|
    ensures NearestAbove(sources[..n], i) == NearestAbove(sources, i)
  {
    if i > 0 { NearestAboveOfPrefix(sources, n, i - 1); }
  }

  lemma EffectOfPrefix(sources: seq<Option<Source>>, n: nat, i: nat)
    requires i < n <= |sources|
    ensures TakesEffect(sources[..n], i) <==> TakesEffect(sources, i)
  {
    NearestAboveOfPrefix(sources, n, i);
  }

  /** effective is what the sources before level n leave in force. */
  ghost predicate InForce(defaults: Fields, sources: seq<Option<Source>>, effective: Fields) {
    ((forall i :: 0 <= i < |sources| ==> sources[i].None?) && effective == defaults) ||
    exists w: nat :: IsWinner(sources, w) && effective == sources[w].value.fields
  }

  /** May the level after the last source override? */
  predicate Open(sources: seq<Option<Source>>) {
    match NearestAbove(sources, |sources|) case None => true case Some(k) => sources[k].value.allowOverride
  }

  lemma NewWinner(sources: seq<Option<Source>>)
    requires sources != []
    ensures var n := |sources| - 1; IsWinner(sources, n) <==> sources[n].Some? && Open(sources[..n])
  {
    NearestAboveOfPrefix(sources, |sources| - 1, |sources| - 1);
  }

  lemma OldWinner(sources: seq<Option<Source>>, w: nat)
    requires sources != [] && IsWinner(sources[..|sources| - 1], w) && !IsWinner(sources, |sources| - 1)
    ensures IsWinner(sources, w)
  {
    var n := |sources| - 1;
    EffectOfPrefix(sources, n, w);
    forall j | w < j < n ensures !TakesEffect(sources, j) { EffectOfPrefix(sources, n, j); }
  }

  lemma {:induction false} WalkClosedForm(defaults: Fields, sources: seq<Option<Source>>)
    requires AllFields(defaults, sources)
    ensures var (effective, allowed) := Walk(defaults, sources);
            (allowed <==> Open(sources)) && InForce(defaults, sources, effective) && effective.Keys == defaults.Keys
  {
    if sources != [] {
      var n := |sources| - 1;
      var rest := sources[..n];
      WalkClosedForm(defaults, rest);
      var (effective, allowed) := Walk(defaults, rest);
      NearestAboveOfPrefix(sources, n, n);
      NewWinner(sources);
      hide IsWinner, TakesEffect, AllFields;
      if IsWinner(sources, n) {
        assert effective + sources[n].value.fields == sources[n].value.fields;
      } else if w: nat :| IsWinner(rest, w) && effective == rest[w].value.fields {
        OldWinner(sources, w);
      }
    }
  }

  /**
    The resolved policy is one whole policy or the defaults, never a blend: it is that of the most
    specific level whose source is unopposed or whose nearest source above allows override. A
    source that is itself blocked still decides, by its own flag, about the level below it.
  */
  lemma ResolvesToOnePolicy(p: Person, assignments: seq<Assignment>, policies: map<nat, Fields>, defaults: Fields)
    requires forall id :: id in policies ==> policies[id].Keys == defaults.Keys
    ensures var sources := Sources(p, assignments, policies);
            var resolved := Resolve(p, assignments, policies, defaults);
            if forall i :: 0 <= i < |sources| ==> sources[i].None? then resolved == defaults
            else exists w: nat ::
                   IsWinner(sources, w) && resolved == sources[w].value.fields &&
                   forall v: nat :: IsWinner(sources, v) ==> v == w
  {
    var sources := Sources(p, assignments, policies);
    assert AllFields(defaults, sources);
    WalkClosedForm(defaults, sources);
    if w: nat :| IsWinner(sources, w) {
      assert sources[w].Some?;
      assert forall v: nat :: IsWinner(sources, v) ==> v == w;
    }
  }

  // ---------- order of assignments ----------

  /** No two assignments that apply at the same level share a priority. */
  ghost predicate DistinctPriorities(p: Person, assignments: seq<Assignment>) {
    forall a, b ::
      (a in assignments && b in assignments && Applies(p, a) && Applies(p, b) &&
       a.target == b.target && a.priority == b.priority) ==> a == b
  }

  /** a has the highest priority of those that apply at its level. */
  ghost predicate IsTop(p: Person, assignments: seq<Assignment>, a: Assignment) {
    a in assignments && Applies(p, a) &&
    forall b :: b in assignments && Applies(p, b) && b.target == a.target ==> b.priority <= a.priority
  }

  /** Assignments that tie for the highest priority of a level contribute the same. */
  ghost predicate TiesAgree(p: Person, assignments: seq<Assignment>, policies: map<nat, Fields>) {
    forall a, b ::
      IsTop(p, assignments, a) && IsTop(p, assignments, b) && a.target == b.target ==>
        SourceOf(a, policies) == SourceOf(b, policies)
  }

  lemma {:induction false} CandidatesAre(p: Person, assignments: seq<Assignment>, level: Level, a: Assignment)
    ensures a in Candidates(p, assignments, level) <==> a in assignments && Applies(p, a) && a.target == level
  {
    if assignments != [] {
      var n := |assignments| - 1;
      assert assignments == assignments[..n] + [assignments[n]];
      CandidatesAre(p, assignments[..n], level, a);
    }
  }

  lemma {:induction false} CandidatesConcat(p: Person, one: seq<Assignment>, two: seq<Assignment>, level: Level)
    ensures Candidates(p, one + two, level) == Candidates(p, one, level) + Candidates(p, two, level)
  {
    if two == [] {
      assert one + two == one;
    } else {
      var n := |two| - 1;
      assert (one + two)[..|one + two| - 1] == one + two[..n];
      CandidatesConcat(p, one, two[..n], level);
    }
  }

  /** The chosen candidate has the highest priority, and is the first that has it. */
  ghost predicate FirstHighest(candidates: seq<Assignment>, w: int) {
    0 <= w < |candidates| &&
    (forall i :: 0 <= i < |candidates| ==> candidates[i].priority <= candidates[w].priority) &&
    (forall i :: 0 <= i < w ==> candidates[i].priority < candidates[w].priority)
  }

  lemma {:induction false} ChosenIsHighest(candidates: seq<Assignment>)
    ensures Chosen(candidates).None? <==> candidates == []
    ensures Chosen(candidates).Some? ==>
              exists w :: FirstHighest(candidates, w) && Chosen(candidates).value == candidates[w]
  {
    if candidates != [] {
      var n := |candidates| - 1;
      var rest, a := candidates[..n], candidates[n];
      assert candidates == rest + [a];
      ChosenIsHighest(rest);
      assert rest == [] ==> FirstHighest(candidates, 0);
      hide FirstHighest;
      if rest != [] {
        var w :| FirstHighest(rest, w) && Chosen(rest).value == rest[w];
        FirstHighestGrows(rest, w, a);
      }
    }
  }

  lemma FirstHighestGrows(candidates: seq<Assignment>, w: int, a: Assignment)
    requires FirstHighest(candidates, w)
    ensures 0 <= w < |candidates|
    ensures FirstHighest(candidates + [a], if a.priority > candidates[w].priority then |candidates| else w)
  {
  }

  /** What is chosen at a level is an assignment of highest priority there. */
  lemma ChosenIsTop(p: Person, assignments: seq<Assignment>, level: Level)
    ensures var c := Candidates(p, assignments, level);
            match Chosen(c)
            case None => forall a :: a in assignments && Applies(p, a) ==> a.target != level
            case Some(a) => IsTop(p, assignments, a) && a.target == level
  {
    var c := Candidates(p, assignments, level);
    ChosenIsHighest(c);
    forall a ensures a in c <==> a in assignments && Applies(p, a) && a.target == level {
      CandidatesAre(p, assignments, level, a);
    }
    hide Candidates, Chosen, Applies;
  }

  lemma SameTops(p: Person, one: seq<Assignment>, two: seq<Assignment>, a: Assignment)
    requires multiset(one) == multiset(two)
    ensures IsTop(p, one, a) <==> IsTop(p, two, a)
    ensures a in one <==> a in two
  {
    assert forall b :: b in one <==> b in multiset(one);
    assert forall b :: b in two <==> b in multiset(two);
  }

  lemma SourceIgnoresOrder(
    p: Person, one: seq<Assignment>, two: seq<Assignment>, policies: map<nat, Fields>, level: Level)
    requires multiset(one) == multiset(two) && TiesAgree(p, one, policies)
    ensures SourceAt(p, one, policies, level) == SourceAt(p, two, policies, level)
  {
    ChosenIsTop(p, one, level);
    ChosenIsTop(p, two, level);
    hide IsTop, Candidates, Chosen, Applies;
    forall a ensures (IsTop(p, one, a) <==> IsTop(p, two, a)) && (a in one <==> a in two) {
      SameTops(p, one, two, a);
    }
    assert forall a :: IsTop(p, one, a) ==> a in one && Applies(p, a) by { hide *; IsTopApplies(p, one); }
    assert forall a :: IsTop(p, two, a) ==> a in two && Applies(p, a) by { hide *; IsTopApplies(p, two); }
  }

  lemma IsTopApplies(p: Person, assignments: seq<Assignment>)
    ensures forall a :: IsTop(p, assignments, a) ==> a in assignments && Applies(p, a)
  {
  }

  /** The rows with the i-th moved to the front. */
  function ToFront(assignments: seq<Assignment>, i: nat): (r: seq<Assignment>)
    requires i < |assignments|
    ensures multiset(r) == multiset(assignments)
  {
    assert assignments == assignments[..i] + [assignments[i]] + assignments[i + 1..];
    [assignments[i]] + (assignments[..i] + assignments[i + 1..])
  }

  /** A row of highest priority that comes first is chosen. */
  lemma FrontIsChosen(p: Person, assignments: seq<Assignment>, i: nat, policies: map<nat, Fields>)
    requires i < |assignments| && IsTop(p, assignments, assignments[i])
    ensures SourceAt(p, ToFront(assignments, i), policies, assignments[i].target) == SourceOf(assignments[i], policies)
  {
    var a, moved := assignments[i], ToFront(assignments, i);
    SameTops(p, assignments, moved, a);
    var c := Candidates(p, moved, a.target);
    CandidatesConcat(p, [a], moved[1..], a.target);
    assert moved == [a] + moved[1..] && [a][..0] == [];
    assert Candidates(p, [a], a.target) == [a];
    assert c[0] == a;
    forall k | 0 <= k < |c| ensures c[k].priority <= a.priority {
      CandidatesAre(p, moved, a.target, c[k]);
    }
    ChosenIsHighest(c);
    hide Candidates, Chosen, ToFront;
  }

  /**
    The order of the query's rows does not matter for any level exactly when rows that tie for the
    highest priority of a level contribute the same.
  */
  lemma OrderIsIrrelevantExactly(p: Person, one: seq<Assignment>, policies: map<nat, Fields>)
    ensures TiesAgree(p, one, policies) <==>
            forall two :: multiset(two) == multiset(one) ==> Sources(p, two, policies) == Sources(p, one, policies)
  {
    if TiesAgree(p, one, policies) {
      forall two | multiset(two) == multiset(one) ensures Sources(p, two, policies) == Sources(p, one, policies) {
        SourcesIgnoreOrder(p, one, two, policies);
      }
    } else {
      var a, b :| IsTop(p, one, a) && IsTop(p, one, b) && a.target == b.target &&
        SourceOf(a, policies) != SourceOf(b, policies);
      hide TiesAgree, SourceOf;
      TieMatters(p, one, policies, a, b);
    }
  }

  /** Two rows that tie at the top and contribute differently: whichever is moved to the front wins. */
  lemma TieMatters(p: Person, one: seq<Assignment>, policies: map<nat, Fields>, a: Assignment, b: Assignment)
    requires IsTop(p, one, a) && IsTop(p, one, b) && a.target == b.target
    requires SourceOf(a, policies) != SourceOf(b, policies)
    ensures exists two :: multiset(two) == multiset(one) && Sources(p, two, policies) != Sources(p, one, policies)
  {
    var i :| 0 <= i < |one| && one[i] == a;
    var j :| 0 <= j < |one| && one[j] == b;
    var level := if a.target.OrganizationLevel? then 0 else if a.target.DepartmentLevel? then 1
                 else if a.target.TeamLevel? then 2 else 3;
    assert LEVELS[level] == a.target;
    FrontIsChosen(p, one, i, policies);
    FrontIsChosen(p, one, j, policies);
    hide SourceAt, SourceOf, IsTop, Applies, ToFront;
    var two, three := ToFront(one, i), ToFront(one, j);
    assert Sources(p, two, policies)[level] != Sources(p, three, policies)[level];
  }

  lemma SourcesIgnoreOrder(p: Person, one: seq<Assignment>, two: seq<Assignment>, policies: map<nat, Fields>)
    requires multiset(one) == multiset(two) && TiesAgree(p, one, policies)
    ensures Sources(p, one, policies) == Sources(p, two, policies)
  {
    forall i | 0 <= i < |LEVELS|
      ensures SourceAt(p, one, policies, LEVELS[i]) == SourceAt(p, two, policies, LEVELS[i])
    {
      SourceIgnoresOrder(p, one, two, policies, LEVELS[i]);
    }
    hide SourceAt, TiesAgree;
  }

  /** Then the result does not depend on it either; distinct priorities at each level are enough. */
  lemma OrderIsIrrelevant(
    p: Person, one: seq<Assignment>, two: seq<Assignment>, policies: map<nat, Fields>, defaults: Fields)
    requires multiset(one) == multiset(two)
    requires TiesAgree(p, one, policies) || DistinctPriorities(p, one)
    ensures Resolve(p, one, policies, defaults) == Resolve(p, two, policies, defaults)
  {
    hide SourceOf;
    SourcesIgnoreOrder(p, one, two, policies);
  }

  /** With equal priorities it does: the first row wins. */
  lemma TiesFollowOrder()
    ensures var person := Person(1, None, None, 7);
            var a := Assignment(OrganizationLevel, 1, 10, true, 0);
            var b := Assignment(OrganizationLevel, 1, 20, true, 0);
            var policies := map[10 := map["late_threshold_min" := 5], 20 := map["late_threshold_min" := 20]];
            var defaults := map["late_threshold_min" := 15];
            Resolve(person, [a, b], policies, defaults) != Resolve(person, [b, a], policies, defaults)
  {
    var person := Person(1, None, None, 7);
    var a := Assignment(OrganizationLevel, 1, 10, true, 0);
    var b := Assignment(OrganizationLevel, 1, 20, true, 0);
    var policies := map[10 := map["late_threshold_min" := 5], 20 := map["late_threshold_min" := 20]];
    var defaults := map["late_threshold_min" := 15];
    TieAt(person, a, b, policies, defaults, 5);
    TieAt(person, b, a, policies, defaults, 20);
    assert map["late_threshold_min" := 5]["late_threshold_min"] !=
      map["late_threshold_min" := 20]["late_threshold_min"];
  }

  lemma TieAt(p: Person, a: Assignment, b: Assignment, policies: map<nat, Fields>, defaults: Fields, v: int)
    requires a.target.OrganizationLevel? && b.target.OrganizationLevel? && a.priority == b.priority
    requires Applies(p, a) && Applies(p, b) && a.policy in policies
    requires defaults.Keys == {"late_threshold_min"} && policies[a.policy] == map["late_threshold_min" := v]
    ensures Resolve(p, [a, b], policies, defaults) == map["late_threshold_min" := v]
  {
    assert [a, b][..1] == [a] && [a][..0] == [] && [a, b][1] == b;
    assert Candidates(p, [a], OrganizationLevel) == [a];
    assert Candidates(p, [a, b], OrganizationLevel) == [a, b];
    assert Chosen([a]) == Some(a);
    assert Chosen([a, b]) ==
           match Chosen([a, b][..1])
           case None => Some(b)
           case Some(best) => if b.priority > best.priority then Some(b) else Some(best);
    forall level | level != OrganizationLevel ensures Candidates(p, [a, b], level) == [] {
      assert Candidates(p, [a], level) == [];
    }
    hide Candidates, Chosen, Walk, Applies;
    OnlyFirstSource(defaults, Sources(p, [a, b], policies), Source(policies[a.policy], a.allowOverride));
  }

  lemma OnlyFirstSource(defaults: Fields, sources: seq<Option<Source>>, s: Source)
    requires sources == [Some(s), None, None, None] && s.fields.Keys == defaults.Keys
    ensures Walk(defaults, sources).0 == s.fields
  {
    assert AllFields(defaults, sources);
    WalkClosedForm(defaults, sources);
    assert sources[0].Some?;
    var w: nat :| IsWinner(sources, w) && Walk(defaults, sources).0 == sources[w].value.fields;
    assert w == 0;
  }

  // ---------- order and the resolved policy ----------

  /** One assignment of highest priority for each level, or None where no assignment applies. */
  ghost predicate IsChoice(p: Person, assignments: seq<Assignment>, choice: seq<Option<Assignment>>) {
    |choice| == |LEVELS| &&
    forall i :: 0 <= i < |LEVELS| ==>
      match choice[i]
      case None => forall a :: a in assignments && Applies(p, a) ==> a.target != LEVELS[i]
      case Some(a) => IsTop(p, assignments, a) && a.target == LEVELS[i]
  }

  function Contributes(a: Option<Assignment>, policies: map<nat, Fields>): Option<Source> {
    match a case None => None case Some(x) => SourceOf(x, policies)
  }

  function SourcesOf(choice: seq<Option<Assignment>>, policies: map<nat, Fields>): seq<Option<Source>> {
    seq(|choice|, i requires 0 <= i < |choice| => Contributes(choice[i], policies))
  }

  /** What the rows as they are ordered choose is such a choice. */
  lemma ChosenIsChoice(p: Person, one: seq<Assignment>, two: seq<Assignment>, policies: map<nat, Fields>)
    returns (choice: seq<Option<Assignment>>)
    requires multiset(one) == multiset(two)
    ensures IsChoice(p, one, choice) && Sources(p, two, policies) == SourcesOf(choice, policies)
  {
    choice := seq(|LEVELS|, i requires 0 <= i < |LEVELS| => Chosen(Candidates(p, two, LEVELS[i])));
    forall i | 0 <= i < |LEVELS|
      ensures match choice[i]
              case None => forall a :: a in one && Applies(p, a) ==> a.target != LEVELS[i]
              case Some(a) => IsTop(p, one, a) && a.target == LEVELS[i]
    {
      ChosenIsTop(p, two, LEVELS[i]);
      hide IsTop, Candidates, Chosen, Applies;
      forall a ensures (IsTop(p, one, a) <==> IsTop(p, two, a)) && (a in one <==> a in two) {
        SameTops(p, one, two, a);
      }
    }
    hide IsTop, Candidates, Chosen, Applies, SourceOf;
  }

  /** Moving a row to the front changes nothing at the other levels. */
  lemma OtherLevelsStay(p: Person, assignments: seq<Assignment>, i: nat, level: Level)
    requires i < |assignments| && assignments[i].target != level
    ensures Candidates(p, ToFront(assignments, i), level) == Candidates(p, assignments, level)
  {
    var a, before, after := assignments[i], assignments[..i], assignments[i + 1..];
    assert assignments == before + [a] + after;
    OneCandidate(p, a, level);
    hide Candidates;
    CandidatesConcat(p, before + [a], after, level);
    CandidatesConcat(p, before, [a], level);
    CandidatesConcat(p, [a], before + after, level);
    CandidatesConcat(p, before, after, level);
    assert Candidates(p, before, level) + [] == Candidates(p, before, level);
  }

  lemma OneCandidate(p: Person, a: Assignment, level: Level)
    ensures Candidates(p, [a], level) == if Applies(p, a) && a.target == level then [a] else []
    ensures Chosen([a]) == Some(a)
  {
    assert [a][..0] == [];
  }

  /** Every choice is what some order of the rows chooses, level by level. */
  lemma {:induction false} Realize(
    p: Person, one: seq<Assignment>, choice: seq<Option<Assignment>>, policies: map<nat, Fields>, n: nat)
    returns (two: seq<Assignment>)
    requires IsChoice(p, one, choice) && n <= |LEVELS| == |choice|
    ensures multiset(two) == multiset(one)
    ensures forall i :: 0 <= i < n ==> SourceAt(p, two, policies, LEVELS[i]) == Contributes(choice[i], policies)
  {
    if n == 0 { return one; }
    hide *;
    var rest := Realize(p, one, choice, policies, n - 1);
    two := RealizeAt(p, one, rest, choice, policies, n - 1);
  }

  lemma RealizeAt(
    p: Person, one: seq<Assignment>, rest: seq<Assignment>, choice: seq<Option<Assignment>>,
    policies: map<nat, Fields>, n: nat)
    returns (two: seq<Assignment>)
    requires IsChoice(p, one, choice) && n < |LEVELS| == |choice| && multiset(rest) == multiset(one)
    ensures multiset(two) == multiset(one)
    ensures SourceAt(p, two, policies, LEVELS[n]) == Contributes(choice[n], policies)
    ensures forall i :: 0 <= i < n ==> SourceAt(p, two, policies, LEVELS[i]) == SourceAt(p, rest, policies, LEVELS[i])
  {
    match choice[n]
    case None =>
      two := rest;
      NoSource(p, one, rest, policies, LEVELS[n]);
    case Some(a) =>
      SameTops(p, one, rest, a);
      assert a.target == LEVELS[n] && IsTop(p, rest, a);
      two := BringForward(p, rest, policies, n, a);
      hide *;
  }

  lemma BringForward(p: Person, rest: seq<Assignment>, policies: map<nat, Fields>, n: nat, a: Assignment)
    returns (two: seq<Assignment>)
    requires n < |LEVELS| && IsTop(p, rest, a) && a.target == LEVELS[n]
    ensures multiset(two) == multiset(rest)
    ensures SourceAt(p, two, policies, LEVELS[n]) == SourceOf(a, policies)
    ensures forall i :: 0 <= i < n ==> SourceAt(p, two, policies, LEVELS[i]) == SourceAt(p, rest, policies, LEVELS[i])
  {
    var i :| 0 <= i < |rest| && rest[i] == a;
    two := ToFront(rest, i);
    FrontIsChosen(p, rest, i, policies);
    assert forall k :: 0 <= k < n ==> LEVELS[k] != LEVELS[n];
    hide IsTop, SourceOf, ToFront, Candidates, Chosen;
    forall k | 0 <= k < n ensures SourceAt(p, two, policies, LEVELS[k]) == SourceAt(p, rest, policies, LEVELS[k]) {
      OtherLevelsStay(p, rest, i, LEVELS[k]);
    }
  }

  lemma NoSource(p: Person, one: seq<Assignment>, two: seq<Assignment>, policies: map<nat, Fields>, level: Level)
    requires multiset(one) == multiset(two) && forall a :: a in one && Applies(p, a) ==> a.target != level
    ensures SourceAt(p, two, policies, level) == None
  {
    forall a ensures a in one <==> a in two { SameTops(p, one, two, a); }
    ChosenIsTop(p, two, level);
    hide Candidates, Chosen;
  }

  /**
    The resolved policy does not depend on the order of the rows exactly when the walk comes to the
    same fields whichever assignment of highest priority is taken at each level.
  */
  lemma ResultIgnoresOrderExactly(
    p: Person, one: seq<Assignment>, policies: map<nat, Fields>, defaults: Fields)
    ensures (forall two :: multiset(two) == multiset(one) ==>
               Resolve(p, two, policies, defaults) == Resolve(p, one, policies, defaults)) <==>
            (forall c, d :: IsChoice(p, one, c) && IsChoice(p, one, d) ==>
               Walk(defaults, SourcesOf(c, policies)).0 == Walk(defaults, SourcesOf(d, policies)).0)
  {
    hide IsChoice, Sources, SourcesOf, Walk;
    if forall c, d :: IsChoice(p, one, c) && IsChoice(p, one, d) ==>
         Walk(defaults, SourcesOf(c, policies)).0 == Walk(defaults, SourcesOf(d, policies)).0
    {
      var c := ChosenIsChoice(p, one, one, policies);
      forall two | multiset(two) == multiset(one)
        ensures Resolve(p, two, policies, defaults) == Resolve(p, one, policies, defaults)
      {
        var d := ChosenIsChoice(p, one, two, policies);
      }
    } else {
      var c, d :| IsChoice(p, one, c) && IsChoice(p, one, d) &&
        Walk(defaults, SourcesOf(c, policies)).0 != Walk(defaults, SourcesOf(d, policies)).0;
      var two := RealizeAll(p, one, c, policies);
      var three := RealizeAll(p, one, d, policies);
      assert Resolve(p, two, policies, defaults) != Resolve(p, three, policies, defaults);
    }
  }

  lemma RealizeAll(p: Person, one: seq<Assignment>, choice: seq<Option<Assignment>>, policies: map<nat, Fields>)
    returns (two: seq<Assignment>)
    requires IsChoice(p, one, choice)
    ensures multiset(two) == multiset(one) && Sources(p, two, policies) == SourcesOf(choice, policies)
  {
    two := Realize(p, one, choice, policies, |LEVELS|);
    hide SourceAt, Contributes;
  }

  // ---------- bans on overrides ----------

  /** A source below another: the next one after i, whose nearest source above is i. */
  lemma NextSource(sources: seq<Option<Source>>, i: nat, j: nat) returns (k: nat)
    requires i < j < |sources| && sources[i].Some? && sources[j].Some?
    ensures i < k <= j && sources[k].Some? && NearestAbove(sources, k) == Some(i)
  {
    k := i + 1;
    while sources[k].None?
      invariant i < k <= j && forall m :: i < m < k ==> sources[m].None?
      decreases j - k
    {
      k := k + 1;
    }
  }

  /** No source from level b on that has another one below it allows override. */
  predicate ForbidsBelow(sources: seq<Option<Source>>, b: nat) {
    forall i, j :: b <= i < j < |sources| && sources[i].Some? && sources[j].Some? ==> !sources[i].value.allowOverride
  }

  /** A ban binds, so that no level below takes effect, exactly when every source in between bans too. */
  lemma BanBindsExactly(sources: seq<Option<Source>>, b: nat)
    requires b < |sources| && sources[b].Some? && !sources[b].value.allowOverride
    ensures (forall j :: b < j < |sources| ==> !TakesEffect(sources, j)) <==> ForbidsBelow(sources, b)
  {
    if ForbidsBelow(sources, b) {
      forall j | b < j < |sources| ensures !TakesEffect(sources, j) { }
    } else {
      var i, j :| b <= i < j < |sources| && sources[i].Some? && sources[j].Some? && sources[i].value.allowOverride;
      var k := NextSource(sources, i, j);
      assert TakesEffect(sources, k);
    }
  }

  /**
    The documented rule (docs/07, section 5): a level takes effect only if every source above it
    permits override, since a blocked one is not inherited from.
  */
  predicate TakesEffectByRule(sources: seq<Option<Source>>, i: nat)
    requires i < |sources|
  {
    sources[i].Some? && forall k :: 0 <= k < i && sources[k].Some? ==> sources[k].value.allowOverride
  }

  /** The code follows that rule exactly when no source between a ban and a more specific source allows override. */
  lemma RuleIsFollowedExactly(sources: seq<Option<Source>>)
    ensures (forall i :: 0 <= i < |sources| ==> (TakesEffect(sources, i) <==> TakesEffectByRule(sources, i))) <==>
            (forall b :: 0 <= b < |sources| && sources[b].Some? && !sources[b].value.allowOverride ==>
               ForbidsBelow(sources, b))
  {
    if b :| 0 <= b < |sources| && sources[b].Some? && !sources[b].value.allowOverride && !ForbidsBelow(sources, b) {
      var i, j :| b <= i < j < |sources| && sources[i].Some? && sources[j].Some? && sources[i].value.allowOverride;
      var k := NextSource(sources, i, j);
      assert TakesEffect(sources, k) && !TakesEffectByRule(sources, k);
    } else {
      forall i | 0 <= i < |sources| ensures TakesEffect(sources, i) <==> TakesEffectByRule(sources, i) {
        if b :| 0 <= b < i && sources[i].Some? && sources[b].Some? && !sources[b].value.allowOverride {
          assert ForbidsBelow(sources, b);
        }
      }
    }
  }

  /**
    An organization's ban decides the resolved policy exactly when no department, team or employee
    policy that has a more specific one below it allows override; otherwise a level below decides.
  */
  lemma OrganizationBanBindsExactly(
    p: Person, assignments: seq<Assignment>, policies: map<nat, Fields>, defaults: Fields)
    requires forall id :: id in policies ==> policies[id].Keys == defaults.Keys
    requires var organization := Sources(p, assignments, policies)[0];
             organization.Some? && !organization.value.allowOverride
    ensures var sources := Sources(p, assignments, policies);
            exists w: nat ::
              IsWinner(sources, w) && Resolve(p, assignments, policies, defaults) == sources[w].value.fields &&
              (w == 0 <==> ForbidsBelow(sources, 0))
  {
    var sources := Sources(p, assignments, policies);
    ResolvesToOnePolicy(p, assignments, policies, defaults);
    BanBindsExactly(sources, 0);
    hide Sources, Resolve, ForbidsBelow;
    assert sources[0].Some?;
    var w: nat :| IsWinner(sources, w) && Resolve(p, assignments, policies, defaults) == sources[w].value.fields;
    assert w == 0 <==> forall j :: 0 < j < |sources| ==> !TakesEffect(sources, j);
  }

  lemma CandidatesOfThree(p: Person, a: Assignment, b: Assignment, c: Assignment, level: Level)
    requires Applies(p, a) && Applies(p, b) && Applies(p, c)
    requires a.target != b.target && b.target != c.target && a.target != c.target
    ensures Candidates(p, [a, b, c], level) ==
            if a.target == level then [a] else if b.target == level then [b] else if c.target == level then [c] else []
  {
    assert [a, b, c] == [a] + [b] + [c];
    OneCandidate(p, a, level);
    OneCandidate(p, b, level);
    OneCandidate(p, c, level);
    hide Candidates, Applies;
    CandidatesConcat(p, [a] + [b], [c], level);
    CandidatesConcat(p, [a], [b], level);
  }

  lemma SourceOfThree(
    p: Person, a: Assignment, b: Assignment, c: Assignment, policies: map<nat, Fields>, level: Level)
    requires Applies(p, a) && Applies(p, b) && Applies(p, c)
    requires a.target != b.target && b.target != c.target && a.target != c.target
    ensures SourceAt(p, [a, b, c], policies, level) ==
            if a.target == level then SourceOf(a, policies)
            else if b.target == level then SourceOf(b, policies)
            else if c.target == level then SourceOf(c, policies)
            else None
  {
    CandidatesOfThree(p, a, b, c, level);
    OneCandidate(p, a, level);
    OneCandidate(p, b, level);
    OneCandidate(p, c, level);
    hide Candidates, Applies, SourceOf;
  }

  lemma ReopenedWins(sources: seq<Option<Source>>)
    requires |sources| == 4 && sources[0].Some? && sources[1].Some? && sources[2].Some? && sources[3].None?
    requires !sources[0].value.allowOverride && sources[1].value.allowOverride
    ensures IsWinner(sources, 2)
  {
    assert NearestAbove(sources, 1) == Some(0) && NearestAbove(sources, 2) == Some(1);
  }

  /**
    A blocked level's flag still counts: an organization policy that forbids override does not bind
    a team when a department policy in between, itself ignored, allows it.
  */
  lemma BlockedLevelReopens(
    p: Person, organization: Assignment, department: Assignment, team: Assignment,
    policies: map<nat, Fields>, defaults: Fields)
    requires forall id :: id in policies ==> policies[id].Keys == defaults.Keys
    requires organization.target.OrganizationLevel? && department.target.DepartmentLevel? && team.target.TeamLevel?
    requires Applies(p, organization) && Applies(p, department) && Applies(p, team)
    requires organization.policy in policies && department.policy in policies && team.policy in policies
    requires !organization.allowOverride && department.allowOverride
    ensures Resolve(p, [organization, department, team], policies, defaults) == policies[team.policy]
  {
    var assignments := [organization, department, team];
    var sources := Sources(p, assignments, policies);
    forall level: Level { SourceOfThree(p, organization, department, team, policies, level); }
    hide SourceAt, Resolve, IsWinner, Applies;
    assert sources[0] == SourceOf(organization, policies) && sources[1] == SourceOf(department, policies);
    assert sources[2] == SourceOf(team, policies) && sources[3] == None;
    hide Sources;
    ReopenedWins(sources);
    ResolvesToOnePolicy(p, assignments, policies, defaults);
  }

  // ---------- the resolver's loops ----------

  method PickHighest(candidates: seq<Assignment>) returns (best: Option<Assignment>)
    ensures best == Chosen(candidates)
    ensures best.None? <==> candidates == []
    ensures best.Some? ==> exists w :: FirstHighest(candidates, w) && best.value == candidates[w]
  {
    ChosenIsHighest(candidates);
    best := None;
    for i := 0 to |candidates|
      invariant best == Chosen(candidates[..i])
    {
      assert candidates[..i + 1][..i] == candidates[..i];
      if best.None? || candidates[i].priority > best.value.priority { best := Some(candidates[i]); }
    }
    assert candidates[..|candidates|] == candidates;
  }

  method GroupByLevel(p: Person, assignments: seq<Assignment>) returns (byLevel: map<Level, seq<Assignment>>)
    ensures byLevel.Keys == {OrganizationLevel, DepartmentLevel, TeamLevel, EmployeeLevel}
    ensures forall level :: level in byLevel ==> byLevel[level] == Candidates(p, assignments, level)
  {
    byLevel := map[OrganizationLevel := [], DepartmentLevel := [], TeamLevel := [], EmployeeLevel := []];
    for i := 0 to |assignments|
      invariant byLevel.Keys == {OrganizationLevel, DepartmentLevel, TeamLevel, EmployeeLevel}
      invariant forall level :: level in byLevel ==> byLevel[level] == Candidates(p, assignments[..i], level)
    {
      assert assignments[..i + 1][..i] == assignments[..i];
      var a := assignments[i];
      var target := TargetOf(p, a.target);
      if target.Some? && a.targetId == target.value {
        byLevel := byLevel[a.target := byLevel[a.target] + [a]];
      }
    }
    assert assignments[..|assignments|] == assignments;
  }

  method ResolveKind(p: Person, assignments: seq<Assignment>, policies: map<nat, Fields>, defaults: Fields)
    returns (effective: Fields)
    ensures effective == Resolve(p, assignments, policies, defaults)
  {
    var byLevel := GroupByLevel(p, assignments);
    hide Candidates, Chosen, FirstHighest;
    ghost var sources := Sources(p, assignments, policies);
    effective := defaults;
    var overrideAllowed := true;
    for i := 0 to |LEVELS|
      invariant (effective, overrideAllowed) == Walk(defaults, sources[..i])
    {
      assert sources[..i + 1][..i] == sources[..i];
      assert LEVELS[i] in byLevel;
      var chosen := PickHighest(byLevel[LEVELS[i]]);
      if chosen.None? { continue; }
      if chosen.value.policy !in policies { continue; }
      if overrideAllowed { effective := effective + policies[chosen.value.policy]; }
      overrideAllowed := chosen.value.allowOverride;
    }
    assert sources[..|LEVELS|] == sources;
  }
}

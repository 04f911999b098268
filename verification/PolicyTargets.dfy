/**
  Whom a policy assignment concerns, and which policy results where one or two assignments do
  (backend/app/policy/resolver.py), in terms of the employee's own organization, department, team
  and id.
*/
module PolicyTargets {
  import opened Common
  import opened PolicyInheritance

  predicate Concerns(p: Person, a: Assignment) {
    match a.target
    case OrganizationLevel => a.targetId == p.organization
    case DepartmentLevel => p.department == Some(a.targetId)
    case TeamLevel => p.team == Some(a.targetId)
    case EmployeeLevel => a.targetId == p.employee
    case OtherTarget => false
  }

  /** Employee over team over department over organization. */
  predicate IsMoreSpecific(a: Level, b: Level) {
    match a
    case EmployeeLevel => b in {TeamLevel, DepartmentLevel, OrganizationLevel}
    case TeamLevel => b in {DepartmentLevel, OrganizationLevel}
    case DepartmentLevel => b == OrganizationLevel
    case _ => false
  }

  lemma ConcernsIsApplies(p: Person, a: Assignment)
    ensures Concerns(p, a) <==> Applies(p, a)
  {
  }

  lemma {:induction false} NoCandidates(p: Person, assignments: seq<Assignment>, level: Level)
    requires forall i :: 0 <= i < |assignments| ==> !(Applies(p, assignments[i]) && assignments[i].target == level)
    ensures Candidates(p, assignments, level) == []
  {
    if assignments != [] { NoCandidates(p, assignments[..|assignments| - 1], level); }
  }

  lemma OnlyCandidate(p: Person, assignments: seq<Assignment>, k: nat)
    requires k < |assignments| && Applies(p, assignments[k])
    requires forall i :: 0 <= i < |assignments| && i != k ==>
               !(Applies(p, assignments[i]) && assignments[i].target == assignments[k].target)
    ensures Candidates(p, assignments, assignments[k].target) == [assignments[k]]
    ensures Chosen([assignments[k]]) == Some(assignments[k])
  {
    var a, level := assignments[k], assignments[k].target;
    assert assignments == assignments[..k] + [a] + assignments[k + 1..];
    NoCandidates(p, assignments[..k], level);
    NoCandidates(p, assignments[k + 1..], level);
    OneCandidate(p, a, level);
    hide Candidates, Applies;
    CandidatesConcat(p, assignments[..k] + [a], assignments[k + 1..], level);
    CandidatesConcat(p, assignments[..k], [a], level);
  }

  /** A level contributes the policy of its only assignment, and nothing if none concerns the person. */
  lemma SourceOfLevel(p: Person, assignments: seq<Assignment>, policies: map<nat, Fields>, k: nat)
    requires k < |assignments| && Concerns(p, assignments[k]) && assignments[k].policy in policies
    requires forall i :: 0 <= i < |assignments| && i != k ==>
               !(Concerns(p, assignments[i]) && assignments[i].target == assignments[k].target)
    ensures var a := assignments[k];
            SourceAt(p, assignments, policies, a.target) == Some(Source(policies[a.policy], a.allowOverride))
  {
    forall i | 0 <= i < |assignments| ensures Concerns(p, assignments[i]) <==> Applies(p, assignments[i]) {
      ConcernsIsApplies(p, assignments[i]);
    }
    hide Concerns, Applies, Candidates, Chosen;
    OnlyCandidate(p, assignments, k);
  }

  /** A level without an assignment that concerns the person and loads contributes nothing. */
  lemma NoSourceOfLevel(p: Person, assignments: seq<Assignment>, policies: map<nat, Fields>, level: Level)
    requires forall i ::
      (0 <= i < |assignments| && assignments[i].target == level && assignments[i].policy in policies) ==>
        !Concerns(p, assignments[i])
    ensures SourceAt(p, assignments, policies, level) == None
  {
    ChosenIsTop(p, assignments, level);
    match Chosen(Candidates(p, assignments, level))
    case None =>
    case Some(a) =>
      ConcernsIsApplies(p, a);
      var i :| 0 <= i < |assignments| && assignments[i] == a;
  }

  ghost predicate SameFields(policies: map<nat, Fields>, defaults: Fields) {
    forall id :: id in policies ==> policies[id].Keys == defaults.Keys
  }

  /** Assignments to others, or of policies that cannot be loaded, leave the person with the defaults. */
  lemma NobodysPolicy(p: Person, assignments: seq<Assignment>, policies: map<nat, Fields>, defaults: Fields)
    requires SameFields(policies, defaults)
    requires forall i :: 0 <= i < |assignments| && assignments[i].policy in policies ==> !Concerns(p, assignments[i])
    ensures Resolve(p, assignments, policies, defaults) == defaults
  {
    forall level: Level ensures SourceAt(p, assignments, policies, level) == None {
      NoSourceOfLevel(p, assignments, policies, level);
    }
    hide SourceAt, Resolve, Concerns;
    ResolvesToOnePolicy(p, assignments, policies, defaults);
  }

  /** If a single assignment concerns the person, its policy is theirs, whatever its level. */
  lemma OnlyPolicy(p: Person, assignments: seq<Assignment>, policies: map<nat, Fields>, defaults: Fields, k: nat)
    requires SameFields(policies, defaults)
    requires k < |assignments| && Concerns(p, assignments[k]) && assignments[k].policy in policies
    requires forall i :: 0 <= i < |assignments| && i != k ==> !Concerns(p, assignments[i])
    ensures Resolve(p, assignments, policies, defaults) == policies[assignments[k].policy]
  {
    var a := assignments[k];
    SourceOfLevel(p, assignments, policies, k);
    assert a.target != OtherTarget;
    forall level: Level | level != a.target ensures SourceAt(p, assignments, policies, level) == None {
      NoSourceOfLevel(p, assignments, policies, level);
    }
    hide SourceAt, Resolve, Concerns;
    ResolvesToOnePolicy(p, assignments, policies, defaults);
    var sources := Sources(p, assignments, policies);
    assert exists i :: 0 <= i < |LEVELS| && LEVELS[i] == a.target by {
      assert LEVELS[0] == OrganizationLevel && LEVELS[1] == DepartmentLevel;
      assert LEVELS[2] == TeamLevel && LEVELS[3] == EmployeeLevel;
    }
    var i :| 0 <= i < |LEVELS| && LEVELS[i] == a.target;
    assert sources[i].Some?;
  }

  /**
    If two assignments of different levels concern the person, the more general one decides: its own
    policy holds if it forbids override, and that of the more specific one if it allows it.
  */
  lemma TwoPolicies(
    p: Person, assignments: seq<Assignment>, policies: map<nat, Fields>, defaults: Fields, general: nat, special: nat)
    requires SameFields(policies, defaults) && general < |assignments| && special < |assignments|
    requires IsMoreSpecific(assignments[special].target, assignments[general].target)
    requires Concerns(p, assignments[general]) && assignments[general].policy in policies
    requires Concerns(p, assignments[special]) && assignments[special].policy in policies
    requires forall i :: 0 <= i < |assignments| && i != general && i != special ==> !Concerns(p, assignments[i])
    ensures Resolve(p, assignments, policies, defaults) ==
            var decides := if assignments[general].allowOverride then special else general;
            policies[assignments[decides].policy]
  {
    var a, b := assignments[general], assignments[special];
    SourceOfLevel(p, assignments, policies, general);
    SourceOfLevel(p, assignments, policies, special);
    forall level: Level | level != a.target && level != b.target
      ensures SourceAt(p, assignments, policies, level) == None
    {
      NoSourceOfLevel(p, assignments, policies, level);
    }
    var i, j := Rank(a.target), Rank(b.target);
    assert LEVELS[i] == a.target && LEVELS[j] == b.target && i < j;
    hide SourceAt, Resolve, Concerns, IsWinner, TakesEffect, IsMoreSpecific;
    var sources := Sources(p, assignments, policies);
    assert sources[i] == Some(Source(policies[a.policy], a.allowOverride));
    assert sources[j] == Some(Source(policies[b.policy], b.allowOverride));
    assert forall k :: 0 <= k < |sources| && k != i && k != j ==> sources[k] == None;
    hide Sources;
    TwoSources(sources, i, j);
    ResolvesToOnePolicy(p, assignments, policies, defaults);
  }

  function Rank(level: Level): nat {
    match level
    case OrganizationLevel => 0
    case DepartmentLevel => 1
    case TeamLevel => 2
    case _ => 3
  }

  lemma TwoSources(sources: seq<Option<Source>>, i: nat, j: nat)
    requires i < j < |sources| && sources[i].Some? && sources[j].Some?
    requires forall k :: 0 <= k < |sources| && k != i && k != j ==> sources[k] == None
    ensures IsWinner(sources, if sources[i].value.allowOverride then j else i)
  {
  }
}

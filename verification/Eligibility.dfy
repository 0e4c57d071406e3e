/**
 * Who may act on a task (assignment.go, and the candidate filter of memstore/memstore.go): four ways
 * the engine answers that question, and why they agree.
 */
module Eligibility {
  import opened Basics
  import opened Lifecycle

  /** What the host's directory says: the groups of an actor and the members of a group, or a failure. */
  datatype Directory = Directory(groupsOf: string -> Option<seq<string>>, membersOf: string -> Option<seq<string>>)

  predicate Intersects(a: seq<string>, b: seq<string>) {
    exists g :: g in a && g in b
  }

  /** `IsEligible`: exclusion first, then users, then groups; the directory is asked only when they decide. */
  function IsEligible(directory: Option<Directory>, pool: Pool, actor: string): Result<bool, Refusal> {
    if actor == "" || actor in pool.excluded then Ok(false)
    else if actor in pool.users then Ok(true)
    else if pool.groups == [] then Ok(false)
    else if directory.None? || directory.value.groupsOf(actor).None? then Err(Fault)
    else Ok(Intersects(directory.value.groupsOf(actor).value, pool.groups))
  }

  /** Whether every group of a pool can be expanded. */
  predicate Resolvable(directory: Option<Directory>, pool: Pool) {
    forall g :: g in pool.groups ==> directory.Some? && directory.value.membersOf(g).Some?
  }

  function Members(directory: Option<Directory>, group: string): seq<string> {
    if directory.Some? && directory.value.membersOf(group).Some? then directory.value.membersOf(group).value else []
  }

  /** The actor is a candidate user or in a candidate group, and not excluded. */
  predicate InPool(directory: Option<Directory>, pool: Pool, actor: string) {
    && actor != "" && actor !in pool.excluded
    && (actor in pool.users || exists g :: g in pool.groups && actor in Members(directory, g))
  }

  /** `ResolveCandidates`: exactly the actors in the pool, sorted and without repeats. */
  method ResolveCandidates(directory: Option<Directory>, pool: Pool) returns (out: Option<seq<string>>)
    ensures out.Some? <==> Resolvable(directory, pool)
    ensures out.Some? ==> Ascending(Less, out.value) && forall actor :: actor in out.value <==> InPool(directory, pool, actor)
  {
    var eligible := {};
    for i := 0 to |pool.users|
      invariant forall a :: a in eligible <==> a != "" && a in pool.users[..i]
    {
      if pool.users[i] != "" {
        eligible := eligible + {pool.users[i]};
      }
    }
    assert pool.users[..|pool.users|] == pool.users;
    for i := 0 to |pool.groups|
      invariant forall k :: 0 <= k < i ==> directory.Some? && directory.value.membersOf(pool.groups[k]).Some?
      invariant forall a :: a in eligible <==>
                  a != "" && (a in pool.users || exists k :: 0 <= k < i && a in Members(directory, pool.groups[k]))
    {
      if directory.None? {
        assert pool.groups[i] in pool.groups;
        return None;
      }
      var members := directory.value.membersOf(pool.groups[i]);
      if members.None? {
        assert pool.groups[i] in pool.groups;
        return None;
      }
      eligible := AddNamed(eligible, members.value);
    }
    for i := 0 to |pool.excluded|
      invariant forall a :: a in eligible <==>
                  a !in pool.excluded[..i] && a != "" &&
                  (a in pool.users || exists k :: 0 <= k < |pool.groups| && a in Members(directory, pool.groups[k]))
    {
      eligible := eligible - {pool.excluded[i]};
    }
    assert pool.excluded[..|pool.excluded|] == pool.excluded;
    StringsOrdered(eligible);
    var sorted := SortSet(eligible, Less);
    return Some(sorted);
  }

  method AddNamed(eligible: set<string>, members: seq<string>) returns (out: set<string>)
    ensures forall a :: a in out <==> a in eligible || (a != "" && a in members)
  {
    out := eligible;
    for i := 0 to |members|
      invariant forall a :: a in out <==> a in eligible || (a != "" && a in members[..i])
    {
      if members[i] != "" {
        out := out + {members[i]};
      }
    }
    assert members[..|members|] == members;
  }

  // ---------------------------------------------------------------- the static directory

  ghost predicate Sorted(xs: seq<string>) {
    forall i, j :: 0 <= i < j < |xs| ==> !Less(xs[j], xs[i])
  }

  function Listed(groups: map<string, seq<string>>, actor: string): seq<string> {
    if actor in groups then groups[actor] else []
  }

  /** The directory a `StaticAssignment` answers with. */
  function StaticDirectory(members: map<string, seq<string>>, groups: map<string, seq<string>>): Directory {
    Directory(actor => Some(Listed(groups, actor)), group => Some(Listed(members, group)))
  }

  /** Both answers describe one membership relation, and no question fails. */
  ghost predicate Consistent(d: Directory) {
    && (forall actor :: d.groupsOf(actor).Some?)
    && (forall group :: d.membersOf(group).Some?)
    && (forall actor, group {:trigger d.groupsOf(actor), d.membersOf(group)} ::
          group in d.groupsOf(actor).value <==> actor in d.membersOf(group).value)
  }

  /** `groups` inverts `members` over some of its groups. */
  ghost predicate Inverts(members: map<string, seq<string>>, groups: map<string, seq<string>>, done: set<string>) {
    forall actor, group :: group in Listed(groups, actor) <==> group in done && actor in Listed(members, group)
  }

  /** Adds a group to each of its actors' lists. */
  method ListGroup(groups: map<string, seq<string>>, group: string, actors: seq<string>) returns (out: map<string, seq<string>>)
    ensures forall a, g :: g in Listed(out, a) <==> g in Listed(groups, a) || (g == group && a in actors)
  {
    out := groups;
    for i := 0 to |actors|
      invariant forall a, g :: g in Listed(out, a) <==> g in Listed(groups, a) || (g == group && a in actors[..i])
    {
      out := out[actors[i] := Listed(out, actors[i]) + [group]];
    }
    assert actors[..|actors|] == actors;
  }

  /** `NewStaticAssignment`: the inverse of the group-to-members map, each actor's groups sorted. */
  method NewStaticAssignment(members: map<string, seq<string>>) returns (groups: map<string, seq<string>>)
    ensures Consistent(StaticDirectory(members, groups))
    ensures forall actor :: actor in groups ==> Sorted(groups[actor])
  {
    groups := map[];
    var rest := members.Keys;
    while rest != {}
      invariant rest <= members.Keys && Inverts(members, groups, members.Keys - rest)
    {
      var group :| group in rest;
      groups := ListGroup(groups, group, members[group]);
      rest := rest - {group};
    }
    assert members.Keys - {} == members.Keys;
    groups := SortEach(groups);
    assert Inverts(members, groups, members.Keys);
    StaticConsistent(members, groups);
  }

  /** Sorts each actor's groups. */
  method SortEach(unsorted: map<string, seq<string>>) returns (groups: map<string, seq<string>>)
    ensures forall a, g :: g in Listed(groups, a) <==> g in Listed(unsorted, a)
    ensures forall a :: a in groups ==> Sorted(groups[a])
  {
    groups := unsorted;
    var actors := groups.Keys;
    while actors != {}
      invariant actors <= groups.Keys == unsorted.Keys
      invariant forall a, g :: g in Listed(groups, a) <==> g in Listed(unsorted, a)
      invariant forall a :: a in groups && a !in actors ==> Sorted(groups[a])
    {
      var actor :| actor in actors;
      var sorted := SortStrings(groups[actor]);
      assert forall g :: g in sorted <==> g in multiset(sorted);
      assert forall g :: g in groups[actor] <==> g in multiset(groups[actor]);
      groups := groups[actor := sorted];
      actors := actors - {actor};
    }
  }

  lemma StaticConsistent(members: map<string, seq<string>>, groups: map<string, seq<string>>)
    requires Inverts(members, groups, members.Keys)
    ensures Consistent(StaticDirectory(members, groups))
  {
    var d := StaticDirectory(members, groups);
    forall actor, group ensures group in d.groupsOf(actor).value <==> actor in d.membersOf(group).value {
      assert group in Listed(groups, actor) <==> group in members.Keys && actor in Listed(members, group);
    }
  }

  /** `sort.Strings`. */
  method SortStrings(xs: seq<string>) returns (ys: seq<string>)
    ensures Sorted(ys) && multiset(ys) == multiset(xs)
  {
    ys := [];
    for i := 0 to |xs|
      invariant Sorted(ys) && multiset(ys) == multiset(xs[..i])
    {
      assert xs[..i + 1] == xs[..i] + [xs[i]];
      ys := InsertSorted(ys, xs[i]);
    }
    assert xs[..|xs|] == xs;
  }

  method InsertSorted(xs: seq<string>, x: string) returns (ys: seq<string>)
    requires Sorted(xs)
    ensures Sorted(ys) && multiset(ys) == multiset(xs) + multiset{x}
  {
    var i := 0;
    while i < |xs| && Less(xs[i], x)
      invariant 0 <= i <= |xs| && forall k :: 0 <= k < i ==> Less(xs[k], x)
    {
      i := i + 1;
    }
    ys := xs[..i] + [x] + xs[i..];
    assert xs == xs[..i] + xs[i..];
    forall k | i <= k < |xs| ensures !Less(xs[k], x) { NotBelow(xs, i, k, x); }
    InsertedSorted(xs, i, x);
  }

  /** Once an entry is not below `x`, no later one is. */
  lemma {:induction false} NotBelow(xs: seq<string>, i: nat, k: nat, x: string)
    requires Sorted(xs) && i <= k < |xs| && !Less(xs[i], x)
    ensures !Less(xs[k], x)
  {
    if k > i && Less(xs[k], x) {
      LessConnected(xs[k], xs[i]);
      if Less(xs[i], xs[k]) {
        LessTransitive(xs[i], xs[k], x);
      }
    }
  }

  lemma {:induction false} InsertedSorted(xs: seq<string>, i: nat, x: string)
    requires Sorted(xs) && i <= |xs| && (forall k :: 0 <= k < i ==> Less(xs[k], x)) && forall k :: i <= k < |xs| ==> !Less(xs[k], x)
    ensures Sorted(xs[..i] + [x] + xs[i..])
  {
    forall k | 0 <= k < i ensures !Less(x, xs[k]) { LessAsymmetric(xs[k], x); }
    var ys := xs[..i] + [x] + xs[i..];
    assert forall k :: 0 <= k < i ==> ys[k] == xs[k];
    assert forall k :: i < k < |ys| ==> ys[k] == xs[k - 1];
  }

  // ---------------------------------------------------------------- agreement

  /** `matchesCandidate`: the candidate filter of a task query, with the groups the service resolved. */
  predicate MatchesCandidate(t: Task, candidate: string, groups: seq<string>) {
    if candidate == "" then true
    else if candidate in t.candidates.excluded then false
    else if t.assignee != "" then t.assignee == candidate
    else candidate in t.candidates.users || Intersects(groups, t.candidates.groups)
  }

  /** `Service.Claim`: the transition first, then the actor's eligibility. */
  function ClaimBy(directory: Option<Directory>, t: Task, actor: string, now: Time): Result<Move, Refusal> {
    var move := Claim(t, actor, now);
    if move.Err? then move
    else match IsEligible(directory, t.candidates, actor)
      case Err(e) => Err(e)
      case Ok(eligible) => if eligible then move else Err(Unauthorized)
  }

  /**
   * For a pooled task, a consistent directory and any actor: eligibility, membership in the resolved
   * candidates, appearance in the candidate query and acceptance of a claim are one and the same. (A query
   * that names no candidate filters nothing.)
   */
  lemma EligibilityAgrees(d: Directory, t: Task, actor: string, now: Time)
    requires Consistent(d) && t.status == Ready && t.assignee == ""
    ensures IsEligible(Some(d), t.candidates, actor) == Ok(InPool(Some(d), t.candidates, actor))
    ensures actor != "" ==> (MatchesCandidate(t, actor, d.groupsOf(actor).value) <==> InPool(Some(d), t.candidates, actor))
    ensures ClaimBy(Some(d), t, actor, now).Ok? <==> InPool(Some(d), t.candidates, actor)
  {
    var groups := d.groupsOf(actor).value;
    assert Intersects(groups, t.candidates.groups) <==>
           exists g :: g in t.candidates.groups && actor in Members(Some(d), g) by {
      if Intersects(groups, t.candidates.groups) {
        var g :| g in groups && g in t.candidates.groups;
        assert actor in Members(Some(d), g);
      }
      if g :| g in t.candidates.groups && actor in Members(Some(d), g) {
        assert actor in d.membersOf(g).value && g in groups;
      }
    }
  }

  // ---------------------------------------------------------------- widening

  /** `appendMissing`, as the loop over a growing slice. */
  method AppendEach(base: seq<string>, extra: seq<string>) returns (out: seq<string>)
    ensures out == AppendMissing(base, extra)
  {
    out := base;
    for i := 0 to |extra|
      invariant out == AppendMissing(base, extra[..i])
    {
      assert extra[..i + 1][..i] == extra[..i];
      if extra[i] !in out {
        out := out + [extra[i]];
      }
    }
    assert extra[..|extra|] == extra;
  }

  /** What appending keeps and adds: the base as a prefix, then each missing entry once. */
  lemma {:induction false} AppendMissingHolds(base: seq<string>, extra: seq<string>)
    ensures |base| <= |AppendMissing(base, extra)| && AppendMissing(base, extra)[..|base|] == base
    ensures forall x :: x in AppendMissing(base, extra) <==> x in base || x in extra
    ensures forall i, j :: 0 <= i < j < |AppendMissing(base, extra)| && |base| <= j ==>
              AppendMissing(base, extra)[i] != AppendMissing(base, extra)[j]
    decreases |extra|
  {
    if extra != [] {
      var k := |extra| - 1;
      AppendMissingHolds(base, extra[..k]);
      assert extra == extra[..k] + [extra[k]];
    }
  }

  /**
   * Widening adds exactly the actors the policy names who are not excluded, and admits no excluded one.
   */
  lemma WideningAdds(directory: Option<Directory>, pool: Pool, policy: Policy, actor: string)
    ensures InPool(directory, Widened(pool, policy), actor) <==>
            InPool(directory, pool, actor) || InPool(directory, Pool(policy.addUsers, policy.addGroups, pool.excluded), actor)
    ensures actor in pool.excluded ==> !InPool(directory, Widened(pool, policy), actor)
  {
    AppendMissingHolds(pool.users, policy.addUsers);
    AppendMissingHolds(pool.groups, policy.addGroups);
    var wide := Widened(pool, policy);
    if g :| g in wide.groups && actor in Members(directory, g) {
      assert g in pool.groups || g in policy.addGroups;
    }
    if g :| g in pool.groups && actor in Members(directory, g) {
      assert g in wide.groups;
    }
    if g :| g in policy.addGroups && actor in Members(directory, g) {
      assert g in wide.groups;
    }
  }
}

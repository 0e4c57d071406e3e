/** The candidates of an email pass and how it groups them (notify/email_dispatcher.go). */
module EmailGroups {
  import opened Basics
  import opened Notifications
  import opened EmailRecords

  datatype Candidate = Candidate(notification: Notification, status: Status, batchId: string, attempts: nat)

  function Ids(cs: seq<Candidate>): set<Id> {
    set c <- cs :: c.notification.id
  }

  /** No notification is claimed twice. */
  ghost predicate Distinct(cs: seq<Candidate>) {
    forall i, j :: 0 <= i < j < |cs| ==> cs[i].notification.id != cs[j].notification.id
  }

  lemma IdsCount(cs: seq<Candidate>)
    requires Distinct(cs)
    ensures |Ids(cs)| == |cs|
  {
    if cs != [] {
      var rest := cs[..|cs| - 1];
      IdsCount(rest);
      assert cs == rest + [cs[|cs| - 1]];
      assert Ids(cs) == Ids(rest) + {cs[|cs| - 1].notification.id};
    }
  }

  lemma IdsConcat(a: seq<Candidate>, b: seq<Candidate>)
    ensures Ids(a + b) == Ids(a) + Ids(b)
  {
    assert forall c :: c in a + b <==> c in a || c in b;
  }

  /** The candidates whose key is `k`, in order. */
  function Group<K(==)>(cs: seq<Candidate>, key: Candidate -> K, k: K): seq<Candidate> {
    if cs == [] then []
    else
      var last := cs[|cs| - 1];
      Group(cs[..|cs| - 1], key, k) + if key(last) == k then [last] else []
  }

  lemma GroupSnoc<K>(cs: seq<Candidate>, i: nat, key: Candidate -> K, k: K)
    requires i < |cs|
    ensures Group(cs[..i + 1], key, k) == Group(cs[..i], key, k) + if key(cs[i]) == k then [cs[i]] else []
  {
    assert cs[..i + 1][..i] == cs[..i];
  }

  lemma GroupMembers<K>(cs: seq<Candidate>, key: Candidate -> K, k: K)
    ensures forall c :: c in Group(cs, key, k) <==> c in cs && key(c) == k
    ensures Distinct(cs) ==> Distinct(Group(cs, key, k))
  {
    if cs != [] {
      var rest, last := cs[..|cs| - 1], cs[|cs| - 1];
      assert cs == rest + [last];
      GroupMembers(rest, key, k);
      if Distinct(cs) {
        forall i | 0 <= i < |Group(rest, key, k)|
          ensures Group(rest, key, k)[i].notification.id != last.notification.id
        {
          assert Group(rest, key, k)[i] in rest;
        }
      }
    }
  }

  ghost predicate NoRepeats<K>(order: seq<K>) {
    forall i, j :: 0 <= i < j < |order| ==> order[i] != order[j]
  }

  /** `groups` holds every candidate under its key, and `order` lists the keys once each. */
  ghost predicate Grouped<K(!new)>(cs: seq<Candidate>, key: Candidate -> K, order: seq<K>, groups: map<K, seq<Candidate>>) {
    && NoRepeats(order)
    && (forall k :: k in groups <==> k in order)
    && (forall k :: k in groups ==> groups[k] != [])
    && (forall k :: Group(cs, key, k) == if k in groups then groups[k] else [])
  }

  lemma GroupedSnoc<K(!new)>(cs: seq<Candidate>, i: nat, key: Candidate -> K, order: seq<K>, groups: map<K, seq<Candidate>>)
    requires i < |cs| && Grouped(cs[..i], key, order, groups)
    ensures var k := key(cs[i]);
      if k in groups then Grouped(cs[..i + 1], key, order, groups[k := groups[k] + [cs[i]]])
      else Grouped(cs[..i + 1], key, order + [k], groups[k := [cs[i]]])
  {
    var k := key(cs[i]);
    forall k' ensures Group(cs[..i + 1], key, k') == Group(cs[..i], key, k') + if k == k' then [cs[i]] else [] {
      GroupSnoc(cs, i, key, k');
    }
  }

  lemma GroupedAt<K(!new)>(cs: seq<Candidate>, key: Candidate -> K, order: seq<K>, groups: map<K, seq<Candidate>>, j: nat)
    requires Grouped(cs, key, order, groups) && j < |order|
    ensures order[j] in groups && groups[order[j]] == Group(cs, key, order[j]) != [] && NoRepeats(order)
  {
  }

  lemma GroupedKeys<K(!new)>(cs: seq<Candidate>, key: Candidate -> K, order: seq<K>, groups: map<K, seq<Candidate>>)
    requires Grouped(cs, key, order, groups)
    ensures forall c :: c in cs ==> key(c) in order
  {
    forall c | c in cs ensures key(c) in order {
      GroupMembers(cs, key, key(c));
      assert c in Group(cs, key, key(c));
    }
  }

  /** Groups candidates by a key, keys in order of first appearance. */
  method GroupBy<K(==, !new)>(cs: seq<Candidate>, key: Candidate -> K)
    returns (order: seq<K>, groups: map<K, seq<Candidate>>)
    ensures Grouped(cs, key, order, groups)
  {
    order, groups := [], map[];
    for i := 0 to |cs|
      invariant Grouped(cs[..i], key, order, groups)
    {
      var k := key(cs[i]);
      GroupedSnoc(cs, i, key, order, groups);
      if k !in groups {
        order, groups := order + [k], groups[k := [cs[i]]];
      } else {
        groups := groups[k := groups[k] + [cs[i]]];
      }
    }
    assert cs[..|cs|] == cs;
  }

  /** A send an earlier pass left in doubt. */
  predicate Doubtful(c: Candidate) {
    c.status == Sending
  }

  /** The candidates whose key is among `ks`. */
  ghost function DoneIds<K(!new)>(cs: seq<Candidate>, key: Candidate -> K, ks: seq<K>): set<Id> {
    set c | c in cs && key(c) in ks :: c.notification.id
  }

  lemma SameCandidate(cs: seq<Candidate>, a: Candidate, b: Candidate)
    requires Distinct(cs) && a in cs && b in cs && a.notification.id == b.notification.id
    ensures a == b
  {
    var i :| 0 <= i < |cs| && cs[i] == a;
    var j :| 0 <= j < |cs| && cs[j] == b;
  }

  /** Taking the next group in order adds exactly its own candidates. */
  lemma DoneStep<K(!new)>(cs: seq<Candidate>, key: Candidate -> K, order: seq<K>, j: nat)
    requires Distinct(cs) && NoRepeats(order) && j < |order|
    ensures var group := Group(cs, key, order[j]);
      && DoneIds(cs, key, order[..j + 1]) == DoneIds(cs, key, order[..j]) + Ids(group)
      && DoneIds(cs, key, order[..j]) !! Ids(group)
      && |Ids(group)| == |group|
  {
    var group := Group(cs, key, order[j]);
    GroupMembers(cs, key, order[j]);
    IdsCount(group);
    assert order[..j + 1] == order[..j] + [order[j]];
    forall a, b | a in cs && b in group && key(a) in order[..j] ensures a.notification.id != b.notification.id {
      if a.notification.id == b.notification.id { SameCandidate(cs, a, b); }
    }
  }

  lemma GroupsApart<K(!new)>(cs: seq<Candidate>, key: Candidate -> K, k1: K, k2: K)
    requires Distinct(cs) && k1 != k2
    ensures Ids(Group(cs, key, k1)) !! Ids(Group(cs, key, k2))
    ensures Ids(Group(cs, key, k1)) <= Ids(cs)
    ensures Distinct(Group(cs, key, k1))
  {
    GroupMembers(cs, key, k1);
    GroupMembers(cs, key, k2);
    forall a, b | a in Group(cs, key, k1) && b in Group(cs, key, k2) ensures a.notification.id != b.notification.id {
      if a.notification.id == b.notification.id { SameCandidate(cs, a, b); }
    }
  }

  lemma AllDone<K(!new)>(cs: seq<Candidate>, key: Candidate -> K, order: seq<K>, groups: map<K, seq<Candidate>>)
    requires Distinct(cs) && Grouped(cs, key, order, groups)
    ensures DoneIds(cs, key, order[..|order|]) == Ids(cs) && |Ids(cs)| == |cs|
  {
    GroupedKeys(cs, key, order, groups);
    assert order[..|order|] == order;
    IdsCount(cs);
  }

  /** Sets sends in doubt apart from fresh candidates. */
  method Partition(candidates: seq<Candidate>) returns (doubts: seq<Candidate>, pending: seq<Candidate>)
    ensures doubts == Group(candidates, Doubtful, true) && pending == Group(candidates, Doubtful, false)
    ensures |doubts| + |pending| == |candidates|
  {
    doubts, pending := [], [];
    for i := 0 to |candidates|
      invariant doubts == Group(candidates[..i], Doubtful, true) && pending == Group(candidates[..i], Doubtful, false)
      invariant |doubts| + |pending| == i
    {
      GroupSnoc(candidates, i, Doubtful, true);
      GroupSnoc(candidates, i, Doubtful, false);
      if Doubtful(candidates[i]) {
        doubts := doubts + [candidates[i]];
      } else {
        pending := pending + [candidates[i]];
      }
    }
    assert candidates[..|candidates|] == candidates;
  }

  lemma SameIds(a: seq<Candidate>, b: seq<Candidate>)
    requires |a| == |b| && forall k :: 0 <= k < |a| ==> a[k].notification == b[k].notification
    ensures Ids(a) == Ids(b)
  {
    forall id ensures id in Ids(a) <==> id in Ids(b) {
      if id in Ids(a) {
        var k :| 0 <= k < |a| && a[k].notification.id == id;
        assert b[k] in b && b[k].notification.id == id;
      }
      if id in Ids(b) {
        var k :| 0 <= k < |b| && b[k].notification.id == id;
        assert a[k] in a && a[k].notification.id == id;
      }
    }
  }

  lemma HalvesApart(a: seq<Candidate>, b: seq<Candidate>)
    requires Distinct(a + b)
    ensures Ids(a) !! Ids(b) && Distinct(a) && Distinct(b)
  {
    forall i, j | 0 <= i < |a| && 0 <= j < |b| ensures a[i].notification.id != b[j].notification.id {
      assert (a + b)[i] == a[i] && (a + b)[|a| + j] == b[j];
    }
    forall i, j | 0 <= i < j < |a| ensures a[i].notification.id != a[j].notification.id {
      assert (a + b)[i] == a[i] && (a + b)[j] == a[j];
    }
    forall i, j | 0 <= i < j < |b| ensures b[i].notification.id != b[j].notification.id {
      assert (a + b)[|a| + i] == b[i] && (a + b)[|a| + j] == b[j];
    }
  }

  /** The SENDING record already counted this attempt. */
  method CountAttempt(sent: seq<Candidate>) returns (live: seq<Candidate>)
    requires Distinct(sent)
    ensures |live| == |sent| && Distinct(live)
    ensures forall k :: 0 <= k < |sent| ==> live[k] == sent[k].(attempts := sent[k].attempts + 1)
  {
    live := sent;
    for i := 0 to |sent|
      invariant |live| == |sent|
      invariant forall k :: 0 <= k < |sent| ==>
        live[k] == if k < i then sent[k].(attempts := sent[k].attempts + 1) else sent[k]
    {
      live := live[i := live[i].(attempts := live[i].attempts + 1)];
    }
  }
}

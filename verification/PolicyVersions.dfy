/**
 Rotation of the managed IAM policy's versions. IAM keeps at most five versions,
 refuses a sixth, and refuses to delete the default one; a create that sets the
 default makes the new version the default.
 */
module PolicyVersions {
  import opened Common

  const MAX_VERSIONS := 5
  const MAX_RETRIES := 3

  datatype Version = Version(doc: string, date: int)

  datatype Policy = Policy(versions: map<nat, Version>, current: nat, next: nat)

  predicate Valid(p: Policy) {
    p.current in p.versions && |p.versions| <= MAX_VERSIONS && forall id :: id in p.versions ==> id < p.next
  }

  /** The default version is the strictly newest one. */
  predicate NewestIsDefault(p: Policy)
    requires p.current in p.versions
  {
    forall id :: id in p.versions && id != p.current ==> p.versions[id].date < p.versions[p.current].date
  }

  /** What IAM answers `list_policy_versions`: every version once, in any order. */
  ghost predicate IsListing(ids: seq<nat>, p: Policy) {
    && (forall id :: id in ids <==> id in p.versions)
    && (forall i, j :: 0 <= i < j < |ids| ==> ids[i] != ids[j])
  }

  datatype Env = Env(list: Policy -> seq<nat>, date: int)

  ghost predicate Honest(env: Env) {
    forall p :: IsListing(env.list(p), p)
  }

  // ----- the IAM operations

  function NewPolicy(doc: string, date: int): Policy {
    Policy(map[1 := Version(doc, date)], 1, 2)
  }

  /** `create_policy_version(SetAsDefault=True)`; nothing when the limit is reached. */
  function CreateVersion(p: Policy, doc: string, date: int): Option<Policy> {
    if |p.versions| >= MAX_VERSIONS then None
    else Some(Policy(p.versions[p.next := Version(doc, date)], p.next, p.next + 1))
  }

  /** `delete_policy_version`; nothing when the default version is asked for. */
  function DeleteVersion(p: Policy, id: nat): Option<Policy> {
    if id == p.current then None else Some(p.(versions := p.versions - {id}))
  }

  // ----- sorted(..., key=CreateDate, reverse=True): stable, newest first

  function Insert(id: nat, sorted: seq<nat>, p: Policy): seq<nat>
    requires id in p.versions && forall x :: x in sorted ==> x in p.versions
  {
    if sorted == [] then [id]
    else if p.versions[sorted[0]].date < p.versions[id].date then [id] + sorted
    else [sorted[0]] + Insert(id, sorted[1..], p)
  }

  function NewestFirst(ids: seq<nat>, p: Policy): (sorted: seq<nat>)
    requires forall x :: x in ids ==> x in p.versions
    ensures |sorted| == |ids| && forall x :: x in sorted <==> x in ids
  {
    if ids == [] then []
    else
      var n := |ids| - 1;
      InsertContents(ids[n], NewestFirst(ids[..n], p), p);
      Insert(ids[n], NewestFirst(ids[..n], p), p)
  }

  lemma {:induction false} InsertContents(id: nat, sorted: seq<nat>, p: Policy)
    requires id in p.versions && forall x :: x in sorted ==> x in p.versions
    ensures |Insert(id, sorted, p)| == |sorted| + 1
    ensures forall x :: x in Insert(id, sorted, p) <==> x == id || x in sorted
  {
    if sorted != [] && p.versions[sorted[0]].date >= p.versions[id].date {
      InsertContents(id, sorted[1..], p);
    }
  }

  lemma {:induction false} InsertNewestHead(id: nat, sorted: seq<nat>, p: Policy)
    requires id in p.versions && forall x :: x in sorted ==> x in p.versions
    requires sorted != [] ==> forall x :: x in sorted ==> p.versions[x].date <= p.versions[sorted[0]].date
    ensures var t := Insert(id, sorted, p);
            && t != [] && t[0] in p.versions
            && forall x :: x in t ==> x in p.versions && p.versions[x].date <= p.versions[t[0]].date
  {
    InsertContents(id, sorted, p);
  }

  lemma {:induction false} HeadIsNewest(ids: seq<nat>, p: Policy)
    requires ids != [] && forall x :: x in ids ==> x in p.versions
    ensures var t := NewestFirst(ids, p);
            t[0] in ids && forall x :: x in t ==> p.versions[x].date <= p.versions[t[0]].date
  {
    var n := |ids| - 1;
    if n > 0 {
      HeadIsNewest(ids[..n], p);
    } else {
      assert NewestFirst(ids[..n], p) == [];
    }
    InsertNewestHead(ids[n], NewestFirst(ids[..n], p), p);
    assert NewestFirst(ids, p)[0] in NewestFirst(ids, p);
  }

  // ----- get_custom_policy_arn

  datatype Result = Arn | Error | Nothing

  /** Deleting, in the given order, every version but `latest`; false when IAM refuses. */
  function DeleteAllBut(p: Policy, order: seq<nat>, latest: nat): (Policy, bool)
    decreases order
  {
    if order == [] then (p, true)
    else if order[0] == latest then DeleteAllBut(p, order[1..], latest)
    else
      match DeleteVersion(p, order[0])
      case None => (p, false)
      case Some(q) => DeleteAllBut(q, order[1..], latest)
  }

  function Latest(p: Policy, env: Env): nat
    requires Honest(env) && p.versions != map[]
  {
    ListingNonempty(p, env);
    NewestFirst(env.list(p), p)[0]
  }

  lemma ListingNonempty(p: Policy, env: Env)
    requires Honest(env) && p.versions != map[]
    ensures env.list(p) != [] && forall x :: x in env.list(p) <==> x in p.versions
  {
    assert IsListing(env.list(p), p);
    var id :| id in p.versions;
    assert id in env.list(p);
  }

  class ManagedPolicy {
    var policy: Option<Policy>
    var createAttempts: nat

    constructor ()
      ensures policy == None && createAttempts == 0
    {
      policy, createAttempts := None, 0;
    }

    /** Deleting the older versions, newest first; false when IAM refused one. */
    method DeleteOlderVersions(env: Env) returns (ok: bool)
      requires Honest(env) && policy.Some? && Valid(policy.value)
      modifies this
      ensures createAttempts == old(createAttempts)
      ensures policy.Some?
      ensures var was := old(policy.value);
              (policy.value, ok) == DeleteAllBut(was, NewestFirst(env.list(was), was), Latest(was, env))
    {
      ghost var before := policy.value;
      ListingNonempty(before, env);
      var order := NewestFirst(env.list(policy.value), policy.value);
      var latest := order[0];
      for i := 0 to |order|
        invariant policy.Some? && createAttempts == old(createAttempts)
        invariant DeleteAllBut(policy.value, order[i..], latest) == DeleteAllBut(before, order, latest)
      {
        assert order[i..][1..] == order[i + 1..];
        if order[i] != latest {
          var left := DeleteVersion(policy.value, order[i]);
          if left.None? {
            return false;
          }
          policy := left;
        }
      }
      ok := true;
    }

    /** The call succeeds unless IAM's limit is reached while the default version is not
        the newest; then the default stays what it was. It never deletes the default,
        never exceeds five versions, creates at most twice and never returns nothing. */
    method GetCustomPolicyArn(wanted: string, env: Env) returns (result: Result)
      requires Honest(env) && (policy.Some? ==> Valid(policy.value))
      modifies this
      ensures policy.Some? && Valid(policy.value)
      ensures result == Arn || result == Error
      ensures result == Error <==>
              && old(policy).Some?
              && var was := old(policy).value;
              && was.versions[was.current].doc != wanted
              && |was.versions| == 5 && Latest(was, env) != was.current
      ensures |policy.value.versions| <= 5
      ensures old(policy).None? ==> policy.value.versions == map[1 := Version(wanted, env.date)]
      ensures old(policy).Some? && old(policy).value.versions[old(policy).value.current].doc == wanted ==>
                policy == old(policy) && createAttempts == old(createAttempts)
      ensures old(policy).Some? && old(policy).value.versions[old(policy).value.current].doc != wanted ==>
                var was, now, version := old(policy).value, policy.value, Version(wanted, env.date);
                if |was.versions| < 5 then
                  now.versions == was.versions[was.next := version] && createAttempts == old(createAttempts) + 1
                else if result == Arn then
                  && now.versions == map[was.current := was.versions[was.current], was.next := version]
                  && createAttempts == old(createAttempts) + 2
                else StoppedAtDefault(was, now, Latest(was, env)) && createAttempts == old(createAttempts) + 1
      ensures result == Arn ==> policy.value.versions[policy.value.current].doc == wanted
      ensures result == Error ==> policy.value.current == old(policy).value.current
      ensures result == Arn ==> policy.value == Settled(old(policy), wanted, env.date)
      ensures old(policy).Some? ==>
                var was := old(policy).value;
                was.current in policy.value.versions && policy.value.versions[was.current] == was.versions[was.current]
      ensures createAttempts <= old(createAttempts) + 2
    {
      if policy.None? {
        policy := Some(NewPolicy(wanted, env.date));
        return Arn;
      }
      ghost var before := policy.value;
      if policy.value.versions[policy.value.current].doc == wanted {
        return Arn;
      }
      var retryCount := 0;
      while retryCount < MAX_RETRIES
        invariant retryCount <= 1
        invariant policy.Some? && Valid(policy.value) && createAttempts == old(createAttempts) + retryCount
        invariant retryCount == 0 ==> policy.value == before
        invariant retryCount == 1 ==>
                    && |before.versions| == MAX_VERSIONS && Latest(before, env) == before.current
                    && policy.value == before.(versions := map[before.current := before.versions[before.current]])
      {
        retryCount := retryCount + 1;
        createAttempts := createAttempts + 1;
        var created := CreateVersion(policy.value, wanted, env.date);
        if created.Some? {
          policy := created;
          return Arn;
        }
        DeletesAllButDefaultOrRefuses(policy.value, env);
        RefusalStops(policy.value, env);
        var deleted := DeleteOlderVersions(env);
        if !deleted {
          return Error;
        }
      }
      result := Nothing;
    }
  }

  /** The policy after a call that succeeds. */
  function Settled(before: Option<Policy>, wanted: string, date: int): Policy
    requires before.Some? ==> before.value.current in before.value.versions
  {
    match before
    case None => NewPolicy(wanted, date)
    case Some(p) =>
      if p.versions[p.current].doc == wanted then p
      else
        var kept := if |p.versions| >= MAX_VERSIONS then map[p.current := p.versions[p.current]] else p.versions;
        Policy(kept[p.next := Version(wanted, date)], p.next, p.next + 1)
  }

  lemma {:induction false} DeletesTheRest(p: Policy, order: seq<nat>)
    requires p.current in p.versions && (forall id :: id in p.versions ==> id == p.current || id in order)
    ensures DeleteAllBut(p, order, p.current) == (p.(versions := map[p.current := p.versions[p.current]]), true)
    decreases order
  {
    if order == [] {
      assert p.versions == map[p.current := p.versions[p.current]];
    } else if order[0] == p.current {
      DeletesTheRest(p, order[1..]);
    } else {
      DeletesTheRest(p.(versions := p.versions - {order[0]}), order[1..]);
    }
  }

  lemma {:induction false} RefusesAtDefault(p: Policy, order: seq<nat>, latest: nat)
    requires p.current in p.versions && p.current in order && latest != p.current
    requires Valid(p)
    ensures var (q, ok) := DeleteAllBut(p, order, latest);
            !ok && Valid(q) && q.current == p.current && q.versions[q.current] == p.versions[p.current]
    decreases order
  {
    if order[0] == latest {
      RefusesAtDefault(p, order[1..], latest);
    } else if order[0] != p.current {
      var left := p.(versions := p.versions - {order[0]});
      assert |left.versions| <= |p.versions| by {
        FewerKeys(p.versions, order[0]);
      }
      RefusesAtDefault(left, order[1..], latest);
    }
  }

  lemma FewerKeys(m: map<nat, Version>, id: nat)
    ensures |m - {id}| <= |m|
  {
    if id in m {
      assert m == (m - {id})[id := m[id]];
    } else {
      assert m - {id} == m;
    }
  }

  lemma DeletesAllButDefaultOrRefuses(p: Policy, env: Env)
    requires Honest(env) && Valid(p)
    ensures var (q, ok) := DeleteAllBut(p, NewestFirst(env.list(p), p), Latest(p, env));
            && Valid(q) && q.current == p.current && q.versions[q.current] == p.versions[p.current]
            && (ok <==> Latest(p, env) == p.current)
            && (ok ==> q == p.(versions := map[p.current := p.versions[p.current]]))
  {
    ListingNonempty(p, env);
    var order := NewestFirst(env.list(p), p);
    if Latest(p, env) == p.current {
      DeletesTheRest(p, order);
    } else {
      RefusesAtDefault(p, order, Latest(p, env));
    }
  }

  /** What a refused rotation leaves: the versions newer than the default are gone but for the
      latest, the older ones are there, and nothing else changed. */
  predicate StoppedAtDefault(was: Policy, now: Policy, latest: nat)
    requires was.current in was.versions
  {
    && now.current == was.current && now.next == was.next
    && (forall id :: id in now.versions ==> id in was.versions && now.versions[id] == was.versions[id])
    && forall id :: id in was.versions ==>
         && (id == latest || was.versions[id].date < was.versions[was.current].date ==> id in now.versions)
         && (id != latest && was.versions[id].date > was.versions[was.current].date ==> id !in now.versions)
  }

  predicate Descending(order: seq<nat>, versions: map<nat, Version>) {
    && (forall id :: id in order ==> id in versions)
    && forall i, j :: 0 <= i < j < |order| ==> versions[order[i]].date >= versions[order[j]].date
  }

  lemma DescendingCons(id: nat, rest: seq<nat>, versions: map<nat, Version>)
    requires id in versions && Descending(rest, versions)
    requires rest != [] ==> versions[rest[0]].date <= versions[id].date
    ensures Descending([id] + rest, versions)
  {
    var t := [id] + rest;
    assert forall x :: x in t ==> x in versions;
    forall i, j | 0 <= i < j < |t| ensures versions[t[i]].date >= versions[t[j]].date {
      assert t[j] == rest[j - 1];
      if i > 0 {
        assert t[i] == rest[i - 1];
      } else if j > 1 {
        assert versions[rest[0]].date >= versions[rest[j - 1]].date;
      }
    }
  }

  lemma DescendingTail(order: seq<nat>, versions: map<nat, Version>)
    requires order != [] && Descending(order, versions)
    ensures Descending(order[1..], versions) && order[0] in versions
    ensures |order| > 1 ==> order[1] in versions && versions[order[1]].date <= versions[order[0]].date
  {
  }

  lemma {:induction false} InsertDescending(id: nat, sorted: seq<nat>, p: Policy)
    requires id in p.versions && (forall x :: x in sorted ==> x in p.versions) && Descending(sorted, p.versions)
    ensures Descending(Insert(id, sorted, p), p.versions)
    ensures multiset(Insert(id, sorted, p)) == multiset(sorted) + multiset{id}
    ensures var t := Insert(id, sorted, p);
            t != [] && (t[0] == id || (sorted != [] && t[0] == sorted[0]))
  {
    hide Descending;
    if sorted == [] {
      assert Descending([id], p.versions) by { OneIsDescending(id, p.versions); }
    } else if p.versions[sorted[0]].date < p.versions[id].date {
      DescendingCons(id, sorted, p.versions);
    } else {
      var rest := sorted[1..];
      DescendingTail(sorted, p.versions);
      assert sorted == [sorted[0]] + rest;
      InsertDescending(id, rest, p);
      InsertContents(id, rest, p);
      DescendingCons(sorted[0], Insert(id, rest, p), p.versions);
    }
  }

  lemma OneIsDescending(id: nat, versions: map<nat, Version>)
    requires id in versions
    ensures Descending([id], versions)
  {
  }

  /** The versions sorted: every one of them, newest first. */
  lemma {:induction false} NewestFirstIsSorted(ids: seq<nat>, p: Policy)
    requires forall x :: x in ids ==> x in p.versions
    ensures Descending(NewestFirst(ids, p), p.versions)
    ensures multiset(NewestFirst(ids, p)) == multiset(ids)
  {
    if ids != [] {
      var n := |ids| - 1;
      NewestFirstIsSorted(ids[..n], p);
      InsertDescending(ids[n], NewestFirst(ids[..n], p), p);
      assert ids == ids[..n] + [ids[n]];
    }
  }

  lemma {:induction false} RefusalLeaves(p: Policy, order: seq<nat>, latest: nat, versions: map<nat, Version>)
    requires p.current in p.versions && p.current in order && latest != p.current
    requires (forall id :: id in p.versions ==> id in versions && versions[id] == p.versions[id])
    requires Descending(order, versions)
    ensures var (q, ok) := DeleteAllBut(p, order, latest);
            && !ok && q.current == p.current && q.next == p.next
            && (forall id :: id in q.versions ==> id in p.versions && q.versions[id] == p.versions[id])
            && (forall id :: id in p.versions && (id == latest || versions[id].date < versions[p.current].date) ==>
                 id in q.versions)
            && forall id :: id in order && id != latest && versions[id].date > versions[p.current].date ==>
                 id !in q.versions
    decreases order
  {
    assert order == [order[0]] + order[1..];
    if order[0] == latest {
      RefusalLeaves(p, order[1..], latest, versions);
    } else if order[0] != p.current {
      RefusalLeaves(p.(versions := p.versions - {order[0]}), order[1..], latest, versions);
    } else {
      forall id | id in order ensures versions[id].date <= versions[p.current].date {
        var i :| 0 <= i < |order| && order[i] == id;
        assert i == 0 || versions[order[0]].date >= versions[order[i]].date;
      }
    }
  }

  lemma RefusalStops(p: Policy, env: Env)
    requires Honest(env) && Valid(p)
    ensures Latest(p, env) != p.current ==>
              StoppedAtDefault(p, DeleteAllBut(p, NewestFirst(env.list(p), p), Latest(p, env)).0, Latest(p, env))
  {
    ListingNonempty(p, env);
    NewestFirstIsSorted(env.list(p), p);
    if Latest(p, env) != p.current {
      RefusalLeaves(p, NewestFirst(env.list(p), p), Latest(p, env), p.versions);
    }
  }

  // ----- over whole histories

  lemma DefaultIsLatest(p: Policy, env: Env)
    requires Honest(env) && Valid(p) && NewestIsDefault(p)
    ensures Latest(p, env) == p.current
  {
    ListingNonempty(p, env);
    HeadIsNewest(env.list(p), p);
    assert p.current in NewestFirst(env.list(p), p);
  }

  lemma SettledKeepsInvariant(before: Option<Policy>, wanted: string, date: int)
    requires before.Some? ==> Valid(before.value) && NewestIsDefault(before.value)
    requires before.Some? ==> forall id :: id in before.value.versions ==> before.value.versions[id].date < date
    ensures var p := Settled(before, wanted, date);
            Valid(p) && NewestIsDefault(p) && p.versions[p.current].doc == wanted
  {
  }

  datatype Call = Call(wanted: string, date: int)

  /** The policy after a series of calls, from before it existed. */
  function History(calls: seq<Call>): (p: Option<Policy>)
    ensures p.Some? ==> p.value.current in p.value.versions
  {
    if calls == [] then None
    else
      var last := calls[|calls| - 1];
      Some(Settled(History(calls[..|calls| - 1]), last.wanted, last.date))
  }

  /** From creation on, with creation dates that increase, the newest version is always
      the default, so every call in the history is one that succeeds: no call raises,
      the default document is the one asked for, and five versions are never exceeded. */
  lemma {:induction false} HistoryNeverRaises(calls: seq<Call>)
    requires forall i, j :: 0 <= i < j < |calls| ==> calls[i].date < calls[j].date
    ensures History(calls).Some? ==> Valid(History(calls).value) && NewestIsDefault(History(calls).value)
    ensures calls != [] ==> var p := History(calls).value;
              && p.versions[p.current].doc == calls[|calls| - 1].wanted
              && forall id :: id in p.versions ==> p.versions[id].date <= calls[|calls| - 1].date
    ensures forall env :: Honest(env) && History(calls).Some? ==>
              Latest(History(calls).value, env) == History(calls).value.current
  {
    if calls != [] {
      var before, last := calls[..|calls| - 1], calls[|calls| - 1];
      HistoryNeverRaises(before);
      if before != [] {
        assert before[|before| - 1].date < last.date;
      }
      SettledKeepsInvariant(History(before), last.wanted, last.date);
    }
    forall env | Honest(env) && History(calls).Some?
      ensures Latest(History(calls).value, env) == History(calls).value.current
    {
      DefaultIsLatest(History(calls).value, env);
    }
  }
}

/**
 Convergence of the StackSet reconciler over whole runs. Three sets of accounts meet
 in a round: the planner's list, the `targets` AWS expands the OUs to when it creates,
 and the `ous` the deletes reach. The planner decides from two projections whether to
 create anything, which is exact as long as the deployed relation is a rectangle.
 */
module StackSetRuns {
  import opened Organization
  import Go = OrgTraversalGo
  import opened StackSets

  lemma CrossProjections(accounts: set<string>, regions: set<string>)
    ensures AccountsOf(Cross(accounts, regions)) == if regions == {} then {} else accounts
    ensures RegionsOf(Cross(accounts, regions)) == if accounts == {} then {} else regions
    ensures Rectangle(Cross(accounts, regions))
  {
    var pairs := Cross(accounts, regions);
    if r :| r in regions {
      forall a | a in accounts ensures a in AccountsOf(pairs) {
        assert (a, r) in pairs && (a, r).0 == a;
      }
    }
    if a :| a in accounts {
      forall r | r in regions ensures r in RegionsOf(pairs) {
        assert (a, r) in pairs && (a, r).1 == r;
      }
    }
  }

  lemma SameCross(a: set<string>, b: set<string>, regions: set<string>)
    ensures Cross(a, regions) == Cross(b, regions) <==> regions == {} || a == b
  {
    if Cross(a, regions) == Cross(b, regions) && regions != {} {
      var r :| r in regions;
      forall x ensures x in a <==> x in b {
        assert (x, r) in Cross(a, regions) <==> (x, r) in Cross(b, regions);
      }
    }
    if regions == {} {
      assert Cross(a, regions) == {} == Cross(b, regions);
    }
  }

  lemma EmptyElements(s: seq<string>)
    ensures Elements(s) == {} <==> |s| == 0
  {
    if |s| > 0 {
      assert s[0] in Elements(s);
    }
  }

  lemma PairProjections(pairs: set<Pair>, p: Pair)
    requires p in pairs
    ensures p.0 in AccountsOf(pairs) && p.1 in RegionsOf(pairs)
  {
  }

  /** What AWS guarantees about a round: the OUs expand to accounts in them, and nothing
      of this is the management account. */
  ghost predicate Expands(pairs: set<Pair>, accounts: set<string>, targets: set<string>, ous: set<string>,
                          management: string) {
    && targets <= ous
    && management !in accounts && management !in targets && management !in AccountsOf(pairs)
  }

  /** With a rectangle deployed, planning no create means nothing is missing. */
  lemma NothingPlannedNothingMissing(pairs: set<Pair>, info: Info, accounts: set<string>, regions: set<string>,
                                     management: string)
    requires Plans(info, pairs, accounts, regions, management) && management !in accounts
    requires Rectangle(pairs) && !CreatePlanned(info)
    ensures Cross(accounts, regions) <= pairs
  {
    EmptyElements(info.accountsToAdd);
    EmptyElements(info.regionsToAdd);
    forall p | p in Cross(accounts, regions) ensures p in pairs {
      assert p.0 in AccountsOf(pairs) by {
        assert p.0 !in accounts - AccountsOf(pairs) - {management};
      }
      assert p.1 in RegionsOf(pairs) by {
        assert p.1 !in regions - RegionsOf(pairs);
      }
      var a :| a in pairs && a.0 == p.0;
      var r :| r in pairs && r.1 == p.1;
      assert (a.0, r.1) in pairs;
    }
  }

  // ----- one round

  /** Whether a round leaves `p`: a wanted pair must be there or be created; any other one
      stays if the deletes cannot reach it, or if the create has only just made it. */
  predicate Leaves(pairs: set<Pair>, creates: bool, accounts: set<string>, targets: set<string>,
                   regions: set<string>, ous: set<string>, p: Pair) {
    if p.0 in accounts && p.1 in regions then p in pairs || (creates && p.0 in targets)
    else
      || (p in pairs && p.0 !in ous)
      || (creates && p in Cross(targets, regions) && p.0 !in AccountsOf(pairs))
  }

  /** Which instances a round leaves. */
  lemma RoundLeaves(pairs: set<Pair>, info: Info, accounts: set<string>, targets: set<string>, regions: set<string>,
                    ous: set<string>, management: string, p: Pair)
    requires Plans(info, pairs, accounts, regions, management) && Expands(pairs, accounts, targets, ous, management)
    ensures p in AfterRound(pairs, info, targets, regions, ous) <==>
            Leaves(pairs, CreatePlanned(info), accounts, targets, regions, ous, p)
  {
    var grown := if CreatePlanned(info) then Created(pairs, targets, regions) else pairs;
    EmptyElements(info.accountsToRemove);
    EmptyElements(info.regionsToRemove);
    if p in grown {
      PairProjections(grown, p);
    }
    if p in pairs {
      PairProjections(pairs, p);
      assert p.0 !in accounts ==> p.0 in Elements(info.accountsToRemove);
      assert p.1 !in regions ==> p.1 in Elements(info.regionsToRemove);
    }
    assert p.0 in accounts ==> p.0 !in Elements(info.accountsToRemove);
    assert p.1 in regions ==> p.1 !in Elements(info.regionsToRemove);
  }

  /** When a round ends with exactly the listed accounts times the regions: what is missing
      is created and the OUs expand to it; every other pair is within the OUs, because the
      deletes intersect with them; and a create makes nothing for an unlisted account that
      had nothing, because only accounts seen before are cleaned up. */
  ghost predicate ReachesList(pairs: set<Pair>, creates: bool, accounts: set<string>, targets: set<string>,
                              regions: set<string>, ous: set<string>) {
    && (forall p :: p in Cross(accounts, regions) ==> p in pairs || (creates && p.0 in targets))
    && (forall p :: p in pairs && p !in Cross(accounts, regions) ==> p.0 in ous)
    && (creates && regions != {} ==> targets - accounts <= AccountsOf(pairs))
  }

  lemma RoundConvergesIff(pairs: set<Pair>, info: Info, accounts: set<string>, targets: set<string>,
                          regions: set<string>, ous: set<string>, management: string)
    requires Plans(info, pairs, accounts, regions, management) && Expands(pairs, accounts, targets, ous, management)
    ensures AfterRound(pairs, info, targets, regions, ous) == Cross(accounts, regions) <==>
            ReachesList(pairs, CreatePlanned(info), accounts, targets, regions, ous)
  {
    var left, want := AfterRound(pairs, info, targets, regions, ous), Cross(accounts, regions);
    var creates := CreatePlanned(info);
    forall p ensures p in left <==> Leaves(pairs, creates, accounts, targets, regions, ous, p) {
      RoundLeaves(pairs, info, accounts, targets, regions, ous, management, p);
    }
    if left == want && creates && regions != {} {
      var r :| r in regions;
      forall a | a in targets - accounts ensures a in AccountsOf(pairs) {
        assert (a, r) !in want;
      }
    }
    if left == want {
      forall p | p in pairs && p !in want ensures p.0 in ous {
        assert p !in left;
      }
    }
    if ReachesList(pairs, creates, accounts, targets, regions, ous) {
      assert forall p :: p in left <==> p in want;
    }
  }

  /** When it ends with exactly what the OUs expand to, times the regions. */
  ghost predicate ReachesTargets(pairs: set<Pair>, creates: bool, accounts: set<string>, targets: set<string>,
                                 regions: set<string>, ous: set<string>) {
    && (forall p :: p in Cross(targets, regions) ==>
         if p.0 in accounts then creates || p in pairs else creates && p.0 !in AccountsOf(pairs))
    && (forall p :: p in pairs && p !in Cross(targets, regions) ==>
         p.0 in ous && !(p.0 in accounts && p.1 in regions))
  }

  lemma RoundCoversTargetsIff(pairs: set<Pair>, info: Info, accounts: set<string>, targets: set<string>,
                              regions: set<string>, ous: set<string>, management: string)
    requires Plans(info, pairs, accounts, regions, management) && Expands(pairs, accounts, targets, ous, management)
    ensures AfterRound(pairs, info, targets, regions, ous) == Cross(targets, regions) <==>
            ReachesTargets(pairs, CreatePlanned(info), accounts, targets, regions, ous)
  {
    var left, want := AfterRound(pairs, info, targets, regions, ous), Cross(targets, regions);
    var creates := CreatePlanned(info);
    forall p ensures p in left <==> Leaves(pairs, creates, accounts, targets, regions, ous, p) {
      RoundLeaves(pairs, info, accounts, targets, regions, ous, management, p);
    }
    if left == want {
      forall p | p in want
        ensures if p.0 in accounts then creates || p in pairs else creates && p.0 !in AccountsOf(pairs)
      {
        assert p in left;
      }
      forall p | p in pairs && p !in want ensures p.0 in ous && !(p.0 in accounts && p.1 in regions) {
        assert p !in left;
      }
    }
    if ReachesTargets(pairs, creates, accounts, targets, regions, ous) {
      assert forall p :: p in left <==> p in want;
    }
  }

  /** The accounts a round leaves deployed when its list misses none but targets. */
  function Covered(pairs: set<Pair>, info: Info, accounts: set<string>, targets: set<string>): set<string> {
    accounts + if CreatePlanned(info) then targets - AccountsOf(pairs) else {}
  }

  /** On a rectangle inside the OUs, with a list that may miss targets but names nothing
      else, the outcome is a rectangle again: the listed accounts, and with a create also
      the targets that had no instance before. */
  lemma RectangleRound(pairs: set<Pair>, info: Info, accounts: set<string>, targets: set<string>, regions: set<string>,
                       ous: set<string>, management: string)
    requires Plans(info, pairs, accounts, regions, management) && Expands(pairs, accounts, targets, ous, management)
    requires Rectangle(pairs) && accounts <= targets && AccountsOf(pairs) <= ous
    ensures AfterRound(pairs, info, targets, regions, ous) == Cross(Covered(pairs, info, accounts, targets), regions)
  {
    var left := AfterRound(pairs, info, targets, regions, ous);
    var want := Cross(Covered(pairs, info, accounts, targets), regions);
    if !CreatePlanned(info) {
      NothingPlannedNothingMissing(pairs, info, accounts, regions, management);
    }
    forall p ensures p in left <==> p in want {
      RoundLeaves(pairs, info, accounts, targets, regions, ous, management, p);
      if p in pairs {
        PairProjections(pairs, p);
      }
    }
  }

  /** So such a round ends with what the OUs expand to if and only if the accounts missing
      from the list are all new and something was created for them. */
  lemma RectangleConvergesIff(pairs: set<Pair>, info: Info, accounts: set<string>, targets: set<string>,
                              regions: set<string>, ous: set<string>, management: string)
    requires Plans(info, pairs, accounts, regions, management) && Expands(pairs, accounts, targets, ous, management)
    requires Rectangle(pairs) && accounts <= targets && AccountsOf(pairs) <= ous
    ensures AfterRound(pairs, info, targets, regions, ous) == Cross(targets, regions) <==>
            || regions == {} || accounts == targets
            || (CreatePlanned(info) && (targets - accounts) !! AccountsOf(pairs))
  {
    hide AfterRound, Plans, Rectangle, Cross, AccountsOf;
    RectangleRound(pairs, info, accounts, targets, regions, ous, management);
    var covered := Covered(pairs, info, accounts, targets);
    SameCross(covered, targets, regions);
    var seen := AccountsOf(pairs);
    assert forall a :: a in covered <==> a in accounts || (CreatePlanned(info) && a in targets && a !in seen);
  }

  /** A second round with the same wishes deletes nothing; it creates nothing exactly
      when no status is bad and accounts and regions are both empty or both not. */
  lemma SecondRoundIsQuiet(info: Info, accounts: set<string>, regions: set<string>, management: string)
    requires Plans(info, Cross(accounts, regions), accounts, regions, management) && management !in accounts
    ensures !CleanupPlanned(info)
    ensures !CreatePlanned(info) <==> !info.failedOrCanceled && (accounts == {} <==> regions == {})
  {
    CrossProjections(accounts, regions);
    EmptyElements(info.accountsToAdd);
    EmptyElements(info.accountsToRemove);
    EmptyElements(info.regionsToAdd);
    EmptyElements(info.regionsToRemove);
    assert management !in accounts ==> accounts - {} - {management} == accounts;
    assert accounts - accounts - {management} == {} && regions - regions == {};
  }

  // ----- runs

  /** What changes the relation: a round without errors while all deployed accounts are
      still in the OUs, its list possibly missing some of them; and automatic deployment
      to an account that joins or leaves the OUs. */
  datatype Action =
    | Deploy(info: Info, accounts: set<string>, targets: set<string>, regions: set<string>, ous: set<string>)
    | Join(account: string)
    | Leave(account: string)

  ghost predicate Step(before: set<Pair>, a: Action, after: set<Pair>, management: string) {
    match a
    case Deploy(info, accounts, targets, regions, ous) =>
      && Plans(info, before, accounts, regions, management)
      && targets <= ous && management !in targets
      && accounts <= targets && AccountsOf(before) <= ous
      && after == AfterRound(before, info, targets, regions, ous)
    case Join(account) => account != management && after == before + Cross({account}, RegionsOf(before))
    case Leave(account) => after == set p | p in before && p.0 != account
  }

  ghost predicate Run(states: seq<set<Pair>>, actions: seq<Action>, management: string) {
    && |states| == |actions| + 1 && states[0] == {}
    && forall i :: 0 <= i < |actions| ==> Step(states[i], actions[i], states[i + 1], management)
  }

  lemma StepKeepsRectangle(before: set<Pair>, a: Action, after: set<Pair>, management: string)
    requires Step(before, a, after, management) && Rectangle(before) && management !in AccountsOf(before)
    ensures Rectangle(after) && management !in AccountsOf(after)
    ensures a.Deploy? ==> after == Cross(Covered(before, a.info, a.accounts, a.targets), a.regions)
  {
    hide AfterRound, Plans, Rectangle, Cross;
    match a
    case Deploy(info, accounts, targets, regions, ous) =>
      RectangleRound(before, info, accounts, targets, regions, ous, management);
      CrossProjections(Covered(before, info, accounts, targets), regions);
    case Join(account) => JoinKeepsRectangle(before, account, management);
    case Leave(account) => LeaveKeepsRectangle(before, account);
  }

  lemma LeaveKeepsRectangle(before: set<Pair>, account: string)
    requires Rectangle(before)
    ensures var after := set p | p in before && p.0 != account;
            Rectangle(after) && AccountsOf(after) <= AccountsOf(before)
  {
    var after := set p | p in before && p.0 != account;
    forall p, q | p in after && q in after ensures (p.0, q.1) in after {
      assert (p.0, q.1) in before;
    }
  }

  lemma JoinKeepsRectangle(before: set<Pair>, account: string, management: string)
    requires Rectangle(before) && management !in AccountsOf(before) && account != management
    ensures var after := before + Cross({account}, RegionsOf(before));
            Rectangle(after) && management !in AccountsOf(after)
  {
    var after := before + Cross({account}, RegionsOf(before));
    forall p, q | p in after && q in after ensures (p.0, q.1) in after {
      if q in before {
        PairProjections(before, q);
      }
      if p in before && q !in before {
        var s :| s in before && s.1 == q.1;
        assert (p.0, s.1) in before;
      }
    }
  }

  /** Starting from no instances, whatever the earlier lists missed: after every round the
      deployed relation is the covered accounts times the regions. It is exactly what the
      OUs expand to, times the regions, if and only if the list missed nothing, or only
      accounts without instances in a round that created, or there are no regions. */
  lemma {:induction false} RunsConverge(states: seq<set<Pair>>, actions: seq<Action>, management: string, n: nat)
    requires Run(states, actions, management) && n < |states|
    ensures Rectangle(states[n]) && management !in AccountsOf(states[n])
    ensures n > 0 && actions[n - 1].Deploy? ==>
              var a, before := actions[n - 1], states[n - 1];
              && states[n] == Cross(Covered(before, a.info, a.accounts, a.targets), a.regions)
              && (states[n] == Cross(a.targets, a.regions) <==>
                    || a.regions == {} || a.accounts == a.targets
                    || (CreatePlanned(a.info) && (a.targets - a.accounts) !! AccountsOf(before)))
  {
    if n > 0 {
      RunsConverge(states, actions, management, n - 1);
      StepKeepsRectangle(states[n - 1], actions[n - 1], states[n], management);
      if actions[n - 1].Deploy? {
        var a := actions[n - 1];
        RectangleConvergesIff(states[n - 1], a.info, a.accounts, a.targets, a.regions, a.ous, management);
      }
    }
  }

  // ----- where the list comes from

  /** Some describe call about `x` answered ACTIVE. */
  predicate Reported(all: seq<string>, describe: nat -> Describe, x: string) {
    exists i :: 0 <= i < |all| && all[i] == x && describe(i) == Status(true)
  }

  lemma {:induction false} AnsweredAreReported(all: seq<string>, describe: nat -> Describe, x: string)
    ensures x in Go.AnsweredActive(all, describe) <==> Reported(all, describe, x)
  {
    if all != [] {
      var n := |all| - 1;
      var before := all[..n];
      assert forall i :: 0 <= i < n ==> before[i] == all[i];
      AnsweredAreReported(before, describe, x);
      if i :| 0 <= i < |all| && all[i] == x && describe(i) == Status(true) && i < n {
        assert before[i] == x;
      }
    }
  }

  lemma {:induction false} TrulyActiveAre(all: seq<string>, active: string -> bool, x: string)
    ensures x in Go.TrulyActive(all, active) <==> x in all && active(x)
  {
    if all != [] {
      TrulyActiveAre(all[..|all| - 1], active, x);
    }
  }

  /** The describe loop lists only active accounts, and all of them exactly if each got
      one ACTIVE answer; if no account occurs twice, exactly if no call about an active
      account failed. */
  lemma ListIsCompleteIff(all: seq<string>, describe: nat -> Describe, active: string -> bool)
    requires Go.Truthful(all, describe, active)
    ensures var accounts := Elements(Go.AnsweredActive(all, describe));
            var targets := Elements(Go.TrulyActive(all, active));
            && accounts <= targets
            && (accounts == targets <==> forall x :: x in all && active(x) ==> Reported(all, describe, x))
            && (Distinct(all) ==> (accounts == targets <==> Go.NoActiveMissed(all, describe, active)))
  {
    var accounts, targets := Elements(Go.AnsweredActive(all, describe)), Elements(Go.TrulyActive(all, active));
    forall x ensures x in accounts <==> Reported(all, describe, x) {
      AnsweredAreReported(all, describe, x);
    }
    forall x ensures x in targets <==> x in all && active(x) {
      TrulyActiveAre(all, active, x);
    }
    if accounts == targets {
      forall x | x in all && active(x) ensures Reported(all, describe, x) {
        assert x in targets;
      }
    }
    if Distinct(all) {
      EachReportedIff(all, describe, active);
    }
  }

  lemma EachReportedIff(all: seq<string>, describe: nat -> Describe, active: string -> bool)
    requires Go.Truthful(all, describe, active) && Distinct(all)
    ensures (forall x :: x in all && active(x) ==> Reported(all, describe, x)) <==>
            Go.NoActiveMissed(all, describe, active)
  {
    if forall x :: x in all && active(x) ==> Reported(all, describe, x) {
      forall i | 0 <= i < |all| && active(all[i]) ensures !describe(i).DescribeFails? {
        assert Reported(all, describe, all[i]);
      }
    }
    if Go.NoActiveMissed(all, describe, active) {
      forall x | x in all && active(x) ensures Reported(all, describe, x) {
        var i :| 0 <= i < |all| && all[i] == x;
        assert describe(i) == Status(true);
      }
    }
  }

  /** The describe loop's list in a round on a converged StackSet: what remains are the
      listed accounts, so the round leaves it converged if and only if every active
      account got an ACTIVE answer. One the loop dropped loses its instances. */
  lemma RedeployKeepsTargetsIff(info: Info, all: seq<string>, describe: nat -> Describe, active: string -> bool,
                                regions: set<string>, ous: set<string>, management: string)
    requires Go.Truthful(all, describe, active)
    requires var accounts := Elements(Go.AnsweredActive(all, describe));
             var targets := Elements(Go.TrulyActive(all, active));
             && Plans(info, Cross(targets, regions), accounts, regions, management)
             && targets <= ous && management !in targets
    ensures var targets := Elements(Go.TrulyActive(all, active));
            var left := AfterRound(Cross(targets, regions), info, targets, regions, ous);
            && left == Cross(Elements(Go.AnsweredActive(all, describe)), regions)
            && (left == Cross(targets, regions) <==>
                  regions == {} || forall x :: x in all && active(x) ==> Reported(all, describe, x))
  {
    hide *;
    var accounts, targets := Elements(Go.AnsweredActive(all, describe)), Elements(Go.TrulyActive(all, active));
    ListIsCompleteIff(all, describe, active);
    ConvergedRound(info, accounts, targets, regions, ous, management);
    SameCross(accounts, targets, regions);
  }

  /** From a converged relation, a list within the targets is what remains. */
  lemma ConvergedRound(info: Info, accounts: set<string>, targets: set<string>, regions: set<string>,
                       ous: set<string>, management: string)
    requires Plans(info, Cross(targets, regions), accounts, regions, management)
    requires accounts <= targets <= ous && management !in targets
    ensures AfterRound(Cross(targets, regions), info, targets, regions, ous) == Cross(accounts, regions)
  {
    hide AfterRound, Plans, Rectangle, Cross, AccountsOf;
    var pairs := Cross(targets, regions);
    CrossProjections(targets, regions);
    RectangleRound(pairs, info, accounts, targets, regions, ous, management);
    SameCross(Covered(pairs, info, accounts, targets), accounts, regions);
  }

  // ----- what the conditions shut out

  /** An account in the OUs that the list misses is deployed to all the same. */
  lemma UnlistedAccountIsCreated(info: Info, a: string, x: string, r: string, management: string)
    requires a != x && management !in {a, x} && Plans(info, {}, {a}, {r}, management)
    ensures CreatePlanned(info) && AfterRound({}, info, {a, x}, {r}, {a, x}) == {(a, r), (x, r)}
    ensures {(a, r), (x, r)} == Cross({a, x}, {r}) != Cross({a}, {r})
  {
    EmptyElements(info.accountsToAdd);
    assert a in {a} - AccountsOf({}) - {management};
    assert Expands({}, {a}, {a, x}, {a, x}, management);
    forall p ensures p in AfterRound({}, info, {a, x}, {r}, {a, x}) <==> p == (a, r) || p == (x, r) {
      RoundLeaves({}, info, {a}, {a, x}, {r}, {a, x}, management, p);
    }
    assert (x, r) in Cross({a, x}, {r}) && (x, r) !in Cross({a}, {r});
    assert forall p :: p in Cross({a, x}, {r}) <==> p == (a, r) || p == (x, r);
  }

  /** If it was deployed before, it loses its instances. */
  lemma UnlistedAccountIsRemoved(info: Info, a: string, x: string, r: string, management: string)
    requires a != x && management !in {a, x} && Plans(info, {(a, r), (x, r)}, {a}, {r}, management)
    ensures AfterRound({(a, r), (x, r)}, info, {a, x}, {r}, {a, x}) == {(a, r)}
    ensures {(a, r), (x, r)} == Cross({a, x}, {r})
  {
    var pairs := {(a, r), (x, r)};
    assert AccountsOf(pairs) == {a, x} by {
      assert (a, r) in pairs && (x, r) in pairs && (a, r).0 == a && (x, r).0 == x;
    }
    forall p ensures p in AfterRound(pairs, info, {a, x}, {r}, {a, x}) <==> p == (a, r) {
      RoundLeaves(pairs, info, {a}, {a, x}, {r}, {a, x}, management, p);
    }
    assert forall p :: p in Cross({a, x}, {r}) <==> p == (a, r) || p == (x, r);
  }

  /** Off the rectangle the projections hide holes: a diagonal is never repaired. */
  lemma DiagonalIsNotRepaired(info: Info, a: string, b: string, r: string, q: string, management: string)
    requires a != b && r != q && management !in {a, b}
    requires Plans(info, {(a, r), (b, q)}, {a, b}, {r, q}, management) && !info.failedOrCanceled
    ensures !CreatePlanned(info) && !CleanupPlanned(info)
    ensures AfterRound({(a, r), (b, q)}, info, {a, b}, {r, q}, {a, b}) == {(a, r), (b, q)} != Cross({a, b}, {r, q})
  {
    var pairs := {(a, r), (b, q)};
    assert (a, r) in pairs && (b, q) in pairs;
    assert AccountsOf(pairs) == {a, b} by {
      assert (a, r).0 == a && (b, q).0 == b;
    }
    assert RegionsOf(pairs) == {r, q} by {
      assert (a, r).1 == r && (b, q).1 == q;
    }
    EmptyElements(info.accountsToAdd);
    EmptyElements(info.accountsToRemove);
    EmptyElements(info.regionsToAdd);
    EmptyElements(info.regionsToRemove);
    assert (a, q) in Cross({a, b}, {r, q});
  }

  /** A listed account that the OUs do not expand to gets no new region, which breaks the
      rectangle although every deployed account is in the OUs. */
  lemma ListedOutsideTargetsBreaksRectangle(info: Info, a: string, x: string, r: string, q: string, management: string)
    requires a != x && r != q && management !in {a, x}
    requires Plans(info, {(a, r), (x, r)}, {a, x}, {r, q}, management)
    ensures Rectangle({(a, r), (x, r)})
    ensures !Rectangle(AfterRound({(a, r), (x, r)}, info, {a}, {r, q}, {a, x}))
  {
    var pairs := {(a, r), (x, r)};
    assert RegionsOf(pairs) == {r} by {
      assert (a, r) in pairs && (a, r).1 == r;
    }
    EmptyElements(info.regionsToAdd);
    assert q in {r, q} - RegionsOf(pairs);
    var left := AfterRound(pairs, info, {a}, {r, q}, {a, x});
    RoundLeaves(pairs, info, {a, x}, {a}, {r, q}, {a, x}, management, (a, q));
    RoundLeaves(pairs, info, {a, x}, {a}, {r, q}, {a, x}, management, (x, r));
    RoundLeaves(pairs, info, {a, x}, {a}, {r, q}, {a, x}, management, (x, q));
    assert (x, r) in left && (a, q) in left && (x, q) !in left;
  }

  /** An account that left the OUs keeps its instances, and these can then hide a region
      that is missing everywhere else. */
  lemma LeftoverHidesRegion(info: Info, a: string, x: string, r: string, q: string, management: string)
    requires a != x && r != q && management !in {a, x}
    requires Plans(info, {(a, r), (x, r), (x, q)}, {a}, {r, q}, management) && !info.failedOrCanceled
    ensures !CreatePlanned(info) && Elements(info.accountsToRemove) == {x}
    ensures AfterRound({(a, r), (x, r), (x, q)}, info, {a}, {r, q}, {a}) == {(a, r), (x, r), (x, q)}
    ensures (a, q) in Cross({a}, {r, q}) && (a, q) !in {(a, r), (x, r), (x, q)}
  {
    var pairs := {(a, r), (x, r), (x, q)};
    assert AccountsOf(pairs) == {a, x} by {
      assert (a, r) in pairs && (x, r) in pairs && (a, r).0 == a && (x, r).0 == x;
    }
    assert RegionsOf(pairs) == {r, q} by {
      assert (a, r) in pairs && (x, q) in pairs && (a, r).1 == r && (x, q).1 == q;
    }
    EmptyElements(info.accountsToAdd);
    EmptyElements(info.regionsToAdd);
    EmptyElements(info.regionsToRemove);
    forall p ensures p in AfterRound(pairs, info, {a}, {r, q}, {a}) <==> p in pairs {
      RoundLeaves(pairs, info, {a}, {a}, {r, q}, {a}, management, p);
      assert p in Cross({a}, {r, q}) && p in pairs ==> p == (a, r);
    }
  }
}

/**
 The Go traversal: sequential, recursive, retrying each call up to five times and
 failing on the sixth refused attempt.
 */
module OrgTraversalGo {
  import opened Common
  import opened Organization

  const MAX_RETRY_ATTEMPTS := 5
  const DELAY_SECONDS := 2

  /** A call gets all its pages before a sixth refusal. */
  predicate CallSucceeds(svc: Service, ou: OU, kind: Kind) {
    Refusals(svc, ou, kind, PageCount(svc, ou, kind) + MAX_RETRY_ATTEMPTS) <= MAX_RETRY_ATTEMPTS
  }

  /** That is: for some number of refusals up to five, that many and all pages are what the
      first attempts meet. */
  lemma CallSucceedsIff(svc: Service, ou: OU, kind: Kind)
    requires PageCount(svc, ou, kind) > 0
    ensures CallSucceeds(svc, ou, kind) <==>
            exists refused: nat :: refused <= 5 && MeetsAfter(svc, ou, kind, refused)
  {
    var pages := PageCount(svc, ou, kind);
    if CallSucceeds(svc, ou, kind) {
      SomeRefused(svc, ou, kind, 0);
    }
    if refused: nat :| refused <= 5 && MeetsAfter(svc, ou, kind, refused) {
      RefusalsGrow(svc, ou, kind, pages + refused, pages + 5);
    }
  }

  /** After `refused` refusals and all pages the call is done. */
  predicate MeetsAfter(svc: Service, ou: OU, kind: Kind, refused: nat) {
    Refusals(svc, ou, kind, PageCount(svc, ou, kind) + refused) == refused
  }

  lemma {:induction false} SomeRefused(svc: Service, ou: OU, kind: Kind, from: nat)
    requires from <= 5 && CallSucceeds(svc, ou, kind)
    requires Refusals(svc, ou, kind, PageCount(svc, ou, kind) + from) >= from
    ensures exists refused: nat :: refused <= 5 && MeetsAfter(svc, ou, kind, refused)
    decreases 5 - from
  {
    var pages := PageCount(svc, ou, kind);
    RefusalsGrow(svc, ou, kind, pages + from, pages + 5);
    if Refusals(svc, ou, kind, pages + from) == from {
      assert MeetsAfter(svc, ou, kind, from);
    } else {
      RefusalsGrow(svc, ou, kind, pages + from, pages + from + 1);
      SomeRefused(svc, ou, kind, from + 1);
    }
  }

  /** The call and every call below it succeed. */
  predicate AllSucceed(svc: Service, ou: OU, kind: Kind)
    decreases ou
  {
    && CallSucceeds(svc, ou, kind)
    && (kind == UnitKind ==> forall i :: 0 <= i < |ou.children| ==>
         AllSucceed(svc, ou.children[i], AccountKind) && AllSucceed(svc, ou.children[i], UnitKind))
  }

  method TakeAccounts(page: seq<string>, management: string, excluded: seq<string>) returns (taken: seq<string>)
    ensures taken == Wanted(page, Out(management, excluded))
  {
    taken := [];
    for i := 0 to |page|
      invariant taken == Wanted(page[..i], Out(management, excluded))
    {
      assert page[..i + 1][..i] == page[..i];
      if page[i] !in excluded && page[i] != management {
        taken := taken + [page[i]];
      }
    }
    assert page[..|page|] == page;
  }

  /** Both calls for every unit of a page; the first error ends the traversal. */
  method TakeUnits(svc: Service, page: seq<OU>, ghost parent: OU, management: string, excluded: seq<string>)
    returns (ok: bool, taken: seq<string>)
    requires Honest(svc) && forall c :: c in page ==> c in parent.children
    ensures ok <==> forall c :: c in page ==> AllSucceed(svc, c, AccountKind) && AllSucceed(svc, c, UnitKind)
    ensures ok ==> taken == FlattenAll(page, Out(management, excluded))
    decreases parent, 0
  {
    hide AllSucceed, Refusals, UnitsSucceed, Pow2, Wanted, Occurrences, OccurrencesAll, Out;
    taken := [];
    for i := 0 to |page|
      invariant taken == FlattenAll(page[..i], Out(management, excluded))
      invariant forall c :: c in page[..i] ==> AllSucceed(svc, c, AccountKind) && AllSucceed(svc, c, UnitKind)
    {
      assert page[..i + 1][..i] == page[..i];
      assert page[i] in parent.children;
      var childOk, accounts, failures, slept, pages :=
        GetDeploymentTargetChildren(svc, AccountKind, page[i], management, excluded);
      if !childOk {
        return false, [];
      }
      taken := taken + accounts;
      childOk, accounts, failures, slept, pages :=
        GetDeploymentTargetChildren(svc, UnitKind, page[i], management, excluded);
      if !childOk {
        return false, [];
      }
      taken := taken + accounts;
    }
    assert page[..|page|] == page;
    ok := true;
  }

  /** `failures` attempts of this call were refused; `slept` is its own backoff. The
      outer retry loop of the code runs its body once, so only the inner one is kept. */
  method GetDeploymentTargetChildren(svc: Service, kind: Kind, ou: OU, management: string, excluded: seq<string>)
    returns (ok: bool, children: seq<string>, failures: nat, slept: nat, pagesRead: nat)
    requires Honest(svc)
    ensures ok <==> AllSucceed(svc, ou, kind)
    ensures ok ==> children == Listed(ou, kind, Out(management, excluded))
    ensures ok ==> management !in children
    ensures ok ==> forall x ::
              multiset(children)[x] ==
              if x == management || x in excluded then 0
              else if kind == AccountKind then multiset(ou.accounts)[x] else OccurrencesAll(ou.children, x)
    ensures ok ==> pagesRead == PageCount(svc, ou, kind) && failures <= 5
    ensures failures <= 6 && Refusals(svc, ou, kind, pagesRead + failures) == failures
    ensures !ok ==> failures == 6 || (kind == UnitKind && !UnitsSucceed(svc, ou.children))
    ensures slept == 2 * (Pow2(if failures <= 5 then failures else 5) - 1) <= 62
    decreases ou, 1
  {
    hide Wanted, FlattenAll, Concat, Out, UnitsSucceed, AllSucceed, CallSucceeds, Refusals, Pow2, ListedUpTo, PagesOf;
    ghost var out, pages := Out(management, excluded), PageCount(svc, ou, kind);
    NoRefusalYet(svc, ou, kind);
    ghost var attempt := 0;
    var retryAttempts, delay := 0, DELAY_SECONDS;
    children, failures, slept, pagesRead := [], 0, 0, 0;
    assert PagesOf(svc, ou);
    NoPageTaken(svc, ou, kind, out);
    var tryNext := true;
    while tryNext
      invariant failures == retryAttempts <= MAX_RETRY_ATTEMPTS
      invariant delay == DELAY_SECONDS * Pow2(retryAttempts)
      invariant slept == DELAY_SECONDS * (Pow2(retryAttempts) - 1) <= 62
      invariant attempt == pagesRead + retryAttempts && Refusals(svc, ou, kind, attempt) == retryAttempts
      invariant pagesRead <= pages && (tryNext <==> pagesRead < pages)
      invariant children == ListedUpTo(svc, ou, kind, pagesRead, out)
      invariant kind == UnitKind ==> UnitsSucceed(svc, Concat(svc.unitPages(ou)[..pagesRead]))
      decreases pages - pagesRead + MAX_RETRY_ATTEMPTS - retryAttempts
    {
      OneMoreAttempt(svc, ou, kind, attempt);
      attempt := attempt + 1;
      if svc.refuses(ou, kind, pagesRead + retryAttempts) {
        failures := failures + 1;
        if retryAttempts < MAX_RETRY_ATTEMPTS {
          Backoff(retryAttempts);
          retryAttempts, slept, delay := retryAttempts + 1, slept + delay, delay * 2;
          continue;
        }
        SixthRefusalFails(svc, ou, kind, attempt);
        return false, [], failures, slept, pagesRead;
      }
      PageTaken(svc, ou, kind, pagesRead, out);
      var taken;
      if kind == AccountKind {
        taken := TakeAccounts(svc.accountPages(ou)[pagesRead], management, excluded);
      } else {
        var childrenOk;
        childrenOk, taken := TakeUnits(svc, svc.unitPages(ou)[pagesRead], ou, management, excluded);
        UnitsSucceedAre(svc, svc.unitPages(ou)[pagesRead], ou);
        if !childrenOk {
          return false, [], failures, slept, pagesRead;
        }
      }
      children, pagesRead := children + taken, pagesRead + 1;
      tryNext := pagesRead < PageCount(svc, ou, kind);
    }
    AllPagesSucceed(svc, ou, kind, attempt, out);
    ListedCounts(ou, kind, management, excluded);
    ok := true;
  }

  /** What is listed: every account as often as it occurs, but not the management account and
      not the excluded ones. */
  lemma ListedCounts(ou: OU, kind: Kind, management: string, excluded: seq<string>)
    ensures var listed := Listed(ou, kind, Out(management, excluded));
            && management !in listed
            && forall x :: multiset(listed)[x] ==
                 if x == management || x in excluded then 0
                 else if kind == AccountKind then multiset(ou.accounts)[x] else OccurrencesAll(ou.children, x)
  {
    hide Wanted, FlattenAll, OccurrencesAll;
    var out := Out(management, excluded);
    forall x ensures multiset(Listed(ou, kind, out))[x] ==
                     if x in out then 0
                     else if kind == AccountKind then multiset(ou.accounts)[x] else OccurrencesAll(ou.children, x)
    {
      WantedCounts(ou.accounts, out, x);
      TargetsCount(ou.children, out, x);
    }
    assert multiset(Listed(ou, kind, out))[management] == 0;
  }

  lemma NoRefusalYet(svc: Service, ou: OU, kind: Kind)
    ensures Refusals(svc, ou, kind, 0) == 0 && Pow2(0) == 1
    ensures PagesOf(svc, ou) ==> PageCount(svc, ou, kind) > 0
  {
  }

  lemma OneMoreAttempt(svc: Service, ou: OU, kind: Kind, attempt: nat)
    ensures Refusals(svc, ou, kind, attempt + 1) ==
            Refusals(svc, ou, kind, attempt) + if svc.refuses(ou, kind, attempt) then 1 else 0
  {
  }

  lemma Backoff(retryAttempts: nat)
    requires retryAttempts < MAX_RETRY_ATTEMPTS
    ensures Pow2(retryAttempts + 1) == 2 * Pow2(retryAttempts) && DELAY_SECONDS * (Pow2(retryAttempts + 1) - 1) <= 62
  {
    Pow2Grows(retryAttempts + 1, MAX_RETRY_ATTEMPTS);
  }

  lemma SixthRefusalFails(svc: Service, ou: OU, kind: Kind, attempt: nat)
    requires Refusals(svc, ou, kind, attempt) > MAX_RETRY_ATTEMPTS
    requires attempt <= PageCount(svc, ou, kind) + MAX_RETRY_ATTEMPTS
    ensures !AllSucceed(svc, ou, kind)
  {
    RefusalsGrow(svc, ou, kind, attempt, PageCount(svc, ou, kind) + MAX_RETRY_ATTEMPTS);
  }

  lemma AllPagesSucceed(svc: Service, ou: OU, kind: Kind, attempt: nat, out: set<string>)
    requires PagesOf(svc, ou) && Refusals(svc, ou, kind, attempt) <= MAX_RETRY_ATTEMPTS
    requires attempt == PageCount(svc, ou, kind) + Refusals(svc, ou, kind, attempt)
    requires kind == UnitKind ==> UnitsSucceed(svc, Concat(svc.unitPages(ou)[..PageCount(svc, ou, kind)]))
    ensures AllSucceed(svc, ou, kind)
    ensures ListedUpTo(svc, ou, kind, PageCount(svc, ou, kind), out) == Listed(ou, kind, out)
  {
    hide Wanted, FlattenAll, Concat;
    RefusalsGrow(svc, ou, kind, attempt, PageCount(svc, ou, kind) + MAX_RETRY_ATTEMPTS);
    assert svc.accountPages(ou)[..|svc.accountPages(ou)|] == svc.accountPages(ou);
    assert svc.unitPages(ou)[..|svc.unitPages(ou)|] == svc.unitPages(ou);
    UnitsSucceedAre(svc, ou.children, ou);
  }

  lemma UnitsSucceedAre(svc: Service, units: seq<OU>, ou: OU)
    requires forall c :: c in units ==> c in ou.children
    ensures UnitsSucceed(svc, units) <==>
            forall c :: c in units ==> AllSucceed(svc, c, AccountKind) && AllSucceed(svc, c, UnitKind)
    ensures !UnitsSucceed(svc, units) ==> !AllSucceed(svc, ou, UnitKind) && !UnitsSucceed(svc, ou.children)
    ensures UnitsSucceed(svc, ou.children) && CallSucceeds(svc, ou, UnitKind) ==> AllSucceed(svc, ou, UnitKind)
  {
  }

  predicate UnitsSucceed(svc: Service, units: seq<OU>) {
    forall c :: c in units ==> AllSucceed(svc, c, AccountKind) && AllSucceed(svc, c, UnitKind)
  }

  function ListedUpTo(svc: Service, ou: OU, kind: Kind, n: nat, out: set<string>): seq<string>
    requires n <= PageCount(svc, ou, kind)
  {
    if kind == AccountKind then Wanted(Concat(svc.accountPages(ou)[..n]), out)
    else FlattenAll(Concat(svc.unitPages(ou)[..n]), out)
  }

  lemma NoPageTaken(svc: Service, ou: OU, kind: Kind, out: set<string>)
    ensures ListedUpTo(svc, ou, kind, 0, out) == []
    ensures UnitsSucceed(svc, Concat(svc.unitPages(ou)[..0]))
  {
  }

  lemma PageTaken(svc: Service, ou: OU, kind: Kind, n: nat, out: set<string>)
    requires Honest(svc) && n < PageCount(svc, ou, kind)
    ensures ListedUpTo(svc, ou, kind, n + 1, out) == ListedUpTo(svc, ou, kind, n, out) +
              if kind == AccountKind then Wanted(svc.accountPages(ou)[n], out)
              else FlattenAll(svc.unitPages(ou)[n], out)
    ensures kind == UnitKind ==> forall c :: c in svc.unitPages(ou)[n] ==> c in ou.children
    ensures kind == UnitKind ==> (UnitsSucceed(svc, Concat(svc.unitPages(ou)[..n + 1])) <==>
              UnitsSucceed(svc, Concat(svc.unitPages(ou)[..n])) && UnitsSucceed(svc, svc.unitPages(ou)[n]))
  {
    assert PagesOf(svc, ou);
    if kind == AccountKind {
      var pages := svc.accountPages(ou);
      assert pages[..n + 1][..n] == pages[..n];
      WantedConcat(Concat(pages[..n]), pages[n], out);
    } else {
      var pages := svc.unitPages(ou);
      assert pages[..n + 1][..n] == pages[..n];
      FlattenAllConcat(Concat(pages[..n]), pages[n], out);
      forall c | c in pages[n] ensures c in ou.children {
        ConcatHas(pages, c);
      }
    }
  }

  // ----- getDeploymentTargetActiveAccounts

  /** The accounts whose one `describe_account` call answered ACTIVE; a failed call is
      counted but the account is not asked again. */
  function AnsweredActive(accounts: seq<string>, describe: nat -> Describe): seq<string> {
    if accounts == [] then []
    else
      var n := |accounts| - 1;
      AnsweredActive(accounts[..n], describe) + (if describe(n) == Status(true) then [accounts[n]] else [])
  }

  function DescribeFailures(describe: nat -> Describe, n: nat): nat {
    if n == 0 then 0 else DescribeFailures(describe, n - 1) + (if describe(n - 1).DescribeFails? then 1 else 0)
  }

  lemma {:induction false} DescribeFailuresCount(describe: nat -> Describe, n: nat)
    ensures DescribeFailures(describe, n) == |set i: nat | i < n && describe(i).DescribeFails?|
  {
    var failed := set i: nat | i < n && describe(i).DescribeFails?;
    if n > 0 {
      DescribeFailuresCount(describe, n - 1);
      var before := set i: nat | i < n - 1 && describe(i).DescribeFails?;
      assert failed == if describe(n - 1).DescribeFails? then before + {n - 1} else before;
    } else {
      assert failed == {};
    }
  }

  lemma {:induction false} DescribeFailuresGrow(describe: nat -> Describe, a: nat, b: nat)
    requires a <= b
    ensures DescribeFailures(describe, a) <= DescribeFailures(describe, b)
  {
    if a < b {
      DescribeFailuresGrow(describe, a, b - 1);
    }
  }

  /** The loop over `describe_account`. */
  method KeepActive(accounts: seq<string>, describe: nat -> Describe) returns (ok: bool, active: seq<string>)
    ensures ok <==> DescribeFailures(describe, |accounts|) <= 5
    ensures ok ==> active == AnsweredActive(accounts, describe)
  {
    active := [];
    var retryAttempts := 0;
    for i := 0 to |accounts|
      invariant active == AnsweredActive(accounts[..i], describe)
      invariant retryAttempts == DescribeFailures(describe, i) <= MAX_RETRY_ATTEMPTS
    {
      assert accounts[..i + 1][..i] == accounts[..i];
      match describe(i) {
        case DescribeFails =>
          if retryAttempts < MAX_RETRY_ATTEMPTS {
            retryAttempts := retryAttempts + 1;
            continue;
          }
          DescribeFailuresGrow(describe, i + 1, |accounts|);
          return false, [];
        case Status(isActive) =>
          if isActive {
            active := active + [accounts[i]];
          }
        case NoAccount =>
      }
    }
    assert accounts[..|accounts|] == accounts;
    ok := true;
  }

  /** Whole OUs, or single accounts named one by one, which are not filtered. */
  datatype Targets = Ous(ous: seq<OU>) | Standalone(accounts: seq<string>)

  /** The accounts to be described. */
  function Candidates(targets: Targets, out: set<string>): seq<string> {
    match targets
    case Ous(ous) => FlattenAll(ous, out)
    case Standalone(accounts) => accounts
  }

  method ListTargets(svc: Service, ous: seq<OU>, management: string, excluded: seq<string>)
    returns (ok: bool, accounts: seq<string>)
    requires Honest(svc)
    ensures ok <==> UnitsSucceed(svc, ous)
    ensures ok ==> accounts == FlattenAll(ous, Out(management, excluded))
    ensures ok ==> management !in accounts
    ensures ok ==> forall x ::
              multiset(accounts)[x] == if x == management || x in excluded then 0 else OccurrencesAll(ous, x)
  {
    hide AllSucceed, Wanted, Pow2, OccurrencesAll, Refusals;
    accounts := [];
    for i := 0 to |ous|
      invariant accounts == FlattenAll(ous[..i], Out(management, excluded))
      invariant UnitsSucceed(svc, ous[..i])
    {
      assert ous[..i + 1][..i] == ous[..i];
      var targetOk, listed, failures, slept, pages :=
        GetDeploymentTargetChildren(svc, AccountKind, ous[i], management, excluded);
      if !targetOk {
        return false, [];
      }
      accounts := accounts + listed;
      targetOk, listed, failures, slept, pages :=
        GetDeploymentTargetChildren(svc, UnitKind, ous[i], management, excluded);
      if !targetOk {
        return false, [];
      }
      accounts := accounts + listed;
    }
    assert ous[..|ous|] == ous;
    TargetsListed(ous, management, excluded);
    ok := true;
  }

  lemma TargetsListed(ous: seq<OU>, management: string, excluded: seq<string>)
    ensures var listed := FlattenAll(ous, Out(management, excluded));
            && management !in listed
            && forall x :: multiset(listed)[x] ==
                 if x == management || x in excluded then 0 else OccurrencesAll(ous, x)
  {
    hide FlattenAll, OccurrencesAll;
    var out := Out(management, excluded);
    forall x ensures multiset(FlattenAll(ous, out))[x] == if x in out then 0 else OccurrencesAll(ous, x) {
      TargetsCount(ous, out, x);
    }
    assert multiset(FlattenAll(ous, out))[management] == 0;
  }

  method GetDeploymentTargetActiveAccounts(svc: Service, targets: Targets, management: string, excluded: seq<string>,
                                           describe: nat -> Describe)
    returns (ok: bool, activeAccounts: seq<string>)
    requires Honest(svc)
    ensures var all := Candidates(targets, Out(management, excluded));
            && (ok <==> (targets.Ous? ==> UnitsSucceed(svc, targets.ous))
                        && DescribeFailures(describe, |all|) <= 5)
            && (ok ==> activeAccounts == AnsweredActive(all, describe))
    ensures targets.Standalone? ==> (ok <==> DescribeFailures(describe, |targets.accounts|) <= 5)
    ensures ok && targets.Standalone? ==> activeAccounts == AnsweredActive(targets.accounts, describe)
    ensures ok && targets.Ous? ==> forall x ::
              multiset(activeAccounts)[x] <=
              if x == management || x in excluded then 0 else OccurrencesAll(targets.ous, x)
  {
    hide UnitsSucceed, FlattenAll, DescribeFailures, AnsweredActive;
    var allAccounts := [];
    if targets.Standalone? {
      allAccounts := targets.accounts;
    } else {
      ok, allAccounts := ListTargets(svc, targets.ous, management, excluded);
      if !ok {
        return false, [];
      }
    }
    ok, activeAccounts := KeepActive(allAccounts, describe);
    AnsweredCounts(allAccounts, describe);
  }

  lemma {:induction false} AnsweredCounts(accounts: seq<string>, describe: nat -> Describe)
    ensures multiset(AnsweredActive(accounts, describe)) <= multiset(accounts)
  {
    if accounts != [] {
      var n := |accounts| - 1;
      AnsweredCounts(accounts[..n], describe);
      assert accounts == accounts[..n] + [accounts[n]];
    }
  }

  /** The accounts that are in fact active. */
  function TrulyActive(accounts: seq<string>, active: string -> bool): seq<string> {
    if accounts == [] then []
    else
      var n := |accounts| - 1;
      TrulyActive(accounts[..n], active) + (if active(accounts[n]) then [accounts[n]] else [])
  }

  /** A call that does not fail says whether the account is active. */
  ghost predicate Truthful(accounts: seq<string>, describe: nat -> Describe, active: string -> bool) {
    forall i :: 0 <= i < |accounts| && !describe(i).DescribeFails? ==>
      (describe(i) == Status(true) <==> active(accounts[i]))
  }

  /** No `describe_account` call about an active account failed. */
  predicate NoActiveMissed(accounts: seq<string>, describe: nat -> Describe, active: string -> bool) {
    forall i :: 0 <= i < |accounts| && active(accounts[i]) ==> !describe(i).DescribeFails?
  }

  lemma NoActiveMissedLast(accounts: seq<string>, describe: nat -> Describe, active: string -> bool)
    requires accounts != []
    ensures var n := |accounts| - 1;
            NoActiveMissed(accounts, describe, active) <==>
            NoActiveMissed(accounts[..n], describe, active) && (active(accounts[n]) ==> !describe(n).DescribeFails?)
  {
    var n := |accounts| - 1;
    var before := accounts[..n];
    assert forall i :: 0 <= i < n ==> before[i] == accounts[i];
    if NoActiveMissed(before, describe, active) && (active(accounts[n]) ==> !describe(n).DescribeFails?) {
      forall i | 0 <= i < |accounts| && active(accounts[i]) ensures !describe(i).DescribeFails? {
        if i < n {
          assert active(before[i]);
        }
      }
    }
    if NoActiveMissed(accounts, describe, active) {
      forall i | 0 <= i < n && active(before[i]) ensures !describe(i).DescribeFails? {
        assert active(accounts[i]);
      }
    }
  }

  lemma SameLast(a: seq<string>, b: seq<string>, x: string)
    ensures a + [x] == b + [x] <==> a == b
  {
    if a + [x] == b + [x] {
      assert |a| == |a + [x]| - 1 == |b|;
      assert a == (a + [x])[..|a|] && b == (b + [x])[..|b|];
    }
  }

  /** The retry does not repeat the call, so the result is complete exactly when no
      call about an active account failed. */
  lemma {:induction false} ActiveCompleteIff(accounts: seq<string>, describe: nat -> Describe, active: string -> bool)
    requires Truthful(accounts, describe, active)
    ensures |AnsweredActive(accounts, describe)| <= |TrulyActive(accounts, active)|
    ensures AnsweredActive(accounts, describe) == TrulyActive(accounts, active)
            <==> NoActiveMissed(accounts, describe, active)
  {
    hide NoActiveMissed;
    if accounts == [] {
      assert NoActiveMissed(accounts, describe, active) by { NoneMissedInNothing(describe, active); }
    } else {
      var n := |accounts| - 1;
      var before, x := accounts[..n], accounts[n];
      assert forall i :: 0 <= i < n ==> before[i] == accounts[i];
      ActiveCompleteIff(before, describe, active);
      NoActiveMissedLast(accounts, describe, active);
      var a, t := AnsweredActive(before, describe), TrulyActive(before, active);
      if !active(x) {
        assert AnsweredActive(accounts, describe) == a && TrulyActive(accounts, active) == t;
      } else if describe(n).DescribeFails? {
        assert AnsweredActive(accounts, describe) == a && TrulyActive(accounts, active) == t + [x];
        assert |a| < |t + [x]|;
      } else {
        assert AnsweredActive(accounts, describe) == a + [x] && TrulyActive(accounts, active) == t + [x];
        SameLast(a, t, x);
      }
    }
  }

  lemma NoneMissedInNothing(describe: nat -> Describe, active: string -> bool)
    ensures NoActiveMissed([], describe, active)
  {
  }

  function Out(management: string, excluded: seq<string>): set<string> {
    (set x | x in excluded) + {management}
  }
}

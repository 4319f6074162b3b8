/**
 An organization's tree of organizational units, the paged listing service over it,
 and the plain flatten both traversals are measured against.
 */
module Organization {
  import opened Common

  datatype OU = OU(id: string, accounts: seq<string>, children: seq<OU>)

  datatype Kind = AccountKind | UnitKind

  /** How `list_children` answers: the pages of each listing, and which attempts of a
      call (counted from 0 over the whole call) are refused. */
  datatype Service = Service(accountPages: OU -> seq<seq<string>>, unitPages: OU -> seq<seq<OU>>,
                             refuses: (OU, Kind, nat) -> bool)

  /** How one `describe_account` call answers. */
  datatype Describe = DescribeFails | Status(active: bool) | NoAccount

  /** Any split into pages, empty pages included, as long as nothing is lost. */
  ghost predicate Honest(svc: Service) {
    forall ou :: PagesOf(svc, ou)
  }

  ghost predicate PagesOf(svc: Service, ou: OU) {
    && svc.accountPages(ou) != [] && Concat(svc.accountPages(ou)) == ou.accounts
    && svc.unitPages(ou) != [] && Concat(svc.unitPages(ou)) == ou.children
  }

  function PageCount(svc: Service, ou: OU, kind: Kind): nat {
    if kind == AccountKind then |svc.accountPages(ou)| else |svc.unitPages(ou)|
  }

  /** The accounts that are not left out, in order. */
  function Wanted(accounts: seq<string>, out: set<string>): seq<string> {
    if accounts == [] then []
    else
      var last := accounts[|accounts| - 1];
      Wanted(accounts[..|accounts| - 1], out) + if last in out then [] else [last]
  }

  /** All accounts of the subtree, parents before children. */
  function Flatten(ou: OU, out: set<string>): seq<string> {
    Wanted(ou.accounts, out) + FlattenAll(ou.children, out)
  }

  function FlattenAll(ous: seq<OU>, out: set<string>): seq<string> {
    if ous == [] then [] else FlattenAll(ous[..|ous| - 1], out) + Flatten(ous[|ous| - 1], out)
  }

  /** What one call of a given kind is to return. */
  function Listed(ou: OU, kind: Kind, out: set<string>): seq<string> {
    if kind == AccountKind then Wanted(ou.accounts, out) else FlattenAll(ou.children, out)
  }

  lemma {:induction false} WantedConcat(a: seq<string>, b: seq<string>, out: set<string>)
    ensures Wanted(a + b, out) == Wanted(a, out) + Wanted(b, out)
  {
    if b == [] {
      assert a + b == a;
    } else {
      assert (a + b)[..|a + b| - 1] == a + b[..|b| - 1];
      WantedConcat(a, b[..|b| - 1], out);
    }
  }

  lemma {:induction false} FlattenAllConcat(a: seq<OU>, b: seq<OU>, out: set<string>)
    ensures FlattenAll(a + b, out) == FlattenAll(a, out) + FlattenAll(b, out)
  {
    if b == [] {
      assert a + b == a;
    } else {
      assert (a + b)[..|a + b| - 1] == a + b[..|b| - 1];
      FlattenAllConcat(a, b[..|b| - 1], out);
    }
  }

  /** How often `x` is listed as an account in the subtree. */
  function Occurrences(ou: OU, x: string): nat {
    multiset(ou.accounts)[x] + OccurrencesAll(ou.children, x)
  }

  function OccurrencesAll(ous: seq<OU>, x: string): nat {
    if ous == [] then 0 else OccurrencesAll(ous[..|ous| - 1], x) + Occurrences(ous[|ous| - 1], x)
  }

  lemma {:induction false} WantedCounts(accounts: seq<string>, out: set<string>, x: string)
    ensures multiset(Wanted(accounts, out))[x] == if x in out then 0 else multiset(accounts)[x]
  {
    if accounts != [] {
      var before, last := accounts[..|accounts| - 1], accounts[|accounts| - 1];
      WantedCounts(before, out, x);
      assert multiset(accounts) == multiset(before) + multiset{last} by {
        assert accounts == before + [last];
      }
      assert Wanted(accounts, out) == if last in out then Wanted(before, out) else Wanted(before, out) + [last];
    }
  }

  /** The flatten lists every account of the subtree as often as it occurs there, unless it
      is left out. */
  lemma {:induction false} FlattenCounts(ou: OU, out: set<string>, x: string)
    ensures multiset(Flatten(ou, out))[x] == if x in out then 0 else Occurrences(ou, x)
    decreases ou, 1
  {
    WantedCounts(ou.accounts, out, x);
    FlattenAllCounts(ou, ou.children, out, x);
  }

  lemma {:induction false} FlattenAllCounts(parent: OU, ous: seq<OU>, out: set<string>, x: string)
    requires forall i :: 0 <= i < |ous| ==> ous[i] < parent
    ensures multiset(FlattenAll(ous, out))[x] == if x in out then 0 else OccurrencesAll(ous, x)
    decreases parent, 0, |ous|
  {
    if ous != [] {
      FlattenAllCounts(parent, ous[..|ous| - 1], out, x);
      FlattenCounts(ous[|ous| - 1], out, x);
    }
  }

  lemma {:induction false} TargetsCount(ous: seq<OU>, out: set<string>, x: string)
    ensures multiset(FlattenAll(ous, out))[x] == if x in out then 0 else OccurrencesAll(ous, x)
  {
    if ous != [] {
      TargetsCount(ous[..|ous| - 1], out, x);
      FlattenCounts(ous[|ous| - 1], out, x);
    }
  }

  // ----- counting refused attempts

  function Refusals(svc: Service, ou: OU, kind: Kind, attempts: nat): nat {
    if attempts == 0 then 0
    else Refusals(svc, ou, kind, attempts - 1) + (if svc.refuses(ou, kind, attempts - 1) then 1 else 0)
  }

  lemma {:induction false} RefusalsCount(svc: Service, ou: OU, kind: Kind, attempts: nat)
    ensures Refusals(svc, ou, kind, attempts) == |set i: nat | i < attempts && svc.refuses(ou, kind, i)|
  {
    var refused := set i: nat | i < attempts && svc.refuses(ou, kind, i);
    if attempts > 0 {
      RefusalsCount(svc, ou, kind, attempts - 1);
      var before := set i: nat | i < attempts - 1 && svc.refuses(ou, kind, i);
      assert refused == if svc.refuses(ou, kind, attempts - 1) then before + {attempts - 1} else before;
    } else {
      assert refused == {};
    }
  }

  lemma {:induction false} RefusalsGrow(svc: Service, ou: OU, kind: Kind, a: nat, b: nat)
    requires a <= b
    ensures Refusals(svc, ou, kind, a) <= Refusals(svc, ou, kind, b) <= Refusals(svc, ou, kind, a) + (b - a)
  {
    if a < b {
      RefusalsGrow(svc, ou, kind, a, b - 1);
    }
  }

  function Pow2(k: nat): nat {
    if k == 0 then 1 else 2 * Pow2(k - 1)
  }

  lemma {:induction false} Pow2Grows(a: nat, b: nat)
    requires a <= b
    ensures Pow2(a) <= Pow2(b)
  {
    if a < b {
      Pow2Grows(a, b - 1);
    }
  }
}

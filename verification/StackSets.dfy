/**
 The reconciler of an OU-based, service-managed StackSet. The deployed instances
 are a relation between accounts and regions; the planner only sees its two
 projections. One round is a deploy followed by the cleanup.

 AWS's side is the class `StackSet`: an operation that succeeds has its documented
 effect, one that fails leaves whatever `Fails` carries.
 */
module StackSets {
  import opened Common
  import opened Text

  type Pair = (string, string)

  // ----- the relation and its projections

  function AccountsOf(pairs: set<Pair>): set<string> {
    set p | p in pairs :: p.0
  }

  function RegionsOf(pairs: set<Pair>): set<string> {
    set p | p in pairs :: p.1
  }

  function Cross(accounts: set<string>, regions: set<string>): set<Pair> {
    set a, r | a in accounts && r in regions :: (a, r)
  }

  /** Every deployed account has an instance in every deployed region. */
  ghost predicate Rectangle(pairs: set<Pair>) {
    forall p, q :: p in pairs && q in pairs ==> (p.0, q.1) in pairs
  }

  function Elements(s: seq<string>): set<string> {
    set x | x in s
  }

  // ----- slices

  /** Go's filter loops: the entries of `want` that are neither in `have` nor `except`. */
  function Keep(want: seq<string>, have: seq<string>, except: Option<string>): seq<string> {
    if want == [] then []
    else
      var x, before := want[|want| - 1], want[..|want| - 1];
      Keep(before, have, except) + (if x !in have && Some(x) != except then [x] else [])
  }

  lemma {:induction false} KeepElements(want: seq<string>, have: seq<string>, except: Option<string>)
    ensures forall x :: x in Keep(want, have, except) <==> x in want && x !in have && Some(x) != except
  {
    if want != [] {
      KeepElements(want[..|want| - 1], have, except);
    }
  }

  /** Order and repetitions are kept: the list is filtered element by element. */
  lemma {:induction false} KeepConcat(a: seq<string>, b: seq<string>, have: seq<string>, except: Option<string>)
    ensures Keep(a + b, have, except) == Keep(a, have, except) + Keep(b, have, except)
    ensures forall x :: Keep([x], have, except) == if x !in have && Some(x) != except then [x] else []
  {
    KeepOne(have, except);
    if b == [] {
      assert a + b == a;
    } else {
      assert (a + b)[..|a + b| - 1] == a + b[..|b| - 1];
      KeepConcat(a, b[..|b| - 1], have, except);
    }
  }

  lemma KeepOne(have: seq<string>, except: Option<string>)
    ensures forall x :: Keep([x], have, except) == if x !in have && Some(x) != except then [x] else []
  {
    forall x ensures Keep([x], have, except) == if x !in have && Some(x) != except then [x] else [] {
      assert [x][..0] == [];
    }
  }

  method Contains(slice: seq<string>, item: string) returns (found: bool)
    ensures found <==> item in slice
  {
    for i := 0 to |slice|
      invariant item !in slice[..i]
    {
      if slice[i] == item {
        return true;
      }
    }
    assert slice[..|slice|] == slice;
    return false;
  }

  predicate Distinct(s: seq<string>) {
    forall i, j :: 0 <= i < j < |s| ==> s[i] != s[j]
  }

  method Unique(input: seq<string>) returns (list: seq<string>)
    ensures Distinct(list) && Elements(list) == Elements(input)
  {
    var seen: set<string> := {};
    list := [];
    for i := 0 to |input|
      invariant Distinct(list) && seen == Elements(list) == Elements(input[..i])
    {
      if input[i] !in seen {
        seen := seen + {input[i]};
        list := list + [input[i]];
      }
      assert input[..i + 1] == input[..i] + [input[i]];
    }
    assert input[..|input|] == input;
  }

  method Filter(want: seq<string>, have: seq<string>, except: Option<string>) returns (kept: seq<string>)
    ensures kept == Keep(want, have, except)
  {
    kept := [];
    for i := 0 to |want|
      invariant kept == Keep(want[..i], have, except)
    {
      var found := Contains(have, want[i]);
      if !found && Some(want[i]) != except {
        kept := kept + [want[i]];
      }
      assert want[..i + 1][..i] == want[..i];
    }
    assert want[..|want|] == want;
  }

  // ----- planning

  datatype Info = Info(failedOrCanceled: bool, accountsToAdd: seq<string>, accountsToRemove: seq<string>,
                       regionsToAdd: seq<string>, regionsToRemove: seq<string>)

  predicate Bad(status: string) {
    HasText(status, "FAILED") || HasText(status, "CANCELED")
  }

  /** A status is bad when it reads FAILED or CANCELED anywhere. */
  lemma BadIff(status: string)
    ensures Bad(status) <==>
            || (exists a, b :: status == a + "FAILED" + b)
            || (exists a, b :: status == a + "CANCELED" + b)
  {
    HasTextIff(status, "FAILED");
    HasTextIff(status, "CANCELED");
  }

  ghost predicate AnyBad(instances: map<Pair, string>) {
    exists p :: p in instances && Bad(instances[p])
  }

  /** What the plan means for the relation `pairs` and the wanted accounts and regions. */
  ghost predicate Plans(info: Info, pairs: set<Pair>, accounts: set<string>, regions: set<string>, management: string) {
    && Elements(info.accountsToAdd) == accounts - AccountsOf(pairs) - {management}
    && Elements(info.accountsToRemove) == AccountsOf(pairs) - accounts - {management}
    && Elements(info.regionsToAdd) == regions - RegionsOf(pairs)
    && Elements(info.regionsToRemove) == RegionsOf(pairs) - regions
  }

  predicate CreatePlanned(info: Info) {
    info.failedOrCanceled || |info.accountsToAdd| > 0 || |info.regionsToAdd| > 0
  }

  predicate CleanupPlanned(info: Info) {
    |info.accountsToRemove| > 0 || |info.regionsToRemove| > 0
  }

  datatype Summary = Summary(account: string, region: string, status: string)

  /** The pages of a listing show every instance, with its status, and nothing else. */
  ghost predicate Lists(pages: seq<seq<Summary>>, instances: map<Pair, string>) {
    && pages != []
    && (forall i, j :: 0 <= i < |pages| && 0 <= j < |pages[i]| ==>
         (pages[i][j].account, pages[i][j].region) in instances
         && instances[(pages[i][j].account, pages[i][j].region)] == pages[i][j].status)
    && (forall p :: p in instances ==> Shown(pages, p))
  }

  ghost predicate Shown(pages: seq<seq<Summary>>, p: Pair) {
    exists i, j :: 0 <= i < |pages| && 0 <= j < |pages[i]| && (pages[i][j].account, pages[i][j].region) == p
  }

  function Column(rows: seq<Summary>, account: bool): seq<string> {
    seq(|rows|, i requires 0 <= i < |rows| => if account then rows[i].account else rows[i].region)
  }

  lemma ListedProjections(pages: seq<seq<Summary>>, instances: map<Pair, string>)
    requires Lists(pages, instances)
    ensures Elements(Column(Concat(pages), true)) == AccountsOf(instances.Keys)
    ensures Elements(Column(Concat(pages), false)) == RegionsOf(instances.Keys)
    ensures (exists s :: s in Concat(pages) && Bad(s.status)) <==> AnyBad(instances)
  {
    var rows, pairs := Concat(pages), instances.Keys;
    forall s ensures s in rows <==> exists i :: 0 <= i < |pages| && s in pages[i] {
      ConcatHas(pages, s);
    }
    forall s | s in rows ensures (s.account, s.region) in pairs && instances[(s.account, s.region)] == s.status {
      var i :| 0 <= i < |pages| && s in pages[i];
      var j :| 0 <= j < |pages[i]| && pages[i][j] == s;
    }
    forall p | p in pairs ensures Summary(p.0, p.1, instances[p]) in rows {
      assert Shown(pages, p);
      var i, j :| 0 <= i < |pages| && 0 <= j < |pages[i]| && (pages[i][j].account, pages[i][j].region) == p;
      assert pages[i][j] in pages[i];
    }
    forall a ensures a in Elements(Column(rows, true)) <==> a in AccountsOf(pairs) {
      if p :| p in pairs && p.0 == a {
        var s := Summary(p.0, p.1, instances[p]);
        var i :| 0 <= i < |rows| && rows[i] == s;
        assert Column(rows, true)[i] == a;
      }
      if a in Elements(Column(rows, true)) {
        var i :| 0 <= i < |rows| && Column(rows, true)[i] == a;
        assert rows[i] in rows && (rows[i].account, rows[i].region).0 == a;
      }
    }
    forall r ensures r in Elements(Column(rows, false)) <==> r in RegionsOf(pairs) {
      if p :| p in pairs && p.1 == r {
        var s := Summary(p.0, p.1, instances[p]);
        var i :| 0 <= i < |rows| && rows[i] == s;
        assert Column(rows, false)[i] == r;
      }
      if r in Elements(Column(rows, false)) {
        var i :| 0 <= i < |rows| && Column(rows, false)[i] == r;
        assert rows[i] in rows && (rows[i].account, rows[i].region).1 == r;
      }
    }
    if p :| p in instances && Bad(instances[p]) {
      assert Bad(Summary(p.0, p.1, instances[p]).status);
    }
  }

  /** `getFailedorCanceledorMissingStackSetInstances`: page through the instances,
      then compute the four difference lists. */
  method PlanRound(pages: seq<seq<Summary>>, ghost instances: map<Pair, string>, management: string,
                   newAccounts: seq<string>, newRegions: seq<string>) returns (info: Info)
    requires Lists(pages, instances)
    ensures Plans(info, instances.Keys, Elements(newAccounts), Elements(newRegions), management)
    ensures info.failedOrCanceled <==> AnyBad(instances)
  {
    hide Bad, Plans, Keep, Elements, AnyBad, Shown, Column, Concat;
    NoRows();
    assert pages[..0] == [];
    var failed := false;
    var targets: seq<string>, regions: seq<string> := [], [];
    var page := 0;
    while true
      invariant 0 <= page < |pages|
      invariant failed <==> exists s :: s in Concat(pages[..page]) && Bad(s.status)
      invariant targets == Column(Concat(pages[..page]), true) && regions == Column(Concat(pages[..page]), false)
      decreases |pages| - page
    {
      ghost var before := Concat(pages[..page]);
      assert before + pages[page][..0] == before;
      for i := 0 to |pages[page]|
        invariant failed <==> exists s :: s in before + pages[page][..i] && Bad(s.status)
        invariant targets == Column(before + pages[page][..i], true)
        invariant regions == Column(before + pages[page][..i], false)
      {
        var instance := pages[page][i];
        targets := targets + [instance.account];
        regions := regions + [instance.region];
        ghost var shown := before + pages[page][..i];
        assert before + pages[page][..i + 1] == shown + [instance];
        ColumnMore(shown, instance);
        if Bad(instance.status) {
          assert instance in before + pages[page][..i + 1];
          failed := true;
        }
      }
      assert pages[page][..|pages[page]|] == pages[page];
      ConcatMore(pages, page);
      if page + 1 == |pages| {
        break;
      }
      page := page + 1;
    }
    assert pages[..|pages|] == pages;
    ListedProjections(pages, instances);
    targets := Unique(targets);
    regions := Unique(regions);
    var addAccounts := Filter(newAccounts, targets, Some(management));
    var dropAccounts := Filter(targets, newAccounts, Some(management));
    var addRegions := Filter(newRegions, regions, None);
    var dropRegions := Filter(regions, newRegions, None);
    KeepElements(newAccounts, targets, Some(management));
    KeepElements(targets, newAccounts, Some(management));
    KeepElements(newRegions, regions, None);
    KeepElements(regions, newRegions, None);
    info := Info(failed, addAccounts, dropAccounts, addRegions, dropRegions);
    PlanElements(info, instances.Keys, targets, regions, newAccounts, newRegions, management);
  }

  lemma NoRows()
    ensures Concat<Summary>([]) == [] && forall account :: Column([], account) == []
  {
  }

  lemma ColumnMore(rows: seq<Summary>, row: Summary)
    ensures Column(rows + [row], true) == Column(rows, true) + [row.account]
    ensures Column(rows + [row], false) == Column(rows, false) + [row.region]
  {
  }

  lemma ConcatMore(pages: seq<seq<Summary>>, page: nat)
    requires page < |pages|
    ensures Concat(pages[..page + 1]) == Concat(pages[..page]) + pages[page]
  {
    assert pages[..page + 1][..page] == pages[..page];
  }

  lemma PlanElements(info: Info, pairs: set<Pair>, targets: seq<string>, regions: seq<string>,
                     newAccounts: seq<string>, newRegions: seq<string>, management: string)
    requires Elements(targets) == AccountsOf(pairs) && Elements(regions) == RegionsOf(pairs)
    requires forall x :: x in info.accountsToAdd <==> x in newAccounts && x !in targets && x != management
    requires forall x :: x in info.accountsToRemove <==> x in targets && x !in newAccounts && x != management
    requires forall x :: x in info.regionsToAdd <==> x in newRegions && x !in regions
    requires forall x :: x in info.regionsToRemove <==> x in regions && x !in newRegions
    ensures Plans(info, pairs, Elements(newAccounts), Elements(newRegions), management)
  {
    assert forall x :: x in targets <==> x in Elements(targets);
    assert forall x :: x in regions <==> x in Elements(regions);
  }

  // ----- effects of the operations on the relation

  function Created(pairs: set<Pair>, accounts: set<string>, regions: set<string>): set<Pair> {
    pairs + Cross(accounts, regions)
  }

  /** A delete reaches only accounts of the named OUs. */
  function Deleted(pairs: set<Pair>, ous: set<string>, accounts: set<string>, regions: set<string>): set<Pair> {
    pairs - Cross(ous * accounts, regions)
  }

  /** The two deletes of a cleanup; `ous` are the accounts now in the named OUs. */
  function AfterCleanup(pairs: set<Pair>, ous: set<string>, accounts: seq<string>, regions: seq<string>): set<Pair> {
    var trimmed := if |accounts| > 0 then Deleted(pairs, ous, Elements(accounts), RegionsOf(pairs)) else pairs;
    if |regions| > 0 then Deleted(trimmed, ous, ous, Elements(regions)) else trimmed
  }

  /** The relation after a whole round without errors. The create works on `targets`,
      what the OUs expand to, not on the planner's list. */
  function AfterRound(pairs: set<Pair>, info: Info, targets: set<string>, regions: set<string>, ous: set<string>)
    : set<Pair>
  {
    var grown := if CreatePlanned(info) then Created(pairs, targets, regions) else pairs;
    AfterCleanup(grown, ous, info.accountsToRemove, info.regionsToRemove)
  }

  datatype Answer = Succeeds | Fails(left: map<Pair, string>)

  datatype Op =
    | CreateOp(regions: seq<string>)
    | DeleteAccountsOp(accounts: seq<string>)
    | DeleteRegionsOp(regions: seq<string>)

  /** The remote answers of one round. `targets` is what AWS expands the deployment
      targets to, `ous` the accounts now in the OUs the StackSet names. */
  datatype Round = Round(targets: set<string>, ous: set<string>, hasOus: bool, setup: Answer,
                         pages: seq<seq<Summary>>, create: Answer, dropAccounts: Answer, dropRegions: Answer)

  class StackSet {
    var instances: map<Pair, string>
    var ops: seq<Op>

    constructor ()
      ensures instances == map[] && ops == []
    {
      instances, ops := map[], [];
    }

    method CreateStackSetInstances(targets: set<string>, regions: seq<string>, answer: Answer) returns (ok: bool)
      modifies this
      ensures ops == old(ops) + [CreateOp(regions)]
      ensures ok <==> answer.Succeeds?
      ensures ok ==> instances.Keys == Created(old(instances.Keys), targets, Elements(regions))
      ensures ok ==> forall p :: p in instances ==>
                instances[p] == if p in Cross(targets, Elements(regions)) then "CURRENT" else old(instances)[p]
    {
      ops := ops + [CreateOp(regions)];
      match answer {
        case Fails(left) =>
          instances := left;
          return false;
        case Succeeds =>
          instances := instances + map p | p in Cross(targets, Elements(regions)) :: "CURRENT";
          return true;
      }
    }

    method DeleteStackSetInstances(reached: set<string>, regions: set<string>, op: Op, answer: Answer)
      returns (ok: bool)
      modifies this
      ensures ops == old(ops) + [op]
      ensures ok <==> answer.Succeeds?
      ensures ok ==> instances == old(instances) - Cross(reached, regions)
    {
      ops := ops + [op];
      match answer {
        case Fails(left) =>
          instances := left;
          return false;
        case Succeeds =>
          instances := instances - Cross(reached, regions);
          return true;
      }
    }

    /** Create or update the StackSet itself: an update can change statuses, not
        which instances exist. */
    method Setup(answer: Answer, restated: map<Pair, string>) returns (ok: bool)
      requires restated.Keys == instances.Keys
      modifies this
      ensures ops == old(ops) && instances == restated
      ensures ok <==> answer.Succeeds?
    {
      instances := restated;
      ok := answer.Succeeds?;
    }

    method DeployStackSet(round: Round, restated: map<Pair, string>, management: string,
                          accounts: seq<string>, regions: seq<string>)
      returns (ok: bool, info: Info)
      requires restated.Keys == instances.Keys && Lists(round.pages, restated)
      modifies this
      ensures ok ==> Plans(info, old(instances.Keys), Elements(accounts), Elements(regions), management)
      ensures ok ==> (info.failedOrCanceled <==> AnyBad(restated))
      ensures ok ==> ops == old(ops) + (if CreatePlanned(info) then [CreateOp(regions)] else [])
      ensures ok ==>
                var was := old(instances.Keys);
                instances.Keys == if CreatePlanned(info) then Created(was, round.targets, Elements(regions)) else was
      ensures ok <==> round.setup.Succeeds? && (CreatePlanned(info) ==> round.create.Succeeds?)
      ensures !ok ==> ops == old(ops) + (if round.setup.Succeeds? then [CreateOp(regions)] else [])
    {
      info := Info(false, [], [], [], []);
      ok := Setup(round.setup, restated);
      if !ok {
        return;
      }
      info := PlanRound(round.pages, instances, management, accounts, regions);
      if info.failedOrCanceled || |info.accountsToAdd| > 0 || |info.regionsToAdd| > 0 {
        ok := CreateStackSetInstances(round.targets, regions, round.create);
      }
    }

    /** The OU branch of `CleanupStackSetInstances`. */
    method CleanupStackSetInstances(round: Round, accountIds: seq<string>, regions: seq<string>) returns (ok: bool)
      modifies this
      ensures ok && round.hasOus ==>
                instances.Keys == AfterCleanup(old(instances.Keys), round.ous, accountIds, regions)
      ensures ok && round.hasOus ==>
                ops == old(ops) + (if |accountIds| > 0 then [DeleteAccountsOp(accountIds)] else [])
                                + (if |regions| > 0 then [DeleteRegionsOp(regions)] else [])
      ensures !round.hasOus ==> ok && instances == old(instances) && ops == old(ops)
      ensures !ok ==>
                var dropped := if |accountIds| > 0 then [DeleteAccountsOp(accountIds)] else [];
                ops == old(ops) + if |accountIds| > 0 && round.dropAccounts.Fails? then dropped
                                  else dropped + [DeleteRegionsOp(regions)]
      ensures ok <==> !round.hasOus || ((|accountIds| > 0 ==> round.dropAccounts.Succeeds?)
                                        && (|regions| > 0 ==> round.dropRegions.Succeeds?))
    {
      if !round.hasOus {
        return true;
      }
      var stackSetRegions := RegionsOf(instances.Keys);
      ok := true;
      if |accountIds| > 0 {
        ok := DeleteStackSetInstances(round.ous * Elements(accountIds), stackSetRegions, DeleteAccountsOp(accountIds),
                                      round.dropAccounts);
        if !ok {
          return;
        }
      }
      if |regions| > 0 {
        assert round.ous * round.ous == round.ous;
        ok := DeleteStackSetInstances(round.ous, Elements(regions), DeleteRegionsOp(regions), round.dropRegions);
      }
    }

    /** One `deploy` of the tool: reconcile, then clean up what the plan says. */
    method Reconcile(round: Round, restated: map<Pair, string>, management: string,
                     accounts: seq<string>, regions: seq<string>)
      returns (ok: bool, info: Info)
      requires restated.Keys == instances.Keys && Lists(round.pages, restated)
      modifies this
      ensures ok ==> Plans(info, old(instances.Keys), Elements(accounts), Elements(regions), management)
      ensures ok ==> (info.failedOrCanceled <==> AnyBad(restated))
      ensures ok && round.hasOus ==>
                instances.Keys == AfterRound(old(instances.Keys), info, round.targets, Elements(regions), round.ous)
      ensures ok && !CreatePlanned(info) && !CleanupPlanned(info) ==>
                ops == old(ops) && instances.Keys == old(instances.Keys)
      ensures ok && round.hasOus ==>
                var accountIds, dropped := info.accountsToRemove, info.regionsToRemove;
                ops == old(ops) + (if CreatePlanned(info) then [CreateOp(regions)] else [])
                                + (if |accountIds| > 0 then [DeleteAccountsOp(accountIds)] else [])
                                + (if |dropped| > 0 then [DeleteRegionsOp(dropped)] else [])
      ensures round.setup.Fails? ==> ops == old(ops)
      ensures round.setup.Succeeds? && round.create.Fails? && !ok && CreatePlanned(info) ==>
                ops == old(ops) + [CreateOp(regions)]
      ensures ok <==> && round.setup.Succeeds? && (CreatePlanned(info) ==> round.create.Succeeds?)
                      && (round.hasOus && |info.accountsToRemove| > 0 ==> round.dropAccounts.Succeeds?)
                      && (round.hasOus && |info.regionsToRemove| > 0 ==> round.dropRegions.Succeeds?)
    {
      ok, info := DeployStackSet(round, restated, management, accounts, regions);
      if !ok {
        return;
      }
      if |info.accountsToRemove| > 0 || |info.regionsToRemove| > 0 {
        ok := CleanupStackSetInstances(round, info.accountsToRemove, info.regionsToRemove);
      }
    }
  }
}

/**
 The Python traversal: one future per nested call, collected in any completion
 order, and a call that gives up quietly after the fifth refused attempt.
 */
module OrgTraversalPython {
  import opened Common
  import opened Organization

  const MAX_RETRY_ATTEMPTS := 5
  const DELAY_SECONDS := 3

  /** The pages a call has read when it stops: all of them, or those before its fifth
      refusal. `attempt` attempts were made so far, `got` of them answered. */
  function PagesRead(svc: Service, ou: OU, kind: Kind, attempt: nat, got: nat): (n: nat)
    requires got <= PageCount(svc, ou, kind) && got <= attempt <= got + MAX_RETRY_ATTEMPTS
    ensures got <= n <= PageCount(svc, ou, kind)
    decreases PageCount(svc, ou, kind) - got + MAX_RETRY_ATTEMPTS - (attempt - got)
  {
    if got == PageCount(svc, ou, kind) || attempt - got == MAX_RETRY_ATTEMPTS then got
    else if svc.refuses(ou, kind, attempt) then PagesRead(svc, ou, kind, attempt + 1, got)
    else PagesRead(svc, ou, kind, attempt + 1, got + 1)
  }

  /** A call that does not read all pages stops at the fifth refusal, with the pages answered
      before it. */
  lemma {:induction false} StopsAtFifthRefusal(svc: Service, ou: OU, kind: Kind, attempt: nat, got: nat)
    requires got <= PageCount(svc, ou, kind) && got <= attempt <= got + 5
    requires Refusals(svc, ou, kind, attempt) == attempt - got
    ensures var n := PagesRead(svc, ou, kind, attempt, got);
            n < PageCount(svc, ou, kind) ==> Refusals(svc, ou, kind, n + 5) == 5
    decreases PageCount(svc, ou, kind) - got + 5 - (attempt - got)
  {
    if got < PageCount(svc, ou, kind) && attempt - got < 5 {
      StopsAtFifthRefusal(svc, ou, kind, attempt + 1, if svc.refuses(ou, kind, attempt) then got else got + 1);
    }
  }

  /** The call reads everything: fewer than five refusals before its last page. */
  predicate CallCompletes(svc: Service, ou: OU, kind: Kind) {
    Refusals(svc, ou, kind, PageCount(svc, ou, kind) + MAX_RETRY_ATTEMPTS - 1) < MAX_RETRY_ATTEMPTS
  }

  predicate AllComplete(svc: Service, ou: OU, kind: Kind)
    decreases ou
  {
    && CallCompletes(svc, ou, kind)
    && (kind == UnitKind ==> forall i :: 0 <= i < |ou.children| ==>
         AllComplete(svc, ou.children[i], AccountKind) && AllComplete(svc, ou.children[i], UnitKind))
  }

  function UnitsRead(svc: Service, ou: OU): (units: seq<OU>)
    requires Honest(svc)
    ensures forall c :: c in units ==> c in ou.children
  {
    UnitPagesAre(svc, ou, PagesRead(svc, ou, UnitKind, 0, 0));
    Concat(svc.unitPages(ou)[..PagesRead(svc, ou, UnitKind, 0, 0)])
  }

  function AccountsRead(svc: Service, ou: OU): seq<string> {
    Concat(svc.accountPages(ou)[..PagesRead(svc, ou, AccountKind, 0, 0)])
  }

  lemma UnitPagesAre(svc: Service, ou: OU, n: nat)
    requires Honest(svc) && n <= |svc.unitPages(ou)|
    ensures ou.children == Concat(svc.unitPages(ou)[..n]) + Concat(svc.unitPages(ou)[n..])
  {
    assert PagesOf(svc, ou);
    assert svc.unitPages(ou) == svc.unitPages(ou)[..n] + svc.unitPages(ou)[n..];
    ConcatConcat(svc.unitPages(ou)[..n], svc.unitPages(ou)[n..]);
  }

  lemma AccountPagesAre(svc: Service, ou: OU, n: nat)
    requires Honest(svc) && n <= |svc.accountPages(ou)|
    ensures ou.accounts == Concat(svc.accountPages(ou)[..n]) + Concat(svc.accountPages(ou)[n..])
  {
    assert PagesOf(svc, ou);
    assert svc.accountPages(ou) == svc.accountPages(ou)[..n] + svc.accountPages(ou)[n..];
    ConcatConcat(svc.accountPages(ou)[..n], svc.accountPages(ou)[n..]);
  }

  /** What a call gathers, as a multiset: completion order is not determined. */
  function Gathered(svc: Service, ou: OU, kind: Kind, out: set<string>): multiset<string>
    requires Honest(svc)
    decreases ou, 1
  {
    if kind == AccountKind then multiset(Wanted(AccountsRead(svc, ou), out))
    else GatheredAll(svc, ou, UnitsRead(svc, ou), out)
  }

  function GatheredAll(svc: Service, parent: OU, units: seq<OU>, out: set<string>): multiset<string>
    requires Honest(svc) && forall c :: c in units ==> c in parent.children
    decreases parent, 0, |units|
  {
    if units == [] then multiset{}
    else
      var last := units[|units| - 1];
      assert last in parent.children;
      GatheredAll(svc, parent, units[..|units| - 1], out)
      + Gathered(svc, last, AccountKind, out) + Gathered(svc, last, UnitKind, out)
  }

  /** What it loses: the pages never read, with everything below them, and the losses
      of the nested calls. */
  function Lost(svc: Service, ou: OU, kind: Kind, out: set<string>): multiset<string>
    requires Honest(svc)
    decreases ou, 1
  {
    if kind == AccountKind then multiset(Wanted(Concat(svc.accountPages(ou)[PagesRead(svc, ou, kind, 0, 0)..]), out))
    else
      LostAll(svc, ou, UnitsRead(svc, ou), out)
      + multiset(FlattenAll(Concat(svc.unitPages(ou)[PagesRead(svc, ou, kind, 0, 0)..]), out))
  }

  function LostAll(svc: Service, parent: OU, units: seq<OU>, out: set<string>): multiset<string>
    requires Honest(svc) && forall c :: c in units ==> c in parent.children
    decreases parent, 0, |units|
  {
    if units == [] then multiset{}
    else
      var last := units[|units| - 1];
      assert last in parent.children;
      LostAll(svc, parent, units[..|units| - 1], out)
      + Lost(svc, last, AccountKind, out) + Lost(svc, last, UnitKind, out)
  }

  /** Nothing is counted twice and nothing vanishes: gathered plus lost is the flatten. */
  lemma {:induction false} GatheredPlusLost(svc: Service, ou: OU, kind: Kind, out: set<string>)
    requires Honest(svc)
    ensures multiset(Listed(ou, kind, out)) == Gathered(svc, ou, kind, out) + Lost(svc, ou, kind, out)
    decreases ou, 1
  {
    var n := PagesRead(svc, ou, kind, 0, 0);
    if kind == AccountKind {
      AccountPagesAre(svc, ou, n);
      WantedConcat(Concat(svc.accountPages(ou)[..n]), Concat(svc.accountPages(ou)[n..]), out);
    } else {
      UnitPagesAre(svc, ou, n);
      FlattenAllConcat(UnitsRead(svc, ou), Concat(svc.unitPages(ou)[n..]), out);
      GatheredAllPlusLost(svc, ou, UnitsRead(svc, ou), out);
    }
  }

  lemma {:induction false} GatheredAllPlusLost(svc: Service, parent: OU, units: seq<OU>, out: set<string>)
    requires Honest(svc) && forall c :: c in units ==> c in parent.children
    ensures multiset(FlattenAll(units, out)) == GatheredAll(svc, parent, units, out) + LostAll(svc, parent, units, out)
    decreases parent, 0, |units|
  {
    if units != [] {
      var last, before := units[|units| - 1], units[..|units| - 1];
      assert last in parent.children;
      GatheredAllPlusLost(svc, parent, before, out);
      GatheredPlusLost(svc, last, AccountKind, out);
      GatheredPlusLost(svc, last, UnitKind, out);
      assert FlattenAll(units, out) ==
             FlattenAll(before, out) + (Wanted(last.accounts, out) + FlattenAll(last.children, out));
    }
  }

  lemma {:induction false} PagesReadAll(svc: Service, ou: OU, kind: Kind, attempt: nat, got: nat)
    requires got <= PageCount(svc, ou, kind) && got <= attempt <= got + MAX_RETRY_ATTEMPTS
    requires Refusals(svc, ou, kind, attempt) == attempt - got && PageCount(svc, ou, kind) > 0
    requires attempt - got == MAX_RETRY_ATTEMPTS ==> got < PageCount(svc, ou, kind)
    ensures PagesRead(svc, ou, kind, attempt, got) == PageCount(svc, ou, kind) <==> CallCompletes(svc, ou, kind)
    ensures CallCompletes(svc, ou, kind) <==> Refusals(svc, ou, kind, PageCount(svc, ou, kind) + 4) < 5
    decreases PageCount(svc, ou, kind) - got + MAX_RETRY_ATTEMPTS - (attempt - got)
  {
    var pages := PageCount(svc, ou, kind);
    if got == pages {
      RefusalsGrow(svc, ou, kind, attempt, pages + MAX_RETRY_ATTEMPTS - 1);
    } else if attempt - got == MAX_RETRY_ATTEMPTS {
      RefusalsGrow(svc, ou, kind, attempt, pages + MAX_RETRY_ATTEMPTS - 1);
    } else if svc.refuses(ou, kind, attempt) {
      PagesReadAll(svc, ou, kind, attempt + 1, got);
    } else {
      PagesReadAll(svc, ou, kind, attempt + 1, got + 1);
    }
  }

  /** Fewer than five refusals in every call: the result is the whole flatten. */
  lemma {:induction false} CompleteWhenFewRefusals(svc: Service, ou: OU, kind: Kind, out: set<string>)
    requires Honest(svc) && AllComplete(svc, ou, kind)
    ensures Gathered(svc, ou, kind, out) == multiset(Listed(ou, kind, out)) && Lost(svc, ou, kind, out) == multiset{}
    decreases ou, 1
  {
    assert PagesOf(svc, ou);
    PagesReadAll(svc, ou, kind, 0, 0);
    if kind == UnitKind {
      LostAllNothing(svc, ou, UnitsRead(svc, ou), out);
    }
    GatheredPlusLost(svc, ou, kind, out);
  }

  lemma {:induction false} LostAllNothing(svc: Service, parent: OU, units: seq<OU>, out: set<string>)
    requires Honest(svc) && forall c :: c in units ==> c in parent.children
    requires AllComplete(svc, parent, UnitKind)
    ensures LostAll(svc, parent, units, out) == multiset{}
    decreases parent, 0, |units|
  {
    if units != [] {
      var last := units[|units| - 1];
      assert last in parent.children;
      LostAllNothing(svc, parent, units[..|units| - 1], out);
      CompleteWhenFewRefusals(svc, last, AccountKind, out);
      CompleteWhenFewRefusals(svc, last, UnitKind, out);
    }
  }

  /** Everything a call has gathered once it has read `n` pages. */
  function GatheredUpTo(svc: Service, ou: OU, kind: Kind, n: nat, out: set<string>): multiset<string>
    requires Honest(svc) && n <= PageCount(svc, ou, kind)
  {
    if kind == AccountKind then multiset(Wanted(Concat(svc.accountPages(ou)[..n]), out))
    else
      UnitPagesAre(svc, ou, n);
      GatheredAll(svc, ou, Concat(svc.unitPages(ou)[..n]), out)
  }

  lemma PageGathered(svc: Service, ou: OU, kind: Kind, n: nat, out: set<string>)
    requires Honest(svc) && n < PageCount(svc, ou, kind)
    ensures kind == UnitKind ==> forall c :: c in svc.unitPages(ou)[n] ==> c in ou.children
    ensures GatheredUpTo(svc, ou, kind, n + 1, out) == GatheredUpTo(svc, ou, kind, n, out) +
              if kind == AccountKind then multiset(Wanted(svc.accountPages(ou)[n], out))
              else GatheredAll(svc, ou, svc.unitPages(ou)[n], out)
  {
    hide Wanted, GatheredAll, Honest;
    if kind == AccountKind {
      var pages := svc.accountPages(ou);
      assert pages[..n + 1][..n] == pages[..n];
      WantedConcat(Concat(pages[..n]), pages[n], out);
    } else {
      var pages := svc.unitPages(ou);
      assert pages[..n + 1][..n] == pages[..n];
      var before, page := Concat(pages[..n]), pages[n];
      assert Concat(pages[..n + 1]) == before + page;
      UnitPagesAre(svc, ou, n);
      UnitPagesAre(svc, ou, n + 1);
      assert forall c :: c in page ==> c in before + page;
      GatheredAllConcat(svc, ou, before, page, out);
    }
  }

  lemma NothingGathered(svc: Service, ou: OU, kind: Kind, out: set<string>)
    requires Honest(svc)
    ensures GatheredUpTo(svc, ou, kind, 0, out) == multiset{}
    ensures GatheredUpTo(svc, ou, kind, PagesRead(svc, ou, kind, 0, 0), out) == Gathered(svc, ou, kind, out)
  {
  }

  /** `get_children`. The nested calls share nothing, so each future is represented by
      its result; `as_completed` hands them out in an arbitrary order. */
  method GetChildren(svc: Service, kind: Kind, ou: OU, excluded: seq<string>)
    returns (children: seq<string>, refused: nat, slept: nat)
    requires Honest(svc)
    ensures multiset(children) == Gathered(svc, ou, kind, set x | x in excluded)
    ensures refused <= 5 && slept == 3 * (Pow2(refused) - 1) <= 93
    ensures Refusals(svc, ou, kind, PagesRead(svc, ou, kind, 0, 0) + refused) == refused
    decreases ou, 1
  {
    hide Gathered, GatheredAll, GatheredUpTo, Wanted, Concat, Sum;
    ghost var out := set x | x in excluded;
    var delay, page := DELAY_SECONDS, 0;
    children, refused, slept := [], 0, 0;
    var futures: seq<seq<string>> := [];
    NothingGathered(svc, ou, kind, out);
    SumNothing();
    while refused < MAX_RETRY_ATTEMPTS && page < PageCount(svc, ou, kind)
      invariant refused <= MAX_RETRY_ATTEMPTS && page <= PageCount(svc, ou, kind)
      invariant delay == DELAY_SECONDS * Pow2(refused) && slept == DELAY_SECONDS * (Pow2(refused) - 1)
      invariant PagesRead(svc, ou, kind, page + refused, page) == PagesRead(svc, ou, kind, 0, 0)
      invariant Refusals(svc, ou, kind, page + refused) == refused
      invariant multiset(children) + Sum(futures) == GatheredUpTo(svc, ou, kind, page, out)
      decreases PageCount(svc, ou, kind) - page + MAX_RETRY_ATTEMPTS - refused
    {
      if svc.refuses(ou, kind, page + refused) {
        refused, slept, delay := refused + 1, slept + delay, delay * 2;
      } else {
        PageGathered(svc, ou, kind, page, out);
        if kind == AccountKind {
          var taken := TakeAccounts(svc.accountPages(ou)[page], excluded);
          children := children + taken;
        } else {
          var submitted := SubmitUnits(svc, svc.unitPages(ou)[page], ou, excluded);
          SumConcat(futures, submitted);
          futures := futures + submitted;
        }
        page := page + 1;
      }
    }
    Pow2Grows(refused, MAX_RETRY_ATTEMPTS);
    assert Pow2(MAX_RETRY_ATTEMPTS) == 32;
    var collected := AsCompleted(futures);
    children := children + collected;
  }

  method TakeAccounts(page: seq<string>, excluded: seq<string>) returns (taken: seq<string>)
    ensures taken == Wanted(page, set x | x in excluded)
  {
    taken := [];
    for i := 0 to |page|
      invariant taken == Wanted(page[..i], set x | x in excluded)
    {
      assert page[..i + 1][..i] == page[..i];
      if page[i] !in excluded {
        taken := taken + [page[i]];
      }
    }
    assert page[..|page|] == page;
  }

  method SubmitUnits(svc: Service, page: seq<OU>, ghost parent: OU, excluded: seq<string>)
    returns (futures: seq<seq<string>>)
    requires Honest(svc) && forall c :: c in page ==> c in parent.children
    ensures Sum(futures) == GatheredAll(svc, parent, page, set x | x in excluded)
    decreases parent, 0
  {
    hide Sum, Gathered;
    ghost var out := set x | x in excluded;
    SumNothing();
    futures := [];
    for i := 0 to |page|
      invariant Sum(futures) == GatheredAll(svc, parent, page[..i], out)
    {
      assert page[..i + 1][..i] == page[..i];
      assert page[i] in parent.children;
      var accounts, _, _ := GetChildren(svc, AccountKind, page[i], excluded);
      var units, _, _ := GetChildren(svc, UnitKind, page[i], excluded);
      SumConcat(futures, [accounts]);
      SumConcat(futures + [accounts], [units]);
      SumOne(accounts);
      SumOne(units);
      futures := futures + [accounts] + [units];
    }
    assert page[..|page|] == page;
  }

  /** Collecting futures in whatever order they complete. */
  method AsCompleted(futures: seq<seq<string>>) returns (collected: seq<string>)
    ensures multiset(collected) == Sum(futures)
  {
    hide Sum;
    SumNothing();
    collected := [];
    var running := futures;
    while running != []
      invariant multiset(collected) + Sum(running) == Sum(futures)
      decreases |running|
    {
      var f :| 0 <= f < |running|;
      SumWithout(running, f);
      collected := collected + running[f];
      running := running[..f] + running[f + 1..];
    }
  }

  lemma SumNothing()
    ensures Sum([]) == multiset{}
  {
  }

  lemma SumOne(part: seq<string>)
    ensures Sum([part]) == multiset(part)
  {
    assert [part][..0] == [];
  }

  lemma SumWithout(parts: seq<seq<string>>, f: nat)
    requires f < |parts|
    ensures Sum(parts) == Sum(parts[..f] + parts[f + 1..]) + multiset(parts[f])
  {
    hide Sum;
    var a, b := parts[..f], parts[f + 1..];
    SumOne(parts[f]);
    SumConcat(a, [parts[f]]);
    SumConcat(a + [parts[f]], b);
    SumConcat(a, b);
    assert parts == a + [parts[f]] + b;
  }

  function Sum(parts: seq<seq<string>>): multiset<string> {
    if parts == [] then multiset{} else Sum(parts[..|parts| - 1]) + multiset(parts[|parts| - 1])
  }

  lemma {:induction false} SumConcat(a: seq<seq<string>>, b: seq<seq<string>>)
    ensures Sum(a + b) == Sum(a) + Sum(b)
  {
    if b == [] {
      assert a + b == a;
    } else {
      assert (a + b)[..|a + b| - 1] == a + b[..|b| - 1];
      SumConcat(a, b[..|b| - 1]);
    }
  }

  lemma {:induction false} GatheredAllConcat(svc: Service, parent: OU, a: seq<OU>, b: seq<OU>, out: set<string>)
    requires Honest(svc) && forall c :: c in a || c in b ==> c in parent.children
    ensures GatheredAll(svc, parent, a + b, out) == GatheredAll(svc, parent, a, out) + GatheredAll(svc, parent, b, out)
  {
    hide Gathered;
    if b == [] {
      assert a + b == a;
    } else {
      var before, last := b[..|b| - 1], b[|b| - 1];
      assert (a + b)[..|a + b| - 1] == a + before && (a + b)[|a + b| - 1] == last;
      assert last in b;
      GatheredAllConcat(svc, parent, a, before, out);
    }
  }

  // ----- get_active_child_accounts

  function GatheredTargets(svc: Service, targets: seq<OU>, kind: Kind, out: set<string>): multiset<string>
    requires Honest(svc)
  {
    if targets == [] then multiset{}
    else GatheredTargets(svc, targets[..|targets| - 1], kind, out) + Gathered(svc, targets[|targets| - 1], kind, out)
  }

  /** How often account `x` is handed to `process_account_status`. */
  function Asked(svc: Service, targets: seq<OU>, out: set<string>, x: string): nat
    requires Honest(svc)
  {
    GatheredTargets(svc, targets, AccountKind, out)[x] + GatheredTargets(svc, targets, UnitKind, out)[x]
  }

  method SubmitTargets(svc: Service, targets: seq<OU>, kind: Kind, excluded: seq<string>)
    returns (futures: seq<seq<string>>)
    requires Honest(svc)
    ensures Sum(futures) == GatheredTargets(svc, targets, kind, set x | x in excluded)
  {
    hide Sum, Gathered;
    SumNothing();
    futures := [];
    for i := 0 to |targets|
      invariant Sum(futures) == GatheredTargets(svc, targets[..i], kind, set x | x in excluded)
    {
      assert targets[..i + 1][..i] == targets[..i];
      var accounts, _, _ := GetChildren(svc, kind, targets[i], excluded);
      SumConcat(futures, [accounts]);
      SumOne(accounts);
      futures := futures + [accounts];
    }
    assert targets[..|targets|] == targets;
  }

  /** How many of the first `n` describe calls about `x` answered ACTIVE. */
  function Answers(describe: (string, nat) -> Describe, x: string, n: nat): (yes: nat)
    ensures yes <= n
  {
    if n == 0 then 0 else Answers(describe, x, n - 1) + if describe(x, n - 1) == Status(true) then 1 else 0
  }

  /** `process_account_status` over the gathered accounts; a failed call counts as "not
      active", and two calls about the same account may answer differently. */
  method KeepActive(accounts: seq<string>, describe: (string, nat) -> Describe) returns (details: seq<string>)
    ensures Answered(details, accounts, describe)
  {
    hide Answered;
    details := [];
    NobodyAnswered(describe);
    assert accounts[..0] == [];
    for i := 0 to |accounts|
      invariant Answered(details, accounts[..i], describe)
    {
      assert accounts[..i + 1] == accounts[..i] + [accounts[i]];
      OneMoreAnswer(details, accounts[..i], accounts[i], describe);
      if describe(accounts[i], multiset(accounts[..i])[accounts[i]]) == Status(true) {
        details := details + [accounts[i]];
      }
    }
    assert accounts[..|accounts|] == accounts;
  }

  /** Each account is in `details` as often as a call about it answered ACTIVE. */
  ghost predicate Answered(details: seq<string>, accounts: seq<string>, describe: (string, nat) -> Describe) {
    forall x :: multiset(details)[x] == Answers(describe, x, multiset(accounts)[x])
  }

  lemma NobodyAnswered(describe: (string, nat) -> Describe)
    ensures Answered([], [], describe)
  {
  }

  lemma OneMoreAnswer(details: seq<string>, accounts: seq<string>, a: string, describe: (string, nat) -> Describe)
    requires Answered(details, accounts, describe)
    ensures var yes := describe(a, multiset(accounts)[a]) == Status(true);
            Answered(if yes then details + [a] else details, accounts + [a], describe)
  {
    var yes := describe(a, multiset(accounts)[a]) == Status(true);
    var after := if yes then details + [a] else details;
    forall x ensures multiset(after)[x] == Answers(describe, x, multiset(accounts + [a])[x]) {
      assert multiset(accounts + [a])[x] == multiset(accounts)[x] + if x == a then 1 else 0;
      assert multiset(after)[x] == multiset(details)[x] + if x == a && yes then 1 else 0;
    }
  }

  method GetActiveChildAccounts(svc: Service, targets: seq<OU>, excluded: seq<string>,
                                describe: (string, nat) -> Describe)
    returns (details: seq<string>)
    requires Honest(svc)
    ensures forall x :: multiset(details)[x] == Answers(describe, x, Asked(svc, targets, (set y | y in excluded), x))
  {
    hide Sum, GatheredTargets, Answers;
    var futures := SubmitTargets(svc, targets, AccountKind, excluded);
    var nested := SubmitTargets(svc, targets, UnitKind, excluded);
    SumConcat(futures, nested);
    var activeAccounts := AsCompleted(futures + nested);
    details := KeepActive(activeAccounts, describe);
  }

  lemma {:induction false} AskedWithinFlatten(svc: Service, targets: seq<OU>, out: set<string>, x: string)
    requires Honest(svc)
    ensures Asked(svc, targets, out, x) <= multiset(FlattenAll(targets, out))[x]
    ensures (forall t :: t in targets ==> AllComplete(svc, t, AccountKind) && AllComplete(svc, t, UnitKind))
            ==> Asked(svc, targets, out, x) == multiset(FlattenAll(targets, out))[x]
  {
    hide Gathered, Lost, AllComplete, Wanted;
    if targets != [] {
      var last, before := targets[|targets| - 1], targets[..|targets| - 1];
      AskedWithinFlatten(svc, before, out, x);
      GatheredPlusLost(svc, last, AccountKind, out);
      GatheredPlusLost(svc, last, UnitKind, out);
      assert FlattenAll(targets, out) ==
             FlattenAll(before, out) + (Wanted(last.accounts, out) + FlattenAll(last.children, out));
      if AllComplete(svc, last, AccountKind) && AllComplete(svc, last, UnitKind) {
        CompleteWhenFewRefusals(svc, last, AccountKind, out);
        CompleteWhenFewRefusals(svc, last, UnitKind, out);
      }
    }
  }

  lemma {:induction false} AnswersAll(describe: (string, nat) -> Describe, x: string, n: nat)
    ensures Answers(describe, x, n) == n <==> forall m :: 0 <= m < n ==> describe(x, m) == Status(true)
    ensures Answers(describe, x, n) == 0 <==> forall m :: 0 <= m < n ==> describe(x, m) != Status(true)
  {
    if n > 0 {
      AnswersAll(describe, x, n - 1);
    }
  }

  lemma {:induction false} AnswersCount(describe: (string, nat) -> Describe, x: string, n: nat)
    ensures Answers(describe, x, n) == |set m: nat | m < n && describe(x, m) == Status(true)|
  {
    var yes := set m: nat | m < n && describe(x, m) == Status(true);
    if n > 0 {
      AnswersCount(describe, x, n - 1);
      var before := set m: nat | m < n - 1 && describe(x, m) == Status(true);
      assert yes == if describe(x, n - 1) == Status(true) then before + {n - 1} else before;
    } else {
      assert yes == {};
    }
  }

  /** When every listing completes, the active accounts of the targets are reported,
      each as often as it occurs there, exactly if no call about one of them failed. */
  lemma ActiveReportedIff(svc: Service, targets: seq<OU>, out: set<string>, describe: (string, nat) -> Describe,
                          active: string -> bool)
    requires Honest(svc)
    requires forall t :: t in targets ==> AllComplete(svc, t, AccountKind) && AllComplete(svc, t, UnitKind)
    requires forall x, n :: !describe(x, n).DescribeFails? ==> (describe(x, n) == Status(true) <==> active(x))
    ensures (forall x :: Answers(describe, x, Asked(svc, targets, out, x)) ==
                         if active(x) then multiset(FlattenAll(targets, out))[x] else 0)
            <==> forall x, n :: 0 <= n < multiset(FlattenAll(targets, out))[x] && active(x) ==>
                   !describe(x, n).DescribeFails?
  {
    hide Asked, AllComplete, FlattenAll, Answers;
    var all := multiset(FlattenAll(targets, out));
    forall x ensures Asked(svc, targets, out, x) == all[x] {
      AskedWithinFlatten(svc, targets, out, x);
    }
    forall x
      ensures Answers(describe, x, all[x]) == (if active(x) then all[x] else 0) <==>
              forall n :: 0 <= n < all[x] && active(x) ==> !describe(x, n).DescribeFails?
    {
      AnswersAll(describe, x, all[x]);
    }
  }
}

/**
 What one invocation of the detector does, record by record: the nested grouping
 is a partition of the old records, and although the handler works group by
 group, the table it leaves is the pointwise image of the table it scanned.
 */
module LadderGroups {
  import opened Common
  import opened Clock
  import opened Ladder

  // ----- the records that reach the ladder

  predicate Skips(r: Record, env: Env) {
    var look := env.look(r.key);
    Judge(look.now, look.describe, env.bypass) == NotOld("SKIP")
  }

  predicate IsOld(r: Record, env: Env) {
    var look := env.look(r.key);
    Judge(look.now, look.describe, env.bypass).Old?
  }

  /** The old records, in scan order, up to the first SKIP. */
  function Olds(items: seq<Record>, env: Env): seq<Record> {
    if items == [] || Skips(items[0], env) then []
    else (if IsOld(items[0], env) then [items[0]] else []) + Olds(items[1..], env)
  }

  function Chosen(rs: seq<Record>, creator: string, step: int): seq<Record> {
    if rs == [] then []
    else (if rs[0].createdBy == creator && rs[0].step + 1 == step then [rs[0]] else []) + Chosen(rs[1..], creator, step)
  }

  // ----- the nested dictionaries

  function StepMembers(steps: seq<StepGroup>, step: int): seq<Record> {
    if steps == [] then []
    else if steps[0].step == step then steps[0].members
    else StepMembers(steps[1..], step)
  }

  function Members(groups: seq<Group>, creator: string, step: int): seq<Record> {
    if groups == [] then []
    else if groups[0].creator == creator then StepMembers(groups[0].steps, step)
    else Members(groups[1..], creator, step)
  }

  /** No step occurs twice and no group is empty. */
  ghost predicate ProperSteps(steps: seq<StepGroup>) {
    steps != [] ==>
      steps[0].members != [] && (forall g :: g in steps[1..] ==> g.step != steps[0].step) && ProperSteps(steps[1..])
  }

  ghost predicate ProperGroups(groups: seq<Group>) {
    groups != [] ==>
      && groups[0].steps != [] && ProperSteps(groups[0].steps)
      && (forall g :: g in groups[1..] ==> g.creator != groups[0].creator) && ProperGroups(groups[1..])
  }

  lemma {:induction false} AddToStepsLookup(steps: seq<StepGroup>, step: int, r: Record)
    requires ProperSteps(steps)
    ensures var t := AddToSteps(steps, step, r);
            && t != [] && ProperSteps(t)
            && (forall g :: g in t ==> g.step == step || exists h :: h in steps && h.step == g.step)
            && forall s :: StepMembers(t, s) == StepMembers(steps, s) + (if s == step then [r] else [])
  {
    var t := AddToSteps(steps, step, r);
    if steps != [] && steps[0].step != step {
      AddToStepsLookup(steps[1..], step, r);
      assert t[1..] == AddToSteps(steps[1..], step, r);
    } else if steps != [] {
      assert t[1..] == steps[1..];
    }
  }

  lemma {:induction false} AddToGroupsProper(groups: seq<Group>, r: Record)
    requires ProperGroups(groups)
    ensures ProperGroups(AddToGroups(groups, r))
    ensures forall g :: g in AddToGroups(groups, r) ==>
              g.creator == r.createdBy || exists h :: h in groups && h.creator == g.creator
  {
    var t := AddToGroups(groups, r);
    if groups == [] {
      AddToStepsLookup([], r.step + 1, r);
    } else if groups[0].creator == r.createdBy {
      AddToStepsLookup(groups[0].steps, r.step + 1, r);
      assert t[1..] == groups[1..];
    } else {
      AddToGroupsProper(groups[1..], r);
      assert t[1..] == AddToGroups(groups[1..], r);
    }
  }

  lemma {:induction false} AddToGroupsLookup(groups: seq<Group>, r: Record, c: string, p: int)
    requires ProperGroups(groups)
    ensures Members(AddToGroups(groups, r), c, p)
            == Members(groups, c, p) + (if c == r.createdBy && p == r.step + 1 then [r] else [])
  {
    var t := AddToGroups(groups, r);
    if groups == [] {
      AddToStepsLookup([], r.step + 1, r);
    } else if groups[0].creator == r.createdBy {
      AddToStepsLookup(groups[0].steps, r.step + 1, r);
      assert t[1..] == groups[1..];
    } else {
      AddToGroupsLookup(groups[1..], r, c, p);
    }
  }

  lemma ScanOneGroups(s: ScanState, r: Record, env: Env, c: string, p: int)
    requires s.flow == Going && ProperGroups(s.groups)
    ensures var t := ScanOne(s, r, env);
            && ProperGroups(t.groups)
            && Members(t.groups, c, p) == Members(s.groups, c, p) + Chosen(if IsOld(r, env) then [r] else [], c, p)
            && (t.flow != Crashed ==> (t.flow == Going <==> !Skips(r, env)))
  {
    assert Members(s.groups, c, p) == Members(s.groups, c, p) + [];
    if IsOld(r, env) {
      AddToGroupsProper(s.groups, r);
      AddToGroupsLookup(s.groups, r, c, p);
      assert [r][1..] == [];
    }
  }

  lemma OldsCons(items: seq<Record>, env: Env, c: string, p: int)
    requires items != [] && !Skips(items[0], env)
    ensures Chosen(Olds(items, env), c, p)
            == Chosen(if IsOld(items[0], env) then [items[0]] else [], c, p) + Chosen(Olds(items[1..], env), c, p)
  {
    assert [items[0]][1..] == [];
    if IsOld(items[0], env) {
      assert Olds(items, env)[1..] == Olds(items[1..], env);
    } else {
      assert Olds(items, env) == Olds(items[1..], env);
    }
  }

  lemma {:induction false} ScanGroups(s: ScanState, items: seq<Record>, env: Env, c: string, p: int)
    requires s.flow == Going && ProperGroups(s.groups)
    requires Scan(s, items, env).flow != Crashed
    ensures ProperGroups(Scan(s, items, env).groups)
    ensures Members(Scan(s, items, env).groups, c, p) == Members(s.groups, c, p) + Chosen(Olds(items, env), c, p)
    decreases items
  {
    if items != [] {
      var s1 := ScanOne(s, items[0], env);
      assert Scan(s, items, env) == Scan(s1, items[1..], env);
      ScanOneGroups(s, items[0], env, c, p);
      if s1.flow == Going {
        ScanGroups(s1, items[1..], env, c, p);
        OldsCons(items, env, c, p);
        ConcatAssociates(Members(s.groups, c, p), Chosen(if IsOld(items[0], env) then [items[0]] else [], c, p),
                         Chosen(Olds(items[1..], env), c, p));
      }
    }
  }

  lemma ConcatAssociates(a: seq<Record>, b: seq<Record>, c: seq<Record>)
    ensures (a + b) + c == a + (b + c)
  {
  }

  lemma {:induction false} StepMembersAt(steps: seq<StepGroup>, j: nat)
    requires ProperSteps(steps) && j < |steps|
    ensures StepMembers(steps, steps[j].step) == steps[j].members
  {
    if j > 0 {
      assert steps[j] in steps[1..] && steps[1..][j - 1] == steps[j];
      StepMembersAt(steps[1..], j - 1);
    }
  }

  lemma {:induction false} MembersAt(groups: seq<Group>, i: nat, j: nat)
    requires ProperGroups(groups) && i < |groups| && j < |groups[i].steps|
    ensures Members(groups, groups[i].creator, groups[i].steps[j].step) == groups[i].steps[j].members
  {
    if i > 0 {
      assert groups[i] in groups[1..] && groups[1..][i - 1] == groups[i];
      MembersAt(groups[1..], i - 1, j);
    } else {
      StepMembersAt(groups[0].steps, j);
    }
  }

  /** The groups handed to the ladder partition the old records before the first
      SKIP: no creator or step occurs twice, no group is empty, and each group is
      exactly the records with its creator and step, in scan order. */
  lemma GroupsPartitionOldRecords(w: World, items: seq<Record>, env: Env)
    requires Scanned(w, items, env).flow != Crashed
    ensures ProperGroups(Scanned(w, items, env).groups)
    ensures forall c, p :: Members(Scanned(w, items, env).groups, c, p) == Chosen(Olds(items, env), c, p)
    ensures var groups := Scanned(w, items, env).groups;
            forall i, j :: 0 <= i < |groups| && 0 <= j < |groups[i].steps| ==>
              groups[i].steps[j].members == Chosen(Olds(items, env), groups[i].creator, groups[i].steps[j].step)
  {
    ScanGroups(ScanState(Say(w, Started), [], Going), items, env, "", 0);
    forall c, p
      ensures Members(Scanned(w, items, env).groups, c, p) == Chosen(Olds(items, env), c, p)
    {
      ScanGroups(ScanState(Say(w, Started), [], Going), items, env, c, p);
    }
    var groups := Scanned(w, items, env).groups;
    forall i, j | 0 <= i < |groups| && 0 <= j < |groups[i].steps|
      ensures groups[i].steps[j].members == Chosen(Olds(items, env), groups[i].creator, groups[i].steps[j].step)
    {
      MembersAt(groups, i, j);
    }
  }

  // ----- members of all groups, in visiting order

  function FlatSteps(steps: seq<StepGroup>): seq<Record> {
    if steps == [] then [] else steps[0].members + FlatSteps(steps[1..])
  }

  function Flat(groups: seq<Group>): seq<Record> {
    if groups == [] then [] else FlatSteps(groups[0].steps) + Flat(groups[1..])
  }

  function CountKey(rs: seq<Record>, k: Key): nat {
    if rs == [] then 0 else (if rs[0].key == k then 1 else 0) + CountKey(rs[1..], k)
  }

  lemma {:induction false} CountConcat(a: seq<Record>, b: seq<Record>, k: Key)
    ensures CountKey(a + b, k) == CountKey(a, k) + CountKey(b, k)
  {
    if a == [] {
      assert a + b == b;
    } else {
      assert (a + b)[1..] == a[1..] + b;
      CountConcat(a[1..], b, k);
    }
  }

  lemma {:induction false} CountIn(rs: seq<Record>, r: Record)
    requires r in rs
    ensures CountKey(rs, r.key) > 0
  {
    if rs[0] != r {
      CountIn(rs[1..], r);
    }
  }

  /** `t` is `s` with `r` put in at one place. */
  ghost predicate InsertsOne(s: seq<Record>, t: seq<Record>, r: Record) {
    exists i :: 0 <= i <= |s| && t == s[..i] + [r] + s[i..]
  }

  lemma InsertAround(pre: seq<Record>, s: seq<Record>, t: seq<Record>, post: seq<Record>, r: Record)
    requires InsertsOne(s, t, r)
    ensures InsertsOne(pre + s + post, pre + t + post, r)
  {
    var i :| 0 <= i <= |s| && t == s[..i] + [r] + s[i..];
    var j := |pre| + i;
    assert (pre + s + post)[..j] == pre + s[..i];
    assert (pre + s + post)[j..] == s[i..] + post;
    assert pre + t + post == (pre + s + post)[..j] + [r] + (pre + s + post)[j..];
  }

  lemma {:induction false} FlatStepsAdd(steps: seq<StepGroup>, step: int, r: Record)
    ensures InsertsOne(FlatSteps(steps), FlatSteps(AddToSteps(steps, step, r)), r)
  {
    var t := AddToSteps(steps, step, r);
    if steps == [] {
      assert t[1..] == [];
      assert FlatSteps(t) == FlatSteps(steps)[..0] + [r] + FlatSteps(steps)[0..];
    } else if steps[0].step == step {
      var m := steps[0].members;
      assert t[1..] == steps[1..];
      assert m + [r] == m[..|m|] + [r] + m[|m|..];
      InsertAround([], m, m + [r], FlatSteps(steps[1..]), r);
      assert FlatSteps(steps) == [] + m + FlatSteps(steps[1..]);
      assert FlatSteps(t) == [] + (m + [r]) + FlatSteps(t[1..]);
    } else {
      FlatStepsAdd(steps[1..], step, r);
      assert t[1..] == AddToSteps(steps[1..], step, r);
      InsertAround(steps[0].members, FlatSteps(steps[1..]), FlatSteps(t[1..]), [], r);
      assert FlatSteps(steps) == steps[0].members + FlatSteps(steps[1..]) + [];
      assert FlatSteps(t) == steps[0].members + FlatSteps(t[1..]) + [];
    }
  }

  /** Grouping inserts the record once into the visiting order. */
  lemma {:induction false} FlatInsert(groups: seq<Group>, r: Record)
    ensures InsertsOne(Flat(groups), Flat(AddToGroups(groups, r)), r)
  {
    var t := AddToGroups(groups, r);
    if groups == [] {
      FlatStepsAdd([], r.step + 1, r);
      assert Flat(t) == FlatSteps(t[0].steps);
    } else if groups[0].creator == r.createdBy {
      FlatStepsAdd(groups[0].steps, r.step + 1, r);
      assert t[1..] == groups[1..];
      InsertAround([], FlatSteps(groups[0].steps), FlatSteps(t[0].steps), Flat(groups[1..]), r);
      assert Flat(groups) == [] + FlatSteps(groups[0].steps) + Flat(groups[1..]);
      assert Flat(t) == [] + FlatSteps(t[0].steps) + Flat(t[1..]);
    } else {
      FlatInsert(groups[1..], r);
      assert t[1..] == AddToGroups(groups[1..], r);
      InsertAround(FlatSteps(groups[0].steps), Flat(groups[1..]), Flat(t[1..]), [], r);
      assert Flat(groups) == FlatSteps(groups[0].steps) + Flat(groups[1..]) + [];
      assert Flat(t) == FlatSteps(groups[0].steps) + Flat(t[1..]) + [];
    }
  }

  lemma FlatAdd(groups: seq<Group>, r: Record)
    ensures var t := Flat(AddToGroups(groups, r));
            && (forall k :: CountKey(t, k) == CountKey(Flat(groups), k) + (if k == r.key then 1 else 0))
            && (forall x :: x in t <==> x == r || x in Flat(groups))
  {
    FlatInsert(groups, r);
    var i :| 0 <= i <= |Flat(groups)| && Flat(AddToGroups(groups, r)) == Flat(groups)[..i] + [r] + Flat(groups)[i..];
    var a, b := Flat(groups)[..i], Flat(groups)[i..];
    assert Flat(groups) == a + b;
    forall k ensures CountKey(a + [r] + b, k) == CountKey(a + b, k) + (if k == r.key then 1 else 0) {
      CountConcat(a + [r], b, k);
      CountConcat(a, [r], k);
      CountConcat(a, b, k);
    }
  }

  /** Every member sits in the group of its own creator and next step. */
  ghost predicate FiledMembers(creator: string, step: int, members: seq<Record>) {
    forall r :: r in members ==> r.createdBy == creator && r.step + 1 == step
  }

  ghost predicate FiledSteps(creator: string, steps: seq<StepGroup>) {
    forall g :: g in steps ==> FiledMembers(creator, g.step, g.members)
  }

  ghost predicate Filed(groups: seq<Group>) {
    forall g :: g in groups ==> FiledSteps(g.creator, g.steps)
  }

  lemma {:induction false} ChosenFits(rs: seq<Record>, creator: string, step: int)
    ensures forall r :: r in Chosen(rs, creator, step) ==> r.createdBy == creator && r.step + 1 == step
  {
    if rs != [] {
      ChosenFits(rs[1..], creator, step);
    }
  }

  lemma ScannedFiled(w: World, items: seq<Record>, env: Env)
    requires Scanned(w, items, env).flow != Crashed
    ensures Filed(Scanned(w, items, env).groups)
  {
    GroupsPartitionOldRecords(w, items, env);
    forall g, sg | g in Scanned(w, items, env).groups && sg in g.steps
      ensures FiledMembers(g.creator, sg.step, sg.members)
    {
      ChosenFits(Olds(items, env), g.creator, sg.step);
    }
  }

  // ----- the fate of one record

  function At(w: World, k: Key): Option<Record> {
    if k in w.table then Some(w.table[k]) else None
  }

  /** What becomes of a record that is climbed at its own group's time. */
  function ClimbFate(r: Record, env: Env): Option<Record> {
    var v, step, at := env.visit(r.key), r.step + 1, env.batch(r.createdBy, r.step + 1).now;
    var hours := HourDiff(v.now, r.notified, env.west);
    if hours.None? || !StepReady(step, hours.value) then Some(r)
    else if step <= 3 then (if (step == 2 && v.tag == Raised) || !v.put then Some(r) else Some(Climbed(r, step, at)))
    else if v.image != Done || v.terminate == Raised || !v.drop then Some(r)
    else None
  }

  function Fate(r: Record, env: Env): Option<Record> {
    var look := env.look(r.key);
    match Judge(look.now, look.describe, env.bypass)
    case Crash => Some(r)
    case NotOld(_) => if look.untag == Raised || !look.drop then Some(r) else None
    case Old(_) => ClimbFate(r, env)
  }

  predicate Reached(items: seq<Record>, i: nat, env: Env)
    requires i < |items|
  {
    forall j :: 0 <= j < i ==> !Skips(items[j], env)
  }

  // ----- scanning, seen from one key

  /** Where record `r` stands once the scan has ended in `t`. */
  ghost predicate ScanOutcome(t: ScanState, r: Record, reached: bool, env: Env) {
    var now, count := At(t.w, r.key), CountKey(Flat(t.groups), r.key);
    if !reached then now == Some(r) && (t.flow != Crashed ==> count == 0)
    else if t.flow == Crashed then now == Some(r) || now == Fate(r, env)
    else if IsOld(r, env) then now == Some(r) && r in Flat(t.groups) && count == 1
    else now == Fate(r, env) && count == 0
  }

  lemma ReachedTail(items: seq<Record>, i: nat, env: Env)
    requires 0 < i < |items| && !Skips(items[0], env)
    ensures Reached(items, i, env) <==> Reached(items[1..], i - 1, env)
  {
    if Reached(items[1..], i - 1, env) {
      forall j | 0 <= j < i ensures !Skips(items[j], env) {
        if j > 0 {
          assert items[1..][j - 1] == items[j];
        }
      }
    }
  }

  lemma ScanOneHere(s: ScanState, r: Record, env: Env)
    requires s.flow == Going && At(s.w, r.key) == Some(r) && CountKey(Flat(s.groups), r.key) == 0
    ensures ScanOutcome(ScanOne(s, r, env), r, true, env)
  {
    if IsOld(r, env) {
      FlatAdd(s.groups, r);
    }
  }

  lemma ScanOneElsewhere(s: ScanState, r: Record, env: Env, k: Key)
    requires s.flow == Going && r.key != k
    ensures var t := ScanOne(s, r, env);
            && At(t.w, k) == At(s.w, k) && CountKey(Flat(t.groups), k) == CountKey(Flat(s.groups), k)
            && forall x :: x in Flat(s.groups) ==> x in Flat(t.groups)
  {
    if IsOld(r, env) {
      FlatAdd(s.groups, r);
    }
  }

  lemma {:induction false} ScanElsewhere(s: ScanState, items: seq<Record>, env: Env, k: Key)
    requires forall i :: 0 <= i < |items| ==> items[i].key != k
    ensures var t := Scan(s, items, env);
            && At(t.w, k) == At(s.w, k) && CountKey(Flat(t.groups), k) == CountKey(Flat(s.groups), k)
            && forall x :: x in Flat(s.groups) ==> x in Flat(t.groups)
    decreases items
  {
    if items != [] && s.flow == Going {
      ScanOneElsewhere(s, items[0], env, k);
      ScanElsewhere(ScanOne(s, items[0], env), items[1..], env, k);
    }
  }

  lemma {:induction false} ScanAt(s: ScanState, items: seq<Record>, env: Env, i: nat)
    requires i < |items| && s.flow == Going
    requires forall a, b :: 0 <= a < b < |items| ==> items[a].key != items[b].key
    requires At(s.w, items[i].key) == Some(items[i]) && CountKey(Flat(s.groups), items[i].key) == 0
    ensures ScanOutcome(Scan(s, items, env), items[i], Reached(items, i, env), env)
    decreases items
  {
    var s1, r := ScanOne(s, items[0], env), items[i];
    assert Scan(s, items, env) == Scan(s1, items[1..], env);
    if i == 0 {
      ScanOneHere(s, r, env);
      ScanElsewhere(s1, items[1..], env, r.key);
    } else {
      ScanOneElsewhere(s, items[0], env, r.key);
      if s1.flow == Going {
        ReachedTail(items, i, env);
        ScanAt(s1, items[1..], env, i - 1);
      } else {
        assert s1.flow == Skipped ==> Skips(items[0], env);
      }
    }
  }

  // ----- the ladder, seen from one key

  /** Going from `w` to `w1`, key `k` meets its fate if it is among `rs`, unless an
      exception came first, and keeps its value if it is not. */
  ghost predicate Met(w: World, w1: World, crashed: bool, rs: seq<Record>, k: Key, env: Env) {
    && (CountKey(rs, k) == 0 ==> At(w1, k) == At(w, k))
    && (forall r :: r in rs && r.key == k && At(w, k) == Some(r) ==>
         At(w1, k) == ClimbFate(r, env) || (crashed && At(w1, k) == Some(r)))
  }

  lemma MetThen(w: World, w0: World, w1: World, crashed: bool, a: seq<Record>, b: seq<Record>, k: Key, env: Env)
    requires CountKey(a + b, k) <= 1
    requires Met(w, w0, false, a, k, env) && Met(w0, w1, crashed, b, k, env)
    ensures Met(w, w1, crashed, a + b, k, env)
  {
    CountConcat(a, b, k);
    forall r | r in a + b && r.key == k
      ensures if r in a then CountKey(b, k) == 0 else CountKey(a, k) == 0
    {
      if r in a {
        CountIn(a, r);
      } else {
        CountIn(b, r);
      }
    }
  }

  lemma MetCut(w: World, w0: World, a: seq<Record>, b: seq<Record>, k: Key, env: Env)
    requires CountKey(a + b, k) <= 1
    requires Met(w, w0, true, a, k, env)
    ensures Met(w, w0, true, a + b, k, env)
  {
    CountConcat(a, b, k);
    forall r | r in b && r.key == k
      ensures CountKey(a, k) == 0
    {
      CountIn(b, r);
    }
  }

  lemma {:induction false} VisitMembersAt(w: World, members: seq<Record>, creator: string, step: int, env: Env, k: Key)
    requires CountKey(members, k) <= 1 && FiledMembers(creator, step, members)
    ensures var (w1, crashed) := VisitMembers(w, members, step, env.batch(creator, step).now, env);
            Met(w, w1, crashed, members, k, env)
    decreases members
  {
    if members != [] {
      var r, at := members[0], env.batch(creator, step).now;
      var (w0, crashed) := VisitOne(w, r, step, at, env);
      assert members == [r] + members[1..];
      assert r.createdBy == creator && r.step + 1 == step;
      assert CountKey([r], k) == if r.key == k then 1 else 0;
      assert Met(w, w0, crashed, [r], k, env);
      CountConcat([r], members[1..], k);
      if crashed {
        MetCut(w, w0, [r], members[1..], k, env);
      } else {
        VisitMembersAt(w0, members[1..], creator, step, env, k);
        var (w1, crashed1) := VisitMembers(w0, members[1..], step, at, env);
        MetThen(w, w0, w1, crashed1, [r], members[1..], k, env);
      }
    }
  }

  lemma VisitGroupAt(w: World, creator: string, g: StepGroup, env: Env, k: Key)
    requires CountKey(g.members, k) <= 1 && FiledMembers(creator, g.step, g.members)
    ensures var (w1, crashed) := VisitGroup(w, creator, g, env);
            Met(w, w1, crashed, g.members, k, env)
  {
    VisitMembersAt(w, g.members, creator, g.step, env, k);
  }

  lemma {:induction false} VisitStepsAt(w: World, creator: string, steps: seq<StepGroup>, env: Env, k: Key)
    requires CountKey(FlatSteps(steps), k) <= 1 && FiledSteps(creator, steps)
    ensures var (w1, crashed) := VisitSteps(w, creator, steps, env);
            Met(w, w1, crashed, FlatSteps(steps), k, env)
    decreases steps
  {
    if steps != [] {
      var g, rest := steps[0], FlatSteps(steps[1..]);
      var (w0, crashed) := VisitGroup(w, creator, g, env);
      CountConcat(g.members, rest, k);
      VisitGroupAt(w, creator, g, env, k);
      if crashed {
        MetCut(w, w0, g.members, rest, k, env);
      } else {
        VisitStepsAt(w0, creator, steps[1..], env, k);
        var (w1, crashed1) := VisitSteps(w0, creator, steps[1..], env);
        MetThen(w, w0, w1, crashed1, g.members, rest, k, env);
      }
    }
  }

  lemma {:induction false} VisitGroupsAt(w: World, groups: seq<Group>, env: Env, k: Key)
    requires CountKey(Flat(groups), k) <= 1 && Filed(groups)
    ensures var (w1, crashed) := VisitGroups(w, groups, env);
            Met(w, w1, crashed, Flat(groups), k, env)
    decreases groups
  {
    if groups != [] {
      var g, rest := groups[0], Flat(groups[1..]);
      var (w0, crashed) := VisitSteps(w, g.creator, g.steps, env);
      CountConcat(FlatSteps(g.steps), rest, k);
      VisitStepsAt(w, g.creator, g.steps, env, k);
      if crashed {
        MetCut(w, w0, FlatSteps(g.steps), rest, k, env);
      } else {
        VisitGroupsAt(w0, groups[1..], env, k);
        var (w1, crashed1) := VisitGroups(w0, groups[1..], env);
        MetThen(w, w0, w1, crashed1, FlatSteps(g.steps), rest, k, env);
      }
    }
  }

  /** A scan answer: some records of the table, no key twice. */
  ghost predicate IsScan(w: World, items: seq<Record>) {
    && (forall i :: 0 <= i < |items| ==> At(w, items[i].key) == Some(items[i]))
    && (forall i, j :: 0 <= i < j < |items| ==> items[i].key != items[j].key)
  }

  /** The whole table after an invocation. A record that was not scanned, or comes
      after the first SKIP, is untouched; every other one meets exactly its own fate
      when the handler returns, and meets it or keeps its value when the handler
      raises. */
  lemma InvocationIsPointwise(w: World, items: seq<Record>, env: Env)
    requires IsScan(w, items)
    ensures var (w1, crashed) := Invoke(w, items, env);
            && (forall k :: (forall i :: 0 <= i < |items| ==> items[i].key != k) ==> At(w1, k) == At(w, k))
            && forall i :: 0 <= i < |items| ==>
                 if !Reached(items, i, env) then At(w1, items[i].key) == Some(items[i])
                 else At(w1, items[i].key) == Fate(items[i], env) || (crashed && At(w1, items[i].key) == Some(items[i]))
  {
    var s0 := ScanState(Say(w, Started), [], Going);
    var s := Scanned(w, items, env);
    var (w1, crashed) := Invoke(w, items, env);
    if s.flow != Crashed {
      ScannedFiled(w, items, env);
    }
    forall k | forall i :: 0 <= i < |items| ==> items[i].key != k
      ensures At(w1, k) == At(w, k)
    {
      ScanElsewhere(s0, items, env, k);
      if s.flow != Crashed {
        VisitGroupsAt(s.w, s.groups, env, k);
      }
    }
    forall i | 0 <= i < |items|
      ensures if !Reached(items, i, env) then At(w1, items[i].key) == Some(items[i])
              else At(w1, items[i].key) == Fate(items[i], env) || (crashed && At(w1, items[i].key) == Some(items[i]))
    {
      ScanAt(s0, items, env, i);
      if s.flow != Crashed {
        VisitGroupsAt(s.w, s.groups, env, items[i].key);
      }
    }
  }

  /** Each fate is one of: unchanged, gone, or one step up with the group's time. */
  lemma FateIsOneStep(r: Record, env: Env)
    ensures Fate(r, env).Some? && Fate(r, env).value != r ==>
              var stamp := Format(env.batch(r.createdBy, r.step + 1).now);
              && Fate(r, env).value == r.(step := r.step + 1, notified := Some(stamp))
              && 1 <= r.step + 1 <= 3 && IsOld(r, env)
              && HourDiff(env.visit(r.key).now, r.notified, env.west).Some?
              && StepReady(r.step + 1, HourDiff(env.visit(r.key).now, r.notified, env.west).value)
    ensures Fate(r, env).None? && IsOld(r, env) ==>
              && r.step == 3 && env.visit(r.key).image == Done && env.visit(r.key).terminate != Raised
  {
  }

  /** The whole table, key by key: a record is unchanged, or gone because its instance was
      no longer old or was imaged at step 3, or exactly one step up with the time of its
      own group, after a passed hour test. Nothing appears. */
  lemma TableMovesByOneStep(w: World, items: seq<Record>, env: Env, k: Key)
    requires IsScan(w, items)
    ensures var now, was := At(Invoke(w, items, env).0, k), At(w, k);
            now != was ==>
              && was.Some? && was.value in items && was.value.key == k
              && (now.None? ==> !IsOld(was.value, env) || (was.value.step == 3 && env.visit(k).image == Done))
              && (now.Some? ==>
                   && IsOld(was.value, env) && 1 <= now.value.step <= 3
                   && now.value == was.value.(step := was.value.step + 1, notified := now.value.notified)
                   && now.value.notified == Some(Format(env.batch(was.value.createdBy, now.value.step).now))
                   && HourDiff(env.visit(k).now, was.value.notified, env.west).Some?
                   && StepReady(now.value.step, HourDiff(env.visit(k).now, was.value.notified, env.west).value))
  {
    hide Invoke, IsOld, Fate, Format, HourDiff, StepReady;
    InvocationIsPointwise(w, items, env);
    if i :| 0 <= i < |items| && items[i].key == k {
      FateIsOneStep(items[i], env);
    }
  }
}

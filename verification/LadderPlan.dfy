/**
 The detector reads the table once, when it scans. Everything it does afterwards is a
 fixed plan of effects, which can therefore be interleaved with what others do to the
 table; run without interruption the plan is the handler.
 */
module LadderPlan {
  import opened Common
  import opened Clock
  import opened Ladder
  import opened LadderGroups
  import opened LadderLog

  /** The scanned record with this key. */
  function Find(items: seq<Record>, k: Key): Option<Record> {
    if items == [] then None else if items[0].key == k then Some(items[0]) else Find(items[1..], k)
  }

  predicate Distinct(items: seq<Record>) {
    forall i, j :: 0 <= i < j < |items| ==> items[i].key != items[j].key
  }

  lemma {:induction false} FindFinds(items: seq<Record>, r: Record)
    requires Distinct(items) && r in items
    ensures Find(items, r.key) == Some(r)
  {
    if items[0] != r {
      assert r in items[1..];
      FindFinds(items[1..], r);
    }
  }

  /** One effect of the detector: the put of a climb, built from the scanned record, the
      delete of a record, or something outside the table. */
  function Effect(w: World, e: Event, items: seq<Record>): World {
    match e
    case Advanced(k, step, stampedAt, _) =>
      (match Find(items, k)
       case Some(r) => Put(w, Climbed(r, step, stampedAt), e)
       case None => Say(w, e))
    case Removed(k) => Drop(w, k, true)
    case _ => Say(w, e)
  }

  function Replay(w: World, plan: seq<Event>, items: seq<Record>): World {
    if plan == [] then w else Effect(Replay(w, plan[..|plan| - 1], items), plan[|plan| - 1], items)
  }

  /** What an invocation does, taken from a run on an empty table. */
  function Plan(items: seq<Record>, env: Env): seq<Event> {
    Invoke(World(map[], []), items, env).0.log
  }

  lemma ReplayMore(w: World, plan: seq<Event>, e: Event, items: seq<Record>)
    ensures Replay(w, plan + [e], items) == Effect(Replay(w, plan, items), e, items)
  {
    assert (plan + [e])[..|plan|] == plan;
  }

  lemma {:induction false} ReplayConcat(w: World, a: seq<Event>, b: seq<Event>, items: seq<Record>)
    ensures Replay(w, a + b, items) == Replay(Replay(w, a, items), b, items)
  {
    hide Effect;
    if b == [] {
      assert a + b == a;
    } else {
      var before, e := b[..|b| - 1], b[|b| - 1];
      ReplayConcat(w, a, before, items);
      ReplayMore(w, a + before, e, items);
      assert a + b == (a + before) + [e];
    }
  }

  lemma {:induction false} ReplayLogs(w: World, plan: seq<Event>, items: seq<Record>)
    ensures Replay(w, plan, items).log == w.log + plan
  {
    if plan != [] {
      ReplayLogs(w, plan[..|plan| - 1], items);
    }
  }

  // ----- the same effects on every table

  /** The same effects lead from `w` to `w1` and from `v` to `v1`. */
  ghost predicate Alike(w: World, w1: World, v: World, v1: World, items: seq<Record>) {
    exists plan :: w1 == Replay(w, plan, items) && v1 == Replay(v, plan, items)
  }

  lemma AlikeSame(w: World, v: World, items: seq<Record>)
    ensures Alike(w, w, v, v, items)
  {
    assert w == Replay(w, [], items) && v == Replay(v, [], items);
  }

  lemma AlikeThen(w: World, w1: World, w2: World, v: World, v1: World, v2: World, items: seq<Record>)
    requires Alike(w, w1, v, v1, items) && Alike(w1, w2, v1, v2, items)
    ensures Alike(w, w2, v, v2, items)
  {
    hide Replay;
    var a :| w1 == Replay(w, a, items) && v1 == Replay(v, a, items);
    var b :| w2 == Replay(w1, b, items) && v2 == Replay(v1, b, items);
    ReplayConcat(w, a, b, items);
    ReplayConcat(v, a, b, items);
    assert w2 == Replay(w, a + b, items) && v2 == Replay(v, a + b, items);
  }

  lemma AlikeEffect(w: World, v: World, e: Event, items: seq<Record>)
    ensures Alike(w, Effect(w, e, items), v, Effect(v, e, items), items)
  {
    ReplayMore(w, [], e, items);
    ReplayMore(v, [], e, items);
    assert [] + [e] == [e];
    assert Effect(w, e, items) == Replay(w, [e], items) && Effect(v, e, items) == Replay(v, [e], items);
  }

  lemma AlikeDrop(w: World, v: World, k: Key, ok: bool, items: seq<Record>)
    ensures Alike(w, Drop(w, k, ok), v, Drop(v, k, ok), items)
  {
    AlikeSame(w, v, items);
    AlikeEffect(w, v, Removed(k), items);
  }

  lemma ClimbAlike(w: World, v: World, r: Record, step: int, stampedAt: Instant, env: Env, items: seq<Record>)
    requires Find(items, r.key) == Some(r)
    requires HourDiff(env.visit(r.key).now, r.notified, env.west).Some? && step <= 3
    ensures var (w1, crashed) := VisitOne(w, r, step, stampedAt, env);
            var (v1, crashed1) := VisitOne(v, r, step, stampedAt, env);
            crashed == crashed1 && Alike(w, w1, v, v1, items)
  {
    hide Alike, Format, HourDiff, StepReady;
    var visit, e := env.visit(r.key), Advanced(r.key, step, stampedAt, env.visit(r.key).now);
    AlikeSame(w, v, items);
    AlikeEffect(w, v, e, items);
    AlikeEffect(w, v, Tagged(r.key), items);
    var wt, vt := Say(w, Tagged(r.key)), Say(v, Tagged(r.key));
    AlikeEffect(wt, vt, e, items);
    AlikeThen(w, wt, Effect(wt, e, items), v, vt, Effect(vt, e, items), items);
  }

  lemma RetireAlike(w: World, v: World, r: Record, step: int, stampedAt: Instant, env: Env, items: seq<Record>)
    requires HourDiff(env.visit(r.key).now, r.notified, env.west).Some? && step > 3
    ensures var (w1, crashed) := VisitOne(w, r, step, stampedAt, env);
            var (v1, crashed1) := VisitOne(v, r, step, stampedAt, env);
            crashed == crashed1 && Alike(w, w1, v, v1, items)
  {
    hide Alike, HourDiff, StepReady, Drop;
    var visit, e := env.visit(r.key), Terminated(r.key, env.visit(r.key).now);
    var wi, vi := Say(w, Imaged(r.key)), Say(v, Imaged(r.key));
    AlikeSame(w, v, items);
    AlikeEffect(w, v, Imaged(r.key), items);
    AlikeSame(wi, vi, items);
    AlikeEffect(wi, vi, e, items);
    var wt := if visit.terminate == Done then Say(wi, e) else wi;
    var vt := if visit.terminate == Done then Say(vi, e) else vi;
    AlikeThen(w, wi, wt, v, vi, vt, items);
    AlikeDrop(wt, vt, r.key, visit.drop, items);
    AlikeThen(w, wt, Drop(wt, r.key, visit.drop), v, vt, Drop(vt, r.key, visit.drop), items);
  }

  lemma VisitOneAlike(w: World, v: World, r: Record, step: int, stampedAt: Instant, env: Env, items: seq<Record>)
    requires Find(items, r.key) == Some(r)
    ensures var (w1, crashed) := VisitOne(w, r, step, stampedAt, env);
            var (v1, crashed1) := VisitOne(v, r, step, stampedAt, env);
            crashed == crashed1 && Alike(w, w1, v, v1, items)
  {
    hide Alike, HourDiff, StepReady;
    if HourDiff(env.visit(r.key).now, r.notified, env.west).None? {
      AlikeSame(w, v, items);
    } else if step <= 3 {
      ClimbAlike(w, v, r, step, stampedAt, env, items);
    } else {
      RetireAlike(w, v, r, step, stampedAt, env, items);
    }
  }

  predicate AllFound(rs: seq<Record>, items: seq<Record>) {
    forall r :: r in rs ==> Find(items, r.key) == Some(r)
  }

  lemma {:induction false} VisitMembersAlike(w: World, v: World, members: seq<Record>, step: int, stampedAt: Instant,
                                             env: Env, items: seq<Record>)
    requires AllFound(members, items)
    ensures var (w1, crashed) := VisitMembers(w, members, step, stampedAt, env);
            var (v1, crashed1) := VisitMembers(v, members, step, stampedAt, env);
            crashed == crashed1 && Alike(w, w1, v, v1, items)
    decreases members
  {
    hide Alike, VisitOne, Find;
    AlikeSame(w, v, items);
    if members != [] {
      VisitOneAlike(w, v, members[0], step, stampedAt, env, items);
      var (w1, crashed) := VisitOne(w, members[0], step, stampedAt, env);
      var v1 := VisitOne(v, members[0], step, stampedAt, env).0;
      if !crashed {
        VisitMembersAlike(w1, v1, members[1..], step, stampedAt, env, items);
        AlikeThen(w, w1, VisitMembers(w1, members[1..], step, stampedAt, env).0,
                  v, v1, VisitMembers(v1, members[1..], step, stampedAt, env).0, items);
      }
    }
  }

  lemma VisitGroupAlike(w: World, v: World, creator: string, g: StepGroup, env: Env, items: seq<Record>)
    requires AllFound(g.members, items)
    ensures var (w1, crashed) := VisitGroup(w, creator, g, env);
            var (v1, crashed1) := VisitGroup(v, creator, g, env);
            crashed == crashed1 && Alike(w, w1, v, v1, items)
  {
    hide Alike, VisitMembers, Find, Format;
    var at := env.batch(creator, g.step).now;
    VisitMembersAlike(w, v, g.members, g.step, at, env, items);
    var w1, v1 := VisitMembers(w, g.members, g.step, at, env).0, VisitMembers(v, g.members, g.step, at, env).0;
    if g.members != [] {
      var e := Sent(creator, g.step, g.members[|g.members| - 1].notified, Format(at));
      AlikeEffect(w1, v1, e, items);
      AlikeThen(w, w1, Say(w1, e), v, v1, Say(v1, e), items);
    }
  }

  lemma {:induction false} VisitStepsAlike(w: World, v: World, creator: string, steps: seq<StepGroup>, env: Env,
                                           items: seq<Record>)
    requires AllFound(FlatSteps(steps), items)
    ensures var (w1, crashed) := VisitSteps(w, creator, steps, env);
            var (v1, crashed1) := VisitSteps(v, creator, steps, env);
            crashed == crashed1 && Alike(w, w1, v, v1, items)
    decreases steps
  {
    hide Alike, VisitGroup, Find;
    AlikeSame(w, v, items);
    if steps != [] {
      assert forall r :: r in steps[0].members ==> r in FlatSteps(steps);
      assert forall r :: r in FlatSteps(steps[1..]) ==> r in FlatSteps(steps);
      VisitGroupAlike(w, v, creator, steps[0], env, items);
      var (w1, crashed) := VisitGroup(w, creator, steps[0], env);
      var v1 := VisitGroup(v, creator, steps[0], env).0;
      if !crashed {
        VisitStepsAlike(w1, v1, creator, steps[1..], env, items);
        AlikeThen(w, w1, VisitSteps(w1, creator, steps[1..], env).0,
                  v, v1, VisitSteps(v1, creator, steps[1..], env).0, items);
      }
    }
  }

  lemma {:induction false} VisitGroupsAlike(w: World, v: World, groups: seq<Group>, env: Env, items: seq<Record>)
    requires AllFound(Flat(groups), items)
    ensures var (w1, crashed) := VisitGroups(w, groups, env);
            var (v1, crashed1) := VisitGroups(v, groups, env);
            crashed == crashed1 && Alike(w, w1, v, v1, items)
    decreases groups
  {
    hide Alike, VisitSteps, Find;
    AlikeSame(w, v, items);
    if groups != [] {
      var g := groups[0];
      assert forall r :: r in FlatSteps(g.steps) ==> r in Flat(groups);
      assert forall r :: r in Flat(groups[1..]) ==> r in Flat(groups);
      VisitStepsAlike(w, v, g.creator, g.steps, env, items);
      var (w1, crashed) := VisitSteps(w, g.creator, g.steps, env);
      var v1 := VisitSteps(v, g.creator, g.steps, env).0;
      if !crashed {
        VisitGroupsAlike(w1, v1, groups[1..], env, items);
        AlikeThen(w, w1, VisitGroups(w1, groups[1..], env).0, v, v1, VisitGroups(v1, groups[1..], env).0, items);
      }
    }
  }

  lemma ScanOneAlike(s: ScanState, t: ScanState, r: Record, env: Env, items: seq<Record>)
    requires s.groups == t.groups && s.flow == t.flow
    ensures var s1, t1 := ScanOne(s, r, env), ScanOne(t, r, env);
            s1.groups == t1.groups && s1.flow == t1.flow && Alike(s.w, s1.w, t.w, t1.w, items)
  {
    hide Alike, AddToGroups, Drop;
    var look, k := env.look(r.key), r.key;
    AlikeSame(s.w, t.w, items);
    match Judge(look.now, look.describe, env.bypass) {
      case Crash =>
      case Old(since) => AlikeEffect(s.w, t.w, Checked(k, look.now, since), items);
      case NotOld(_) =>
        if look.untag != Raised {
          AlikeEffect(s.w, t.w, Untagged(k), items);
          var w1 := if look.untag == Done then Say(s.w, Untagged(k)) else s.w;
          var v1 := if look.untag == Done then Say(t.w, Untagged(k)) else t.w;
          AlikeDrop(w1, v1, k, look.drop, items);
          AlikeThen(s.w, w1, Drop(w1, k, look.drop), t.w, v1, Drop(v1, k, look.drop), items);
        }
    }
  }

  lemma {:induction false} ScanAlike(s: ScanState, t: ScanState, rest: seq<Record>, env: Env, items: seq<Record>)
    requires s.groups == t.groups && s.flow == t.flow
    ensures var s1, t1 := Scan(s, rest, env), Scan(t, rest, env);
            s1.groups == t1.groups && s1.flow == t1.flow && Alike(s.w, s1.w, t.w, t1.w, items)
    decreases rest
  {
    hide Alike, ScanOne;
    AlikeSame(s.w, t.w, items);
    if rest != [] && s.flow == Going {
      var s1, t1 := ScanOne(s, rest[0], env), ScanOne(t, rest[0], env);
      ScanOneAlike(s, t, rest[0], env, items);
      ScanAlike(s1, t1, rest[1..], env, items);
      AlikeThen(s.w, s1.w, Scan(s1, rest[1..], env).w, t.w, t1.w, Scan(t1, rest[1..], env).w, items);
    }
  }

  /** Everyone who waits for the ladder comes from the scan. */
  lemma {:induction false} GroupedAreScanned(s: ScanState, rest: seq<Record>, env: Env, items: seq<Record>)
    requires forall r :: r in rest || r in Flat(s.groups) ==> r in items
    ensures forall r :: r in Flat(Scan(s, rest, env).groups) ==> r in items
    decreases rest
  {
    hide Flat, AddToGroups;
    if rest != [] && s.flow == Going {
      FlatAdd(s.groups, rest[0]);
      GroupedAreScanned(ScanOne(s, rest[0], env), rest[1..], env, items);
    }
  }

  lemma InvokeAlike(w: World, v: World, items: seq<Record>, env: Env)
    requires Distinct(items)
    ensures var (w1, crashed) := Invoke(w, items, env);
            var (v1, crashed1) := Invoke(v, items, env);
            crashed == crashed1 && Alike(w, w1, v, v1, items)
  {
    hide Alike, Scan, VisitGroups, Find, Flat, Distinct;
    var w0, v0 := Say(w, Started), Say(v, Started);
    AlikeEffect(w, v, Started, items);
    assert forall r :: r in Flat([]) ==> r in items by { NobodyWaits(); }
    GroupedAreScanned(ScanState(v0, [], Going), items, env, items);
    ScanAlike(ScanState(w0, [], Going), ScanState(v0, [], Going), items, env, items);
    var s, t := Scanned(w, items, env), Scanned(v, items, env);
    AlikeThen(w, w0, s.w, v, v0, t.w, items);
    if s.flow != Crashed {
      forall r | r in Flat(s.groups) ensures Find(items, r.key) == Some(r) {
        FindFinds(items, r);
      }
      VisitGroupsAlike(s.w, t.w, s.groups, env, items);
      AlikeThen(w, s.w, VisitGroups(s.w, s.groups, env).0, v, t.w, VisitGroups(t.w, t.groups, env).0, items);
    }
  }

  lemma NobodyWaits()
    ensures Flat([]) == []
  {
  }

  /** The handler's effects do not depend on the table it finds while it works: on every
      table they are the plan, carried out in order. */
  lemma InvocationIsItsPlan(w: World, items: seq<Record>, env: Env)
    requires Distinct(items)
    ensures Invoke(w, items, env).0 == Replay(w, Plan(items, env), items)
    ensures Invoke(w, items, env).1 == Invoke(World(map[], []), items, env).1
  {
    hide Invoke, Replay;
    var blank := World(map[], []);
    InvokeAlike(w, blank, items, env);
    var plan :| Invoke(w, items, env).0 == Replay(w, plan, items)
                && Invoke(blank, items, env).0 == Replay(blank, plan, items);
    ReplayLogs(blank, plan, items);
    assert blank.log + plan == plan;
  }

  // ----- what the plan's effects rest on

  /** The look of this invocation found `k` idle for long enough. */
  ghost predicate SeenIdle(s: Option<Sighting>, k: Key, env: Env) {
    s.Some? && s.value.at == env.look(k).now && s.value.at - s.value.since >= IDLE_HOURS * HOUR
  }

  /** The scanned record of `k` was one step below, and its hour test, made at `at`, passed. */
  ghost predicate Passed(k: Key, step: int, at: Instant, items: seq<Record>, env: Env) {
    match Find(items, k)
    case None => false
    case Some(r) =>
      && r.step + 1 == step && at == env.visit(k).now
      && HourDiff(at, r.notified, env.west).Some? && StepReady(step, HourDiff(at, r.notified, env.west).value)
  }

  /** Why `e` can follow the earlier effects of the same invocation. */
  ghost predicate Grounded(e: Event, before: seq<Event>, items: seq<Record>, env: Env) {
    match e
    case Started => before == []
    case Inserted(_) => false
    case Rewritten(_, _) => false
    case Advanced(k, step, stampedAt, at) =>
      && step <= 3 && Passed(k, step, at, items, env) && SeenIdle(LastSighting(before, k), k, env)
      && stampedAt == env.batch(Find(items, k).value.createdBy, step).now
    case Terminated(k, at) =>
      && Passed(k, 4, at, items, env) && SeenIdle(LastSighting(before, k), k, env)
      && before != [] && before[|before| - 1] == Imaged(k)
    case _ => true
  }

  ghost predicate Sound(log: seq<Event>, items: seq<Record>, env: Env) {
    forall j :: 0 <= j < |log| ==> Grounded(log[j], log[..j], items, env)
  }

  lemma SoundMore(log: seq<Event>, e: Event, items: seq<Record>, env: Env)
    requires Sound(log, items, env) && Grounded(e, log, items, env)
    ensures Sound(log + [e], items, env)
  {
    hide Grounded;
    forall j | 0 <= j < |log + [e]| ensures Grounded((log + [e])[j], (log + [e])[..j], items, env) {
      if j < |log| {
        assert (log + [e])[..j] == log[..j];
        assert Grounded(log[j], log[..j], items, env);
      } else {
        assert (log + [e])[..j] == log;
      }
    }
  }

  /** The effects stay grounded and see nothing new. */
  ghost predicate Goes(w: World, w1: World, items: seq<Record>, env: Env) {
    Sound(w1.log, items, env) && forall k :: LastSighting(w1.log, k) == LastSighting(w.log, k)
  }

  lemma SayGoes(w: World, e: Event, items: seq<Record>, env: Env)
    requires Sound(w.log, items, env) && Grounded(e, w.log, items, env) && !e.Started? && !e.Checked?
    ensures Goes(w, Say(w, e), items, env)
  {
    hide LastSighting, Sound, Grounded, History;
    SoundMore(w.log, e, items, env);
    forall k ensures LastSighting(Say(w, e).log, k) == LastSighting(w.log, k) {
      LogGrows(w.log, e, k);
    }
  }

  lemma VisitOneGoes(w: World, r: Record, stampedAt: Instant, env: Env, items: seq<Record>)
    requires Sound(w.log, items, env) && Find(items, r.key) == Some(r)
    requires SeenIdle(LastSighting(w.log, r.key), r.key, env) && stampedAt == env.batch(r.createdBy, r.step + 1).now
    ensures Goes(w, VisitOne(w, r, r.step + 1, stampedAt, env).0, items, env)
  {
    hide LastSighting, Sound, Find, Format, HourDiff;
    var v, k, step := env.visit(r.key), r.key, r.step + 1;
    if HourDiff(v.now, r.notified, env.west).Some? && StepReady(step, HourDiff(v.now, r.notified, env.west).value) {
      if step <= 3 {
        SayGoes(w, Tagged(k), items, env);
        SayGoes(w, Advanced(k, step, stampedAt, v.now), items, env);
        SayGoes(Say(w, Tagged(k)), Advanced(k, step, stampedAt, v.now), items, env);
      } else {
        var w1 := Say(w, Imaged(k));
        SayGoes(w, Imaged(k), items, env);
        SayGoes(w1, Terminated(k, v.now), items, env);
        SayGoes(w1, Removed(k), items, env);
        SayGoes(Say(w1, Terminated(k, v.now)), Removed(k), items, env);
      }
    }
  }

  /** All of them are from the scan and were seen idle. */
  ghost predicate Waiting(log: seq<Event>, rs: seq<Record>, items: seq<Record>, env: Env) {
    forall r :: r in rs ==> Find(items, r.key) == Some(r) && SeenIdle(LastSighting(log, r.key), r.key, env)
  }

  lemma GoesOn(w: World, w1: World, w2: World, items: seq<Record>, env: Env)
    requires Goes(w, w1, items, env) && Goes(w1, w2, items, env)
    ensures Goes(w, w2, items, env)
  {
    hide LastSighting, Sound;
  }

  lemma {:induction false} VisitMembersGoes(w: World, members: seq<Record>, creator: string, step: int, env: Env,
                                            items: seq<Record>)
    requires Sound(w.log, items, env) && Waiting(w.log, members, items, env) && FiledMembers(creator, step, members)
    ensures Goes(w, VisitMembers(w, members, step, env.batch(creator, step).now, env).0, items, env)
    decreases members
  {
    hide LastSighting, Sound, VisitOne, SeenIdle, Find;
    if members != [] {
      var r, at := members[0], env.batch(creator, step).now;
      VisitOneGoes(w, r, at, env, items);
      var (w1, crashed) := VisitOne(w, r, step, at, env);
      if !crashed {
        assert forall x :: x in members[1..] ==> x in members;
        VisitMembersGoes(w1, members[1..], creator, step, env, items);
        GoesOn(w, w1, VisitMembers(w1, members[1..], step, at, env).0, items, env);
      }
    }
  }

  lemma VisitGroupGoes(w: World, creator: string, g: StepGroup, env: Env, items: seq<Record>)
    requires Sound(w.log, items, env) && Waiting(w.log, g.members, items, env)
    requires FiledMembers(creator, g.step, g.members)
    ensures Goes(w, VisitGroup(w, creator, g, env).0, items, env)
  {
    hide LastSighting, Sound, VisitMembers, Waiting, Format;
    var at := env.batch(creator, g.step).now;
    VisitMembersGoes(w, g.members, creator, g.step, env, items);
    var w1 := VisitMembers(w, g.members, g.step, at, env).0;
    if g.members != [] {
      var e := Sent(creator, g.step, g.members[|g.members| - 1].notified, Format(at));
      SayGoes(w1, e, items, env);
      GoesOn(w, w1, Say(w1, e), items, env);
    }
  }

  lemma {:induction false} VisitStepsGoes(w: World, creator: string, steps: seq<StepGroup>, env: Env,
                                          items: seq<Record>)
    requires Sound(w.log, items, env) && Waiting(w.log, FlatSteps(steps), items, env) && FiledSteps(creator, steps)
    ensures Goes(w, VisitSteps(w, creator, steps, env).0, items, env)
    decreases steps
  {
    hide LastSighting, Sound, VisitGroup, SeenIdle, Find, FiledMembers;
    if steps != [] {
      assert forall r :: r in steps[0].members ==> r in FlatSteps(steps);
      assert forall r :: r in FlatSteps(steps[1..]) ==> r in FlatSteps(steps);
      VisitGroupGoes(w, creator, steps[0], env, items);
      var (w1, crashed) := VisitGroup(w, creator, steps[0], env);
      if !crashed {
        VisitStepsGoes(w1, creator, steps[1..], env, items);
        GoesOn(w, w1, VisitSteps(w1, creator, steps[1..], env).0, items, env);
      }
    }
  }

  lemma {:induction false} VisitGroupsGoes(w: World, groups: seq<Group>, env: Env, items: seq<Record>)
    requires Sound(w.log, items, env) && Waiting(w.log, Flat(groups), items, env) && Filed(groups)
    ensures Goes(w, VisitGroups(w, groups, env).0, items, env)
    decreases groups
  {
    hide LastSighting, Sound, VisitSteps, SeenIdle, Find, FiledSteps;
    if groups != [] {
      var g := groups[0];
      assert forall r :: r in FlatSteps(g.steps) ==> r in Flat(groups);
      assert forall r :: r in Flat(groups[1..]) ==> r in Flat(groups);
      VisitStepsGoes(w, g.creator, g.steps, env, items);
      var (w1, crashed) := VisitSteps(w, g.creator, g.steps, env);
      if !crashed {
        VisitGroupsGoes(w1, groups[1..], env, items);
        GoesOn(w, w1, VisitGroups(w1, groups[1..], env).0, items, env);
      }
    }
  }

  lemma WaitingStays(log: seq<Event>, e: Event, rs: seq<Record>, items: seq<Record>, env: Env)
    requires Waiting(log, rs, items, env) && !e.Started?
    requires e.Checked? ==> e.at == env.look(e.key).now && e.at - e.since >= IDLE_HOURS * HOUR
    ensures Waiting(log + [e], rs, items, env)
  {
    hide LastSighting, Find, History;
    forall r | r in rs ensures SeenIdle(LastSighting(log + [e], r.key), r.key, env) {
      LogGrows(log, e, r.key);
    }
  }

  lemma ScanOneSound(s: ScanState, r: Record, env: Env, items: seq<Record>)
    requires Sound(s.w.log, items, env) && Waiting(s.w.log, Flat(s.groups), items, env)
    requires Find(items, r.key) == Some(r) && s.w.log != []
    ensures var s1 := ScanOne(s, r, env);
            Sound(s1.w.log, items, env) && Waiting(s1.w.log, Flat(s1.groups), items, env) && s1.w.log != []
  {
    hide LastSighting, Sound, Flat, AddToGroups, Waiting, Find;
    var look, k, log := env.look(r.key), r.key, s.w.log;
    match Judge(look.now, look.describe, env.bypass) {
      case Crash =>
      case NotOld(_) =>
        SoundMore(log, Untagged(k), items, env);
        SoundMore(log, Removed(k), items, env);
        SoundMore(log + [Untagged(k)], Removed(k), items, env);
        WaitingStays(log, Untagged(k), Flat(s.groups), items, env);
        WaitingStays(log, Removed(k), Flat(s.groups), items, env);
        WaitingStays(log + [Untagged(k)], Removed(k), Flat(s.groups), items, env);
      case Old(since) =>
        WholeHoursAtLeast(look.now - since, IDLE_HOURS);
        var e := Checked(k, look.now, since);
        SoundMore(log, e, items, env);
        WaitingStays(log, e, Flat(s.groups), items, env);
        OneMoreWaits(log + [e], s.groups, r, items, env) by { LogGrows(log, e, k); }
    }
  }

  lemma OneMoreWaits(log: seq<Event>, groups: seq<Group>, r: Record, items: seq<Record>, env: Env)
    requires Waiting(log, Flat(groups), items, env)
    requires Find(items, r.key) == Some(r) && SeenIdle(LastSighting(log, r.key), r.key, env)
    ensures Waiting(log, Flat(AddToGroups(groups, r)), items, env)
  {
    hide LastSighting, Flat, AddToGroups;
    FlatAdd(groups, r);
  }

  lemma {:induction false} ScanSound(s: ScanState, rest: seq<Record>, env: Env, items: seq<Record>)
    requires Sound(s.w.log, items, env) && Waiting(s.w.log, Flat(s.groups), items, env)
    requires AllFound(rest, items) && s.w.log != []
    ensures var s1 := Scan(s, rest, env);
            Sound(s1.w.log, items, env) && Waiting(s1.w.log, Flat(s1.groups), items, env)
    decreases rest
  {
    hide LastSighting, Sound, Flat, Waiting, ScanOne, Find;
    if rest != [] && s.flow == Going {
      ScanOneSound(s, rest[0], env, items);
      ScanSound(ScanOne(s, rest[0], env), rest[1..], env, items);
    }
  }

  /** Every effect of every plan: a climb follows a passed hour test and a sighting of the
      same invocation, a termination also directly an image. */
  lemma PlanIsSound(items: seq<Record>, env: Env)
    requires Distinct(items)
    ensures Sound(Plan(items, env), items, env)
  {
    hide LastSighting, Flat, Waiting, Scan, VisitGroups, Find, Distinct, Sound;
    var blank := World(map[], []);
    assert Sound([], items, env) && Waiting([Started], Flat([]), items, env) by { BlankIsSound(items, env); }
    SoundMore([], Started, items, env);
    assert [] + [Started] == [Started];
    forall r | r in items ensures Find(items, r.key) == Some(r) {
      FindFinds(items, r);
    }
    ScanSound(ScanState(Say(blank, Started), [], Going), items, env, items);
    var s := Scanned(blank, items, env);
    if s.flow != Crashed {
      ScannedFiled(blank, items, env);
      VisitGroupsGoes(s.w, s.groups, env, items);
    }
  }

  lemma BlankIsSound(items: seq<Record>, env: Env)
    ensures Sound([], items, env) && Waiting([Started], Flat([]), items, env)
  {
  }

  lemma PlanStarts(items: seq<Record>, env: Env)
    requires Distinct(items)
    ensures Plan(items, env) != [] && Plan(items, env)[0] == Started
  {
    hide Find, Scan, VisitGroups;
    var blank := World(map[], []);
    var s0, s := ScanState(Say(blank, Started), [], Going), Scanned(blank, items, env);
    ScanAlike(s0, s0, items, env, items);
    var a :| s.w == Replay(s0.w, a, items);
    ReplayLogs(s0.w, a, items);
    if s.flow != Crashed {
      forall r | r in Flat(s.groups) ensures Find(items, r.key) == Some(r) {
        assert forall x :: x in Flat([]) ==> x in items by { NobodyWaits(); }
        GroupedAreScanned(s0, items, env, items);
        FindFinds(items, r);
      }
      VisitGroupsAlike(s.w, s.w, s.groups, env, items);
      var b :| VisitGroups(s.w, s.groups, env).0 == Replay(s.w, b, items);
      ReplayLogs(s.w, b, items);
    }
  }
}

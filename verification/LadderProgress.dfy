/**
 The ladder also moves: when AWS cooperates, each invocation past the waiting time
 takes a record one step further. The runs built from such invocations show that
 termination is reachable, and how the conditions of the safety theorems can fail.
 */
module LadderProgress {
  import opened Common
  import opened Clock
  import opened Ladder
  import opened LadderGroups
  import opened LadderLog
  import opened LadderPlan
  import opened LadderSafety
  import opened Notifier

  /** Every call works, all instances are stopped since `since`; the groups are stamped at
      `stampedAt` and the hour tests made at `now`. */
  function Calm(stampedAt: Instant, now: Instant, since: Instant): Env {
    Env("keep", WRITER_WEST,
        (k: Key) => Look(stampedAt, Found(Some("stopped"), [], Some(since)), Done, true, Done),
        (k: Key) => Visit(now, Done, true, Done, Done, true),
        (creator: string, step: int) => Batch(stampedAt, Done))
  }

  /** What a calm invocation that scans only `r` logs when the step is due. */
  function Entries(r: Record, stampedAt: Instant, now: Instant, since: Instant): seq<Event> {
    var step := r.step + 1;
    [Started, Checked(r.key, stampedAt, since)]
    + (if step == 2 then [Tagged(r.key)] else [])
    + (if step <= 3 then [Advanced(r.key, step, stampedAt, now)]
       else [Imaged(r.key), Terminated(r.key, now), Removed(r.key)])
    + [Sent(r.createdBy, step, r.notified, Format(stampedAt))]
  }

  function Stepped(w: World, r: Record, stampedAt: Instant, now: Instant, since: Instant): World {
    World(if r.step + 1 <= 3 then w.table[r.key := Climbed(r, r.step + 1, stampedAt)] else w.table - {r.key},
          w.log + Entries(r, stampedAt, now, since))
  }

  function After(s: State, r: Record, stampedAt: Instant, now: Instant, since: Instant): State {
    s.(w := Stepped(s.w, r, stampedAt, now, since), clock := now)
  }

  predicate DueAt(r: Record, now: Instant) {
    match HourDiff(now, r.notified, WRITER_WEST)
    case None => false
    case Some(hours) => StepReady(r.step + 1, hours)
  }

  /** A due record of a cooperating instance climbs by one step, or is retired at the top. */
  lemma CalmInvocationSteps(w: World, r: Record, stampedAt: Instant, now: Instant, since: Instant)
    requires stampedAt - since >= IDLE_HOURS * HOUR && DueAt(r, now)
    ensures Invoke(w, [r], Calm(stampedAt, now, since)) == (Stepped(w, r, stampedAt, now, since), false)
  {
    hide HourDiff, Format;
    var env, step := Calm(stampedAt, now, since), r.step + 1;
    WholeHoursAtLeast(stampedAt - since, IDLE_HOURS);
    var w1 := Say(Say(w, Started), Checked(r.key, stampedAt, since));
    var groups := [Group(r.createdBy, [StepGroup(step, [r])])];
    var s0 := ScanState(Say(w, Started), [], Going);
    assert ScanOne(s0, r, env) == ScanState(w1, groups, Going);
    assert [r][1..] == [];
    assert Scan(s0, [r], env) == ScanState(w1, groups, Going);
    var w2 := VisitOne(w1, r, step, stampedAt, env).0;
    assert VisitOne(w1, r, step, stampedAt, env) == (w2, false);
    assert VisitMembers(w1, [r], step, stampedAt, env) == (w2, false);
    var w3 := Say(w2, Sent(r.createdBy, step, r.notified, Format(stampedAt)));
    var g := StepGroup(step, [r]);
    assert VisitGroup(w1, r.createdBy, g, env) == (w3, false);
    assert [g][1..] == [];
    assert VisitSteps(w1, r.createdBy, [g], env) == (w3, false);
    assert groups[1..] == [];
    assert VisitGroups(w1, groups, env) == (w3, false);
    assert w3.log == w.log + Entries(r, stampedAt, now, since);
  }

  // ----- any scan

  /** All notification times can be read. */
  predicate Readable(rs: seq<Record>, now: Instant) {
    forall r :: r in rs ==> HourDiff(now, r.notified, WRITER_WEST).Some?
  }

  lemma {:induction false} CalmMembers(w: World, members: seq<Record>, step: int, at: Instant,
                                       stampedAt: Instant, now: Instant, since: Instant)
    requires Readable(members, now)
    ensures !VisitMembers(w, members, step, at, Calm(stampedAt, now, since)).1
    decreases members
  {
    hide HourDiff, Format, StepReady;
    if members != [] {
      var (w1, crashed) := VisitOne(w, members[0], step, at, Calm(stampedAt, now, since));
      assert !crashed;
      CalmMembers(w1, members[1..], step, at, stampedAt, now, since);
    }
  }

  lemma {:induction false} CalmSteps(w: World, creator: string, steps: seq<StepGroup>,
                                     stampedAt: Instant, now: Instant, since: Instant)
    requires Readable(FlatSteps(steps), now)
    ensures !VisitSteps(w, creator, steps, Calm(stampedAt, now, since)).1
    decreases steps
  {
    hide HourDiff, Format, VisitMembers;
    if steps != [] {
      assert forall r :: r in steps[0].members ==> r in FlatSteps(steps);
      assert forall r :: r in FlatSteps(steps[1..]) ==> r in FlatSteps(steps);
      var env := Calm(stampedAt, now, since);
      CalmMembers(w, steps[0].members, steps[0].step, env.batch(creator, steps[0].step).now, stampedAt, now, since);
      CalmSteps(VisitGroup(w, creator, steps[0], env).0, creator, steps[1..], stampedAt, now, since);
    }
  }

  lemma {:induction false} CalmGroups(w: World, groups: seq<Group>, stampedAt: Instant, now: Instant, since: Instant)
    requires Readable(Flat(groups), now)
    ensures !VisitGroups(w, groups, Calm(stampedAt, now, since)).1
    decreases groups
  {
    hide HourDiff, VisitSteps, Calm;
    if groups != [] {
      var g, env := groups[0], Calm(stampedAt, now, since);
      assert forall r :: r in FlatSteps(g.steps) ==> r in Flat(groups);
      assert forall r :: r in Flat(groups[1..]) ==> r in Flat(groups);
      CalmSteps(w, g.creator, g.steps, stampedAt, now, since);
      CalmGroups(VisitSteps(w, g.creator, g.steps, env).0, groups[1..], stampedAt, now, since);
    }
  }

  lemma CalmIsOld(r: Record, stampedAt: Instant, now: Instant, since: Instant)
    requires stampedAt - since >= IDLE_HOURS * HOUR
    ensures IsOld(r, Calm(stampedAt, now, since)) && !Skips(r, Calm(stampedAt, now, since))
  {
    WholeHoursAtLeast(stampedAt - since, IDLE_HOURS);
  }

  lemma {:induction false} CalmScan(s: ScanState, items: seq<Record>, stampedAt: Instant, now: Instant, since: Instant)
    requires s.flow == Going && stampedAt - since >= IDLE_HOURS * HOUR
    ensures Scan(s, items, Calm(stampedAt, now, since)).flow == Going
    decreases items
  {
    hide AddToGroups;
    if items != [] {
      CalmIsOld(items[0], stampedAt, now, since);
      CalmScan(ScanOne(s, items[0], Calm(stampedAt, now, since)), items[1..], stampedAt, now, since);
    }
  }

  lemma BackedIsReadable(r: Record, h: seq<Notice>, clock: Instant, now: Instant)
    requires Backed(r, h, clock, WRITER_WEST)
    ensures HourDiff(now, r.notified, WRITER_WEST).Some?
  {
    hide HourDiff;
    StepReadyIsDue(r, h, now, clock, WRITER_WEST);
  }

  /** A due record climbs by its step, or is gone from the top; any other one stays. */
  function Moved(r: Record, stampedAt: Instant, now: Instant): Option<Record> {
    if !DueAt(r, now) then Some(r)
    else if r.step + 1 <= 3 then Some(Climbed(r, r.step + 1, stampedAt))
    else None
  }

  /** From any reachable table and for any scan of it, an invocation in which AWS cooperates
      does not raise: every scanned record that is due climbs by its step or is retired at
      the top, every other scanned record, and every record not scanned, stays. */
  lemma CalmInvocationMovesTheDue(w: World, clock: Instant, items: seq<Record>, stampedAt: Instant, now: Instant,
                                  since: Instant)
    requires Inv(w, clock, WRITER_WEST) && IsScan(w, items) && stampedAt - since >= IDLE_HOURS * HOUR
    ensures var (w1, crashed) := Invoke(w, items, Calm(stampedAt, now, since));
            && !crashed
            && (forall r :: r in items ==> At(w1, r.key) == Moved(r, stampedAt, now))
            && forall k :: (forall r :: r in items ==> r.key != k) ==> At(w1, k) == At(w, k)
  {
    hide Scan, VisitGroups, Flat, Backed, HourDiff, Format, StepReady, Skips, IsOld, Calm, DueAt, Fate, Justified,
         History;
    var env, s0 := Calm(stampedAt, now, since), ScanState(Say(w, Started), [], Going);
    CalmScan(s0, items, stampedAt, now, since);
    assert forall r :: r in Flat([]) ==> r in items by { NobodyWaits(); }
    GroupedAreScanned(s0, items, env, items);
    var s := Scanned(w, items, env);
    forall r | r in Flat(s.groups) ensures HourDiff(now, r.notified, WRITER_WEST).Some? {
      assert At(w, r.key) == Some(r);
      InvAt(w, r.key, clock, WRITER_WEST);
      BackedIsReadable(r, History(w.log, r.key), clock, now);
    }
    CalmGroups(s.w, s.groups, stampedAt, now, since);
    InvocationIsPointwise(w, items, env);
    forall i | 0 <= i < |items|
      ensures Reached(items, i, env)
      ensures Fate(items[i], env) == Moved(items[i], stampedAt, now)
    {
      forall j | 0 <= j < i ensures !Skips(items[j], env) {
        CalmIsOld(items[j], stampedAt, now, since);
      }
      CalmFate(items[i], stampedAt, now, since);
    }
  }

  lemma CalmFate(r: Record, stampedAt: Instant, now: Instant, since: Instant)
    requires stampedAt - since >= IDLE_HOURS * HOUR
    ensures Fate(r, Calm(stampedAt, now, since)) == Moved(r, stampedAt, now)
  {
    hide HourDiff, Format;
    CalmIsOld(r, stampedAt, now, since);
  }

  lemma DueAfter(r: Record, t: Instant, now: Instant)
    requires 1 <= r.step <= 3 && r.notified == Some(Format(t))
    ensures DueAt(r, now) <==> now - FloorMinute(t) >= Threshold(r.step + 1) * HOUR
  {
    hide HourDiff, Format, FloorMinute;
    ThresholdMeaning(now, t, WRITER_WEST, Threshold(r.step + 1));
  }

  lemma FirstIsDue(r: Record, now: Instant)
    requires r.step == 0 && r.notified == None
    ensures DueAt(r, now)
  {
  }

  // ----- building runs

  /** A run so far, and its last state. */
  ghost predicate Reaches(states: seq<State>, actions: seq<Action>, s: State) {
    Run(states, actions, WRITER_WEST) && states[|actions|] == s
  }

  lemma Extend(states: seq<State>, actions: seq<Action>, s: State, a: Action, s1: State)
    requires Reaches(states, actions, s) && Step(s, a, s1, WRITER_WEST)
    ensures Reaches(states + [s1], actions + [a], s1)
  {
    hide Step;
    var ss, aa := states + [s1], actions + [a];
    forall i | 0 <= i < |aa| ensures Step(ss[i], aa[i], ss[i + 1], WRITER_WEST) {
      if i < |actions| {
        assert Step(states[i], actions[i], states[i + 1], WRITER_WEST);
      }
    }
  }

  lemma StartRun() returns (states: seq<State>, actions: seq<Action>)
    ensures Reaches(states, actions, State(World(map[], []), 0, [], Off))
  {
    states, actions := [State(World(map[], []), 0, [], Off)], [];
  }

  function Plain(creator: string): Details {
    Details("", creator, "", "")
  }

  function Newcomer(k: Key, creator: string): Record {
    RecordOf(k, Plain(creator), 0, None)
  }

  function Joined(s: State, k: Key, creator: string): State {
    s.(w := Put(s.w, Newcomer(k, creator), Inserted(k)))
  }

  /** The other Lambda looks an unknown instance up and stores it. */
  lemma JoinSteps(states: seq<State>, actions: seq<Action>, s: State, k: Key, creator: string)
    returns (states1: seq<State>, actions1: seq<Action>)
    requires Reaches(states, actions, s) && s.readings == [] && k !in s.w.table
    ensures Reaches(states1, actions1, Joined(s, k, creator)) && |states1| == |states| + 2
  {
    hide Run;
    var query: nat -> Query := a => Answered;
    var read := s.(readings := [Reading(k, Nothing, |s.w.log|)]);
    assert s.readings + [Reading(k, Nothing, |s.w.log|)] == read.readings;
    Extend(states, actions, s, Read(k, query), read);
    var ss, aa := states + [read], actions + [Read(k, query)];
    assert read.readings[..0] + read.readings[1..] == s.readings;
    Extend(ss, aa, read, Write(0, Plain(creator), true), Joined(s, k, creator));
    states1, actions1 := ss + [Joined(s, k, creator)], aa + [Write(0, Plain(creator), true)];
  }

  lemma PlanInTime(items: seq<Record>, env: Env, now: Instant)
    requires Distinct(items) && forall r :: r in items ==> env.visit(r.key).now <= now
    ensures forall e :: e in Plan(items, env) ==> Past(e, now)
  {
    hide Plan, Find, LastSighting, SeenIdle, HourDiff, StepReady;
    PlanIsSound(items, env);
    var plan := Plan(items, env);
    forall j | 0 <= j < |plan| ensures Past(plan[j], now) {
      assert Grounded(plan[j], plan[..j], items, env);
      if plan[j].Advanced? || plan[j].Terminated? {
        FoundIsScanned(items, plan[j].key);
      }
    }
  }

  /** The rest of an invocation, without interruption. */
  lemma {:induction false} ActsExtend(states: seq<State>, actions: seq<Action>, s: State)
    returns (states1: seq<State>, actions1: seq<Action>)
    requires Reaches(states, actions, s) && s.job.On? && forall e :: e in s.job.todo ==> Past(e, s.clock)
    ensures Reaches(states1, actions1, s.(w := Replay(s.w, s.job.todo, s.job.items), job := Off))
    decreases if s.job.On? then |s.job.todo| else 0
  {
    hide Reaches, Replay, Effect;
    if s.job.todo == [] {
      assert Replay(s.w, [], s.job.items) == s.w by { ReplayNothing(s.w, s.job.items); }
      Extend(states, actions, s, Stop, s.(job := Off));
      states1, actions1 := states + [s.(job := Off)], actions + [Stop];
    } else {
      var e, rest, items := s.job.todo[0], s.job.todo[1..], s.job.items;
      var s1 := s.(w := Effect(s.w, e, items), job := Advance(s.job));
      Extend(states, actions, s, Act, s1);
      states1, actions1 := ActsExtend(states + [s1], actions + [Act], s1);
      ReplayFirst(s.w, e, rest, items);
      assert s.job.todo == [e] + rest;
    }
  }

  lemma ReplayNothing(w: World, items: seq<Record>)
    ensures Replay(w, [], items) == w
  {
  }

  lemma ReplayFirst(w: World, e: Event, rest: seq<Event>, items: seq<Record>)
    ensures Replay(w, [e] + rest, items) == Replay(Effect(w, e, items), rest, items)
  {
    hide Effect;
    ReplayConcat(w, [e], rest, items);
    ReplayMore(w, [], e, items);
    assert [] + [e] == [e];
  }

  /** A detector invocation without interruption ends with what the handler computes. */
  lemma DetectExtends(states: seq<State>, actions: seq<Action>, s: State, items: seq<Record>, env: Env, end: Instant)
    returns (states1: seq<State>, actions1: seq<Action>)
    requires Reaches(states, actions, s) && s.job.Off? && s.clock <= end && env.west == WRITER_WEST
    requires IsScan(s.w, items) && forall r :: r in items ==> OnTime(r, env, s.clock) && env.visit(r.key).now <= end
    ensures Reaches(states1, actions1, s.(w := Invoke(s.w, items, env).0, clock := end))
  {
    hide Reaches, Replay, Plan, Invoke, OnTime, Past;
    PlanStarts(items, env);
    PlanInTime(items, env, end);
    InvocationIsItsPlan(s.w, items, env);
    var plan := Plan(items, env);
    assert plan == [Started] + Rest(items, env);
    ReplayFirst(s.w, Started, Rest(items, env), items);
    var begun := s.(w := Say(s.w, Started), job := On(items, env, s.clock, [Started], Rest(items, env)));
    Extend(states, actions, s, Begin(items, env), begun);
    var later := begun.(clock := end);
    Extend(states + [begun], actions + [Begin(items, env)], begun, Pass(end), later);
    assert forall e :: e in Rest(items, env) ==> e in plan;
    states1, actions1 := ActsExtend(states + [begun] + [later], actions + [Begin(items, env)] + [Pass(end)], later);
  }

  lemma WaitExtends(states: seq<State>, actions: seq<Action>, s: State, now: Instant)
    returns (states1: seq<State>, actions1: seq<Action>)
    requires Reaches(states, actions, s) && s.clock <= now
    ensures Reaches(states1, actions1, s.(clock := now))
  {
    hide Reaches;
    Extend(states, actions, s, Pass(now), s.(clock := now));
    states1, actions1 := states + [s.(clock := now)], actions + [Pass(now)];
  }

  lemma CalmExtends(states: seq<State>, actions: seq<Action>, s: State, r: Record, stampedAt: Instant, now: Instant,
                    since: Instant)
    returns (states1: seq<State>, actions1: seq<Action>)
    requires Reaches(states, actions, s) && s.job.Off? && At(s.w, r.key) == Some(r) && s.clock <= stampedAt <= now
    requires stampedAt - since >= IDLE_HOURS * HOUR && DueAt(r, now)
    ensures var s1 := After(s, r, stampedAt, now, since);
            && Reaches(states1, actions1, s1)
            && (r.step + 1 <= 3 ==> At(s1.w, r.key) == Some(Climbed(r, r.step + 1, stampedAt)))
            && s1.w.log == s.w.log + Entries(r, stampedAt, now, since)
  {
    hide Reaches, Entries, DueAt, Step, Format, Invoke;
    CalmInvocationSteps(s.w, r, stampedAt, now, since);
    states1, actions1 := DetectExtends(states, actions, s, [r], Calm(stampedAt, now, since), now);
  }

  lemma EntriesSay(r: Record, stampedAt: Instant, now: Instant, since: Instant)
    ensures 0 <= r.step <= 2 ==> Advanced(r.key, r.step + 1, stampedAt, now) in Entries(r, stampedAt, now, since)
    ensures r.step == 3 ==> |Entries(r, stampedAt, now, since)| == 6
    ensures r.step == 3 ==> Entries(r, stampedAt, now, since)[3] == Terminated(r.key, now)
    ensures r.step == 3 ==> Entries(r, stampedAt, now, since)[..3] ==
                            [Started, Checked(r.key, stampedAt, since), Imaged(r.key)]
  {
  }

  lemma FullHours()
    ensures FloorMinute(120 * HOUR) == 120 * HOUR && FloorMinute(240 * HOUR) == 240 * HOUR
    ensures FloorMinute(552 * HOUR) == 552 * HOUR && FloorMinute(120 * HOUR + MINUTE - 1) == 120 * HOUR
    ensures FloorMinute(121 * HOUR) == 121 * HOUR
    ensures Threshold(2) == 120 && Threshold(3) == 312 && Threshold(4) == 24
  {
  }

  /** For every key there is a run that takes its record to step 3, last notified after
      552 hours. */
  lemma StepThreeIsReachable(k: Key, creator: string)
    returns (states: seq<State>, actions: seq<Action>, s: State, r: Record)
    ensures Reaches(states, actions, s) && s.clock == 552 * HOUR && s.readings == [] && s.job.Off?
    ensures At(s.w, k) == Some(r)
    ensures r.key == k && r.step == 3 && r.notified == Some(Format(552 * HOUR))
    ensures Advanced(k, 1, 120 * HOUR, 120 * HOUR) in s.w.log
  {
    hide HourDiff, Format, Calm, DueAt, Step, Threshold, Entries, At, Run, FloorMinute, Stepped;
    var t1, t2, t3 := 120 * HOUR, 240 * HOUR, 552 * HOUR;
    FullHours();
    states, actions := StartRun();
    var r0, s0 := Newcomer(k, creator), State(World(map[], []), 0, [], Off);
    states, actions := JoinSteps(states, actions, s0, k, creator);
    var s1 := Joined(s0, k, creator);
    assert At(s1.w, k) == Some(r0) by { JoinedAt(s0, k, creator, k); }
    FirstIsDue(r0, t1);
    states, actions := CalmExtends(states, actions, s1, r0, t1, t1, 0);
    var s2, r1 := After(s1, r0, t1, t1, 0), Climbed(r0, 1, t1);
    EntriesSay(r0, t1, t1, 0);
    DueAfter(r1, t1, t2);
    states, actions := CalmExtends(states, actions, s2, r1, t2, t2, 0);
    var s3, r2 := After(s2, r1, t2, t2, 0), Climbed(r1, 2, t2);
    DueAfter(r2, t2, t3);
    states, actions := CalmExtends(states, actions, s3, r2, t3, t3, 0);
    s, r := After(s3, r2, t3, t3, 0), Climbed(r2, 3, t3);
  }

  lemma JoinedAt(s: State, k: Key, creator: string, x: Key)
    ensures At(Joined(s, k, creator).w, x) == if x == k then Some(Newcomer(k, creator)) else At(s.w, x)
  {
  }

  /** The safety theorem is not empty: for every key there is a run in which its instance
      is terminated, exactly 456 hours after the first notification. */
  lemma LadderCanFinish(k: Key, creator: string)
    ensures exists states: seq<State>, actions: seq<Action>, s: State ::
              && Reaches(states, actions, s)
              && Terminated(k, (120 + 120 + 312 + 24) * HOUR) in s.w.log
              && Advanced(k, 1, 120 * HOUR, 120 * HOUR) in s.w.log
  {
    hide Format, DueAt, Threshold, Entries, At, Reaches, FloorMinute, Stepped;
    var states, actions, s, r := StepThreeIsReachable(k, creator);
    var t4 := 576 * HOUR;
    FullHours();
    DueAfter(r, 552 * HOUR, t4);
    states, actions := CalmExtends(states, actions, s, r, t4, t4, 0);
    EntriesSay(r, t4, t4, 0);
    assert Reaches(states, actions, After(s, r, t4, t4, 0));
  }

  // ----- a stale write can interrupt

  /** Every call works, and all instances are running. */
  function Busy(now: Instant): Env {
    Calm(now, now, now).(look := (k: Key) => Look(now, Found(Some("running"), [], None), Refused, true, Done))
  }

  lemma BusyRemoves(w: World, r: Record, now: Instant)
    ensures Invoke(w, [r], Busy(now)).0 == World(w.table - {r.key}, w.log + [Started, Removed(r.key)])
  {
    var env, s0 := Busy(now), ScanState(Say(w, Started), [], Going);
    assert [r][1..] == [];
    var w1 := World(w.table - {r.key}, w.log + [Started, Removed(r.key)]);
    assert ScanOne(s0, r, env).w == w1;
    assert Scan(s0, [r], env) == ScanState(w1, [], Going);
  }

  /** A write that brings back what was read at the length of `log`, before a removal. */
  lemma BroughtBackIsInterrupted(log: seq<Event>, k: Key)
    requires Positions(log, k) != []
    ensures !Uninterrupted(log + [Started, Removed(k)] + [Rewritten(k, |log|)], k)
  {
    var before := log + [Started, Removed(k)];
    assert (before + [Rewritten(k, |log|)])[..|before|] == before;
    assert before[..|log|] == log;
    assert Breaks(before[|log| + 1], k);
    assert !Unbroken(before, k, |log|, |before|);
  }

  /** The condition on writes is needed: for every key there is a run in which the other
      Lambda reads the record at step 3, the detector removes it because the instance is in
      use, the write brings it back, and the next stop of 120 hours ends in termination,
      although the record was removed after its notifications. */
  lemma StaleWriteCanInterrupt(k: Key, creator: string)
    ensures exists states: seq<State>, actions: seq<Action>, s: State, i: nat ::
              Reaches(states, actions, s) && TerminatedBroken(s.w.log, i, k)
  {
    hide Format, DueAt, Threshold, Entries, At, Step, FloorMinute, Calm, Busy, Stepped, Positions, TerminatedBroken,
         Reaches, Invoke;
    var states, actions, s, r := StepThreeIsReachable(k, creator);
    var log, query: nat -> Query := s.w.log, a => Answered;
    assert Positions(log, k) != [] by { StepThreeWasNotified(states, actions, s, r); }
    // read
    var read := s.(readings := [Reading(k, Seen(r), |log|)]);
    assert Step(s, Read(k, query), read, WRITER_WEST) by { ReadStep(s, r, query); }
    Extend(states, actions, s, Read(k, query), read);
    states, actions := states + [read], actions + [Read(k, query)];
    // removed
    var t := 553 * HOUR;
    states, actions := WaitExtends(states, actions, read, t);
    BusyRemoves(read.w, r, t);
    BusyIsReady(s.w, r, t);
    states, actions := DetectExtends(states, actions, read.(clock := t), [r], Busy(t), t);
    var gone := read.(w := World(s.w.table - {k}, log + [Started, Removed(k)]), clock := t);
    // written back
    var r1 := RecordOf(k, Plain(creator), 3, r.notified);
    var back := State(Put(gone.w, r1, Rewritten(k, |log|)), t, [], Off);
    assert Step(gone, Write(0, Plain(creator), true), back, WRITER_WEST) by {
      WriteStep(gone, r, Plain(creator), |log|);
    }
    Extend(states, actions, gone, Write(0, Plain(creator), true), back);
    states, actions := states + [back], actions + [Write(0, Plain(creator), true)];
    // terminated
    var u := 700 * HOUR;
    FullHours();
    DueAfter(r1, 552 * HOUR, u);
    assert At(back.w, k) == Some(r1) by { PutAt(gone.w, r1, Rewritten(k, |log|)); }
    states, actions := CalmExtends(states, actions, back, r1, u, u, t);
    var end, i := After(back, r1, u, u, t), |back.w.log| + 3;
    BroughtBackIsInterrupted(log, k);
    LaterIsBroken(back.w.log, r1, u, t);
    assert TerminatedBroken(end.w.log, i, k);
  }

  /** At `i` the instance of `k` is terminated on a record that was broken. */
  predicate TerminatedBroken(log: seq<Event>, i: nat, k: Key) {
    i < |log| && log[i].Terminated? && log[i].key == k && !NeverBroken(log, i, k)
  }

  lemma LaterIsBroken(log: seq<Event>, r: Record, now: Instant, since: Instant)
    requires r.step == 3 && !Uninterrupted(log, r.key)
    ensures TerminatedBroken(log + Entries(r, now, now, since), |log| + 3, r.key)
  {
    hide Uninterrupted;
    EntriesSay(r, now, now, since);
    var entries, i := Entries(r, now, now, since), |log| + 3;
    var all := log + entries;
    assert all[..i] == log + entries[..3];
    StartOfTail(log, entries[..3]);
    assert all[..|log|] == log;
  }

  lemma {:induction false} SameStart(log: seq<Event>, tail: seq<Event>)
    requires forall e :: e in tail ==> !e.Started?
    ensures LastStart(log + tail) == LastStart(log)
  {
    if tail == [] {
      assert log + tail == log;
    } else {
      var n := |tail| - 1;
      SameStart(log, tail[..n]);
      LogGrows(log + tail[..n], tail[n], Key("", ""));
      assert log + tail == (log + tail[..n]) + [tail[n]];
    }
  }

  lemma StartOfTail(log: seq<Event>, tail: seq<Event>)
    requires tail != [] && tail[0].Started? && forall e :: e in tail[1..] ==> !e.Started?
    ensures LastStart(log + tail) == |log|
  {
    hide LastStart, LastSighting, History;
    LogGrows(log, tail[0], Key("", ""));
    SameStart(log + [tail[0]], tail[1..]);
    assert tail == [tail[0]] + tail[1..];
    assert log + tail == (log + [tail[0]]) + tail[1..];
  }

  lemma BusyIsReady(w: World, r: Record, now: Instant)
    requires At(w, r.key) == Some(r)
    ensures IsScan(w, [r]) && OnTime(r, Busy(now), now) && Busy(now).visit(r.key).now <= now
    ensures Busy(now).west == WRITER_WEST
  {
  }

  /** The last scan counts too: for every key there is a run in which a reset comes between
      the scan that finds the record at step 3 and its termination. */
  lemma ResetCanComeDuringInvocation(k: Key, creator: string)
    ensures exists states: seq<State>, actions: seq<Action>, s: State, i: nat ::
              Reaches(states, actions, s) && TerminatedBroken(s.w.log, i, k)
              && !Unbroken(s.w.log, k, LastStart(s.w.log[..i]), i)
  {
    hide Format, DueAt, Threshold, Entries, At, FloorMinute, Stepped, TerminatedBroken, Reaches, Invoke, Step,
         Uninterrupted, Plan, Replay, Past, OnTime, Rest, Calm, Unbroken, LastStart;
    var states, actions, s, r := StepThreeIsReachable(k, creator);
    var log, query: nat -> Query, t := s.w.log, a => Throttled, 576 * HOUR;
    // looked up in vain
    var read := s.(readings := [Reading(k, Nothing, |log|)]);
    assert Step(s, Read(k, query), read, WRITER_WEST) by { VainReadStep(s, r, query); }
    Extend(states, actions, s, Read(k, query), read);
    states, actions := states + [read], actions + [Read(k, query)];
    states, actions := WaitExtends(states, actions, read, t);
    // scanned
    FullHours();
    DueAfter(r, 552 * HOUR, t);
    var env, late := Calm(t, t, 0), read.(clock := t);
    CalmPlan(r, t, 0);
    var begun := late.(w := Say(s.w, Started), job := On([r], env, t, [Started], Rest([r], env)));
    assert Step(late, Begin([r], env), begun, WRITER_WEST) by { CalmBegins(late, r, t, 0); }
    Extend(states, actions, late, Begin([r], env), begun);
    states, actions := states + [begun], actions + [Begin([r], env)];
    // reset
    var reset := begun.(w := Put(begun.w, Newcomer(k, creator), Inserted(k)), readings := []);
    assert Step(begun, Write(0, Plain(creator), true), reset, WRITER_WEST) by { ResetStep(begun, k, creator, |log|); }
    Extend(states, actions, begun, Write(0, Plain(creator), true), reset);
    states, actions := states + [reset], actions + [Write(0, Plain(creator), true)];
    // terminated
    assert forall e :: e in Rest([r], env) ==> Past(e, t) by { CalmInTime(r, t, 0); }
    states, actions := ActsExtend(states, actions, reset);
    var end, i := reset.(w := Replay(reset.w, Rest([r], env), [r]), job := Off), |log| + 4;
    ReplayLogs(reset.w, Rest([r], env), [r]);
    EntriesSay(r, t, t, 0);
    assert end.w.log == log + [Started, Inserted(k)] + Entries(r, t, t, 0)[1..];
    ResetIsBroken(log, r, t, 0);
    assert Reaches(states, actions, end) && TerminatedBroken(end.w.log, i, k);
  }

  lemma VainReadStep(s: State, r: Record, query: nat -> Query)
    requires s.readings == [] && At(s.w, r.key) == Some(r) && forall a :: query(a) == Throttled
    ensures Step(s, Read(r.key, query), s.(readings := [Reading(r.key, Nothing, |s.w.log|)]), WRITER_WEST)
  {
    LookUpMissesIff(s.w.table, r.key, query);
    assert s.readings + [Reading(r.key, Nothing, |s.w.log|)] == [Reading(r.key, Nothing, |s.w.log|)];
  }

  lemma ResetStep(s: State, k: Key, creator: string, readAt: nat)
    requires s.readings == [Reading(k, Nothing, readAt)]
    ensures Step(s, Write(0, Plain(creator), true),
                 s.(w := Put(s.w, Newcomer(k, creator), Inserted(k)), readings := []), WRITER_WEST)
  {
    assert s.readings[..0] + s.readings[1..] == [];
  }

  lemma CalmPlan(r: Record, now: Instant, since: Instant)
    requires now - since >= IDLE_HOURS * HOUR && DueAt(r, now)
    ensures Rest([r], Calm(now, now, since)) == Entries(r, now, now, since)[1..]
  {
    hide DueAt, Invoke, Calm;
    CalmInvocationSteps(World(map[], []), r, now, now, since);
    assert [] + Entries(r, now, now, since) == Entries(r, now, now, since);
  }

  lemma CalmBegins(s: State, r: Record, now: Instant, since: Instant)
    requires s.job.Off? && s.clock == now && At(s.w, r.key) == Some(r)
    ensures var env := Calm(now, now, since);
            var job := On([r], env, now, [Started], Rest([r], env));
            Step(s, Begin([r], env), s.(w := Say(s.w, Started), job := job), WRITER_WEST)
  {
    hide Rest;
  }

  lemma CalmInTime(r: Record, now: Instant, since: Instant)
    ensures forall e :: e in Rest([r], Calm(now, now, since)) ==> Past(e, now)
  {
    hide Plan, Past;
    PlanInTime([r], Calm(now, now, since), now);
    var plan := Plan([r], Calm(now, now, since));
    assert forall e :: plan != [] && e in plan[1..] ==> e in plan;
  }

  lemma ResetIsBroken(log: seq<Event>, r: Record, now: Instant, since: Instant)
    requires r.step == 3
    ensures var all, i := log + [Started, Inserted(r.key)] + Entries(r, now, now, since)[1..], |log| + 4;
            TerminatedBroken(all, i, r.key) && !Unbroken(all, r.key, LastStart(all[..i]), i)
  {
    hide Uninterrupted;
    EntriesSay(r, now, now, since);
    var entries, i := Entries(r, now, now, since), |log| + 4;
    var all := log + [Started, Inserted(r.key)] + entries[1..];
    assert all[i] == entries[3];
    var tail := [Started, Inserted(r.key), entries[1], entries[2]];
    assert all[..i] == log + tail;
    assert entries[..3][1] == entries[1] && entries[..3][2] == entries[2];
    StartOfTail(log, tail);
    assert Breaks(all[|log| + 1], r.key);
  }

  lemma PutAt(w: World, r: Record, e: Event)
    ensures At(Put(w, r, e), r.key) == Some(r)
  {
  }

  lemma ReadStep(s: State, r: Record, query: nat -> Query)
    requires s.readings == [] && At(s.w, r.key) == Some(r) && query(0) == Answered
    ensures Step(s, Read(r.key, query), s.(readings := [Reading(r.key, Seen(r), |s.w.log|)]), WRITER_WEST)
  {
    assert s.readings + [Reading(r.key, Seen(r), |s.w.log|)] == [Reading(r.key, Seen(r), |s.w.log|)];
  }

  lemma WriteStep(s: State, r: Record, d: Details, readAt: nat)
    requires s.readings == [Reading(r.key, Seen(r), readAt)]
    ensures var r1 := RecordOf(r.key, d, r.step, r.notified);
            Step(s, Write(0, d, true), s.(w := Put(s.w, r1, Rewritten(r.key, readAt)), readings := []), WRITER_WEST)
  {
    assert s.readings[..0] + s.readings[1..] == [];
  }

  lemma StepThreeWasNotified(states: seq<State>, actions: seq<Action>, s: State, r: Record)
    requires Reaches(states, actions, s) && At(s.w, r.key) == Some(r) && r.step == 3
    ensures Positions(s.w.log, r.key) != []
  {
    hide History, LastSighting, Positions, Step, Justified, Recalled;
    RunKeepsInv(states, actions, WRITER_WEST, |actions|);
    InvAt(s.w, r.key, s.clock, WRITER_WEST);
    HistoryPositions(s.w.log, r.key);
  }

  // ----- the written times can be too close

  /** For every key there is a run whose first two notifications carry written times that
      are exactly one minute less than 120 hours apart. */
  lemma WrittenGapCanBeShort(k: Key, creator: string)
    ensures exists states: seq<State>, actions: seq<Action>, s: State, t: Instant, u: Instant, v: Instant ::
              && Reaches(states, actions, s) && Advanced(k, 1, t, t) in s.w.log && Advanced(k, 2, u, v) in s.w.log
              && u - t == 120 * HOUR - MINUTE
  {
    hide HourDiff, Format, Calm, DueAt, Step, Threshold, Entries, At, Run, FloorMinute, Stepped;
    var t, u, v := 120 * HOUR + MINUTE - 1, 240 * HOUR - 1, 240 * HOUR;
    FullHours();
    var states, actions := StartRun();
    var r0, s0 := Newcomer(k, creator), State(World(map[], []), 0, [], Off);
    states, actions := JoinSteps(states, actions, s0, k, creator);
    var s1 := Joined(s0, k, creator);
    assert At(s1.w, k) == Some(r0) by { JoinedAt(s0, k, creator, k); }
    FirstIsDue(r0, t);
    states, actions := CalmExtends(states, actions, s1, r0, t, t, 0);
    var s2, r1 := After(s1, r0, t, t, 0), Climbed(r0, 1, t);
    EntriesSay(r0, t, t, 0);
    DueAfter(r1, t, v);
    states, actions := CalmExtends(states, actions, s2, r1, u, v, 0);
    EntriesSay(r1, u, v, 0);
    assert Reaches(states, actions, After(s2, r1, u, v, 0));
  }

  // ----- a climb can go unannounced

  /** The scan of two old records of one owner. */
  function PairChecked(w: World, a: Record, b: Record, now: Instant, since: Instant): World {
    Say(Say(Say(w, Started), Checked(a.key, now, since)), Checked(b.key, now, since))
  }

  function PairGroups(a: Record, b: Record): seq<Group> {
    [Group(a.createdBy, if a.step == b.step then [StepGroup(a.step + 1, [a, b])]
                        else [StepGroup(a.step + 1, [a]), StepGroup(b.step + 1, [b])])]
  }

  lemma PairScan(w: World, a: Record, b: Record, now: Instant, since: Instant)
    requires a.createdBy == b.createdBy && now - since >= IDLE_HOURS * HOUR
    ensures Scanned(w, [a, b], Calm(now, now, since))
            == ScanState(PairChecked(w, a, b, now, since), PairGroups(a, b), Going)
  {
    var env, s0 := Calm(now, now, since), ScanState(Say(w, Started), [], Going);
    WholeHoursAtLeast(now - since, IDLE_HOURS);
    var groups := [Group(a.createdBy, [StepGroup(a.step + 1, [a])])];
    var s1 := ScanState(Say(s0.w, Checked(a.key, now, since)), groups, Going);
    assert ScanOne(s0, a, env) == s1;
    assert AddToSteps(s1.groups[0].steps, b.step + 1, b) == PairGroups(a, b)[0].steps by {
      assert [a] + [b] == [a, b];
    }
    var s2 := ScanState(PairChecked(w, a, b, now, since), PairGroups(a, b), Going);
    assert ScanOne(s1, b, env) == s2;
    assert [a, b][1..] == [b] && [b][1..] == [];
    assert Scan(s1, [b], env) == s2;
  }

  /** `a` is not due, `b` has never been notified: `b` climbs to step 1, `a` stays. */
  lemma SecondIsNotified(w: World, a: Record, b: Record, now: Instant, since: Instant)
    requires a.createdBy == b.createdBy && a.key != b.key && now - since >= IDLE_HOURS * HOUR
    requires At(w, a.key) == Some(a) && a.step == 1 && HourDiff(now, a.notified, WRITER_WEST).Some? && !DueAt(a, now)
    requires At(w, b.key) == Some(b) && b.step == 0 && b.notified == None
    ensures var w1 := Invoke(w, [a, b], Calm(now, now, since)).0;
            && At(w1, a.key) == Some(a) && At(w1, b.key) == Some(Climbed(b, 1, now))
            && w1.table.Keys == w.table.Keys
  {
    hide Format, Scanned, PairChecked;
    var env, w0, c := Calm(now, now, since), PairChecked(w, a, b, now, since), a.createdBy;
    PairScan(w, a, b, now, since);
    var ga, gb := StepGroup(2, [a]), StepGroup(1, [b]);
    assert PairGroups(a, b) == [Group(c, [ga, gb])];
    assert w0.table == w.table by { CheckedKeepsTable(w, a, b, now, since); }
    assert [a][1..] == [] && [b][1..] == [] && [ga, gb][1..] == [gb] && [gb][1..] == [];
    var w1 := Say(w0, Sent(c, 2, a.notified, Format(now)));
    assert VisitMembers(w0, [a], 2, now, env) == (w0, false) by { NotDueStays(w0, a, now, since); }
    assert VisitGroup(w0, c, ga, env) == (w1, false);
    var w2 := Put(w1, Climbed(b, 1, now), Advanced(b.key, 1, now, now));
    assert VisitOne(w1, b, 1, now, env) == (w2, false);
    assert VisitMembers(w1, [b], 1, now, env) == (w2, false);
    var w3 := Say(w2, Sent(c, 1, None, Format(now)));
    assert VisitGroup(w1, c, gb, env) == (w3, false);
    assert VisitSteps(w1, c, [gb], env) == (w3, false);
    assert VisitSteps(w0, c, [ga, gb], env) == (w3, false);
    assert [Group(c, [ga, gb])][1..] == [];
    assert VisitGroups(w0, [Group(c, [ga, gb])], env) == (w3, false);
  }

  lemma CheckedKeepsTable(w: World, a: Record, b: Record, now: Instant, since: Instant)
    ensures PairChecked(w, a, b, now, since).table == w.table
  {
  }

  lemma NotDueStays(w: World, a: Record, now: Instant, since: Instant)
    requires a.step == 1 && HourDiff(now, a.notified, WRITER_WEST).Some? && !DueAt(a, now)
    ensures VisitMembers(w, [a], 2, now, Calm(now, now, since)) == (w, false)
  {
    assert [a][1..] == [];
    assert VisitOne(w, a, 2, now, Calm(now, now, since)) == (w, false);
  }

  /** Both are at step 1, the first is due, the second is not: the first climbs, and what is
      sent carries the notification time of the second. */
  lemma FirstClimbs(w: World, a: Record, b: Record, t: Instant, u: Instant, now: Instant, since: Instant)
    requires a.createdBy == b.createdBy && a.key != b.key && a.step == b.step == 1 && now - since >= IDLE_HOURS * HOUR
    requires a.notified == Some(Format(t)) && b.notified == Some(Format(u))
    requires now - FloorMinute(t) >= 120 * HOUR > now - FloorMinute(u)
    ensures var w1 := Invoke(w, [a, b], Calm(now, now, since)).0;
            && At(w1, a.key) == Some(Climbed(a, 2, now))
            && EndsWith(w1.log, Sent(a.createdBy, 2, b.notified, Format(now)))
            && w1.table.Keys == w.table.Keys + {a.key}
  {
    hide Format, Scanned, PairChecked, FloorMinute, VisitGroup;
    var env, w0, c := Calm(now, now, since), PairChecked(w, a, b, now, since), a.createdBy;
    PairScan(w, a, b, now, since);
    assert w0.table == w.table by { CheckedKeepsTable(w, a, b, now, since); }
    ClimbWithoutMessage(w0, a, b, t, u, env);
    var g := StepGroup(2, [a, b]);
    assert PairGroups(a, b) == [Group(c, [g])];
    var w1 := VisitGroup(w0, c, g, env).0;
    assert [g][1..] == [] && [Group(c, [g])][1..] == [];
    assert VisitSteps(w0, c, [g], env) == (w1, false);
    assert VisitGroups(w0, [Group(c, [g])], env) == (w1, false);
  }

  lemma PairExtends(states: seq<State>, actions: seq<Action>, s: State, a: Record, b: Record, now: Instant,
                    since: Instant)
    returns (states1: seq<State>, actions1: seq<Action>)
    requires Reaches(states, actions, s) && s.job.Off? && s.clock <= now
    requires At(s.w, a.key) == Some(a) && At(s.w, b.key) == Some(b) && a.key != b.key
    ensures Reaches(states1, actions1, s.(w := Invoke(s.w, [a, b], Calm(now, now, since)).0, clock := now))
  {
    hide Invoke, Reaches;
    states1, actions1 := DetectExtends(states, actions, s, [a, b], Calm(now, now, since), now);
  }

  lemma NoMessageYet(u: Instant, sentAt: Instant, isDelete: bool)
    requires sentAt - FloorMinute(u) < 120 * HOUR
    ensures Silent(Some(Format(u)), sentAt, isDelete)
  {
    hide HourDiff, Format, FloorMinute;
    ThresholdMeaning(sentAt, u, WRITER_WEST, 120);
  }

  /** `k` has just climbed to step 2, and the log ends with a send for which, within the
      hour, no message is built. */
  ghost predicate Unannounced(s: State, k: Key, creator: string, notified: Option<Stamp>, current: Stamp) {
    && At(s.w, k).Some? && At(s.w, k).value.step == 2
    && EndsWith(s.w.log, Sent(creator, 2, notified, current))
    && forall sentAt, isDelete :: s.clock <= sentAt < s.clock + HOUR ==> Silent(notified, sentAt, isDelete)
  }

  predicate Silent(notified: Option<Stamp>, sentAt: Instant, isDelete: bool) {
    match HourDiff(sentAt, notified, WRITER_WEST)
    case None => false
    case Some(hours) => Build(Some(2), isDelete, hours).None?
  }

  /** For any two instances of one owner there is a run in which the first climbs to step 2
      unannounced. */
  lemma ClimbCanGoUnannounced(k: Key, l: Key, creator: string)
    requires k != l
    ensures exists states: seq<State>, actions: seq<Action>, s: State, notified: Option<Stamp>, current: Stamp ::
              && Reaches(states, actions, s) && Unannounced(s, k, creator, notified, current)
  {
    hide HourDiff, Format, Calm, DueAt, Step, Threshold, Entries, Reaches, FloorMinute, Invoke, Build, EndsWith;
    var t, u, v := 120 * HOUR, 121 * HOUR, 240 * HOUR;
    FullHours();
    var states, actions, s2, a1, b0 := BothJoined(k, l, creator);
    DueAfter(a1, t, u);
    ThresholdMeaning(u, t, WRITER_WEST, 120);
    SecondIsNotified(s2.w, a1, b0, u, 0);
    states, actions := PairExtends(states, actions, s2, a1, b0, u, 0);
    var s3, b1 := s2.(w := Invoke(s2.w, [a1, b0], Calm(u, u, 0)).0, clock := u), Climbed(b0, 1, u);
    FirstClimbs(s3.w, a1, b1, t, u, v, 0);
    states, actions := PairExtends(states, actions, s3, a1, b1, v, 0);
    var s4 := s3.(w := Invoke(s3.w, [a1, b1], Calm(v, v, 0)).0, clock := v);
    forall sentAt, isDelete | v <= sentAt < v + HOUR
      ensures Silent(b1.notified, sentAt, isDelete)
    {
      NoMessageYet(u, sentAt, isDelete);
    }
    assert Unannounced(s4, k, creator, b1.notified, Format(v));
  }

  /** The first instance notified once, the second just stored. */
  lemma BothJoined(k: Key, l: Key, creator: string)
    returns (states: seq<State>, actions: seq<Action>, s: State, a: Record, b: Record)
    requires k != l
    ensures Reaches(states, actions, s) && s.w.table == map[k := a, l := b] && s.clock == 120 * HOUR && s.job.Off?
    ensures a.key == k && a.createdBy == creator && a.step == 1 && a.notified == Some(Format(120 * HOUR))
    ensures b.key == l && b.createdBy == creator && b.step == 0 && b.notified == None
  {
    hide HourDiff, Format, Calm, DueAt, Step, Threshold, Entries, Reaches, FloorMinute;
    var t := 120 * HOUR;
    states, actions := StartRun();
    var a0, s0 := Newcomer(k, creator), State(World(map[], []), 0, [], Off);
    states, actions := JoinSteps(states, actions, s0, k, creator);
    FirstIsDue(a0, t);
    states, actions := CalmExtends(states, actions, Joined(s0, k, creator), a0, t, t, 0);
    var s1 := After(Joined(s0, k, creator), a0, t, t, 0);
    states, actions := JoinSteps(states, actions, s1, l, creator);
    s, a, b := Joined(s1, l, creator), Climbed(a0, 1, t), Newcomer(l, creator);
  }
}

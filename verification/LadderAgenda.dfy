/**
 What an invocation does, effect by effect, and when it raises, written from the answers
 it meets. The looks of the scan and the visits and sends of the ladder form one agenda;
 it is carried out in order up to the first stop that raises, and nothing after it.
 */
module LadderAgenda {
  import opened Common
  import opened Clock
  import opened Ladder
  import opened LadderGroups
  import opened LadderLog
  import opened LadderPlan

  // ----- one look

  predicate Stopped(r: Record, env: Env) {
    var d := env.look(r.key).describe;
    d.Found? && d.state == Some("stopped")
  }

  predicate StoppedLong(r: Record, env: Env) {
    var d := env.look(r.key).describe;
    Stopped(r, env) && d.stoppedSince.Some? && env.look(r.key).now - d.stoppedSince.value >= 120 * HOUR
  }

  predicate Bypassed(r: Record, env: Env) {
    env.look(r.key).describe.Found? && env.bypass in env.look(r.key).describe.tagKeys
  }

  /** The record goes on to the ladder. */
  predicate StaysOld(r: Record, env: Env) {
    StoppedLong(r, env) && !Bypassed(r, env)
  }

  /** The record ends the scan: its instance is idle but tagged for bypass, or the error code
      of the call happens to read the same. */
  predicate EndsScan(r: Record, env: Env) {
    (StoppedLong(r, env) && Bypassed(r, env)) || env.look(r.key).describe == ErrorCode("SKIP")
  }

  /** The instance cannot be judged: the call raised, or the stopped time cannot be read. */
  predicate Unjudged(r: Record, env: Env) {
    var d := env.look(r.key).describe;
    d.CallRaised? || (Stopped(r, env) && d.stoppedSince.None?)
  }

  predicate LookRaises(r: Record, env: Env) {
    var look := env.look(r.key);
    || Unjudged(r, env)
    || (!StaysOld(r, env) && (look.untag == Raised || (!EndsScan(r, env) && look.send == Raised)))
  }

  function LookEvents(r: Record, env: Env): seq<Event> {
    var look := env.look(r.key);
    if Unjudged(r, env) then []
    else if StaysOld(r, env) then [Checked(r.key, look.now, look.describe.stoppedSince.value)]
    else if look.untag == Raised then []
    else (if look.untag == Done then [Untagged(r.key)] else []) + if look.drop then [Removed(r.key)] else []
  }

  // ----- one visit

  /** At least `k` whole hours since the notification stored in the record. */
  predicate Elapsed(r: Record, env: Env, k: int) {
    match HourDiff(env.visit(r.key).now, r.notified, env.west)
    case None => false
    case Some(hours) => hours >= k
  }

  predicate NoTime(r: Record, env: Env) {
    HourDiff(env.visit(r.key).now, r.notified, env.west) == Some(0)
  }

  predicate Unreadable(r: Record, env: Env) {
    r.notified.Some? && Parse(r.notified.value, env.west).None?
  }

  predicate VisitRaises(r: Record, env: Env) {
    var v := env.visit(r.key);
    || Unreadable(r, env)
    || (r.step == 1 && Elapsed(r, env, 120) && v.tag == Raised)
    || (r.step == 3 && Elapsed(r, env, 24) && (v.image != Done || v.terminate == Raised))
  }

  function VisitEvents(r: Record, env: Env): seq<Event> {
    var k, v := r.key, env.visit(r.key);
    var stampedAt := env.batch(r.createdBy, r.step + 1).now;
    if r.step == 0 && NoTime(r, env) then
      if v.put then [Advanced(k, 1, stampedAt, v.now)] else []
    else if r.step == 1 && Elapsed(r, env, 120) && v.tag != Raised then
      (if v.tag == Done then [Tagged(k)] else []) + if v.put then [Advanced(k, 2, stampedAt, v.now)] else []
    else if r.step == 2 && Elapsed(r, env, 312) then
      if v.put then [Advanced(k, 3, stampedAt, v.now)] else []
    else if r.step == 3 && Elapsed(r, env, 24) && v.image == Done then
      [Imaged(k)] + (if v.terminate == Done then [Terminated(k, v.now)] else [])
      + if v.terminate != Raised && v.drop then [Removed(k)] else []
    else []
  }

  // ----- the agenda

  datatype Stop = LookAt(r: Record) | VisitAt(r: Record) | Announce(creator: string, step: int, notified: Option<Stamp>)

  predicate Raises(stop: Stop, env: Env) {
    match stop
    case LookAt(r) => LookRaises(r, env)
    case VisitAt(r) => VisitRaises(r, env)
    case Announce(creator, step, _) => env.batch(creator, step).send == Raised
  }

  function EventsAt(stop: Stop, env: Env): seq<Event> {
    match stop
    case LookAt(r) => LookEvents(r, env)
    case VisitAt(r) => VisitEvents(r, env)
    case Announce(creator, step, notified) =>
      if env.batch(creator, step).send == Raised then []
      else [Sent(creator, step, notified, Format(env.batch(creator, step).now))]
  }

  predicate AnyRaises(stops: seq<Stop>, env: Env) {
    exists i :: 0 <= i < |stops| && Raises(stops[i], env)
  }

  /** The effects of the stops up to and with the first that raises. */
  function Performed(stops: seq<Stop>, env: Env): seq<Event> {
    if stops == [] then []
    else EventsAt(stops[0], env) + if Raises(stops[0], env) then [] else Performed(stops[1..], env)
  }

  /** The records looked at: up to and with the first that ends the scan. */
  function LookStops(items: seq<Record>, env: Env): seq<Stop> {
    if items == [] then []
    else [LookAt(items[0])] + if EndsScan(items[0], env) then [] else LookStops(items[1..], env)
  }

  function Visits(members: seq<Record>): seq<Stop> {
    if members == [] then [] else [VisitAt(members[0])] + Visits(members[1..])
  }

  function GroupStops(creator: string, g: StepGroup): seq<Stop> {
    Visits(g.members)
    + if g.members == [] then [] else [Announce(creator, g.step, g.members[|g.members| - 1].notified)]
  }

  function StepStops(creator: string, steps: seq<StepGroup>): seq<Stop> {
    if steps == [] then [] else GroupStops(creator, steps[0]) + StepStops(creator, steps[1..])
  }

  function LadderStops(groups: seq<Group>): seq<Stop> {
    if groups == [] then [] else StepStops(groups[0].creator, groups[0].steps) + LadderStops(groups[1..])
  }

  function Agenda(w: World, items: seq<Record>, env: Env): seq<Stop> {
    LookStops(items, env) + LadderStops(Scanned(w, items, env).groups)
  }

  lemma {:induction false} PerformedConcat(a: seq<Stop>, b: seq<Stop>, env: Env)
    ensures Performed(a + b, env) == Performed(a, env) + if AnyRaises(a, env) then [] else Performed(b, env)
    ensures AnyRaises(a + b, env) <==> AnyRaises(a, env) || AnyRaises(b, env)
  {
    hide Raises, EventsAt;
    AnyRaisesConcat(a, b, env);
    if a == [] {
      assert a + b == b;
    } else {
      assert (a + b)[0] == a[0] && (a + b)[1..] == a[1..] + b;
      PerformedConcat(a[1..], b, env);
      AnyRaisesFirst(a, env);
    }
  }

  lemma AnyRaisesFirst(a: seq<Stop>, env: Env)
    requires a != []
    ensures AnyRaises(a, env) <==> Raises(a[0], env) || AnyRaises(a[1..], env)
  {
    hide Raises;
    if i :| 0 <= i < |a| && Raises(a[i], env) && i > 0 {
      assert Raises(a[1..][i - 1], env);
    }
    if i :| 0 <= i < |a[1..]| && Raises(a[1..][i], env) {
      assert Raises(a[i + 1], env);
    }
  }

  lemma AnyRaisesConcat(a: seq<Stop>, b: seq<Stop>, env: Env)
    ensures AnyRaises(a + b, env) <==> AnyRaises(a, env) || AnyRaises(b, env)
  {
    hide Raises;
    if i :| 0 <= i < |a| && Raises(a[i], env) {
      assert Raises((a + b)[i], env);
    }
    if i :| 0 <= i < |b| && Raises(b[i], env) {
      assert Raises((a + b)[|a| + i], env);
    }
    if i :| 0 <= i < |a + b| && Raises((a + b)[i], env) {
      assert i < |a| ==> Raises(a[i], env);
      assert i >= |a| ==> Raises(b[i - |a|], env);
    }
  }

  // ----- each stop

  lemma JudgeMeans(r: Record, env: Env)
    ensures var verdict := Judge(env.look(r.key).now, env.look(r.key).describe, env.bypass);
            && (verdict == Crash <==> Unjudged(r, env))
            && (verdict.Old? <==> StaysOld(r, env))
            && (verdict.Old? ==> verdict.since == env.look(r.key).describe.stoppedSince.value)
            && (verdict == NotOld("SKIP") <==> EndsScan(r, env))
            && (verdict == NotOld("SKIP") <==> Skips(r, env)) && (verdict.Old? <==> IsOld(r, env))
  {
    var d := env.look(r.key).describe;
    if d.Found? && d.stoppedSince.Some? {
      WholeHoursAtLeast(env.look(r.key).now - d.stoppedSince.value, 120);
    }
    CodesDiffer();
  }

  lemma CodesDiffer()
    ensures "INUSE" != "SKIP" && "InvalidInstanceID.NotFound" != "SKIP"
  {
    assert "INUSE"[0] != "SKIP"[0] && "InvalidInstanceID.NotFound"[0] != "SKIP"[0];
  }

  lemma LookPerforms(s: ScanState, r: Record, env: Env)
    requires s.flow == Going
    ensures var t := ScanOne(s, r, env);
            && t.w.log == s.w.log + LookEvents(r, env)
            && (t.flow == Crashed <==> LookRaises(r, env))
            && (t.flow == Going <==> !LookRaises(r, env) && !EndsScan(r, env))
  {
    hide AddToGroups, Unjudged, StaysOld, EndsScan, Judge, Skips, IsOld;
    JudgeMeans(r, env);
  }

  lemma {:induction false} ScanPerforms(s: ScanState, items: seq<Record>, env: Env)
    requires s.flow == Going
    ensures var t := Scan(s, items, env);
            && t.w.log == s.w.log + Performed(LookStops(items, env), env)
            && (t.flow == Crashed <==> AnyRaises(LookStops(items, env), env))
    decreases items
  {
    hide ScanOne, LookEvents, LookRaises, EndsScan, Skips, AnyRaises;
    NothingRaises(env);
    if items != [] {
      var s1 := ScanOne(s, items[0], env);
      var rest := if EndsScan(items[0], env) then [] else LookStops(items[1..], env);
      LookPerforms(s, items[0], env);
      PerformedConcat([LookAt(items[0])], rest, env);
      AnyRaisesFirst([LookAt(items[0])], env);
      assert [LookAt(items[0])][1..] == [];
      assert Performed([LookAt(items[0])], env) == LookEvents(items[0], env);
      if s1.flow == Going {
        ScanPerforms(s1, items[1..], env);
      } else {
        assert Scan(s, items, env) == s1;
      }
    }
  }

  lemma NothingRaises(env: Env)
    ensures !AnyRaises([], env) && Performed([], env) == []
  {
  }

  /** The ladder is climbed from each step by the rules of that step. */
  lemma VisitPerforms(w: World, r: Record, env: Env)
    ensures var (w1, crashed) := VisitOne(w, r, r.step + 1, env.batch(r.createdBy, r.step + 1).now, env);
            w1.log == w.log + VisitEvents(r, env) && (crashed <==> VisitRaises(r, env))
  {
    hide Format, Parse;
  }

  lemma {:induction false} MembersPerform(w: World, members: seq<Record>, creator: string, step: int, env: Env)
    requires FiledMembers(creator, step, members)
    ensures var (w1, crashed) := VisitMembers(w, members, step, env.batch(creator, step).now, env);
            w1.log == w.log + Performed(Visits(members), env) && (crashed <==> AnyRaises(Visits(members), env))
    decreases members
  {
    hide VisitOne, VisitEvents, VisitRaises, AnyRaises, Performed;
    NothingRaises(env);
    if members != [] {
      var r, at := members[0], env.batch(creator, step).now;
      VisitPerforms(w, r, env);
      OneVisit(r, env);
      PerformedConcat([VisitAt(r)], Visits(members[1..]), env);
      var (w1, crashed) := VisitOne(w, r, step, at, env);
      if !crashed {
        MembersPerform(w1, members[1..], creator, step, env);
        LogsAppend(w.log, VisitEvents(r, env), Performed(Visits(members[1..]), env));
      } else {
        LogsAppend(w.log, VisitEvents(r, env), []);
      }
    }
  }

  lemma OneVisit(r: Record, env: Env)
    ensures Performed([VisitAt(r)], env) == VisitEvents(r, env)
    ensures AnyRaises([VisitAt(r)], env) <==> VisitRaises(r, env)
  {
    hide VisitEvents, VisitRaises;
    assert [VisitAt(r)][1..] == [];
    AnyRaisesFirst([VisitAt(r)], env);
    NothingRaises(env);
  }

  lemma GroupPerforms(w: World, creator: string, g: StepGroup, env: Env)
    requires FiledMembers(creator, g.step, g.members)
    ensures var (w1, crashed) := VisitGroup(w, creator, g, env);
            && w1.log == w.log + Performed(GroupStops(creator, g), env)
            && (crashed <==> AnyRaises(GroupStops(creator, g), env))
  {
    hide VisitMembers, AnyRaises, Format, Performed, Visits;
    MembersPerform(w, g.members, creator, g.step, env);
    NothingRaises(env);
    var visits := Performed(Visits(g.members), env);
    if g.members != [] {
      var last := Announce(creator, g.step, g.members[|g.members| - 1].notified);
      PerformedConcat(Visits(g.members), [last], env);
      OneAnnounce(last, env);
      LogsAppend(w.log, visits, EventsAt(last, env));
    } else {
      NoVisits(w, g.step, env.batch(creator, g.step).now, env);
      assert GroupStops(creator, g) == [];
    }
    LogsAppend(w.log, visits, []);
  }

  lemma NoVisits(w: World, step: int, at: Instant, env: Env)
    ensures Visits([]) == [] && VisitMembers(w, [], step, at, env) == (w, false)
  {
  }

  lemma OneAnnounce(last: Stop, env: Env)
    ensures Performed([last], env) == EventsAt(last, env)
    ensures AnyRaises([last], env) <==> Raises(last, env)
  {
    hide EventsAt, Raises;
    assert [last][1..] == [];
    AnyRaisesFirst([last], env);
    NothingRaises(env);
  }

  lemma LogsAppend(log: seq<Event>, a: seq<Event>, b: seq<Event>)
    ensures (log + a) + b == log + (a + b) && a + [] == a
  {
  }

  lemma {:induction false} StepsPerform(w: World, creator: string, steps: seq<StepGroup>, env: Env)
    requires FiledSteps(creator, steps)
    ensures var (w1, crashed) := VisitSteps(w, creator, steps, env);
            && w1.log == w.log + Performed(StepStops(creator, steps), env)
            && (crashed <==> AnyRaises(StepStops(creator, steps), env))
    decreases steps
  {
    hide VisitGroup, AnyRaises, GroupStops, FiledMembers, Performed;
    NothingRaises(env);
    if steps != [] {
      GroupPerforms(w, creator, steps[0], env);
      PerformedConcat(GroupStops(creator, steps[0]), StepStops(creator, steps[1..]), env);
      var (w1, crashed) := VisitGroup(w, creator, steps[0], env);
      if !crashed {
        StepsPerform(w1, creator, steps[1..], env);
        LogsAppend(w.log, Performed(GroupStops(creator, steps[0]), env),
                   Performed(StepStops(creator, steps[1..]), env));
      } else {
        LogsAppend(w.log, Performed(GroupStops(creator, steps[0]), env), []);
      }
    }
  }

  lemma {:induction false} GroupsPerform(w: World, groups: seq<Group>, env: Env)
    requires Filed(groups)
    ensures var (w1, crashed) := VisitGroups(w, groups, env);
            && w1.log == w.log + Performed(LadderStops(groups), env)
            && (crashed <==> AnyRaises(LadderStops(groups), env))
    decreases groups
  {
    hide VisitSteps, AnyRaises, StepStops, FiledSteps, Performed;
    NothingRaises(env);
    if groups != [] {
      var g := groups[0];
      StepsPerform(w, g.creator, g.steps, env);
      PerformedConcat(StepStops(g.creator, g.steps), LadderStops(groups[1..]), env);
      var (w1, crashed) := VisitSteps(w, g.creator, g.steps, env);
      if !crashed {
        GroupsPerform(w1, groups[1..], env);
        LogsAppend(w.log, Performed(StepStops(g.creator, g.steps), env), Performed(LadderStops(groups[1..]), env));
      } else {
        LogsAppend(w.log, Performed(StepStops(g.creator, g.steps), env), []);
      }
    }
  }

  /** The whole invocation: its effects are those of the agenda up to and with the first
      stop that raises, and it raises exactly if there is one. */
  lemma InvocationPerformsItsAgenda(w: World, items: seq<Record>, env: Env)
    ensures var (w1, crashed) := Invoke(w, items, env);
            && w1.log == w.log + [Started] + Performed(Agenda(w, items, env), env)
            && (crashed <==> AnyRaises(Agenda(w, items, env), env))
  {
    hide Scan, VisitGroups, AnyRaises, LookStops, LadderStops, Performed;
    ScanPerforms(ScanState(Say(w, Started), [], Going), items, env);
    var s := Scanned(w, items, env);
    PerformedConcat(LookStops(items, env), LadderStops(s.groups), env);
    if s.flow != Crashed {
      ScannedFiled(w, items, env);
      GroupsPerform(s.w, s.groups, env);
    }
  }

  /** Nothing of a later stop is done once a stop has raised. */
  lemma {:induction false} FirstRaiseEndsIt(stops: seq<Stop>, i: nat, env: Env)
    requires i < |stops| && Raises(stops[i], env)
    ensures Performed(stops, env) == Performed(stops[..i + 1], env)
    ensures forall e :: e in Performed(stops, env) ==> exists j :: 0 <= j <= i && e in EventsAt(stops[j], env)
  {
    hide Raises, EventsAt;
    if Raises(stops[0], env) {
      assert stops[..i + 1][0] == stops[0];
      assert Performed(stops, env) == EventsAt(stops[0], env);
    } else {
      FirstRaiseEndsIt(stops[1..], i - 1, env);
      assert stops[..i + 1][0] == stops[0] && stops[..i + 1][1..] == stops[1..][..i];
      forall e | e in Performed(stops, env) ensures exists j :: 0 <= j <= i && e in EventsAt(stops[j], env) {
        if e !in EventsAt(stops[0], env) {
          var j :| 0 <= j <= i - 1 && e in EventsAt(stops[1..][j], env);
          assert e in EventsAt(stops[j + 1], env);
        }
      }
    }
  }

  // ----- when an invocation raises

  predicate InScan(items: seq<Record>, i: nat, env: Env) {
    i < |items| && forall j :: 0 <= j < i ==> !EndsScan(items[j], env)
  }

  /** On the ladder, the visit of the record or the message of its group raises. */
  predicate ClimbRaises(r: Record, env: Env) {
    VisitRaises(r, env) || env.batch(r.createdBy, r.step + 1).send == Raised
  }

  /** The record meets a raising answer. */
  predicate MeetsRaise(r: Record, env: Env) {
    LookRaises(r, env) || (StaysOld(r, env) && ClimbRaises(r, env))
  }

  /** `r` is scanned before the first record that ends the scan. */
  ghost predicate Met(items: seq<Record>, r: Record, env: Env) {
    exists i: nat :: InScan(items, i, env) && items[i] == r
  }

  lemma {:induction false} LooksRaiseIff(items: seq<Record>, env: Env)
    ensures AnyRaises(LookStops(items, env), env) <==> exists r :: Met(items, r, env) && LookRaises(r, env)
  {
    hide LookRaises, EndsScan, AnyRaises, Met;
    NothingRaises(env);
    forall r ensures !Met([], r, env) {
      NobodyIsMet(r, env);
    }
    if items != [] {
      LooksRaiseIff(items[1..], env);
      AnyRaisesFirst(LookStops(items, env), env);
      forall r ensures Met(items, r, env) <==> r == items[0] || (!EndsScan(items[0], env) && Met(items[1..], r, env)) {
        MetTail(items, r, env);
      }
      assert LookStops(items, env)[1..] == if EndsScan(items[0], env) then [] else LookStops(items[1..], env);
    }
  }

  lemma NobodyIsMet(r: Record, env: Env)
    ensures !Met([], r, env)
  {
  }

  lemma MetTail(items: seq<Record>, r: Record, env: Env)
    requires items != []
    ensures Met(items, r, env) <==> r == items[0] || (!EndsScan(items[0], env) && Met(items[1..], r, env))
  {
    hide EndsScan;
    assert InScan(items, 0, env);
    if i: nat :| InScan(items[1..], i, env) && items[1..][i] == r && !EndsScan(items[0], env) {
      InScanTail(items, i + 1, env);
      assert InScan(items, i + 1, env) && items[i + 1] == r;
    }
    if i: nat :| InScan(items, i, env) && items[i] == r && i > 0 {
      InScanTail(items, i, env);
      assert InScan(items[1..], i - 1, env) && items[1..][i - 1] == r;
    }
  }

  lemma InScanTail(items: seq<Record>, i: nat, env: Env)
    requires 0 < i < |items|
    ensures InScan(items, i, env) <==> !EndsScan(items[0], env) && InScan(items[1..], i - 1, env)
  {
    hide EndsScan;
    if !EndsScan(items[0], env) && InScan(items[1..], i - 1, env) {
      forall j | 0 <= j < i ensures !EndsScan(items[j], env) {
        assert j > 0 ==> items[1..][j - 1] == items[j];
      }
    }
    if InScan(items, i, env) {
      assert forall j :: 0 <= j < i - 1 ==> items[1..][j] == items[j + 1];
    }
  }

  lemma {:induction false} OldsAre(items: seq<Record>, env: Env, r: Record)
    ensures r in Olds(items, env) <==> Met(items, r, env) && StaysOld(r, env)
  {
    hide EndsScan, StaysOld, Skips, IsOld, Judge, Unjudged, Met;
    if items == [] {
      NobodyIsMet(r, env);
    } else {
      JudgeMeans(items[0], env);
      OldsAre(items[1..], env, r);
      MetTail(items, r, env);
      if StaysOld(items[0], env) {
        OldDoesNotEnd(items[0], env);
      }
    }
  }

  lemma OldDoesNotEnd(r: Record, env: Env)
    requires StaysOld(r, env)
    ensures !EndsScan(r, env)
  {
  }

  lemma {:induction false} VisitsRaiseIff(members: seq<Record>, env: Env)
    ensures AnyRaises(Visits(members), env) <==> exists r :: r in members && VisitRaises(r, env)
  {
    hide VisitRaises, AnyRaises;
    NothingRaises(env);
    if members != [] {
      VisitsRaiseIff(members[1..], env);
      AnyRaisesFirst(Visits(members), env);
      assert Visits(members)[1..] == Visits(members[1..]);
      assert members == [members[0]] + members[1..];
    }
  }

  lemma GroupRaisesIff(creator: string, g: StepGroup, env: Env)
    requires FiledMembers(creator, g.step, g.members)
    ensures AnyRaises(GroupStops(creator, g), env) <==> exists r :: r in g.members && ClimbRaises(r, env)
  {
    hide VisitRaises, AnyRaises;
    VisitsRaiseIff(g.members, env);
    NothingRaises(env);
    if g.members != [] {
      var last := Announce(creator, g.step, g.members[|g.members| - 1].notified);
      AnyRaisesConcat(Visits(g.members), [last], env);
      AnyRaisesFirst([last], env);
      assert [last][1..] == [] && g.members[0] in g.members;
    } else {
      AnyRaisesConcat([], [], env);
    }
  }

  lemma {:induction false} StepsRaiseIff(creator: string, steps: seq<StepGroup>, env: Env)
    requires FiledSteps(creator, steps)
    ensures AnyRaises(StepStops(creator, steps), env) <==> exists r :: r in FlatSteps(steps) && ClimbRaises(r, env)
  {
    hide ClimbRaises, AnyRaises, GroupStops, FiledMembers;
    NothingRaises(env);
    if steps != [] {
      GroupRaisesIff(creator, steps[0], env);
      StepsRaiseIff(creator, steps[1..], env);
      AnyRaisesConcat(GroupStops(creator, steps[0]), StepStops(creator, steps[1..]), env);
    }
  }

  lemma {:induction false} LadderRaisesIff(groups: seq<Group>, env: Env)
    requires Filed(groups)
    ensures AnyRaises(LadderStops(groups), env) <==> exists r :: r in Flat(groups) && ClimbRaises(r, env)
  {
    hide ClimbRaises, AnyRaises, StepStops, FiledSteps, FlatSteps;
    NothingRaises(env);
    if groups != [] {
      var g := groups[0];
      StepsRaiseIff(g.creator, g.steps, env);
      LadderRaisesIff(groups[1..], env);
      AnyRaisesConcat(StepStops(g.creator, g.steps), LadderStops(groups[1..]), env);
    }
  }

  lemma {:induction false} GroupedAreOld(s: ScanState, items: seq<Record>, env: Env, r: Record)
    requires s.flow == Going && Scan(s, items, env).flow != Crashed
    ensures r in Flat(Scan(s, items, env).groups) <==> r in Flat(s.groups) || r in Olds(items, env)
    decreases items
  {
    hide Flat, AddToGroups, LookEvents, LookRaises;
    if items != [] {
      JudgeMeans(items[0], env);
      FlatAdd(s.groups, items[0]);
      if ScanOne(s, items[0], env).flow == Going {
        GroupedAreOld(ScanOne(s, items[0], env), items[1..], env, r);
      }
    }
  }

  /** An invocation raises if and only if a record of the scan, before the first that ends it,
      cannot be judged, or its tag removal or message raises, or it is old and its stored time
      cannot be read, or its due tag or termination raises, or its due image is not made, or
      its group's message raises. */
  lemma InvocationRaisesIff(w: World, items: seq<Record>, env: Env)
    ensures Invoke(w, items, env).1 <==> exists r :: Met(items, r, env) && MeetsRaise(r, env)
  {
    hide LookRaises, ClimbRaises, StaysOld, Scan, LadderStops, LookStops, Olds, Flat, Performed, Invoke, InScan;
    hide AnyRaises, Filed;
    InvocationPerformsItsAgenda(w, items, env);
    var s0, s := ScanState(Say(w, Started), [], Going), Scanned(w, items, env);
    ScanPerforms(s0, items, env);
    LooksRaiseIff(items, env);
    AnyRaisesConcat(LookStops(items, env), LadderStops(s.groups), env);
    if s.flow != Crashed {
      ScannedFiled(w, items, env);
      LadderRaisesIff(s.groups, env);
      forall r ensures r in Flat(s.groups) <==> Met(items, r, env) && StaysOld(r, env) {
        NobodyWaits();
        GroupedAreOld(s0, items, env, r);
        OldsAre(items, env, r);
      }
    }
  }

  // ----- in which order the groups come

  function FirstSeen<T(==)>(xs: seq<T>): seq<T> {
    if xs == [] then [] else Seen(FirstSeen(xs[..|xs| - 1]), xs[|xs| - 1])
  }

  function Seen<T(==)>(xs: seq<T>, x: T): seq<T> {
    if x in xs then xs else xs + [x]
  }

  /** The groups are in the order in which these records were met. */
  ghost predicate Ordered(groups: seq<Group>, rs: seq<Record>, creator: string) {
    && Creators(groups) == FirstSeen(Owners(rs))
    && StepsFor(groups, creator) == FirstSeen(NextSteps(rs, creator))
  }

  function Owners(rs: seq<Record>): seq<string> {
    if rs == [] then [] else Owners(rs[..|rs| - 1]) + [rs[|rs| - 1].createdBy]
  }

  function NextSteps(rs: seq<Record>, creator: string): seq<int> {
    if rs == [] then []
    else
      var last := rs[|rs| - 1];
      NextSteps(rs[..|rs| - 1], creator) + if last.createdBy == creator then [last.step + 1] else []
  }

  function Creators(groups: seq<Group>): seq<string> {
    if groups == [] then [] else [groups[0].creator] + Creators(groups[1..])
  }

  function Numbers(steps: seq<StepGroup>): seq<int> {
    if steps == [] then [] else [steps[0].step] + Numbers(steps[1..])
  }

  function StepsFor(groups: seq<Group>, creator: string): seq<int> {
    if groups == [] then []
    else if groups[0].creator == creator then Numbers(groups[0].steps)
    else StepsFor(groups[1..], creator)
  }

  lemma {:induction false} NumbersGrow(steps: seq<StepGroup>, step: int, r: Record)
    ensures Numbers(AddToSteps(steps, step, r)) == Seen(Numbers(steps), step)
  {
    var t := AddToSteps(steps, step, r);
    if steps == [] {
      assert t[1..] == [];
    } else if steps[0].step == step {
      assert t[1..] == steps[1..];
    } else {
      NumbersGrow(steps[1..], step, r);
      assert t[1..] == AddToSteps(steps[1..], step, r);
    }
  }

  lemma {:induction false} GroupOrderGrows(groups: seq<Group>, r: Record, creator: string)
    ensures Creators(AddToGroups(groups, r)) == Seen(Creators(groups), r.createdBy)
    ensures StepsFor(AddToGroups(groups, r), creator) ==
            if creator == r.createdBy then Seen(StepsFor(groups, creator), r.step + 1) else StepsFor(groups, creator)
  {
    var t := AddToGroups(groups, r);
    if groups == [] {
      NumbersGrow([], r.step + 1, r);
      assert t[1..] == [];
    } else if groups[0].creator == r.createdBy {
      NumbersGrow(groups[0].steps, r.step + 1, r);
      assert t[1..] == groups[1..];
    } else {
      GroupOrderGrows(groups[1..], r, creator);
      assert t[1..] == AddToGroups(groups[1..], r);
    }
  }

  lemma OrderMore(rs: seq<Record>, r: Record, creator: string)
    ensures FirstSeen(Owners(rs + [r])) == Seen(FirstSeen(Owners(rs)), r.createdBy)
    ensures FirstSeen(NextSteps(rs + [r], creator)) ==
            if creator == r.createdBy then Seen(FirstSeen(NextSteps(rs, creator)), r.step + 1)
            else FirstSeen(NextSteps(rs, creator))
  {
    assert (rs + [r])[..|rs|] == rs;
    var owners, steps := Owners(rs), NextSteps(rs, creator);
    assert (owners + [r.createdBy])[..|owners|] == owners;
    assert (steps + [r.step + 1])[..|steps|] == steps && steps + [] == steps;
  }

  lemma {:induction false} ScanKeepsOrder(s: ScanState, items: seq<Record>, env: Env, done: seq<Record>,
                                          creator: string)
    requires s.flow == Going && Scan(s, items, env).flow != Crashed && Ordered(s.groups, done, creator)
    ensures Ordered(Scan(s, items, env).groups, done + Olds(items, env), creator)
    decreases items
  {
    hide Creators, StepsFor, FirstSeen, Owners, NextSteps, Seen, AddToGroups, LookEvents, LookRaises;
    assert done + [] == done;
    if items != [] {
      JudgeMeans(items[0], env);
      GroupOrderGrows(s.groups, items[0], creator);
      OrderMore(done, items[0], creator);
      var s1 := ScanOne(s, items[0], env);
      if s1.flow == Going {
        var done1 := if IsOld(items[0], env) then done + [items[0]] else done;
        ScanKeepsOrder(s1, items[1..], env, done1, creator);
        assert done1 + Olds(items[1..], env) == done + Olds(items, env);
      }
    }
  }

  /** Owners come in the order in which the scan first meets an old record of theirs, and the
      steps of an owner in the order in which it first meets them. */
  lemma GroupsInOrder(w: World, items: seq<Record>, env: Env, creator: string)
    requires Scanned(w, items, env).flow != Crashed
    ensures Ordered(Scanned(w, items, env).groups, Olds(items, env), creator)
  {
    hide Olds, Scan;
    assert [] + Olds(items, env) == Olds(items, env);
    ScanKeepsOrder(ScanState(Say(w, Started), [], Going), items, env, [], creator);
  }
}

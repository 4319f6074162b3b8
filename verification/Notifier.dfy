/**
 The guards of the detector's `Messenger`: `send_email` and the three chat senders
 recompute `hour_diff` from the notification time they are given, at a later
 moment, and build a message only if the step's threshold still holds.
 */
module Notifier {
  import opened Common
  import opened Clock
  import opened Ladder
  import opened LadderGroups
  import opened LadderLog
  import opened LadderSafety

  datatype Message = InitialMessage | PendingDeletion | FinalReminder | TerminatedNotice | InUse | Gone

  /** The branch chain, the same in all four senders. No message is built when no
      branch applies. */
  function Build(step: Option<int>, isDelete: bool, hourDiff: int): Option<Message> {
    if step == Some(1) && hourDiff == 0 then Some(InitialMessage)
    else if step == Some(2) && hourDiff >= 120 then Some(PendingDeletion)
    else if step == Some(3) && hourDiff >= 312 then Some(FinalReminder)
    else if step == Some(4) && hourDiff >= 24 then Some(TerminatedNotice)
    else if step.None? then Some(if isDelete then Gone else InUse)
    else None
  }

  /** The branch chain of a sender. */
  method BuildMessage(step: Option<int>, isDelete: bool, hourDiff: int) returns (message: Option<Message>)
    ensures message == Build(step, isDelete, hourDiff)
    ensures message == Some(InitialMessage) <==> step == Some(1) && hourDiff == 0
    ensures message == Some(PendingDeletion) <==> step == Some(2) && hourDiff >= 120
    ensures message == Some(FinalReminder) <==> step == Some(3) && hourDiff >= 312
    ensures message == Some(TerminatedNotice) <==> step == Some(4) && hourDiff >= 24
    ensures message == Some(Gone) <==> step == None && isDelete
    ensures message == Some(InUse) <==> step == None && !isDelete
  {
    message := None;
    if step == Some(1) && hourDiff == 0 {
      message := Some(InitialMessage);
    } else if step == Some(2) && hourDiff >= 120 {
      message := Some(PendingDeletion);
    } else if step == Some(3) && hourDiff >= 312 {
      message := Some(FinalReminder);
    } else if step == Some(4) && hourDiff >= 24 {
      message := Some(TerminatedNotice);
    } else if step.None? {
      message := Some(if isDelete then Gone else InUse);
    }
  }

  function StepMessage(step: int): Message
    requires 1 <= step <= 4
  {
    [InitialMessage, PendingDeletion, FinalReminder, TerminatedNotice][step - 1]
  }

  lemma HoursOnlyGrow(earlier: Instant, later: Instant, s: Stamp, west: int)
    requires earlier <= later && Parse(s, west).Some?
    ensures HourDiff(earlier, Some(s), west).value <= HourDiff(later, Some(s), west).value
  {
    var t := Parse(s, west).value;
    var a, b := earlier - t, later - t;
    if b >= 0 {
      assert WholeHours(a) <= a / HOUR + 1 && (a >= 0 ==> WholeHours(a) == a / HOUR);
      assert a < 0 ==> WholeHours(a) <= 0 <= WholeHours(b);
    } else {
      assert -b <= -a;
    }
  }

  // ----- the messages of one invocation

  function Sents(log: seq<Event>): seq<Event> {
    if log == [] then []
    else Sents(log[..|log| - 1]) + (if log[|log| - 1].Sent? then [log[|log| - 1]] else [])
  }

  /** What is sent for a group: the notification time is its last member's. */
  function Notes(creator: string, g: StepGroup, env: Env): seq<Event> {
    if g.members == [] then []
    else [Sent(creator, g.step, g.members[|g.members| - 1].notified, Format(env.batch(creator, g.step).now))]
  }

  function StepNotes(creator: string, steps: seq<StepGroup>, env: Env): seq<Event> {
    if steps == [] then [] else Notes(creator, steps[0], env) + StepNotes(creator, steps[1..], env)
  }

  function GroupNotes(groups: seq<Group>, env: Env): seq<Event> {
    if groups == [] then [] else StepNotes(groups[0].creator, groups[0].steps, env) + GroupNotes(groups[1..], env)
  }

  function NewSents(before: World, after: World): seq<Event> {
    if |Sents(before.log)| <= |Sents(after.log)| then Sents(after.log)[|Sents(before.log)|..] else []
  }

  lemma SentsSay(log: seq<Event>, e: Event)
    ensures Sents(log + [e]) == Sents(log) + if e.Sent? then [e] else []
  {
    assert (log + [e])[..|log|] == log;
  }

  lemma VisitOneIsQuiet(w: World, r: Record, step: int, stampedAt: Instant, env: Env)
    ensures Sents(VisitOne(w, r, step, stampedAt, env).0.log) == Sents(w.log)
  {
    hide Sents, Format, HourDiff, StepReady;
    var v := env.visit(r.key);
    SentsSay(w.log, Tagged(r.key));
    SentsSay(w.log, Imaged(r.key));
    SentsSay(w.log, Advanced(r.key, step, stampedAt, v.now));
    SentsSay(w.log + [Tagged(r.key)], Advanced(r.key, step, stampedAt, v.now));
    SentsSay(w.log + [Imaged(r.key)], Terminated(r.key, v.now));
    SentsSay(w.log + [Imaged(r.key)], Removed(r.key));
    SentsSay(w.log + [Imaged(r.key)] + [Terminated(r.key, v.now)], Removed(r.key));
  }

  lemma {:induction false} VisitMembersIsQuiet(w: World, members: seq<Record>, step: int, stampedAt: Instant, env: Env)
    ensures Sents(VisitMembers(w, members, step, stampedAt, env).0.log) == Sents(w.log)
    decreases members
  {
    hide Sents, VisitOne;
    if members != [] {
      VisitOneIsQuiet(w, members[0], step, stampedAt, env);
      var (w1, crashed) := VisitOne(w, members[0], step, stampedAt, env);
      if !crashed {
        VisitMembersIsQuiet(w1, members[1..], step, stampedAt, env);
      }
    }
  }

  /** Of the messages due, an exception leaves a first part. */
  predicate Announces(before: World, after: World, crashed: bool, notes: seq<Event>) {
    && Sents(before.log) <= Sents(after.log) <= Sents(before.log) + notes
    && (!crashed ==> Sents(after.log) == Sents(before.log) + notes)
  }

  lemma AnnouncesThen(w: World, w0: World, w1: World, crashed: bool, a: seq<Event>, b: seq<Event>)
    requires Announces(w, w0, false, a) && Announces(w0, w1, crashed, b)
    ensures Announces(w, w1, crashed, a + b)
  {
    hide Sents;
    assert Sents(w.log) + (a + b) == (Sents(w.log) + a) + b;
  }

  lemma AnnouncesPart(w: World, w1: World, a: seq<Event>, b: seq<Event>)
    requires Announces(w, w1, true, a)
    ensures Announces(w, w1, true, a + b)
  {
    hide Sents;
    assert Sents(w.log) + (a + b) == (Sents(w.log) + a) + b;
  }

  lemma VisitGroupAnnounces(w: World, creator: string, g: StepGroup, env: Env)
    ensures var (w1, crashed) := VisitGroup(w, creator, g, env);
            Announces(w, w1, crashed, Notes(creator, g, env))
  {
    hide Sents, VisitMembers, Format;
    var batch := env.batch(creator, g.step);
    VisitMembersIsQuiet(w, g.members, g.step, batch.now, env);
    var (w1, crashed) := VisitMembers(w, g.members, g.step, batch.now, env);
    if g.members != [] {
      SentsSay(w1.log, Sent(creator, g.step, g.members[|g.members| - 1].notified, Format(batch.now)));
    } else {
      assert w1 == w && !crashed by { VisitNobody(w, g.step, batch.now, env); }
    }
  }

  lemma VisitNobody(w: World, step: int, stampedAt: Instant, env: Env)
    ensures VisitMembers(w, [], step, stampedAt, env) == (w, false)
  {
  }

  lemma {:induction false} VisitStepsAnnounces(w: World, creator: string, steps: seq<StepGroup>, env: Env)
    ensures var (w1, crashed) := VisitSteps(w, creator, steps, env);
            Announces(w, w1, crashed, StepNotes(creator, steps, env))
    decreases steps
  {
    hide Announces, Notes, VisitGroup;
    if steps == [] {
      assert Announces(w, w, false, []) by { SilenceAnnounces(w); }
    } else {
      VisitGroupAnnounces(w, creator, steps[0], env);
      var (w0, crashed) := VisitGroup(w, creator, steps[0], env);
      if crashed {
        AnnouncesPart(w, w0, Notes(creator, steps[0], env), StepNotes(creator, steps[1..], env));
      } else {
        VisitStepsAnnounces(w0, creator, steps[1..], env);
        var (w1, crashed1) := VisitSteps(w0, creator, steps[1..], env);
        AnnouncesThen(w, w0, w1, crashed1, Notes(creator, steps[0], env), StepNotes(creator, steps[1..], env));
      }
    }
  }

  lemma SilenceAnnounces(w: World)
    ensures Announces(w, w, false, [])
  {
  }

  lemma {:induction false} VisitGroupsAnnounces(w: World, groups: seq<Group>, env: Env)
    ensures var (w1, crashed) := VisitGroups(w, groups, env);
            Announces(w, w1, crashed, GroupNotes(groups, env))
    decreases groups
  {
    hide Announces, StepNotes, VisitSteps;
    if groups == [] {
      assert Announces(w, w, false, []) by { SilenceAnnounces(w); }
    } else {
      var notes := StepNotes(groups[0].creator, groups[0].steps, env);
      VisitStepsAnnounces(w, groups[0].creator, groups[0].steps, env);
      var (w0, crashed) := VisitSteps(w, groups[0].creator, groups[0].steps, env);
      if crashed {
        AnnouncesPart(w, w0, notes, GroupNotes(groups[1..], env));
      } else {
        VisitGroupsAnnounces(w0, groups[1..], env);
        var (w1, crashed1) := VisitGroups(w0, groups[1..], env);
        AnnouncesThen(w, w0, w1, crashed1, notes, GroupNotes(groups[1..], env));
      }
    }
  }

  lemma ScanOneIsQuiet(s: ScanState, r: Record, env: Env)
    ensures Sents(ScanOne(s, r, env).w.log) == Sents(s.w.log)
  {
    hide Sents, AddToGroups;
    var look := env.look(r.key);
    match Judge(look.now, look.describe, env.bypass)
    case Crash =>
    case Old(since) => SentsSay(s.w.log, Checked(r.key, look.now, since));
    case NotOld(_) =>
      SentsSay(s.w.log, Untagged(r.key));
      SentsSay(s.w.log, Removed(r.key));
      SentsSay(s.w.log + [Untagged(r.key)], Removed(r.key));
  }

  lemma {:induction false} ScanIsQuiet(s: ScanState, items: seq<Record>, env: Env)
    ensures Sents(Scan(s, items, env).w.log) == Sents(s.w.log)
    decreases items
  {
    hide Sents, ScanOne;
    if items != [] && s.flow == Going {
      ScanOneIsQuiet(s, items[0], env);
      ScanIsQuiet(ScanOne(s, items[0], env), items[1..], env);
    }
  }

  /** One message per group, in visiting order; an exception leaves a first part. */
  lemma InvocationAnnounces(w: World, items: seq<Record>, env: Env)
    ensures var (w1, crashed) := Invoke(w, items, env);
            Announces(w, w1, crashed, GroupNotes(Scanned(w, items, env).groups, env))
  {
    hide Scan, VisitGroups, Sents;
    SentsSay(w.log, Started);
    ScanIsQuiet(ScanState(Say(w, Started), [], Going), items, env);
    var s := Scanned(w, items, env);
    VisitGroupsAnnounces(s.w, s.groups, env);
  }

  // ----- who gets which message

  lemma {:induction false} StepNotesHave(creator: string, steps: seq<StepGroup>, step: int, env: Env)
    ensures forall e :: e in Notes(creator, StepGroup(step, StepMembers(steps, step)), env) ==>
              e in StepNotes(creator, steps, env)
  {
    hide Format;
    if steps != [] && steps[0].step != step {
      StepNotesHave(creator, steps[1..], step, env);
    }
  }

  lemma {:induction false} GroupNotesHave(groups: seq<Group>, creator: string, step: int, env: Env)
    ensures forall e :: e in Notes(creator, StepGroup(step, Members(groups, creator, step)), env) ==>
              e in GroupNotes(groups, env)
  {
    hide Notes, StepNotes;
    if groups != [] && groups[0].creator == creator {
      StepNotesHave(creator, groups[0].steps, step, env);
    } else if groups != [] {
      GroupNotesHave(groups[1..], creator, step, env);
    } else {
      assert Notes(creator, StepGroup(step, []), env) == [] by { NobodyNoted(creator, step, env); }
    }
  }

  lemma NobodyNoted(creator: string, step: int, env: Env)
    ensures Notes(creator, StepGroup(step, []), env) == []
  {
  }

  lemma {:induction false} ChosenAreScanned(items: seq<Record>, env: Env, creator: string, step: int)
    ensures forall r :: r in Chosen(Olds(items, env), creator, step) ==> r in items && r.step + 1 == step
  {
    hide IsOld, Skips;
    ChosenFits(Olds(items, env), creator, step);
    ChosenAreIn(Olds(items, env), creator, step);
    OldsAreScanned(items, env);
  }

  lemma {:induction false} ChosenAreIn(rs: seq<Record>, creator: string, step: int)
    ensures forall r :: r in Chosen(rs, creator, step) ==> r in rs
  {
    if rs != [] {
      ChosenAreIn(rs[1..], creator, step);
    }
  }

  lemma {:induction false} OldsAreScanned(items: seq<Record>, env: Env)
    ensures forall r :: r in Olds(items, env) ==> r in items
  {
    hide IsOld, Skips;
    if items != [] && !Skips(items[0], env) {
      OldsAreScanned(items[1..], env);
    }
  }

  /** If the hour test of `step` passed at `now`, the senders at `sentAt` build the
      message of that step; and they build one at all exactly if it would pass then. */
  predicate RightMessage(notified: Option<Stamp>, step: int, now: Instant, sentAt: Instant, isDelete: bool, west: int) {
    match (HourDiff(now, notified, west), HourDiff(sentAt, notified, west))
    case (Some(tested), Some(hours)) =>
      && (StepReady(step, tested) ==> Build(Some(step), isDelete, hours) == Some(StepMessage(step)))
      && (Build(Some(step), isDelete, hours).Some? <==> StepReady(step, hours))
    case _ => false
  }

  /** A stored record's notification time can always be read. */
  lemma BackedBuilds(r: Record, h: seq<Notice>, clock: Instant, west: int, now: Instant, sentAt: Instant,
                     isDelete: bool)
    requires Backed(r, h, clock, west) && now <= sentAt
    ensures RightMessage(r.notified, r.step + 1, now, sentAt, isDelete, west)
  {
    hide Format;
    if h != [] {
      StampRoundTrip(LastOf(h).stampedAt, west);
      HoursOnlyGrow(now, sentAt, r.notified.value, west);
    }
  }

  /** In any reachable table: an invocation that ends without an exception sends, for
      every creator and step with old records, the message for the last of them. If that
      one passed its hour test, then whenever the senders look at the clock they build the
      message of that very step; and they build none exactly if it would not pass then. */
  lemma EveryGroupIsAnnounced(w: World, items: seq<Record>, env: Env, start: Instant,
                              creator: string, step: int, sentAt: Instant, isDelete: bool)
    requires Inv(w, start, env.west) && IsScan(w, items) && !Invoke(w, items, env).1
    requires Chosen(Olds(items, env), creator, step) != []
    requires var members := Chosen(Olds(items, env), creator, step);
             env.visit(members[|members| - 1].key).now <= sentAt
    ensures var members := Chosen(Olds(items, env), creator, step);
            var last := members[|members| - 1];
            && Sent(creator, step, last.notified, Format(env.batch(creator, step).now))
                 in NewSents(w, Invoke(w, items, env).0)
            && RightMessage(last.notified, step, env.visit(last.key).now, sentAt, isDelete, env.west)
  {
    hide *;
    LastBuilds(w, items, env, start, creator, step, sentAt, isDelete);
    GroupIsNoted(w, items, env, creator, step);
  }

  lemma LastBuilds(w: World, items: seq<Record>, env: Env, start: Instant,
                   creator: string, step: int, sentAt: Instant, isDelete: bool)
    requires Inv(w, start, env.west) && IsScan(w, items)
    requires Chosen(Olds(items, env), creator, step) != []
    requires var members := Chosen(Olds(items, env), creator, step);
             env.visit(members[|members| - 1].key).now <= sentAt
    ensures var members := Chosen(Olds(items, env), creator, step);
            var last := members[|members| - 1];
            RightMessage(last.notified, step, env.visit(last.key).now, sentAt, isDelete, env.west)
  {
    hide History, LastSighting, Justified, RightMessage, Format, Olds, Chosen, Backed;
    var members := Chosen(Olds(items, env), creator, step);
    var last := members[|members| - 1];
    ChosenAreScanned(items, env, creator, step);
    assert last in members && last in items;
    assert At(w, last.key) == Some(last);
    InvAt(w, last.key, start, env.west);
    BackedBuilds(last, History(w.log, last.key), start, env.west, env.visit(last.key).now, sentAt, isDelete);
  }

  lemma GroupIsNoted(w: World, items: seq<Record>, env: Env, creator: string, step: int)
    requires !Invoke(w, items, env).1 && Chosen(Olds(items, env), creator, step) != []
    ensures var members := Chosen(Olds(items, env), creator, step);
            Sent(creator, step, members[|members| - 1].notified, Format(env.batch(creator, step).now))
              in NewSents(w, Invoke(w, items, env).0)
  {
    hide Scanned, VisitGroups, Sents, Format, Olds, Chosen, GroupNotes, Members;
    var members := Chosen(Olds(items, env), creator, step);
    var groups := Scanned(w, items, env).groups;
    GroupsPartitionOldRecords(w, items, env);
    assert Members(groups, creator, step) == members;
    GroupNotesHave(groups, creator, step, env);
    InvocationAnnounces(w, items, env);
    var e := Sent(creator, step, members[|members| - 1].notified, Format(env.batch(creator, step).now));
    assert Notes(creator, StepGroup(step, members), env) == [e];
    assert e in Notes(creator, StepGroup(step, members), env);
    var was, notes := Sents(w.log), GroupNotes(groups, env);
    assert (was + notes)[|was|..] == notes;
  }

  predicate EndsWith(log: seq<Event>, e: Event) {
    log != [] && log[|log| - 1] == e
  }

  /** So a climb can go unannounced: of two instances in one group the first, notified
      at `t`, is due and recorded as notified again, the second, notified later at `u`,
      is not due, and the group gets no message at all. */
  lemma ClimbWithoutMessage(w: World, a: Record, b: Record, t: Instant, u: Instant, env: Env)
    requires a.step == b.step == 1 && a.createdBy == b.createdBy && a.key != b.key && env.west == WRITER_WEST
    requires a.notified == Some(Format(t)) && b.notified == Some(Format(u))
    requires env.visit(a.key).now == env.visit(b.key).now && env.visit(a.key).tag == Done && env.visit(a.key).put
    requires env.visit(a.key).now - FloorMinute(t) >= 120 * HOUR > env.visit(a.key).now - FloorMinute(u)
    requires env.batch(a.createdBy, 2).send == Done
    ensures var (w1, crashed) := VisitGroup(w, a.createdBy, StepGroup(2, [a, b]), env);
            var at := env.batch(a.createdBy, 2).now;
            && !crashed && w1.table == w.table[a.key := Climbed(a, 2, at)]
            && EndsWith(w1.log, Sent(a.createdBy, 2, b.notified, Format(at)))
    ensures HourDiff(env.visit(a.key).now, b.notified, WRITER_WEST).Some?
    ensures Build(Some(2), false, HourDiff(env.visit(a.key).now, b.notified, WRITER_WEST).value).None?
  {
    hide Format, Parse, FloorMinute;
    var now, at := env.visit(a.key).now, env.batch(a.createdBy, 2).now;
    ThresholdMeaning(now, t, WRITER_WEST, 120);
    ThresholdMeaning(now, u, WRITER_WEST, 120);
    var members := [a, b];
    assert members[1..] == [b] && [b][1..] == [];
    var w0 := VisitOne(w, a, 2, at, env).0;
    assert w0 == Put(Say(w, Tagged(a.key)), Climbed(a, 2, at), Advanced(a.key, 2, at, now));
    assert VisitOne(w, a, 2, at, env) == (w0, false);
    assert VisitOne(w0, b, 2, at, env) == (w0, false);
    assert VisitMembers(w0, [b], 2, at, env) == (w0, false);
  }
}

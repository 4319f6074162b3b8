/**
 Whole-run safety of the retirement ladder. The effects of a detector invocation, and
 the lookups and writes of the other Lambda, are interleaved in any way, and the
 detector can be cut off at any effect. An instance is terminated only after three
 recorded notifications of its record, far enough apart. Between the first of them and
 the termination the record is never removed or reset, exactly if no write brings back
 what was read before such a break.
 */
module LadderSafety {
  import opened Common
  import opened Clock
  import opened Ladder
  import opened LadderGroups
  import opened LadderLog
  import opened LadderPlan

  // ----- the invariant

  ghost predicate Idle(s: Option<Sighting>, deadline: Instant) {
    s.Some? && s.value.at - s.value.since >= IDLE_HOURS * HOUR && s.value.at <= deadline
  }

  /** At `at`, enough text-clock hours have passed since `from` to leave for `step`. */
  ghost predicate Due(from: Instant, at: Instant, step: int, west: int) {
    at - FloorMinute(from) >= Threshold(step) * HOUR + (west - WRITER_WEST)
  }

  ghost predicate Chain(h: seq<Notice>, west: int) {
    && |h| <= 3
    && (forall j :: 0 <= j < |h| ==> h[j].step == j + 1 && h[j].stampedAt <= h[j].at && Idle(h[j].seen, h[j].stampedAt))
    && (forall j :: 0 < j < |h| ==> h[j - 1].at <= h[j].stampedAt && Due(h[j - 1].stampedAt, h[j].at, j + 1, west))
  }

  function LastOf(h: seq<Notice>): Notice
    requires h != []
  {
    h[|h| - 1]
  }

  /** A stored record says exactly what its history says. */
  ghost predicate Backed(r: Record, h: seq<Notice>, clock: Instant, west: int) {
    && Chain(h, west) && r.step == |h|
    && r.notified == (if h == [] then None else Some(Format(LastOf(h).stampedAt)))
    && (h != [] ==> LastOf(h).at <= clock)
  }

  /** The last effect of the detector itself. */
  function LastOwn(log: seq<Event>): Option<Event> {
    if log == [] then None
    else
      var e := log[|log| - 1];
      if e.Inserted? || e.Rewritten? then LastOwn(log[..|log| - 1]) else Some(e)
  }

  ghost predicate Justified(log: seq<Event>, i: nat, west: int)
    requires i < |log|
  {
    log[i].Terminated? ==>
      var k, at, before := log[i].key, log[i].at, log[..i];
      var h := History(before[..LastStart(before)], k);
      && |h| == 3 && Chain(h, west) && h[2].at <= at && Due(h[2].stampedAt, at, 4, west)
      && Idle(LastSighting(before, k), at)
      && LastOwn(before) == Some(Imaged(k))
  }

  ghost predicate Inv(w: World, clock: Instant, west: int) {
    && (forall k :: k in w.table ==> w.table[k].key == k && Backed(w.table[k], History(w.log, k), clock, west))
    && (forall i :: 0 <= i < |w.log| ==> Justified(w.log, i, west))
  }

  lemma InvLater(w: World, clock: Instant, later: Instant, west: int)
    requires Inv(w, clock, west) && clock <= later
    ensures Inv(w, later, west)
  {
    hide History, LastSighting, Justified;
  }

  lemma InvAt(w: World, k: Key, clock: Instant, west: int)
    requires Inv(w, clock, west) && k in w.table
    ensures w.table[k].key == k && Backed(w.table[k], History(w.log, k), clock, west)
  {
  }

  lemma JustifiedMore(log: seq<Event>, e: Event, west: int)
    requires forall i :: 0 <= i < |log| ==> Justified(log, i, west)
    requires Justified(log + [e], |log|, west)
    ensures forall i :: 0 <= i < |log + [e]| ==> Justified(log + [e], i, west)
  {
    hide History, LastSighting, Chain, Idle, Due;
    forall i | 0 <= i < |log + [e]| ensures Justified(log + [e], i, west) {
      if i < |log| {
        assert Justified(log, i, west);
        assert (log + [e])[..i] == log[..i];
      }
    }
  }

  /** One event, which concerns the record of at most `k`. */
  ghost predicate Touches(w: World, w1: World, e: Event, k: Key) {
    && w1.log == w.log + [e]
    && (forall x :: x != k ==> At(w1, x) == At(w, x) && !Breaks(e, x) && !Writes(e, x))
  }

  lemma InvAfter(w: World, w1: World, e: Event, k: Key, clock: Instant, west: int)
    requires Inv(w, clock, west) && Touches(w, w1, e, k)
    requires k in w1.table ==> w1.table[k].key == k && Backed(w1.table[k], History(w1.log, k), clock, west)
    requires Justified(w1.log, |w.log|, west)
    ensures Inv(w1, clock, west)
  {
    hide History, LastSighting, Backed, Justified;
    JustifiedMore(w.log, e, west);
    forall x | x in w1.table
      ensures w1.table[x].key == x && Backed(w1.table[x], History(w1.log, x), clock, west)
    {
      if x != k {
        LogGrows(w.log, e, x);
        assert At(w1, x) == At(w, x);
      }
    }
  }

  /** Events that say nothing about records. */
  predicate Aside(e: Event) {
    !e.Advanced? && !e.Rewritten? && !e.Inserted? && !e.Removed?
  }

  lemma SayKeeps(w: World, e: Event, clock: Instant, west: int)
    requires Inv(w, clock, west) && Aside(e) && Justified(w.log + [e], |w.log|, west)
    ensures Inv(Say(w, e), clock, west)
  {
    hide History, LastSighting, Backed, Justified;
    var k := Key("", "");
    LogGrows(w.log, e, k);
    if k in w.table {
      InvAt(w, k, clock, west);
    }
    InvAfter(w, Say(w, e), e, k, clock, west);
  }

  lemma RemoveKeeps(w: World, k: Key, clock: Instant, west: int)
    requires Inv(w, clock, west)
    ensures Inv(Drop(w, k, true), clock, west)
  {
    hide History, LastSighting, Backed;
    InvAfter(w, Drop(w, k, true), Removed(k), k, clock, west);
  }

  lemma NewRecord(k: Key, d: Details, clock: Instant, west: int)
    ensures Backed(RecordOf(k, d, 0, None), [], clock, west)
  {
  }

  /** A new record, or a known one reset: its history starts over. */
  lemma InsertKeeps(w: World, k: Key, d: Details, clock: Instant, west: int)
    requires Inv(w, clock, west)
    ensures Inv(Put(w, RecordOf(k, d, 0, None), Inserted(k)), clock, west)
  {
    hide History, LastSighting, Backed;
    LogGrows(w.log, Inserted(k), k);
    NewRecord(k, d, clock, west);
    InvAfter(w, Put(w, RecordOf(k, d, 0, None), Inserted(k)), Inserted(k), k, clock, west);
  }

  /** Writing back what was read brings back its history. */
  lemma RewriteKeeps(w: World, k: Key, d: Details, r: Record, readAt: nat, clock: Instant, west: int)
    requires Inv(w, clock, west) && readAt <= |w.log|
    requires Backed(r, History(w.log[..readAt], k), clock, west)
    ensures Inv(Put(w, RecordOf(k, d, r.step, r.notified), Rewritten(k, readAt)), clock, west)
  {
    hide History, LastSighting, Chain;
    LogGrows(w.log, Rewritten(k, readAt), k);
    InvAfter(w, Put(w, RecordOf(k, d, r.step, r.notified), Rewritten(k, readAt)), Rewritten(k, readAt), k, clock, west);
  }

  lemma ChainGrows(h: seq<Notice>, n: Notice, west: int)
    requires Chain(h, west) && |h| < 3
    requires n.step == |h| + 1 && n.stampedAt <= n.at && Idle(n.seen, n.stampedAt)
    requires h != [] ==> LastOf(h).at <= n.stampedAt && Due(LastOf(h).stampedAt, n.at, n.step, west)
    ensures Chain(h + [n], west)
  {
  }

  lemma StepReadyIsDue(r: Record, h: seq<Notice>, at: Instant, clock: Instant, west: int)
    requires Backed(r, h, clock, west)
    ensures HourDiff(at, r.notified, west).Some?
    ensures StepReady(r.step + 1, HourDiff(at, r.notified, west).value) && h != [] ==>
              Due(LastOf(h).stampedAt, at, r.step + 1, west)
    ensures h == [] ==> r.step + 1 == 1 && HourDiff(at, r.notified, west) == Some(0)
  {
    hide History, LastSighting;
    if h != [] {
      ThresholdMeaning(at, LastOf(h).stampedAt, west, Threshold(r.step + 1));
    }
  }

  /** A climb written from a scanned record: the history at the scan, and one notice more. */
  lemma ClimbKeeps(w: World, r: Record, step: int, stampedAt: Instant, at: Instant, start: Instant, clock: Instant,
                   west: int)
    requires Inv(w, clock, west) && step == r.step + 1 && step <= 3 && stampedAt <= at <= clock && start <= stampedAt
    requires Backed(r, History(w.log[..LastStart(w.log)], r.key), start, west)
    requires Idle(LastSighting(w.log, r.key), stampedAt)
    requires HourDiff(at, r.notified, west).Some? && StepReady(step, HourDiff(at, r.notified, west).value)
    ensures Inv(Put(w, Climbed(r, step, stampedAt), Advanced(r.key, step, stampedAt, at)), clock, west)
  {
    hide History, LastSighting, Inv, Idle, Due, Chain, HourDiff;
    var e := Advanced(r.key, step, stampedAt, at);
    var h, n := History(w.log[..LastStart(w.log)], r.key), Notice(step, stampedAt, at, LastSighting(w.log, r.key));
    LogGrows(w.log, e, r.key);
    StepReadyIsDue(r, h, at, start, west);
    ChainGrows(h, n, west);
    assert Backed(Climbed(r, step, stampedAt), h + [n], clock, west);
    InvAfter(w, Put(w, Climbed(r, step, stampedAt), e), e, r.key, clock, west);
  }

  lemma TerminateKeeps(w: World, r: Record, at: Instant, start: Instant, clock: Instant, west: int)
    requires Inv(w, clock, west) && r.step == 3 && start <= at
    requires Backed(r, History(w.log[..LastStart(w.log)], r.key), start, west)
    requires Idle(LastSighting(w.log, r.key), at) && LastOwn(w.log) == Some(Imaged(r.key))
    requires HourDiff(at, r.notified, west).Some? && StepReady(4, HourDiff(at, r.notified, west).value)
    ensures Inv(Say(w, Terminated(r.key, at)), clock, west)
  {
    hide History, LastSighting, LastOwn, Idle, Due, Chain, HourDiff;
    var e := Terminated(r.key, at);
    StepReadyIsDue(r, History(w.log[..LastStart(w.log)], r.key), at, start, west);
    assert (w.log + [e])[..|w.log|] == w.log;
    assert Justified(w.log + [e], |w.log|, west);
    SayKeeps(w, e, clock, west);
  }

  // ----- whole runs

  /** What the other Lambda has read and not yet written, with the length of the log then. */
  datatype Reading = Reading(key: Key, looked: Lookup, readAt: nat)

  /** The detector: not running, or in an invocation that scanned `items` at `start`, has
      carried out `done` and is still to carry out `todo`. */
  datatype Job = Off | On(items: seq<Record>, env: Env, start: Instant, done: seq<Event>, todo: seq<Event>)

  datatype State = State(w: World, clock: Instant, readings: seq<Reading>, job: Job)

  datatype Action =
    | Pass(now: Instant)
    | Begin(items: seq<Record>, env: Env)
    | Act
    | Stop
    | Read(key: Key, query: nat -> Query)
    | Write(reading: nat, details: Details, ok: bool)

  /** The clock readings for `r` are in program order and not before the scan. */
  ghost predicate OnTime(r: Record, env: Env, start: Instant) {
    start <= env.look(r.key).now <= env.batch(r.createdBy, r.step + 1).now <= env.visit(r.key).now
  }

  predicate Past(e: Event, now: Instant) {
    e.Advanced? || e.Terminated? ==> e.at <= now
  }

  /** Time passes. The detector starts with its scan, carries out its plan one effect at a time, and can
      stop anywhere: at the end, or because it is cut off. The other Lambda's lookups and
      writes come at any time between these; any number of lookups can be waiting to be
      written, for the same key too. The only assumptions are that a scan returns records
      of the table, each once, that the detector does not overlap with itself, and that the
      clock does not run backwards. */
  ghost predicate Step(s: State, a: Action, s1: State, west: int) {
    match a
    case Pass(now) => s.clock <= now && s1 == s.(clock := now)
    case Begin(items, env) =>
      && s.job.Off? && env.west == west
      && IsScan(s.w, items) && (forall r :: r in items ==> OnTime(r, env, s.clock))
      && s1 == s.(w := Say(s.w, Started), job := On(items, env, s.clock, [Started], Rest(items, env)))
    case Act =>
      && s.job.On? && s.job.todo != [] && Past(s.job.todo[0], s.clock)
      && s1 == s.(w := Effect(s.w, s.job.todo[0], s.job.items), job := Advance(s.job))
    case Stop => s1 == s.(job := Off)
    case Read(k, query) =>
      s1 == s.(readings := s.readings + [Reading(k, LookUp(s.w.table, k, query, 0), |s.w.log|)])
    case Write(i, details, ok) =>
      && i < |s.readings|
      && var r := s.readings[i];
      s1 == s.(w := Stored(s.w, r.key, details, r.looked, r.readAt, ok),
               readings := s.readings[..i] + s.readings[i + 1..])
  }

  function Rest(items: seq<Record>, env: Env): seq<Event> {
    if Plan(items, env) == [] then [] else Plan(items, env)[1..]
  }

  function Advance(job: Job): Job
    requires job.On? && job.todo != []
  {
    job.(done := job.done + [job.todo[0]], todo := job.todo[1..])
  }

  ghost predicate Run(states: seq<State>, actions: seq<Action>, west: int) {
    && |states| == |actions| + 1
    && states[0].w == World(map[], []) && states[0].readings == [] && states[0].job.Off?
    && forall i :: 0 <= i < |actions| ==> Step(states[i], actions[i], states[i + 1], west)
  }

  /** A record read is backed by the history of the moment it was read. */
  ghost predicate Recalled(w: World, r: Reading, clock: Instant, west: int) {
    r.looked.Seen? ==>
      && r.looked.record.key == r.key && r.readAt <= |w.log|
      && Backed(r.looked.record, History(w.log[..r.readAt], r.key), clock, west)
  }

  /** The log, as far as the detector looks at it, is what it has done since its scan. */
  ghost predicate Follows(log: seq<Event>, done: seq<Event>) {
    && LastStart(log) < |log| && done != [] && LastOwn(log) == Some(done[|done| - 1])
    && forall k :: LastSighting(log, k) == LastSighting(done, k)
  }

  ghost predicate ScanBacked(scanned: seq<Event>, items: seq<Record>, env: Env, start: Instant, west: int) {
    forall r :: r in items ==> OnTime(r, env, start) && Backed(r, History(scanned, r.key), start, west)
  }

  ghost predicate JobInv(w: World, job: Job, clock: Instant, west: int) {
    job.On? ==>
      && Distinct(job.items) && job.env.west == west && job.start <= clock
      && job.done + job.todo == Plan(job.items, job.env)
      && Follows(w.log, job.done)
      && ScanBacked(w.log[..LastStart(w.log)], job.items, job.env, job.start, west)
  }

  ghost predicate StateInv(s: State, west: int) {
    && Inv(s.w, s.clock, west)
    && (forall r :: r in s.readings ==> Recalled(s.w, r, s.clock, west))
    && JobInv(s.w, s.job, s.clock, west)
  }

  lemma RecalledLater(w: World, w1: World, r: Reading, clock: Instant, later: Instant, west: int)
    requires Recalled(w, r, clock, west) && w.log <= w1.log && clock <= later
    ensures Recalled(w1, r, later, west)
  {
    hide History, Chain;
    assert r.readAt <= |w.log| ==> w1.log[..r.readAt] == w.log[..r.readAt];
  }

  lemma FollowsOwn(log: seq<Event>, done: seq<Event>, e: Event)
    requires Follows(log, done) && !e.Started? && !e.Inserted? && !e.Rewritten?
    ensures Follows(log + [e], done + [e]) && LastStart(log + [e]) == LastStart(log)
  {
    hide LastSighting, History;
    forall k ensures LastSighting(log + [e], k) == LastSighting(done + [e], k) {
      LogGrows(log, e, k);
      LogGrows(done, e, k);
    }
    LogGrows(log, e, Key("", ""));
  }

  lemma FollowsForeign(log: seq<Event>, done: seq<Event>, e: Event)
    requires Follows(log, done) && (e.Inserted? || e.Rewritten?)
    ensures Follows(log + [e], done) && LastStart(log + [e]) == LastStart(log)
  {
    hide LastSighting, History;
    assert (log + [e])[..|log|] == log;
    forall k ensures LastSighting(log + [e], k) == LastSighting(log, k) {
      LogGrows(log, e, k);
    }
    LogGrows(log, e, Key("", ""));
  }

  /** A foreign event leaves the running invocation as it was. */
  lemma JobUndisturbed(w: World, w1: World, e: Event, job: Job, clock: Instant, west: int)
    requires JobInv(w, job, clock, west) && w1.log == w.log + [e] && (e.Inserted? || e.Rewritten?)
    ensures JobInv(w1, job, clock, west)
  {
    hide Follows, ScanBacked, Plan, Distinct;
    if job.On? {
      FollowsForeign(w.log, job.done, e);
      assert Follows(w.log, job.done) ==> LastStart(w.log) <= |w.log|;
      assert w1.log[..LastStart(w.log)] == w.log[..LastStart(w.log)];
    }
  }

  // ----- one step of the detector

  lemma {:induction false} FoundIsScanned(items: seq<Record>, k: Key)
    requires Find(items, k).Some?
    ensures Find(items, k).value in items && Find(items, k).value.key == k
  {
    if items[0].key != k {
      FoundIsScanned(items[1..], k);
    }
  }

  lemma NextIsGrounded(job: Job)
    requires job.On? && job.todo != [] && Distinct(job.items) && job.done + job.todo == Plan(job.items, job.env)
    ensures Grounded(job.todo[0], job.done, job.items, job.env)
  {
    hide Plan, Grounded, Distinct;
    PlanIsSound(job.items, job.env);
    var plan, j := Plan(job.items, job.env), |job.done|;
    assert plan[j] == job.todo[0] && plan[..j] == job.done;
  }

  lemma SeenInTime(job: Job, log: seq<Event>, k: Key, r: Record)
    requires job.On? && Follows(log, job.done) && SeenIdle(LastSighting(job.done, k), k, job.env)
    requires OnTime(r, job.env, job.start) && r.key == k
    ensures Idle(LastSighting(log, k), job.env.batch(r.createdBy, r.step + 1).now)
  {
    hide LastSighting;
  }

  lemma AdvanceKeeps(w: World, job: Job, clock: Instant, west: int)
    requires Inv(w, clock, west) && JobInv(w, job, clock, west) && job.On? && job.todo != []
    requires job.todo[0].Advanced? && Past(job.todo[0], clock)
    ensures Inv(Effect(w, job.todo[0], job.items), clock, west)
  {
    hide History, LastSighting, LastOwn, Inv, Idle, Backed, HourDiff, Format, Plan, Distinct, Find;
    NextIsGrounded(job);
    var e := job.todo[0];
    FoundIsScanned(job.items, e.key);
    var r := Find(job.items, e.key).value;
    SeenInTime(job, w.log, e.key, r);
    ClimbKeeps(w, r, e.step, e.stampedAt, e.at, job.start, clock, west);
  }

  lemma TerminationKeeps(w: World, job: Job, clock: Instant, west: int)
    requires Inv(w, clock, west) && JobInv(w, job, clock, west) && job.On? && job.todo != []
    requires job.todo[0].Terminated?
    ensures Inv(Effect(w, job.todo[0], job.items), clock, west)
  {
    hide History, LastSighting, LastOwn, Inv, Idle, Backed, HourDiff, Format, Plan, Distinct, Find;
    NextIsGrounded(job);
    var e := job.todo[0];
    FoundIsScanned(job.items, e.key);
    var r := Find(job.items, e.key).value;
    SeenInTime(job, w.log, e.key, r);
    IdleLater(LastSighting(w.log, e.key), job.env.batch(r.createdBy, r.step + 1).now, e.at);
    TerminateKeeps(w, r, e.at, job.start, clock, west);
  }

  lemma IdleLater(s: Option<Sighting>, deadline: Instant, later: Instant)
    requires Idle(s, deadline) && deadline <= later
    ensures Idle(s, later)
  {
  }

  lemma EffectLogs(w: World, e: Event, items: seq<Record>)
    ensures Effect(w, e, items).log == w.log + [e]
  {
  }

  lemma ActKeeps(w: World, job: Job, clock: Instant, west: int)
    requires Inv(w, clock, west) && JobInv(w, job, clock, west) && job.On? && job.todo != []
    requires Past(job.todo[0], clock)
    ensures Inv(Effect(w, job.todo[0], job.items), clock, west)
    ensures JobInv(Effect(w, job.todo[0], job.items), Advance(job), clock, west)
  {
    hide Inv, Follows, ScanBacked, Plan, Distinct, Effect, History, LastSighting, SeenIdle, Passed, LastOwn;
    var e, w1 := job.todo[0], Effect(w, job.todo[0], job.items);
    NextIsGrounded(job);
    EffectLogs(w, e, job.items);
    assert job.done != [] by { FollowsSomething(w.log, job.done); }
    assert !e.Started? && !e.Inserted? && !e.Rewritten?;
    FollowsOwn(w.log, job.done, e);
    assert w1.log[..LastStart(w.log)] == w.log[..LastStart(w.log)];
    assert Advance(job).done + Advance(job).todo == job.done + job.todo;
    if e.Advanced? {
      AdvanceKeeps(w, job, clock, west);
    } else if e.Terminated? {
      TerminationKeeps(w, job, clock, west);
    } else {
      OtherActKeeps(w, e, job.items, clock, west);
    }
  }

  lemma FollowsSomething(log: seq<Event>, done: seq<Event>)
    requires Follows(log, done)
    ensures done != []
  {
  }

  lemma OtherActKeeps(w: World, e: Event, items: seq<Record>, clock: Instant, west: int)
    requires Inv(w, clock, west)
    requires !e.Advanced? && !e.Terminated? && !e.Inserted? && !e.Rewritten?
    ensures Inv(Effect(w, e, items), clock, west)
  {
    hide Inv;
    if e.Removed? {
      RemoveKeeps(w, e.key, clock, west);
    } else {
      SayKeeps(w, e, clock, west);
    }
  }

  lemma BeginKeeps(s: State, items: seq<Record>, env: Env, west: int)
    requires Inv(s.w, s.clock, west) && env.west == west && IsScan(s.w, items)
    requires forall r :: r in items ==> OnTime(r, env, s.clock)
    ensures Inv(Say(s.w, Started), s.clock, west)
    ensures JobInv(Say(s.w, Started), On(items, env, s.clock, [Started], Rest(items, env)), s.clock, west)
  {
    hide Inv, Plan, History, OnTime, Backed;
    SayKeeps(s.w, Started, s.clock, west);
    PlanStarts(items, env);
    assert [Started] + Rest(items, env) == Plan(items, env);
    var w1 := Say(s.w, Started);
    assert w1.log[..|s.w.log|] == s.w.log;
    forall k ensures LastSighting(w1.log, k) == LastSighting([Started], k) {
      LogGrows(s.w.log, Started, k);
    }
    forall r | r in items ensures Backed(r, History(s.w.log, r.key), s.clock, west) {
      assert At(s.w, r.key) == Some(r);
      InvAt(s.w, r.key, s.clock, west);
    }
  }

  // ----- one step of the other Lambda

  lemma StoredKeeps(w: World, r: Reading, d: Details, ok: bool, job: Job, clock: Instant, west: int)
    requires Inv(w, clock, west) && Recalled(w, r, clock, west) && JobInv(w, job, clock, west)
    ensures var w1 := Stored(w, r.key, d, r.looked, r.readAt, ok);
            Inv(w1, clock, west) && JobInv(w1, job, clock, west) && w.log <= w1.log
  {
    hide Inv, Backed, History, JobInv;
    var w1 := Stored(w, r.key, d, r.looked, r.readAt, ok);
    if ok && r.looked.Nothing? {
      InsertKeeps(w, r.key, d, clock, west);
      JobUndisturbed(w, w1, Inserted(r.key), job, clock, west);
    } else if ok && r.looked.Seen? {
      RewriteKeeps(w, r.key, d, r.looked.record, r.readAt, clock, west);
      JobUndisturbed(w, w1, Rewritten(r.key, r.readAt), job, clock, west);
    }
  }

  lemma ReadIsRecalled(w: World, k: Key, query: nat -> Query, clock: Instant, west: int)
    requires Inv(w, clock, west)
    ensures Recalled(w, Reading(k, LookUp(w.table, k, query, 0), |w.log|), clock, west)
  {
    hide LastSighting, History, Backed, Justified;
    assert w.log[..|w.log|] == w.log;
    if k in w.table {
      LookUpMissesIff(w.table, k, query);
      InvAt(w, k, clock, west);
    } else {
      LookUpFindsNothing(w.table, k, query, 0);
    }
  }

  lemma {:induction false} LookUpFindsNothing(table: map<Key, Record>, k: Key, query: nat -> Query, attempt: nat)
    requires k !in table && attempt <= MAX_RETRY_ATTEMPTS
    ensures !LookUp(table, k, query, attempt).Seen?
    decreases MAX_RETRY_ATTEMPTS - attempt
  {
    if attempt < MAX_RETRY_ATTEMPTS {
      LookUpFindsNothing(table, k, query, attempt + 1);
    }
  }

  // ----- every run

  lemma StepKeepsInv(s: State, a: Action, s1: State, west: int)
    requires StateInv(s, west) && Step(s, a, s1, west)
    ensures StateInv(s1, west) && s.w.log <= s1.w.log
  {
    hide Inv, Recalled, Stored, OnTime, IsScan, LookUp, Effect, Rest, JobInv, Past, Advance;
    match a {
      case Pass(now) =>
        InvLater(s.w, s.clock, now, west);
        JobLater(s.w, s.job, s.clock, now, west);
      case Begin(items, env) =>
        BeginKeeps(s, items, env, west);
      case Act =>
        ActKeeps(s.w, s.job, s.clock, west);
        EffectLogs(s.w, s.job.todo[0], s.job.items);
      case Stop => JobOff(s.w, s.clock, west);
      case Read(k, query) =>
        ReadIsRecalled(s.w, k, query, s.clock, west);
      case Write(i, details, ok) =>
        StoredKeeps(s.w, s.readings[i], details, ok, s.job, s.clock, west);
    }
    forall r | r in s.readings ensures Recalled(s1.w, r, s1.clock, west) {
      RecalledLater(s.w, s1.w, r, s.clock, s1.clock, west);
    }
  }

  lemma JobLater(w: World, job: Job, clock: Instant, later: Instant, west: int)
    requires JobInv(w, job, clock, west) && clock <= later
    ensures JobInv(w, job, later, west)
  {
  }

  lemma JobOff(w: World, clock: Instant, west: int)
    ensures JobInv(w, Off, clock, west)
  {
  }

  lemma {:induction false} RunKeepsInv(states: seq<State>, actions: seq<Action>, west: int, n: nat)
    requires Run(states, actions, west) && n < |states|
    ensures StateInv(states[n], west)
  {
    hide Recalled, Step;
    if n > 0 {
      hide Inv, JobInv;
      RunKeepsInv(states, actions, west, n - 1);
      StepKeepsInv(states[n - 1], actions[n - 1], states[n], west);
    }
  }

  /** Reachable records: steps 0 to 3, and "never notified" exactly at step 0. */
  lemma ReachableSteps(states: seq<State>, actions: seq<Action>, west: int, n: nat, k: Key)
    requires Run(states, actions, west) && n < |states| && k in states[n].w.table
    ensures var r := states[n].w.table[k];
            0 <= r.step <= 3 && (r.notified.None? <==> r.step == 0)
  {
    hide History, LastSighting;
    RunKeepsInv(states, actions, west, n);
    assert Backed(states[n].w.table[k], History(states[n].w.log, k), states[n].clock, west);
  }

  lemma DueMeansWaited(from: Instant, at: Instant, step: int, west: int)
    requires Due(from, at, step, west)
    ensures at - from > Threshold(step) * HOUR - MINUTE + (west - WRITER_WEST)
  {
    assert from - FloorMinute(from) < MINUTE;
  }

  /** In every run, terminating `k` at `at` means: imaging it was the detector's effect just
      before, it was seen stopped for 120 hours in the same invocation, and the record that
      the invocation scanned had been notified three times, with the hour tests of the later
      steps made more than 120h, 312h and 24h minus one minute after the time written
      before. The slack `west - WRITER_WEST` is the reader's zone error. */
  lemma TerminationIsEarned(states: seq<State>, actions: seq<Action>, west: int, n: nat, i: nat)
    requires Run(states, actions, west) && n < |states|
    requires i < |states[n].w.log| && states[n].w.log[i].Terminated?
    ensures var before := states[n].w.log[..i];
            var k, at, zone := states[n].w.log[i].key, states[n].w.log[i].at, west - WRITER_WEST;
            var h := History(before[..LastStart(before)], k);
            && |h| == 3 && h[0].step == 1 && h[1].step == 2 && h[2].step == 3
            && h[0].stampedAt <= h[0].at <= h[1].stampedAt <= h[1].at <= h[2].stampedAt <= h[2].at <= at
            && h[1].at - h[0].stampedAt > 120 * HOUR - MINUTE + zone
            && h[2].at - h[1].stampedAt > 312 * HOUR - MINUTE + zone
            && at - h[2].stampedAt > 24 * HOUR - MINUTE + zone
            && (forall j :: 0 <= j < 3 ==> Idle(h[j].seen, h[j].stampedAt))
            && Idle(LastSighting(before, k), at) && LastOwn(before) == Some(Imaged(k))
  {
    hide History, LastSighting, LastOwn, JobInv, Recalled;
    RunKeepsInv(states, actions, west, n);
    var log := states[n].w.log;
    assert Justified(log, i, west);
    var h := History(log[..i][..LastStart(log[..i])], log[i].key);
    DueMeansWaited(h[0].stampedAt, h[1].at, 2, west);
    DueMeansWaited(h[1].stampedAt, h[2].at, 3, west);
    DueMeansWaited(h[2].stampedAt, log[i].at, 4, west);
  }

  /** The record scanned for the termination at `i` was never removed or reset since its first
      climb, and none of that happened after the scan either. */
  predicate NeverBroken(log: seq<Event>, i: nat, k: Key)
    requires i <= |log|
  {
    var scan := LastStart(log[..i]);
    Uninterrupted(log[..scan], k) && Unbroken(log, k, scan, i)
  }

  lemma NeverBrokenIff(log: seq<Event>, i: nat, k: Key)
    requires i <= |log| && Positions(log[..LastStart(log[..i])], k) != []
    ensures var p := Positions(log[..LastStart(log[..i])], k)[0];
            p < i && (NeverBroken(log, i, k) <==> Unbroken(log, k, p, i))
  {
    hide Positions, Uninterrupted, LastStart, Breaks;
    var before, scan := log[..i], LastStart(log[..i]);
    UninterruptedIff(log[..scan], k);
    var p := Positions(log[..scan], k)[0];
    UnbrokenPrefix(before, k, p, scan);
    assert before[..scan] == log[..scan];
    assert forall q :: 0 <= q < i ==> before[q] == log[q];
    assert Unbroken(before, k, p, i) <==> Unbroken(log, k, p, i);
    assert Unbroken(before, k, scan, i) <==> Unbroken(log, k, scan, i);
  }

  /** The whole ladder: if every hour test comes within `lag` of its group's written
      time and the reader's zone is the writer's, more than 456h - 3min - 2 lags pass
      between the first notification and the termination. In between the record is never
      removed or reset, if and only if no write brought it back across such a break and
      none came after the last scan. */
  lemma LadderTakesNineteenDays(states: seq<State>, actions: seq<Action>, n: nat, i: nat, lag: nat)
    requires Run(states, actions, WRITER_WEST) && n < |states|
    requires i < |states[n].w.log| && states[n].w.log[i].Terminated?
    requires forall p :: 0 <= p < i && states[n].w.log[p].Advanced? ==>
               states[n].w.log[p].at - states[n].w.log[p].stampedAt <= lag
    ensures var log := states[n].w.log;
            exists p, q, s ::
              && 0 <= p < q < s < i && log[p].Advanced? && log[q].Advanced? && log[s].Advanced?
              && log[p].key == log[q].key == log[s].key == log[i].key
              && log[q].stampedAt - log[p].stampedAt > 120 * HOUR - MINUTE - lag
              && log[s].stampedAt - log[q].stampedAt > 312 * HOUR - MINUTE - lag
              && log[i].at - log[p].stampedAt > 456 * HOUR - 3 * MINUTE - 2 * lag
              && (Unbroken(log, log[i].key, p, i) <==> NeverBroken(log, i, log[i].key))
  {
    hide History, LastSighting, LastOwn, NeverBroken, Unbroken, Positions, LastStart;
    TerminationIsEarned(states, actions, WRITER_WEST, n, i);
    var log := states[n].w.log;
    var k, scan := log[i].key, LastStart(log[..i]);
    assert log[..i][..scan] == log[..scan];
    HistoryPositions(log[..scan], k);
    var h, ps := History(log[..scan], k), Positions(log[..scan], k);
    NeverBrokenIff(log, i, k);
    assert forall j :: 0 <= j < 3 ==>
             log[ps[j]] == log[..scan][ps[j]] == Advanced(k, h[j].step, h[j].stampedAt, h[j].at);
    assert ps[0] < ps[1] < ps[2] < i;
  }

  /** The condition holds in particular if every record written was read after the last break
      before, and nothing broke the record since the last scan. */
  lemma FreshWritesNeverBreak(log: seq<Event>, i: nat, k: Key)
    requires i <= |log| && Unbroken(log, k, LastStart(log[..i]), i)
    requires forall p :: 0 <= p < i ==> Fresh(log, k, p)
    ensures NeverBroken(log, i, k)
  {
    hide Uninterrupted, Fresh;
    var scan := LastStart(log[..i]);
    FreshUpTo(log, k, i, scan);
    FreshWritesNeverInterrupt(log[..scan], k);
  }

  lemma FreshUpTo(log: seq<Event>, k: Key, i: nat, n: nat)
    requires n <= i <= |log| && forall p :: 0 <= p < i ==> Fresh(log, k, p)
    ensures forall p :: 0 <= p < n ==> Fresh(log[..n], k, p)
  {
    hide ReadAt;
    forall p | 0 <= p < n ensures Fresh(log[..n], k, p) {
      assert Fresh(log, k, p);
      assert log[..n][..p] == log[..p] && log[..n][p] == log[p];
      assert forall q :: 0 <= q < p ==> log[..n][q] == log[q];
    }
  }

  /** A test of `k` hours, made at `now`, passes for a notification written as `t`. */
  predicate PassesAfter(t: Instant, now: Instant, k: nat) {
    match HourDiff(now, Some(Format(t)), WRITER_WEST)
    case None => false
    case Some(hours) => hours >= k
  }

  /** The time written is read before the hour test, so the written times alone keep
      the one-minute bound exactly when there is no lag between the two. */
  lemma WrittenGapNeedsNoLag(lag: nat, k: nat)
    requires k > 0
    ensures (forall t, now :: PassesAfter(t, now, k) ==> (now - lag) - t > k * HOUR - MINUTE) <==> lag == 0
  {
    if lag == 0 {
      forall t, now | PassesAfter(t, now, k)
        ensures (now - lag) - t > k * HOUR - MINUTE
      {
        ThresholdMeaning(now, t, WRITER_WEST, k);
      }
    } else {
      var t, now := MINUTE - 1, k * HOUR;
      ThresholdMeaning(now, t, WRITER_WEST, k);
      assert PassesAfter(t, now, k) && !((now - lag) - t > k * HOUR - MINUTE);
    }
  }
}

/**
 The unused-EC2 part of the detector's `lambda_handler`: one scan of the table,
 grouping of the instances that are still stopped, and the step ladder that ends
 in imaging and terminating an instance.

 Every AWS answer and clock reading is a field of `Env`, indexed by the record or
 group it is asked for, so a statement about all `Env` values is a statement about
 every behaviour of AWS. `Invoke` is the specification; class `InstanceTable`
 holds the table and runs the loops of the detector and of the other writer against it.
 */
module Ladder {
  import opened Common
  import opened Clock

  const IDLE_HOURS := 120

  datatype Key = Key(account: string, instance: string)

  datatype Record = Record(key: Key, region: string, createdBy: string, createdAt: string, stoppedAt: string,
                           step: int, notified: Option<Stamp>)

  /** What `describe_instances` can answer for one instance id. */
  datatype Describe =
    | CallRaised
    | ErrorCode(code: string)
    | NoReservation
    | Found(state: Option<string>, tagKeys: seq<string>, stoppedSince: Option<Instant>)

  datatype Verdict = Old(since: Instant) | NotOld(code: string) | Crash

  /** Answers used while scanning one record. */
  datatype Look = Look(now: Instant, describe: Describe, untag: Reply, drop: bool, send: Reply)

  /** Answers used while handling one grouped instance. */
  datatype Visit = Visit(now: Instant, tag: Reply, put: bool, image: Reply, terminate: Reply, drop: bool)

  /** Answers used once per group: the time written as `notified_at`, and the send. */
  datatype Batch = Batch(now: Instant, send: Reply)

  datatype Env = Env(bypass: string, west: int, look: Key -> Look, visit: Key -> Visit, batch: (string, int) -> Batch)

  /** Effects on the outside world, in order. */
  datatype Event =
    | Started
    | Checked(key: Key, at: Instant, since: Instant)
    | Inserted(key: Key)
    | Rewritten(key: Key, readAt: nat)
    | Removed(key: Key)
    | Untagged(key: Key)
    | Tagged(key: Key)
    | Advanced(key: Key, step: int, stampedAt: Instant, at: Instant)
    | Imaged(key: Key)
    | Terminated(key: Key, at: Instant)
    | Sent(creator: string, step: int, notified: Option<Stamp>, current: Stamp)

  datatype World = World(table: map<Key, Record>, log: seq<Event>)

  function Say(w: World, e: Event): World {
    w.(log := w.log + [e])
  }

  function Put(w: World, r: Record, e: Event): World {
    World(w.table[r.key := r], w.log + [e])
  }

  function Drop(w: World, k: Key, ok: bool): World {
    if ok then World(w.table - {k}, w.log + [Removed(k)]) else w
  }

  // ----- is_instance_older_than_5_days

  function Judge(now: Instant, d: Describe, bypass: string): Verdict {
    match d
    case CallRaised => Crash
    case ErrorCode(code) => NotOld(code)
    case NoReservation => NotOld("InvalidInstanceID.NotFound")
    case Found(state, tagKeys, since) =>
      if state == Some("stopped") then
        if since.None? then Crash
        else if WholeHours(now - since.value) < IDLE_HOURS then NotOld("INUSE")
        else if bypass in tagKeys then NotOld("SKIP")
        else Old(since.value)
      else if state == Some("terminated") then NotOld("InvalidInstanceID.NotFound")
      else NotOld("INUSE")
  }

  method IsInstanceOlderThan5Days(now: Instant, d: Describe, bypass: string) returns (v: Verdict)
    ensures v == Judge(now, d, bypass)
    ensures v.Old? <==> d.Found? && d.state == Some("stopped") && bypass !in d.tagKeys
                        && d.stoppedSince.Some? && now - d.stoppedSince.value >= IDLE_HOURS * HOUR
    ensures v.Old? ==> v.since == d.stoppedSince.value
    ensures v == Crash <==> d.CallRaised? || (d.Found? && d.state == Some("stopped") && d.stoppedSince.None?)
    ensures d.ErrorCode? ==> v == NotOld(d.code)
    ensures d.NoReservation? || (d.Found? && d.state == Some("terminated")) ==>
              v == NotOld("InvalidInstanceID.NotFound")
    ensures d.Found? && d.state !in [Some("stopped"), Some("terminated")] ==> v == NotOld("INUSE")
    ensures d.Found? && d.state == Some("stopped") && d.stoppedSince.Some? && !v.Old? ==>
              v == NotOld(if now - d.stoppedSince.value >= 120 * HOUR then "SKIP" else "INUSE")
  {
    match d
    case CallRaised => v := Crash;
    case ErrorCode(code) => v := NotOld(code);
    case NoReservation => v := NotOld("InvalidInstanceID.NotFound");
    case Found(state, tagKeys, since) =>
      var skip := false;
      for i := 0 to |tagKeys|
        invariant skip <==> bypass in tagKeys[..i]
      {
        if tagKeys[i] == bypass {
          skip := true;
        }
      }
      assert tagKeys[..|tagKeys|] == tagKeys;
      if state == Some("stopped") {
        if since.None? {
          return Crash;
        }
        WholeHoursAtLeast(now - since.value, IDLE_HOURS);
        if WholeHours(now - since.value) >= IDLE_HOURS {
          return if skip then NotOld("SKIP") else Old(since.value);
        }
      } else if state == Some("terminated") {
        return NotOld("InvalidInstanceID.NotFound");
      }
      v := NotOld("INUSE");
  }

  // ----- grouping: unused_instances[created_by][alert_step].append(...)

  datatype StepGroup = StepGroup(step: int, members: seq<Record>)
  datatype Group = Group(creator: string, steps: seq<StepGroup>)

  function AddToSteps(steps: seq<StepGroup>, step: int, r: Record): seq<StepGroup> {
    if steps == [] then [StepGroup(step, [r])]
    else if steps[0].step == step then [StepGroup(step, steps[0].members + [r])] + steps[1..]
    else [steps[0]] + AddToSteps(steps[1..], step, r)
  }

  /** Insertion-ordered nested dictionaries: first creator, then step. */
  function AddToGroups(groups: seq<Group>, r: Record): seq<Group> {
    if groups == [] then [Group(r.createdBy, AddToSteps([], r.step + 1, r))]
    else if groups[0].creator == r.createdBy then
      [Group(r.createdBy, AddToSteps(groups[0].steps, r.step + 1, r))] + groups[1..]
    else [groups[0]] + AddToGroups(groups[1..], r)
  }

  // ----- scan

  datatype Flow = Going | Skipped | Crashed
  datatype ScanState = ScanState(w: World, groups: seq<Group>, flow: Flow)

  function RetireLook(w: World, k: Key, code: string, look: Look): (World, Flow) {
    if look.untag == Raised then (w, Crashed)
    else
      var w1 := if look.untag == Done then Say(w, Untagged(k)) else w;
      (Drop(w1, k, look.drop), if code == "SKIP" then Skipped else if look.send == Raised then Crashed else Going)
  }

  function ScanOne(s: ScanState, r: Record, env: Env): ScanState {
    var look := env.look(r.key);
    match Judge(look.now, look.describe, env.bypass)
    case Crash => s.(flow := Crashed)
    case NotOld(code) => var (w, flow) := RetireLook(s.w, r.key, code, look); s.(w := w, flow := flow)
    case Old(since) => s.(w := Say(s.w, Checked(r.key, look.now, since)), groups := AddToGroups(s.groups, r))
  }

  function Scan(s: ScanState, items: seq<Record>, env: Env): ScanState
    decreases items
  {
    if items == [] || s.flow != Going then s else Scan(ScanOne(s, items[0], env), items[1..], env)
  }

  // ----- the ladder

  function Threshold(step: int): nat {
    if step == 2 then 120 else if step == 3 then 312 else 24
  }

  predicate StepReady(step: int, hours: int) {
    || (step == 1 && hours == 0)
    || (2 <= step <= 4 && hours >= Threshold(step))
  }

  function Climbed(r: Record, step: int, stampedAt: Instant): Record {
    r.(step := step, notified := Some(Format(stampedAt)))
  }

  /** One grouped instance; the flag says an exception leaves the handler. */
  function VisitOne(w: World, r: Record, step: int, stampedAt: Instant, env: Env): (World, bool) {
    var v := env.visit(r.key);
    match HourDiff(v.now, r.notified, env.west)
    case None => (w, true)
    case Some(hours) =>
      if !StepReady(step, hours) then (w, false)
      else if step <= 3 then
        if step == 2 && v.tag == Raised then (w, true)
        else
          var w1 := if step == 2 && v.tag == Done then Say(w, Tagged(r.key)) else w;
          (if v.put then Put(w1, Climbed(r, step, stampedAt), Advanced(r.key, step, stampedAt, v.now)) else w1, false)
      else if v.image != Done then (w, true)
      else
        var w1 := Say(w, Imaged(r.key));
        if v.terminate == Raised then (w1, true)
        else
          var w2 := if v.terminate == Done then Say(w1, Terminated(r.key, v.now)) else w1;
          (Drop(w2, r.key, v.drop), false)
  }

  function VisitMembers(w: World, members: seq<Record>, step: int, stampedAt: Instant, env: Env): (World, bool)
    decreases members
  {
    if members == [] then (w, false)
    else
      var (w1, crashed) := VisitOne(w, members[0], step, stampedAt, env);
      if crashed then (w1, true) else VisitMembers(w1, members[1..], step, stampedAt, env)
  }

  /** A group, then its e-mail and chat message, built from the last member. */
  function VisitGroup(w: World, creator: string, g: StepGroup, env: Env): (World, bool) {
    var batch := env.batch(creator, g.step);
    var (w1, crashed) := VisitMembers(w, g.members, g.step, batch.now, env);
    if crashed || g.members == [] then (w1, crashed)
    else if batch.send == Raised then (w1, true)
    else (Say(w1, Sent(creator, g.step, g.members[|g.members| - 1].notified, Format(batch.now))), false)
  }

  function VisitSteps(w: World, creator: string, steps: seq<StepGroup>, env: Env): (World, bool)
    decreases steps
  {
    if steps == [] then (w, false)
    else
      var (w1, crashed) := VisitGroup(w, creator, steps[0], env);
      if crashed then (w1, true) else VisitSteps(w1, creator, steps[1..], env)
  }

  function VisitGroups(w: World, groups: seq<Group>, env: Env): (World, bool)
    decreases groups
  {
    if groups == [] then (w, false)
    else
      var (w1, crashed) := VisitSteps(w, groups[0].creator, groups[0].steps, env);
      if crashed then (w1, true) else VisitGroups(w1, groups[1..], env)
  }

  function Scanned(w: World, items: seq<Record>, env: Env): ScanState {
    Scan(ScanState(Say(w, Started), [], Going), items, env)
  }

  /** One whole invocation: the new world, and whether it ended in an exception. */
  function Invoke(w: World, items: seq<Record>, env: Env): (World, bool) {
    var s := Scanned(w, items, env);
    if s.flow == Crashed then (s.w, true) else VisitGroups(s.w, s.groups, env)
  }

  // ----- the other writer of the table

  const MAX_RETRY_ATTEMPTS := 5

  /** How the table answers one query: it works, it is refused and tried again, or it
      raises for good. */
  datatype Query = Answered | Throttled | Rejected

  /** What the lookup tells its caller. */
  datatype Lookup = LookupRaises | Nothing | Seen(record: Record)

  /** `get_by_id` from the given attempt on; after the fifth refusal it says "nothing". */
  function LookUp(table: map<Key, Record>, k: Key, query: nat -> Query, attempt: nat): Lookup
    requires attempt <= MAX_RETRY_ATTEMPTS
    decreases MAX_RETRY_ATTEMPTS - attempt
  {
    if attempt == MAX_RETRY_ATTEMPTS then Nothing
    else
      match query(attempt)
      case Rejected => LookupRaises
      case Throttled => LookUp(table, k, query, attempt + 1)
      case Answered => if k in table then Seen(table[k]) else Nothing
  }

  /** A known record is told as unknown exactly when all five queries are refused. */
  lemma LookUpMissesIff(table: map<Key, Record>, k: Key, query: nat -> Query)
    requires k in table
    ensures LookUp(table, k, query, 0) == Nothing <==> forall a :: 0 <= a < 5 ==> query(a) == Throttled
    ensures LookUp(table, k, query, 0).Seen? ==> LookUp(table, k, query, 0).record == table[k]
  {
    LookUpFrom(table, k, query, 0);
  }

  /** The lookup raises exactly when a query is rejected after at most four refusals; an
      unknown record is otherwise told as unknown. */
  lemma {:induction false} LookUpRaisesIff(table: map<Key, Record>, k: Key, query: nat -> Query, attempt: nat)
    requires attempt <= MAX_RETRY_ATTEMPTS
    ensures LookUp(table, k, query, attempt).LookupRaises? <==>
            exists a :: attempt <= a < 5 && RejectedAt(query, attempt, a)
    ensures k !in table ==> !LookUp(table, k, query, attempt).Seen?
    decreases MAX_RETRY_ATTEMPTS - attempt
  {
    if attempt < 5 && query(attempt) == Throttled {
      var next := attempt + 1;
      LookUpRaisesIff(table, k, query, next);
      if a :| next <= a < 5 && RejectedAt(query, next, a) {
        assert RejectedAt(query, attempt, a);
      }
      if a :| attempt <= a < 5 && RejectedAt(query, attempt, a) {
        assert RejectedAt(query, next, a);
      }
    } else if attempt < 5 && query(attempt) == Rejected {
      assert RejectedAt(query, attempt, attempt);
    } else if attempt < 5 {
      assert forall a :: attempt <= a < 5 ==> !RejectedAt(query, attempt, a);
    }
  }

  /** The first query from `attempt` on that is not refused is rejected, at `a`. */
  predicate RejectedAt(query: nat -> Query, attempt: nat, a: nat) {
    query(a) == Rejected && forall b :: attempt <= b < a ==> query(b) == Throttled
  }

  lemma {:induction false} LookUpFrom(table: map<Key, Record>, k: Key, query: nat -> Query, attempt: nat)
    requires k in table && attempt <= MAX_RETRY_ATTEMPTS
    ensures LookUp(table, k, query, attempt) == Nothing <==>
            forall a :: attempt <= a < MAX_RETRY_ATTEMPTS ==> query(a) == Throttled
    ensures LookUp(table, k, query, attempt).Seen? ==> LookUp(table, k, query, attempt).record == table[k]
    decreases MAX_RETRY_ATTEMPTS - attempt
  {
    if attempt < MAX_RETRY_ATTEMPTS && query(attempt) == Throttled {
      LookUpFrom(table, k, query, attempt + 1);
    }
  }

  datatype Details = Details(region: string, createdBy: string, createdAt: string, stoppedAt: string)

  function RecordOf(k: Key, d: Details, step: int, notified: Option<Stamp>): Record {
    Record(k, d.region, d.createdBy, d.createdAt, d.stoppedAt, step, notified)
  }

  /** Field by field, what a write leaves: the other records, the event's details, and the step
      and notification that were read, or a start. A failed write changes nothing. */
  lemma StoredFields(w: World, k: Key, d: Details, looked: Lookup, readAt: nat)
    requires !looked.LookupRaises?
    ensures var w1 := Stored(w, k, d, looked, readAt, true);
            && w1.table.Keys == w.table.Keys + {k} && (forall x :: x in w.table && x != k ==> w1.table[x] == w.table[x])
            && w1.table[k].key == k && w1.table[k].region == d.region && w1.table[k].createdBy == d.createdBy
            && w1.table[k].createdAt == d.createdAt && w1.table[k].stoppedAt == d.stoppedAt
            && w1.table[k].step == (if looked.Seen? then looked.record.step else 0)
            && w1.table[k].notified == (if looked.Seen? then looked.record.notified else None)
    ensures Stored(w, k, d, looked, readAt, false) == Stored(w, k, d, LookupRaises, readAt, true) == w
  {
  }

  /** `detect_unused_resources.handle_event` after its lookup, which was made when the log
      had `readAt` events: a record seen keeps the step and notification seen, anything
      else starts at step 0, never notified. The write replaces what is there by then. */
  function Stored(w: World, k: Key, d: Details, looked: Lookup, readAt: nat, ok: bool): World {
    if !ok || looked.LookupRaises? then w
    else if looked.Nothing? then Put(w, RecordOf(k, d, 0, None), Inserted(k))
    else Put(w, RecordOf(k, d, looked.record.step, looked.record.notified), Rewritten(k, readAt))
  }

  /** The table, with the loops of both Lambdas. It is changed in place; an exception
      leaves the earlier writes where they are. */
  class InstanceTable {
    var table: map<Key, Record>
    var log: seq<Event>

    function Now(): World
      reads this
    {
      World(table, log)
    }

    constructor ()
      ensures Now() == World(map[], [])
    {
      table, log := map[], [];
    }

    method ScanTable(items: seq<Record>, env: Env) returns (groups: seq<Group>, flow: Flow)
      modifies this
      ensures ScanState(Now(), groups, flow) == Scanned(old(Now()), items, env)
    {
      groups, flow, log := [], Going, log + [Started];
      var i := 0;
      while i < |items| && flow == Going
        invariant i <= |items|
        invariant Scan(ScanState(Now(), groups, flow), items[i..], env) == Scanned(old(Now()), items, env)
      {
        var r := items[i];
        var look := env.look(r.key);
        var v := IsInstanceOlderThan5Days(look.now, look.describe, env.bypass);
        match v {
          case Crash => flow := Crashed;
          case NotOld(code) =>
            if look.untag == Raised {
              flow := Crashed;
            } else {
              if look.untag == Done {
                log := log + [Untagged(r.key)];
              }
              if look.drop {
                table, log := table - {r.key}, log + [Removed(r.key)];
              }
              if code == "SKIP" {
                flow := Skipped;
              } else if look.send == Raised {
                flow := Crashed;
              }
            }
          case Old(since) =>
            log := log + [Checked(r.key, look.now, since)];
            groups := AddToGroups(groups, r);
        }
        assert items[i..][1..] == items[i + 1..];
        i := i + 1;
      }
    }

    method Climb(r: Record, step: int, stampedAt: Instant, v: Visit)
      modifies this
      ensures var climbed := Climbed(r, step, stampedAt);
              Now() == if v.put then Put(old(Now()), climbed, Advanced(r.key, step, stampedAt, v.now)) else old(Now())
    {
      if v.put {
        table, log := table[r.key := Climbed(r, step, stampedAt)], log + [Advanced(r.key, step, stampedAt, v.now)];
      }
    }

    method HandleInstance(r: Record, step: int, stampedAt: Instant, env: Env) returns (crashed: bool)
      modifies this
      ensures (Now(), crashed) == VisitOne(old(Now()), r, step, stampedAt, env)
    {
      var v := env.visit(r.key);
      var hourDiff := HourDiff(v.now, r.notified, env.west);
      if hourDiff.None? {
        return true;
      }
      var hours := hourDiff.value;
      if step == 1 && hours == 0 {
        Climb(r, step, stampedAt, v);
      }
      if step == 2 && hours >= 120 {
        if v.tag == Raised {
          return true;
        }
        if v.tag == Done {
          log := log + [Tagged(r.key)];
        }
        Climb(r, step, stampedAt, v);
      }
      if step == 3 && hours >= 312 {
        Climb(r, step, stampedAt, v);
      }
      if step == 4 && hours >= 24 {
        if v.image != Done {
          return true;
        }
        log := log + [Imaged(r.key)];
        if v.terminate == Raised {
          return true;
        }
        if v.terminate == Done {
          log := log + [Terminated(r.key, v.now)];
        }
        if v.drop {
          table, log := table - {r.key}, log + [Removed(r.key)];
        }
      }
      return false;
    }

    method HandleGroup(creator: string, g: StepGroup, env: Env) returns (crashed: bool)
      modifies this
      ensures (Now(), crashed) == VisitGroup(old(Now()), creator, g, env)
    {
      var batch := env.batch(creator, g.step);
      var lastNotified := None;
      for i := 0 to |g.members|
        invariant VisitMembers(Now(), g.members[i..], g.step, batch.now, env)
                  == VisitMembers(old(Now()), g.members, g.step, batch.now, env)
        invariant i > 0 ==> lastNotified == g.members[i - 1].notified
      {
        lastNotified := g.members[i].notified;
        var raised := HandleInstance(g.members[i], g.step, batch.now, env);
        assert g.members[i..][1..] == g.members[i + 1..];
        if raised {
          return true;
        }
      }
      if g.members != [] {
        if batch.send == Raised {
          return true;
        }
        log := log + [Sent(creator, g.step, lastNotified, Format(batch.now))];
      }
      return false;
    }

    method GetById(k: Key, query: nat -> Query) returns (looked: Lookup)
      ensures looked == LookUp(table, k, query, 0)
    {
      var retryAttempts := 0;
      while retryAttempts < MAX_RETRY_ATTEMPTS
        invariant retryAttempts <= MAX_RETRY_ATTEMPTS
        invariant LookUp(table, k, query, retryAttempts) == LookUp(table, k, query, 0)
      {
        match query(retryAttempts) {
          case Answered => return if k in table then Seen(table[k]) else Nothing;
          case Throttled => retryAttempts := retryAttempts + 1;
          case Rejected => return LookupRaises;
        }
      }
      looked := Nothing;
    }

    /** One event of the other Lambda, with nothing in between lookup and write. */
    method StoreDetection(k: Key, d: Details, query: nat -> Query, ok: bool)
      modifies this
      ensures Now() == Stored(old(Now()), k, d, LookUp(old(table), k, query, 0), |old(log)|, ok)
    {
      var looked := GetById(k, query);
      if looked.LookupRaises? || !ok {
        return;
      }
      if looked.Seen? {
        var step, notified := looked.record.step, looked.record.notified;
        table, log := table[k := RecordOf(k, d, step, notified)], log + [Rewritten(k, |log|)];
      } else {
        table, log := table[k := RecordOf(k, d, 0, None)], log + [Inserted(k)];
      }
    }

    /** The EC2 half of `lambda_handler`. */
    method Handle(items: seq<Record>, env: Env) returns (crashed: bool)
      modifies this
      ensures (Now(), crashed) == Invoke(old(Now()), items, env)
    {
      var groups, flow := ScanTable(items, env);
      if flow == Crashed {
        return true;
      }
      label Scanned:
      for i := 0 to |groups|
        invariant VisitGroups(Now(), groups[i..], env) == VisitGroups(old@Scanned(Now()), groups, env)
      {
        var g := groups[i];
        ghost var before := Now();
        for j := 0 to |g.steps|
          invariant VisitSteps(Now(), g.creator, g.steps[j..], env) == VisitSteps(before, g.creator, g.steps, env)
        {
          var raised := HandleGroup(g.creator, g.steps[j], env);
          assert g.steps[j..][1..] == g.steps[j + 1..];
          if raised {
            assert groups[i..][0] == g;
            return true;
          }
        }
        assert groups[i..][0] == g && groups[i..][1..] == groups[i + 1..];
      }
      return false;
    }
  }
}

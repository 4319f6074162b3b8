/**
 Reading the log of a run. Everything the detector writes in one invocation rests on
 the records of its scan, and everything the other Lambda writes on the record it has
 looked up, so the climbs behind a record are those of the moment it was read.
 */
module LadderLog {
  import opened Common
  import opened Clock
  import opened Ladder

  /** The instance was seen stopped since `since`. */
  datatype Sighting = Sighting(at: Instant, since: Instant)

  /** A recorded climb, with the sighting of the same invocation before it. */
  datatype Notice = Notice(step: int, stampedAt: Instant, at: Instant, seen: Option<Sighting>)

  /** Where the last invocation of the detector started, which is when it scanned. */
  function LastStart(log: seq<Event>): (n: nat)
    ensures n <= |log|
  {
    if log == [] then 0
    else if log[|log| - 1].Started? then |log| - 1
    else LastStart(log[..|log| - 1])
  }

  /** The last sighting of `k` in that invocation. */
  function LastSighting(log: seq<Event>, k: Key): Option<Sighting> {
    if log == [] then None
    else
      var e, before := log[|log| - 1], log[..|log| - 1];
      if e.Started? then None
      else if e.Checked? && e.key == k then Some(Sighting(e.at, e.since))
      else LastSighting(before, k)
  }

  /** Removing a record, or storing one that starts over. */
  predicate Breaks(e: Event, k: Key) {
    e == Inserted(k) || e == Removed(k)
  }

  /** Writing a record that was read before. */
  predicate Writes(e: Event, k: Key) {
    (e.Advanced? || e.Rewritten?) && e.key == k
  }

  /** The length of the log when the record written by `e` was read. */
  function ReadAt(before: seq<Event>, e: Event): (n: nat)
    ensures n <= |before|
  {
    if e.Rewritten? && e.readAt <= |before| then e.readAt
    else if e.Advanced? then LastStart(before)
    else |before|
  }

  /** The climbs behind the record of `k`. */
  function History(log: seq<Event>, k: Key): seq<Notice>
    decreases |log|
  {
    if log == [] then []
    else
      var e, before := log[|log| - 1], log[..|log| - 1];
      if Breaks(e, k) then []
      else if Writes(e, k) then
        var read := History(before[..ReadAt(before, e)], k);
        if e.Advanced? then read + [Notice(e.step, e.stampedAt, e.at, LastSighting(before, k))] else read
      else History(before, k)
  }

  lemma LogGrows(log: seq<Event>, e: Event, k: Key)
    ensures LastStart(log + [e]) == if e.Started? then |log| else LastStart(log)
    ensures LastSighting(log + [e], k) ==
            if e.Started? then None
            else if e.Checked? && e.key == k then Some(Sighting(e.at, e.since))
            else LastSighting(log, k)
    ensures History(log + [e], k) ==
            if Breaks(e, k) then []
            else if Writes(e, k) then
              var read := History(log[..ReadAt(log, e)], k);
              if e.Advanced? then read + [Notice(e.step, e.stampedAt, e.at, LastSighting(log, k))] else read
            else History(log, k)
  {
    assert (log + [e])[..|log|] == log;
  }

  /** Where the climbs of the history stand in the log. */
  function Positions(log: seq<Event>, k: Key): seq<nat>
    decreases |log|
  {
    if log == [] then []
    else
      var e, before := log[|log| - 1], log[..|log| - 1];
      if Breaks(e, k) then []
      else if Writes(e, k) then
        var read := Positions(before[..ReadAt(before, e)], k);
        if e.Advanced? then read + [|before|] else read
      else Positions(before, k)
  }

  /** The history is really in the log: one climb of the same key per notice, in order. */
  lemma {:induction false} HistoryPositions(log: seq<Event>, k: Key)
    ensures var h, ps := History(log, k), Positions(log, k);
            && |ps| == |h|
            && (forall i :: 0 <= i < |ps| ==>
                 ps[i] < |log| && log[ps[i]] == Advanced(k, h[i].step, h[i].stampedAt, h[i].at))
            && (forall i, j :: 0 <= i < j < |ps| ==> ps[i] < ps[j])
    decreases |log|
  {
    hide LastSighting, ReadAt;
    if log != [] {
      var e, before := log[|log| - 1], log[..|log| - 1];
      if Writes(e, k) {
        HistoryPositions(before[..ReadAt(before, e)], k);
      } else if !Breaks(e, k) {
        HistoryPositions(before, k);
      }
    }
  }

  predicate Unbroken(log: seq<Event>, k: Key, from: nat, to: nat)
    requires from <= to <= |log|
  {
    forall p :: from <= p < to ==> !Breaks(log[p], k)
  }

  /** No write behind the history brings climbs back across a break. */
  predicate Uninterrupted(log: seq<Event>, k: Key)
    decreases |log|
  {
    log != [] ==>
      var e, before := log[|log| - 1], log[..|log| - 1];
      if Breaks(e, k) then true
      else if Writes(e, k) then
        var read := ReadAt(before, e);
        || Positions(before[..read], k) == []
        || (Unbroken(before, k, read, |before|) && Uninterrupted(before[..read], k))
      else Uninterrupted(before, k)
  }

  lemma UnbrokenLast(log: seq<Event>, k: Key, from: nat)
    requires log != [] && from < |log|
    ensures var n := |log| - 1;
            Unbroken(log, k, from, |log|) <==> Unbroken(log[..n], k, from, n) && !Breaks(log[n], k)
  {
    var n := |log| - 1;
    assert forall p :: 0 <= p < n ==> log[..n][p] == log[p];
    if Unbroken(log, k, from, |log|) {
      assert forall p :: from <= p < n ==> !Breaks(log[p], k);
    }
    if Unbroken(log[..n], k, from, n) && !Breaks(log[n], k) {
      forall p | from <= p < |log| ensures !Breaks(log[p], k) {
        assert p < n ==> !Breaks(log[..n][p], k);
      }
    }
  }

  lemma UnbrokenPrefix(log: seq<Event>, k: Key, from: nat, mid: nat)
    requires from <= mid <= |log|
    ensures Unbroken(log, k, from, |log|) <==> Unbroken(log[..mid], k, from, mid) && Unbroken(log, k, mid, |log|)
  {
    assert forall p :: 0 <= p < mid ==> log[..mid][p] == log[p];
    if Unbroken(log[..mid], k, from, mid) && Unbroken(log, k, mid, |log|) {
      forall p | from <= p < |log| ensures !Breaks(log[p], k) {
        assert p < mid ==> !Breaks(log[..mid][p], k);
      }
    }
  }

  /** Exactly then nothing removes or resets the record from its first climb on. */
  lemma {:induction false} UninterruptedIff(log: seq<Event>, k: Key)
    ensures Positions(log, k) != [] ==> Positions(log, k)[0] < |log|
    ensures Uninterrupted(log, k) <==> (Positions(log, k) != [] ==> Unbroken(log, k, Positions(log, k)[0], |log|))
    decreases |log|
  {
    hide Unbroken, ReadAt;
    if log != [] {
      var n, ps := |log| - 1, Positions(log, k);
      var e, before := log[n], log[..n];
      if Writes(e, k) {
        var read := ReadAt(before, e);
        UninterruptedIff(before[..read], k);
        if Positions(before[..read], k) != [] {
          UnbrokenPrefix(before, k, ps[0], read);
        } else {
          assert Unbroken(log[..n], k, n, n) by { NothingBreaks(log[..n], k, n); }
        }
      } else {
        UninterruptedIff(before, k);
      }
      if ps != [] {
        UnbrokenLast(log, k, ps[0]);
      }
    }
  }

  lemma NothingBreaks(log: seq<Event>, k: Key, n: nat)
    requires n <= |log|
    ensures Unbroken(log, k, n, n)
  {
  }

  /** The write at `p` brings back nothing across a break. */
  predicate Fresh(log: seq<Event>, k: Key, p: nat)
    requires p < |log|
  {
    Writes(log[p], k) ==> Unbroken(log, k, ReadAt(log[..p], log[p]), p)
  }

  /** In particular when every record written was read after the last break before. */
  lemma {:induction false} FreshWritesNeverInterrupt(log: seq<Event>, k: Key)
    requires forall p :: 0 <= p < |log| ==> Fresh(log, k, p)
    ensures Uninterrupted(log, k)
    decreases |log|
  {
    hide ReadAt;
    if log != [] {
      var n := |log| - 1;
      var e, before := log[n], log[..n];
      FreshBefore(log, k, n);
      FreshWritesNeverInterrupt(before, k);
      if Writes(e, k) {
        var read := ReadAt(before, e);
        assert before[..read] == log[..read];
        FreshBefore(log, k, read);
        FreshWritesNeverInterrupt(before[..read], k);
        assert Fresh(log, k, n);
        assert forall p :: read <= p < n ==> before[p] == log[p];
      }
    }
  }

  lemma FreshBefore(log: seq<Event>, k: Key, n: nat)
    requires n <= |log|
    requires forall p :: 0 <= p < |log| ==> Fresh(log, k, p)
    ensures forall p :: 0 <= p < n ==> Fresh(log[..n], k, p)
  {
    hide ReadAt;
    assert forall p :: 0 <= p < n ==> log[..n][p] == log[p];
    forall p | 0 <= p < n ensures Fresh(log[..n], k, p) {
      assert Fresh(log, k, p);
      assert log[..n][..p] == log[..p];
    }
  }
}

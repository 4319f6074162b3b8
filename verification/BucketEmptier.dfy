/**
 Emptying a versioned bucket while paginating over it. Object versions and delete
 markers are the positions of one listing order; a listing resumes strictly after a
 marker, and deleting does not move the others.
 */
module BucketEmptier {
  import opened Common

  const BATCH_LIMIT := 1000

  /** One page: `next` is the marker to resume after, if the listing is truncated. */
  datatype ListAnswer = ListFails | Page(versions: seq<nat>, markers: seq<nat>, next: Option<nat>)

  /** The call can fail as a whole, having deleted some of the objects, or answer with
      the objects that could not be deleted. */
  datatype DeleteAnswer = DeleteFails(gone: set<nat>) | Answered(errors: seq<nat>)

  /** `limit` bounds the positions of the listing. */
  datatype Env = Env(limit: nat, list: (set<nat>, int) -> ListAnswer, delete: seq<nat> -> DeleteAnswer,
                     head: Option<bool>, deleteBucket: bool)

  function Ranks(s: seq<nat>): set<nat> {
    set x | x in s
  }

  predicate Once(s: seq<nat>) {
    forall i, j :: 0 <= i < j < |s| ==> s[i] != s[j]
  }

  /** A page holds exactly the live positions after `after`, up to `next` if truncated;
      a truncated page moves the marker on, and may be empty. */
  ghost predicate HonestPage(env: Env, live: set<nat>, after: int, page: ListAnswer)
    requires page.Page?
  {
    && Once(page.versions + page.markers) && |page.versions| + |page.markers| <= BATCH_LIMIT
    && (page.next.Some? ==> after < page.next.value < env.limit)
    && (forall x :: x in page.versions + page.markers <==>
         x in live && after < x && (page.next.Some? ==> x <= page.next.value))
  }

  ghost predicate Honest(env: Env) {
    && (forall live, after :: env.list(live, after).Page? ==> HonestPage(env, live, after, env.list(live, after)))
    && (forall objects :: env.delete(objects).Answered? ==>
         forall x :: x in env.delete(objects).errors ==> x in objects)
  }

  class Bucket {
    var live: set<nat>
    var present: bool
    /** The calls made: each listing with what was live then, and each batch. */
    var listings: seq<(set<nat>, int)>
    var batches: seq<seq<nat>>

    constructor (live: set<nat>)
      ensures this.live == live && present && listings == [] && batches == []
    {
      this.live, present, listings, batches := live, true, [], [];
    }

    method ListPage(after: int, env: Env) returns (page: ListAnswer)
      modifies this`listings
      ensures page == env.list(live, after) && listings == old(listings) + [(live, after)]
    {
      page := env.list(live, after);
      listings := listings + [(live, after)];
    }

    /** `DeleteObjects` as S3 carries it out. */
    method DeleteObjects(objects: seq<nat>, env: Env) returns (answer: DeleteAnswer)
      modifies this
      ensures answer == env.delete(objects) && batches == old(batches) + [objects]
      ensures present == old(present) && listings == old(listings)
      ensures answer.Answered? ==> live == old(live) - (Ranks(objects) - Ranks(answer.errors))
      ensures answer.DeleteFails? ==> live == old(live) - (Ranks(objects) * answer.gone)
    {
      answer := env.delete(objects);
      batches := batches + [objects];
      match answer {
        case Answered(errors) => live := live - (Ranks(objects) - Ranks(errors));
        case DeleteFails(gone) => live := live - (Ranks(objects) * gone);
      }
    }

    /** The result is nil exactly if no call failed, neither as a whole nor for one key; then
        the bucket is empty and every entry was asked for exactly once. Batches are within
        the limit in any case. */
    method EmptyS3Bucket(env: Env) returns (ok: bool)
      requires Honest(env) && forall x :: x in live ==> x < env.limit
      requires listings == [] && batches == []
      modifies this
      ensures present == old(present) && live <= old(live)
      ensures ok <==> AllWork(env, listings, batches)
      ensures ok ==> live == {} && listings != []
      ensures ok ==> multiset(Concat(batches)) == multiset(old(live))
      ensures forall b :: b in batches ==> 0 < |b| <= 1000
    {
      hide *;
      ghost var all := live;
      var firstPage := true;
      var marker: Option<nat> := None;
      StartOf(all);
      NoCallFailed(env);
      while firstPage || marker.Some?
        invariant present == old(present) && live <= all == old(live)
        invariant live == if firstPage || marker.Some? then LiveAfter(all, Position(marker)) else {}
        invariant marker.Some? ==> marker.value < env.limit
        invariant firstPage ==> marker.None?
        invariant !firstPage ==> listings != []
        invariant AllWork(env, listings, batches)
        invariant forall b :: b in batches ==> 0 < |b| <= 1000
        invariant multiset(Concat(batches)) == multiset(all - live)
        decreases if firstPage then env.limit + 2 else if marker.Some? then env.limit - marker.value + 1 else 0
      {
        var page := ListPage(Position(marker), env);
        OneMoreListing(env, listings, batches);
        if page.ListFails? {
          return false;
        }
        var objects := CollectPage(page);
        PageDone(env, all, live, marker, page, batches);
        firstPage, marker := false, page.next;
        if |objects| == 0 {
          continue;
        }
        var answer := DeleteObjects(objects, env);
        OneMoreBatch(env, listings, batches);
        if answer.DeleteFails? || |answer.errors| > 0 {
          return false;
        }
        assert answer.errors == [];
        NoErrors(objects);
      }
      assert all - live == all;
      ok := true;
    }

    method CollectPage(page: ListAnswer) returns (objects: seq<nat>)
      requires page.Page?
      ensures objects == page.versions + page.markers
    {
      objects := [];
      for i := 0 to |page.versions|
        invariant objects == page.versions[..i]
      {
        objects := objects + [page.versions[i]];
      }
      for i := 0 to |page.markers|
        invariant objects == page.versions + page.markers[..i]
      {
        objects := objects + [page.markers[i]];
      }
    }

    /** `DeleteBucket` is only called on an empty bucket, once everything before it worked. */
    method DeleteS3BucketIfExists(env: Env) returns (ok: bool, bucketCalls: nat)
      requires Honest(env) && forall x :: x in live ==> x < env.limit
      requires listings == [] && batches == [] && (env.head.Some? ==> env.head.value == present)
      modifies this
      ensures ok <==> env.head.Some? &&
                      (old(present) ==> AllWork(env, listings, batches) && listings != [] && env.deleteBucket)
      ensures env.head.Some? ==> (ok <==> !present)
      ensures env.head.None? || !old(present) ==>
                live == old(live) && present == old(present) && listings == [] && batches == []
      ensures bucketCalls > 0 ==> live == {}
      ensures bucketCalls == if env.head.Some? && old(present) && AllWork(env, listings, batches) then 1 else 0
    {
      bucketCalls := 0;
      if env.head.None? {
        return false, 0;
      }
      if !env.head.value {
        return true, 0;
      }
      ok := EmptyS3Bucket(env);
      if !ok {
        return;
      }
      bucketCalls := 1;
      if !env.deleteBucket {
        return false, 1;
      }
      present := false;
    }
  }

  /** No call failed: every listing gave a page, and every batch was deleted key by key. */
  ghost predicate AllWork(env: Env, listings: seq<(set<nat>, int)>, batches: seq<seq<nat>>) {
    && (forall l :: l in listings ==> env.list(l.0, l.1).Page?)
    && (forall b :: b in batches ==> env.delete(b) == Answered([]))
  }

  lemma NoCallFailed(env: Env)
    ensures AllWork(env, [], [])
  {
  }

  lemma OneMoreListing(env: Env, listings: seq<(set<nat>, int)>, batches: seq<seq<nat>>)
    requires listings != [] && AllWork(env, listings[..|listings| - 1], batches)
    ensures var l := listings[|listings| - 1];
            AllWork(env, listings, batches) <==> env.list(l.0, l.1).Page?
  {
    assert listings == listings[..|listings| - 1] + [listings[|listings| - 1]];
  }

  lemma OneMoreBatch(env: Env, listings: seq<(set<nat>, int)>, batches: seq<seq<nat>>)
    requires batches != [] && AllWork(env, listings, batches[..|batches| - 1])
    ensures AllWork(env, listings, batches) <==> env.delete(batches[|batches| - 1]) == Answered([])
  {
    assert batches == batches[..|batches| - 1] + [batches[|batches| - 1]];
  }

  function Position(marker: Option<nat>): int {
    if marker.Some? then marker.value else -1
  }

  function LiveAfter(live: set<nat>, after: int): set<nat> {
    set x | x in live && after < x
  }

  lemma StartOf(all: set<nat>)
    ensures LiveAfter(all, Position(None)) == all && multiset(Concat<nat>([])) == multiset(all - all)
  {
    assert all - all == {};
  }

  lemma NoErrors(objects: seq<nat>)
    ensures Ranks(objects) - Ranks([]) == Ranks(objects)
  {
  }

  /** One page listed and deleted: what is live then is what the listing has yet to show,
      and the page's entries are the ones newly asked for. */
  lemma PageDone(env: Env, all: set<nat>, live: set<nat>, marker: Option<nat>, page: ListAnswer, batches: seq<seq<nat>>)
    requires Honest(env) && page == env.list(live, Position(marker)) && page.Page?
    requires live == LiveAfter(all, Position(marker)) && multiset(Concat(batches)) == multiset(all - live)
    ensures var objects := page.versions + page.markers;
            var left := live - Ranks(objects);
            && |objects| <= 1000
            && (page.next.Some? ==> page.next.value < env.limit && (marker.Some? ==> marker.value < page.next.value))
            && left == (if page.next.Some? then LiveAfter(all, page.next.value) else {})
            && (objects == [] ==> left == live)
            && multiset(Concat(batches + [objects])) == multiset(all - left)
            && (page.next.Some? ==> Position(page.next) == page.next.value)
  {
    var objects := page.versions + page.markers;
    assert HonestPage(env, live, Position(marker), page);
    DeletingBehindTheMarkerSkipsNothing(env, live, Position(marker), page);
    assert page.next.Some? ==> LiveAfter(live, page.next.value) == LiveAfter(all, page.next.value);
    assert (batches + [objects])[..|batches|] == batches;
    BatchCounted(all, live, objects, batches + [objects]);
  }

  lemma {:induction false} OnceIsSet(s: seq<nat>)
    requires Once(s)
    ensures multiset(s) == multiset(Ranks(s))
  {
    if s != [] {
      var n := |s| - 1;
      OnceIsSet(s[..n]);
      assert s == s[..n] + [s[n]];
      assert Ranks(s) == Ranks(s[..n]) + {s[n]};
    }
  }

  lemma BatchCounted(all: set<nat>, live: set<nat>, objects: seq<nat>, batches: seq<seq<nat>>)
    requires live <= all && Once(objects) && Ranks(objects) <= live
    requires batches != [] && batches[|batches| - 1] == objects
    requires multiset(Concat(batches[..|batches| - 1])) == multiset(all - live)
    ensures multiset(Concat(batches)) == multiset(all - (live - Ranks(objects)))
  {
    hide Once;
    OnceIsSet(objects);
    assert all - (live - Ranks(objects)) == (all - live) + Ranks(objects);
    assert multiset((all - live) + Ranks(objects)) == multiset(all - live) + multiset(Ranks(objects));
  }

  /** Resuming after the last entry of a page that has been deleted skips nothing: what is
      still live is exactly what the listing has yet to show. */
  lemma DeletingBehindTheMarkerSkipsNothing(env: Env, live: set<nat>, after: int, page: ListAnswer)
    requires page.Page? && HonestPage(env, live, after, page) && forall x :: x in live ==> after < x
    ensures var left := live - Ranks(page.versions + page.markers);
            left == if page.next.Some? then LiveAfter(live, page.next.value) else {}
  {
  }
}

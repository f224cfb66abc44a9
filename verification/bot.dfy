/**
 `main` and the scheduler loop around it: one cycle computes the watermark,
 fetches with it as `since_id`, and publishes a reply for each returned post in
 order. A run is a finite number of cycles, each against its own remote.
 */
module Bot {
  import opened Items
  import opened Watermarks
  import opened Fetch
  import opened Post
  import opened Dedup

  /** `is_business_hours` is hard-wired to true, so it never holds a reply back. */
  function IsBusinessHours(): bool { true }

  /** How `client.create_tweet` answers: created, created with `errors`, or raised. */
  datatype PublishOutcome = Created | CreatedWithErrors | Raised

  /** One call of `create_post`: the text it sent and how the remote answered. */
  datatype Publication = Publication(text: string, outcome: PublishOutcome)

  /** The remote one cycle talks to: its fetch answers and its answer to each reply. */
  datatype CycleEnv = CycleEnv(outcomes: seq<FetchOutcome>, respond: string -> PublishOutcome)

  /** One cycle: the set it started from, the `since_id` it used, the fetch and the replies. */
  datatype Cycle = Cycle(
    seenBefore: set<int>,
    watermark: Option<int>,
    fetch: FetchRun,
    published: seq<Publication>)

  /**
   Lines 232-235 with `create_post`'s handler: every post gets one reply, in
   order; whatever the remote answers to one reply, the next is still sent.
   */
  function PublishAll(handle: string, items: seq<Item>, respond: string -> PublishOutcome)
    : (log: seq<Publication>)
    ensures |log| == |items|
    ensures forall i :: 0 <= i < |items| ==> log[i].text == ComposePost(handle, items[i])
    ensures forall i :: 0 <= i < |items| ==> log[i].outcome == respond(log[i].text)
  {
    if |items| == 0 then []
    else
      var rest := PublishAll(handle, items[1..], respond);
      if IsBusinessHours() then
        var text := ComposePost(handle, items[0]);
        var log := [Publication(text, respond(text))] + rest;
        assert log[1..] == rest;
        assert forall i :: 1 <= i < |items| ==> items[i] == items[1..][i - 1];
        log
      else rest
  }

  /**
   The bookkeeping of a cycle: it fetched with the watermark of the set it
   started from, every post it answered had an unprocessed id, and the set grew
   by exactly those ids.
   */
  ghost predicate Advances(c: Cycle)
  {
    && c.watermark == Watermark(c.seenBefore)
    && (forall i :: 0 <= i < |c.fetch.items| ==> c.fetch.items[i].id !in c.seenBefore)
    && c.fetch.seen == c.seenBefore + IdsOf(c.fetch.items)
  }

  /** `main(request=None)` on the processed set `seen` (lines 221-235). */
  ghost function RunCycle(seen: set<int>, handle: string, env: CycleEnv): (c: Cycle)
    ensures c.seenBefore == seen
    ensures Advances(c)
    ensures AtMost(c.watermark, Watermark(c.fetch.seen))
    ensures forall i :: 0 <= i < |c.fetch.sinceIds| ==> c.fetch.sinceIds[i] == c.watermark
    ensures |c.published| == |c.fetch.items|
    ensures forall i :: 0 <= i < |c.published| ==>
              c.published[i].text == ComposePost(handle, c.fetch.items[i])
  {
    var w := Watermark(seen);
    var f := FetchTweets(env.outcomes, w, seen);
    WatermarkMonotone(seen, f.seen);
    Cycle(seen, w, f, PublishAll(handle, f.items, env.respond))
  }

  /** How the remote answers replies has no effect on the set or on which replies are sent. */
  lemma PublishOutcomesAreIgnored(
    seen: set<int>, handle: string, outcomes: seq<FetchOutcome>,
    respond1: string -> PublishOutcome, respond2: string -> PublishOutcome)
    ensures var c1 := RunCycle(seen, handle, CycleEnv(outcomes, respond1));
            var c2 := RunCycle(seen, handle, CycleEnv(outcomes, respond2));
            && c1.fetch == c2.fetch
            && |c1.published| == |c2.published|
            && forall i :: 0 <= i < |c1.published| ==> c1.published[i].text == c2.published[i].text
  {
  }

  /**
   The shape of a run of the scheduler loop: every cycle keeps the bookkeeping
   of `main`, and each cycle starts from the set the previous one reached.
   */
  ghost predicate Chained(run: seq<Cycle>)
  {
    && (forall i :: 0 <= i < |run| ==> Advances(run[i]))
    && (forall i, j :: 0 <= i && j == i + 1 && j < |run| ==> run[j].seenBefore == run[i].fetch.seen)
  }

  /**
   The scheduler loop (lines 238-246) cut to one cycle per given remote. A
   cycle whose remote runs out while it is still being rate-limited has not
   returned from `main`, so no later cycle runs.
   */
  ghost function RunCycles(seen: set<int>, handle: string, envs: seq<CycleEnv>): (run: seq<Cycle>)
    ensures |run| <= |envs|
    ensures |envs| > 0 ==> |run| > 0 && run[0].seenBefore == seen
    ensures Chained(run)
    decreases |envs|
  {
    if |envs| == 0 then []
    else
      var c := RunCycle(seen, handle, envs[0]);
      if c.fetch.status == Unfinished then [c]
      else
        var rest := RunCycles(c.fetch.seen, handle, envs[1..]);
        ChainedCons(c, rest);
        [c] + rest
  }

  /**
   A run ends early only at a cycle whose remote ran out, and every cycle
   before the last returned from `main`.
   */
  lemma {:induction false} RunStopsOnlyWhenUnfinished(seen: set<int>, handle: string, envs: seq<CycleEnv>)
    ensures var run := RunCycles(seen, handle, envs);
            && (forall i :: 0 <= i < |run| - 1 ==> run[i].fetch.status != Unfinished)
            && (|run| < |envs| ==> run[|run| - 1].fetch.status == Unfinished)
    decreases |envs|
  {
    if |envs| > 0 {
      var c := RunCycle(seen, handle, envs[0]);
      if c.fetch.status != Unfinished {
        RunStopsOnlyWhenUnfinished(c.fetch.seen, handle, envs[1..]);
        StopsCons(c, RunCycles(c.fetch.seen, handle, envs[1..]), |envs| - 1);
      }
    }
  }

  /** A returning cycle in front of a run that stops at its first unfinished cycle keeps that shape. */
  lemma StopsCons(c: Cycle, rest: seq<Cycle>, n: nat)
    requires c.fetch.status != Unfinished
    requires forall i :: 0 <= i < |rest| - 1 ==> rest[i].fetch.status != Unfinished
    requires |rest| <= n && (n > 0 ==> |rest| > 0)
    requires |rest| < n ==> rest[|rest| - 1].fetch.status == Unfinished
    ensures var run := [c] + rest;
            && (forall i :: 0 <= i < |run| - 1 ==> run[i].fetch.status != Unfinished)
            && (|run| < n + 1 ==> run[|run| - 1].fetch.status == Unfinished)
  {
    var run := [c] + rest;
    assert forall i :: 1 <= i < |run| ==> run[i] == rest[i - 1];
  }

  /** Each cycle of a run is `main` run on the set the run has reached. */
  lemma {:induction false} RunCyclesRunsMain(seen: set<int>, handle: string, envs: seq<CycleEnv>, i: nat)
    requires i < |RunCycles(seen, handle, envs)|
    ensures var run := RunCycles(seen, handle, envs);
            run[i] == RunCycle(run[i].seenBefore, handle, envs[i])
    decreases i
  {
    if i > 0 {
      var c := RunCycle(seen, handle, envs[0]);
      assert c.fetch.status != Unfinished;
      RunCyclesRunsMain(c.fetch.seen, handle, envs[1..], i - 1);
      assert RunCycles(seen, handle, envs)[i] == RunCycles(c.fetch.seen, handle, envs[1..])[i - 1];
    }
  }

  /** A cycle that leads into a chained run extends it. */
  lemma ChainedCons(c: Cycle, rest: seq<Cycle>)
    requires Advances(c) && Chained(rest)
    requires |rest| > 0 ==> rest[0].seenBefore == c.fetch.seen
    ensures Chained([c] + rest)
  {
    var run := [c] + rest;
    assert forall i :: 1 <= i < |run| ==> run[i] == rest[i - 1];
  }

  /** A remote that runs out during the first cycle ends the run there, whatever follows. */
  lemma ExhaustedRemoteEndsRun(
    seen: set<int>, handle: string, respond: string -> PublishOutcome, envs: seq<CycleEnv>)
    ensures var run := RunCycles(seen, handle, [CycleEnv([], respond)] + envs);
            |run| == 1 && run[0].fetch.status == Unfinished && run[0].published == []
  {
    assert ([CycleEnv([], respond)] + envs)[0] == CycleEnv([], respond);
  }

  /** Within a run the processed set only grows. */
  lemma {:induction false} SeenGrowsAcrossRun(run: seq<Cycle>, i: nat, j: nat)
    requires Chained(run)
    requires i <= j < |run|
    ensures run[i].seenBefore <= run[j].seenBefore
    decreases j - i
  {
    if i < j {
      assert Advances(run[i]);
      assert run[i].seenBefore <= run[i].fetch.seen == run[i + 1].seenBefore;
      SeenGrowsAcrossRun(run, i + 1, j);
    }
  }

  /** The `since_id` of later cycles is never below that of earlier ones. */
  lemma WatermarkNeverDecreases(run: seq<Cycle>, i: nat, j: nat)
    requires Chained(run)
    requires i <= j < |run|
    ensures AtMost(run[i].watermark, run[j].watermark)
  {
    SeenGrowsAcrossRun(run, i, j);
    assert Advances(run[i]) && Advances(run[j]);
    WatermarkMonotone(run[i].seenBefore, run[j].seenBefore);
  }

  /** A post answered in one cycle is never answered again in a later cycle. */
  lemma NoRepublishAcrossCycles(run: seq<Cycle>, i: nat, j: nat)
    requires Chained(run)
    requires i < j < |run|
    ensures IdsOf(run[i].fetch.items) !! IdsOf(run[j].fetch.items)
  {
    SeenGrowsAcrossRun(run, i + 1, j);
    assert Advances(run[i]) && Advances(run[j]);
    assert run[i + 1].seenBefore == run[i].fetch.seen;
    forall x | x in IdsOf(run[j].fetch.items) ensures x !in IdsOf(run[i].fetch.items) {
      var k :| 0 <= k < |run[j].fetch.items| && run[j].fetch.items[k].id == x;
    }
  }

  /**
   From an empty set, a response holding post 101 "hello" is fetched with no
   `since_id`, marks 101 processed, and is answered once with its reply.
   */
  lemma FirstCycleExample(handle: string, respond: string -> PublishOutcome)
    ensures var c := RunCycle({}, handle, CycleEnv([Fetched(Some([Item(101, "hello")]))], respond));
            && c.fetch.sinceIds == [None]
            && c.fetch.seen == {101}
            && |c.published| == 1
            && c.published[0].text == ComposePost(handle, Item(101, "hello"))
  {
    SingleNewPost(Item(101, "hello"), {});
  }
}

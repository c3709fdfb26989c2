/** Where the batches of a feed begin and end, and which events a shutdown loses. */
module BatchCollection {
  import opened Prelude
  import opened Reconciler
  import opened ReconcileBatches

  ghost predicate AllArrived(feed: seq<Signal>, lo: nat, hi: nat)
    requires lo <= hi <= |feed|
  {
    forall i | lo <= i < hi :: feed[i].Arrived?
  }

  function EventsIn(feed: seq<Signal>, lo: nat, hi: nat): (r: seq<Event>)
    requires lo <= hi <= |feed| && AllArrived(feed, lo, hi)
  {
    seq(hi - lo, i requires 0 <= i < hi - lo => feed[lo + i].event)
  }

  // ---- The first batch ----

  lemma EventsInTheRest(feed: seq<Signal>, m: nat, lo: nat, hi: nat)
    requires m <= |feed| && lo <= hi <= |feed| - m && AllArrived(feed, m + lo, m + hi)
    ensures AllArrived(feed[m..], lo, hi) && EventsIn(feed[m..], lo, hi) == EventsIn(feed, m + lo, m + hi)
  {
    forall i | lo <= i < hi ensures feed[m..][i].Arrived? { assert feed[m..][i] == feed[m + i]; }
    assert EventsIn(feed[m..], lo, hi) == EventsIn(feed, m + lo, m + hi);
  }

  lemma {:induction false} TimersBeforeTheFirst(feed: seq<Signal>, a: nat)
    requires a <= |feed| && forall i | 0 <= i < a :: feed[i].TimerEnds?
    ensures FirstBatch(feed, []) == FirstBatch(feed[a..], [])
  {
    if a > 0 {
      TimersBeforeTheFirst(feed[1..], a - 1);
      assert feed[1..][a - 1..] == feed[a..];
    }
  }

  lemma {:induction false} ArrivalsAreCollected(feed: seq<Signal>, n: nat, collected: seq<Event>)
    requires n <= |feed| && AllArrived(feed, 0, n)
    ensures FirstBatch(feed, collected) == FirstBatch(feed[n..], collected + EventsIn(feed, 0, n))
  {
    if n == 0 {
      assert collected + EventsIn(feed, 0, 0) == collected;
    } else {
      ArrivalsAreCollected(feed[1..], n - 1, collected + [feed[0].event]);
      assert feed[1..][n - 1..] == feed[n..];
      assert collected + [feed[0].event] + EventsIn(feed[1..], 0, n - 1) == collected + EventsIn(feed, 0, n);
    }
  }

  lemma CollectionStops(feed: seq<Signal>, collected: seq<Event>)
    requires feed == [] || feed[0].ShutDown? || (collected != [] && feed[0].TimerEnds?)
    ensures FirstBatch(feed, collected).0 ==
      if collected != [] && (feed == [] || feed[0].TimerEnds?) then Some(collected) else None
    ensures FirstBatch(feed, collected).1 == if feed == [] then [] else feed[1..]
  {}

  /** The feed starts with timers up to `a`, then has events up to `n`, then something else or nothing. */
  ghost predicate FirstRun(feed: seq<Signal>, a: nat, n: nat) {
    && a <= n <= |feed|
    && (forall i | 0 <= i < a :: feed[i].TimerEnds?)
    && AllArrived(feed, a, n)
    && (n == |feed| || (if a == n then feed[n].ShutDown? else !feed[n].Arrived?))
  }

  lemma {:induction false} FindFirstRun(feed: seq<Signal>) returns (a: nat, n: nat)
    ensures FirstRun(feed, a, n)
  {
    a := 0;
    while a < |feed| && feed[a].TimerEnds?
      invariant a <= |feed| && forall i | 0 <= i < a :: feed[i].TimerEnds?
    {
      a := a + 1;
    }
    n := a;
    while n < |feed| && feed[n].Arrived?
      invariant a <= n <= |feed| && AllArrived(feed, a, n)
      invariant n == a < |feed| ==> !feed[a].TimerEnds?
    {
      n := n + 1;
    }
  }

  lemma FirstRunIsCollected(feed: seq<Signal>, a: nat, n: nat)
    requires FirstRun(feed, a, n)
    ensures FirstBatch(feed, []) == FirstBatch(feed[n..], EventsIn(feed, a, n))
  {
    var events, run := EventsIn(feed, a, n), feed[a..];
    TimersBeforeTheFirst(feed, a);
    EventsInTheRest(feed, a, 0, n - a);
    ArrivalsAreCollected(run, n - a, []);
    assert run[n - a..] == feed[n..];
    assert [] + events == events;
  }

  /** Where the collection of the first run stops. */
  function AfterRun(feed: seq<Signal>, n: nat): nat {
    if n < |feed| then n + 1 else n
  }

  /**
   * A batch is the events that arrive in a row, up to the first timer after them or the closed channel. Timers
   * that end before the first event end nothing, and a shutdown drops what was collected.
   */
  lemma FirstBatchIsTheFirstRun(feed: seq<Signal>, a: nat, n: nat)
    requires FirstRun(feed, a, n)
    ensures FirstBatch(feed, []).0 ==
      if a < n && (n == |feed| || feed[n].TimerEnds?) then Some(EventsIn(feed, a, n)) else None
    ensures FirstBatch(feed, []).0.Some? ==> FirstBatch(feed, []).1 == feed[AfterRun(feed, n)..]
  {
    FirstRunIsCollected(feed, a, n);
    CollectionStops(feed[n..], EventsIn(feed, a, n));
    if n < |feed| { assert feed[n..][1..] == feed[n + 1..]; }
  }

  /** A timer ends the batch that came before it, whatever follows. */
  lemma TimerEndsTheBatch(events: seq<Event>, rest: seq<Signal>)
    requires events != []
    ensures FirstBatch(seq(|events|, i requires 0 <= i < |events| => Arrived(events[i])) + [TimerEnds] + rest, []) ==
      (Some(events), rest)
  {
    var feed := seq(|events|, i requires 0 <= i < |events| => Arrived(events[i])) + [TimerEnds] + rest;
    FirstBatchIsTheFirstRun(feed, 0, |events|);
    assert EventsIn(feed, 0, |events|) == events;
    assert feed[|events| + 1..] == rest;
  }

  // ---- All the batches ----

  lemma FirstRunComesFirst(feed: seq<Signal>, a: nat, n: nat)
    requires FirstRun(feed, a, n) && a < n && (n == |feed| || feed[n].TimerEnds?)
    ensures Batches(feed) == [EventsIn(feed, a, n)] + Batches(feed[AfterRun(feed, n)..])
  {
    FirstBatchIsTheFirstRun(feed, a, n);
  }

  /** The signals from `lo` to `hi` are a run of events between timers, before any shutdown. */
  ghost predicate IsRun(feed: seq<Signal>, lo: nat, hi: nat) {
    && lo < hi <= |feed| && AllArrived(feed, lo, hi)
    && (lo == 0 || feed[lo - 1].TimerEnds?)
    && (hi == |feed| || feed[hi].TimerEnds?)
    && forall i | 0 <= i < hi :: !feed[i].ShutDown?
  }

  /** A run ahead of what the first batch leaves is one of the whole feed, and the other way round. */
  lemma RunInTheRest(feed: seq<Signal>, a: nat, n: nat, lo: nat, hi: nat)
    requires FirstRun(feed, a, n) && a < n < |feed| && feed[n].TimerEnds? && lo < hi <= |feed| - (n + 1)
    ensures IsRun(feed[n + 1..], lo, hi) <==> IsRun(feed, n + 1 + lo, n + 1 + hi)
  {
    var rest, m := feed[n + 1..], n + 1;
    assert forall i: nat | i < |rest| :: rest[i] == feed[m + i];
    if IsRun(rest, lo, hi) {
      forall i | 0 <= i < m + hi ensures !feed[i].ShutDown? {
        if i >= m { assert rest[i - m] == feed[i]; }
      }
      forall i | m + lo <= i < m + hi ensures feed[i].Arrived? { assert rest[i - m] == feed[i]; }
    }
  }

  lemma {:induction false} BatchesAreRuns(feed: seq<Signal>, b: nat) returns (lo: nat, hi: nat)
    requires b < |Batches(feed)|
    ensures IsRun(feed, lo, hi) && Batches(feed)[b] == EventsIn(feed, lo, hi)
    decreases b
  {
    var a, n := FindFirstRun(feed);
    FirstBatchIsTheFirstRun(feed, a, n);
    if b == 0 {
      lo, hi := a, n;
    } else {
      var rest := feed[AfterRun(feed, n)..];
      assert Batches(feed)[1..] == Batches(rest);
      lo, hi := BatchesAreRuns(rest, b - 1);
      assert n < |feed|;
      RunInTheRest(feed, a, n, lo, hi);
      EventsInTheRest(feed, n + 1, lo, hi);
      lo, hi := n + 1 + lo, n + 1 + hi;
    }
  }

  lemma OnlyTheFirstRunIsFirst(feed: seq<Signal>, a: nat, n: nat, lo: nat, hi: nat)
    requires FirstRun(feed, a, n) && IsRun(feed, lo, hi)
    ensures a < n && (n == |feed| || feed[n].TimerEnds?)
    ensures (lo == a && hi == n) || n < lo
  {
    assert feed[lo].Arrived? && feed[hi - 1].Arrived?;
    assert a <= lo;
  }

  /** Batch `b` of the rest is batch `b + 1` of the feed. */
  lemma RunBehindTheFirst(feed: seq<Signal>, a: nat, n: nat, lo: nat, hi: nat, b: nat)
    requires FirstRun(feed, a, n) && a < n < |feed| && feed[n].TimerEnds?
    requires lo <= hi <= |feed| - (n + 1) && AllArrived(feed, n + 1 + lo, n + 1 + hi)
    requires b < |Batches(feed[n + 1..])| && AllArrived(feed[n + 1..], lo, hi)
    requires Batches(feed[n + 1..])[b] == EventsIn(feed[n + 1..], lo, hi)
    ensures b + 1 < |Batches(feed)| && Batches(feed)[b + 1] == EventsIn(feed, n + 1 + lo, n + 1 + hi)
  {
    FirstRunComesFirst(feed, a, n);
    EventsInTheRest(feed, n + 1, lo, hi);
  }

  /** Every run of events between timers, before any shutdown, is a batch. */
  lemma {:induction false} RunsAreBatches(feed: seq<Signal>, lo: nat, hi: nat) returns (b: nat)
    requires IsRun(feed, lo, hi)
    ensures b < |Batches(feed)| && Batches(feed)[b] == EventsIn(feed, lo, hi)
    decreases |feed|
  {
    var a, n := FindFirstRun(feed);
    OnlyTheFirstRunIsFirst(feed, a, n, lo, hi);
    if lo == a {
      FirstRunComesFirst(feed, a, n);
      b := 0;
    } else {
      var m := n + 1;
      RunInTheRest(feed, a, n, lo - m, hi - m);
      b := RunsAreBatches(feed[m..], lo - m, hi - m);
      RunBehindTheFirst(feed, a, n, lo - m, hi - m, b);
      b := b + 1;
    }
  }

  // ---- What a shutdown loses ----

  /** The events that arrive before a shutdown. */
  function Heard(feed: seq<Signal>): seq<Event> {
    if feed == [] || feed[0].ShutDown? then []
    else if feed[0].Arrived? then [feed[0].event] + Heard(feed[1..])
    else Heard(feed[1..])
  }

  /**
   * The signals before `cut` are flushed: all of them when nothing shuts down, otherwise those up to the last
   * timer before the first shutdown.
   */
  ghost predicate FlushedUpTo(feed: seq<Signal>, cut: nat) {
    && cut <= |feed|
    && (forall i | 0 <= i < cut :: !feed[i].ShutDown?)
    && if ShutDown !in feed then cut == |feed| else
         && (cut == 0 || feed[cut - 1].TimerEnds?)
         && exists s :: cut <= s < |feed| && feed[s].ShutDown? && forall i | cut <= i < s :: feed[i].Arrived?
  }

  /** Every feed is flushed up to somewhere. */
  lemma FindCut(feed: seq<Signal>) returns (cut: nat)
    ensures FlushedUpTo(feed, cut)
  {
    cut := 0;
    var k := 0;
    while k < |feed| && !feed[k].ShutDown?
      invariant cut <= k <= |feed| && (cut == 0 || feed[cut - 1].TimerEnds?)
      invariant forall i | 0 <= i < k :: !feed[i].ShutDown?
      invariant forall i | cut <= i < k :: feed[i].Arrived?
    {
      k := k + 1;
      if feed[k - 1].TimerEnds? { cut := k; }
    }
    if k == |feed| { cut := k; }
  }

  lemma {:induction false} HeardOfRun(feed: seq<Signal>, n: nat, rest: seq<Signal>)
    requires n <= |feed| && AllArrived(feed, 0, n)
    ensures Heard(feed[..n] + rest) == EventsIn(feed, 0, n) + Heard(rest)
  {
    var all := feed[..n] + rest;
    if n == 0 {
      assert all == rest;
    } else {
      HeardOfRun(feed[1..], n - 1, rest);
      assert all[1..] == feed[1..][..n - 1] + rest;
      assert EventsIn(feed, 0, n) == [feed[0].event] + EventsIn(feed[1..], 0, n - 1);
    }
  }

  lemma {:induction false} HeardOfTimers(feed: seq<Signal>, a: nat)
    requires a <= |feed| && forall i | 0 <= i < a :: feed[i].TimerEnds?
    ensures Heard(feed) == Heard(feed[a..])
  {
    if a > 0 {
      HeardOfTimers(feed[1..], a - 1);
      assert feed[1..][a - 1..] == feed[a..];
    }
  }

  /** What is heard of a first run and what follows it. */
  lemma HeardOfFirstRun(feed: seq<Signal>, a: nat, n: nat, cut: nat)
    requires FirstRun(feed, a, n) && AfterRun(feed, n) <= cut <= |feed| && (n == |feed| || feed[n].TimerEnds?)
    ensures Heard(feed[..cut]) == EventsIn(feed, a, n) + Heard(feed[AfterRun(feed, n)..cut])
  {
    var head := feed[..cut];
    HeardOfTimers(head, a);
    assert head[a..] == feed[a..][..n - a] + feed[n..cut];
    HeardOfRun(feed[a..], n - a, feed[n..cut]);
    assert EventsIn(feed[a..], 0, n - a) == EventsIn(feed, a, n);
    if n < |feed| {
      assert feed[n..cut][1..] == feed[n + 1..cut];
    }
  }

  lemma CutIsBehindTheRun(feed: seq<Signal>, a: nat, n: nat, cut: nat)
    requires FirstRun(feed, a, n) && FlushedUpTo(feed, cut) && a < n && (n == |feed| || feed[n].TimerEnds?)
    ensures AfterRun(feed, n) <= cut
    ensures FlushedUpTo(feed[AfterRun(feed, n)..], cut - AfterRun(feed, n))
  {
    var m := AfterRun(feed, n);
    var rest := feed[m..];
    assert forall i: nat | i < |rest| :: rest[i] == feed[m + i];
    if ShutDown in feed {
      var s :| cut <= s < |feed| && feed[s].ShutDown? && forall i | cut <= i < s :: feed[i].Arrived?;
      assert s >= m && n < |feed|;
      assert cut > n;
      assert rest[s - m] == feed[s];
      forall i | cut - m <= i < s - m ensures rest[i].Arrived? { assert rest[i] == feed[m + i]; }
    } else {
      assert ShutDown !in rest;
    }
  }

  /**
   * The batches, one after the other, are the events before the last timer that ends before a shutdown, and all
   * events when nothing shuts down: a shutdown loses only what arrived since the last timer.
   */
  lemma {:induction false} BatchesAreWhatWasHeard(feed: seq<Signal>, cut: nat)
    requires FlushedUpTo(feed, cut)
    ensures Concat(Batches(feed)) == Heard(feed[..cut])
    decreases |feed|
  {
    var a, n := FindFirstRun(feed);
    FirstBatchIsTheFirstRun(feed, a, n);
    if FirstBatch(feed, []).0.Some? {
      var m := AfterRun(feed, n);
      CutIsBehindTheRun(feed, a, n, cut);
      HeardOfFirstRun(feed, a, n, cut);
      BatchesAreWhatWasHeard(feed[m..], cut - m);
      assert feed[m..][..cut - m] == feed[m..cut];
      assert Batches(feed)[1..] == Batches(feed[m..]);
    } else {
      NothingFlushed(feed, a, n, cut);
    }
  }

  lemma NothingFlushed(feed: seq<Signal>, a: nat, n: nat, cut: nat)
    requires FirstRun(feed, a, n) && FlushedUpTo(feed, cut) && !(a < n && (n == |feed| || feed[n].TimerEnds?))
    ensures Heard(feed[..cut]) == []
  {
    assert cut <= a;
    HeardOfTimers(feed[..cut], cut);
  }

  /** An event with a timer behind it, and no shutdown up to that timer, is in a batch. */
  lemma EventsBeforeATimerAreApplied(feed: seq<Signal>, i: nat, j: nat) returns (b: nat)
    requires i < j < |feed| && feed[i].Arrived? && feed[j].TimerEnds?
    requires forall k | 0 <= k < j :: !feed[k].ShutDown?
    ensures b < |Batches(feed)| && feed[i].event in Batches(feed)[b]
  {
    var lo, hi := i, i;
    while lo > 0 && feed[lo - 1].Arrived?
      invariant 0 <= lo <= i && forall k | lo <= k <= i :: feed[k].Arrived?
    {
      lo := lo - 1;
    }
    while feed[hi].Arrived?
      invariant i <= hi <= j && forall k | i <= k < hi :: feed[k].Arrived?
      decreases j - hi
    {
      hi := hi + 1;
    }
    b := RunsAreBatches(feed, lo, hi);
    assert EventsIn(feed, lo, hi)[i - lo] == feed[i].event;
  }

  /** The loop over a whole feed leaves what the events it flushed leave, one by one. */
  lemma TheLoopAppliesWhatItHears(setup: Setup, s: State, feed: seq<Signal>, cut: nat, r: State)
    requires AppliesBatches(setup, s, Batches(feed), r) && FlushedUpTo(feed, cut)
    requires
      || EveryPutRuns(setup, Heard(feed[..cut]))
      || (OnlyStarted(setup, s) && forall i | 0 <= i < |Batches(feed)| :: Harmless(setup, Batches(feed)[i]))
    ensures SameFlows(r, ApplyAll(setup, s, Heard(feed[..cut])))
  {
    BatchesAreWhatWasHeard(feed, cut);
    if EveryPutRuns(setup, Heard(feed[..cut])) {
      BatchingIsInvisible(setup, s, Batches(feed), r);
    } else {
      BatchesAgree(setup, s, s, Batches(feed), r);
    }
  }
}

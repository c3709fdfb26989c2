/** What pods read of published changes while anybody is at work on them, and what this means for deployment. */
module PublishedReads {
  import opened Prelude
  import opened Targets
  import opened Changes
  import opened Lifecycle
  import opened LifecycleSafety
  import opened PublishedHistory

  /** `c` was the record of some key at some moment of the run. */
  ghost predicate ReadDuring(rules: Rules, start: World, steps: seq<Step>, c: Change) {
    exists i, key :: 0 <= i <= |steps| && Holding(Run(rules, start, steps[..i]), key, c)
  }

  predicate Holding(w: World, key: string, c: Change) {
    key in w.records && w.records[key].change == c
  }

  lemma {:induction false} RunSplit(rules: Rules, w: World, a: seq<Step>, b: seq<Step>)
    ensures Run(rules, w, a + b) == Run(rules, Run(rules, w, a), b)
    decreases |b|
  {
    if b == [] {
      assert a + b == a;
    } else {
      RunSplit(rules, w, a, b[..|b| - 1]);
      assert (a + b)[..|a + b| - 1] == a + b[..|b| - 1];
    }
  }

  lemma KeyIsTheId(rules: Rules, w: World, key: string, c: Change)
    requires Reachable(rules, w) && Holding(w, key, c)
    ensures c.id == key && Distinct(FilePaths(c.files))
  {
    ReachableInv(rules, w);
    ReachableHistory(rules, w, key);
    var h := w.history[key];
    IdsAgree(rules, h, |h| - 1);
    PathsStayDistinct(rules, h, |h| - 1);
  }

  lemma PublishedStaysRead(rules: Rules, start: World, steps: seq<Step>, i: nat, j: nat, key: string, c: Change)
    requires Init(start) && i <= j <= |steps|
    requires Holding(Run(rules, start, steps[..i]), key, c) && c.status == Published
    ensures Holding(Run(rules, start, steps[..j]), key, c)
  {
    var before := Run(rules, start, steps[..i]);
    assert steps[..j] == steps[..i] + steps[i..j];
    RunSplit(rules, start, steps[..i], steps[i..j]);
    assert Reachable(rules, before);
    TerminalRecordsStay(rules, before, key, steps[i..j]);
  }

  /** Two published records of one id, read whenever and in whichever order, are one record. */
  lemma PublishedReadsAgree(rules: Rules, start: World, steps: seq<Step>, a: Change, b: Change)
    requires Init(start) && ReadDuring(rules, start, steps, a) && ReadDuring(rules, start, steps, b)
    requires a.status == Published && b.status == Published && a.id == b.id
    ensures a == b
  {
    var i, p :| 0 <= i <= |steps| && Holding(Run(rules, start, steps[..i]), p, a);
    var j, q :| 0 <= j <= |steps| && Holding(Run(rules, start, steps[..j]), q, b);
    KeyIsTheId(rules, Run(rules, start, steps[..i]), p, a);
    KeyIsTheId(rules, Run(rules, start, steps[..j]), q, b);
    if i <= j {
      PublishedStaysRead(rules, start, steps, i, j, p, a);
    } else {
      PublishedStaysRead(rules, start, steps, j, i, q, b);
    }
  }

  /**
   * Whatever was going on while the changes were read one by one: a file of a published change that
   * matches what runs is not pending, so a change all of whose files run is never reported waiting.
   */
  lemma RunningFileOfAReadChangeIsNotPending(rules: Rules, start: World, steps: seq<Step>, changes: seq<Change>,
                                             change: Change, published: Published, running: Running, i: nat)
    requires Init(start) && ReadDuring(rules, start, steps, change) && change.status == Status.Published
    requires forall k | 0 <= k < |changes| :: ReadDuring(rules, start, steps, changes[k])
    requires Indexes(published, Decided(changes))
    requires i < |change.files| && FileRuns(change.files[i], running)
    ensures !FilePends(change, change.files[i], published, running)
  {
    var at, key :| 0 <= at <= |steps| && Holding(Run(rules, start, steps[..at]), key, change);
    KeyIsTheId(rules, Run(rules, start, steps[..at]), key, change);
    forall c | c in changes && c.status == Status.Published && c.id == change.id ensures c.files == change.files {
      var k :| 0 <= k < |changes| && changes[k] == c;
      PublishedReadsAgree(rules, start, steps, c, change);
    }
    RunningFileIsNotPending(changes, change, published, running, i);
  }
}

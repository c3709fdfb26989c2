/** The dispatcher that clones every event into each branch that still takes events. */
module FanOut {
  /** Whether a branch is found closed when the k-th event is dispatched. */
  type Closed = (nat, nat) -> bool

  /** The event, from the k-th on, at which branch `b` is first found closed, or the end. */
  function OpenUntil(closed: Closed, b: nat, k: nat, n: nat): (r: nat)
    requires k <= n
    ensures k <= r <= n
    ensures forall i | k <= i < r :: !closed(b, i)
    ensures r < n ==> closed(b, r)
    decreases n - k
  {
    if k == n || closed(b, k) then k else OpenUntil(closed, b, k + 1, n)
  }

  /** What was sent into branch `b`, in order. */
  function SentTo<E>(sent: seq<(nat, E)>, b: nat): seq<E> {
    if sent == [] then []
    else
      var last := sent[|sent| - 1];
      SentTo(sent[..|sent| - 1], b) + (if last.0 == b then [last.1] else [])
  }

  /** `retain(|branch| !branch.is_closed())`. */
  method Retain(branches: seq<nat>, closed: Closed, k: nat) returns (open: seq<nat>)
    requires forall i, j | 0 <= i < j < |branches| :: branches[i] != branches[j]
    ensures forall b :: b in open <==> b in branches && !closed(b, k)
    ensures forall i, j | 0 <= i < j < |open| :: open[i] != open[j]
  {
    open := [];
    for i := 0 to |branches|
      invariant forall b :: b in open <==> b in branches[..i] && !closed(b, k)
      invariant forall i, j | 0 <= i < j < |open| :: open[i] != open[j]
    {
      assert branches[..i + 1] == branches[..i] + [branches[i]];
      if !closed(branches[i], k) {
        assert branches[i] !in branches[..i];
        open := open + [branches[i]];
      }
    }
    assert branches[..|branches|] == branches;
  }

  method SendToAll<E>(before: seq<(nat, E)>, branches: seq<nat>, event: E) returns (sent: seq<(nat, E)>)
    requires forall i, j | 0 <= i < j < |branches| :: branches[i] != branches[j]
    ensures forall b :: SentTo(sent, b) == SentTo(before, b) + (if b in branches then [event] else [])
  {
    sent := before;
    for i := 0 to |branches|
      invariant forall b :: SentTo(sent, b) == SentTo(before, b) + (if b in branches[..i] then [event] else [])
    {
      ghost var was := sent;
      sent := sent + [(branches[i], event)];
      assert sent[..|sent| - 1] == was;
      assert branches[..i + 1] == branches[..i] + [branches[i]];
      assert branches[i] !in branches[..i];
    }
    assert branches[..|branches|] == branches;
  }

  /**
   * `fan_out`: each branch gets, in order, every event up to the one at which
   * it is found closed, whatever the other branches do; the dispatcher takes
   * all events unless every branch closed, and stops at the next one then.
   */
  method Dispatch<E>(events: seq<E>, count: nat, closed: Closed) returns (sent: seq<(nat, E)>, taken: nat)
    ensures taken <= |events|
    ensures forall b: nat | b < count :: SentTo(sent, b) == events[..OpenUntil(closed, b, 0, |events|)]
    ensures taken == |events| || (taken > 0 && forall b: nat | b < count :: OpenUntil(closed, b, 0, |events|) < taken)
    ensures forall b: nat | b < count :: OpenUntil(closed, b, 0, |events|) <= taken
  {
    sent := [];
    var branches: seq<nat> := seq(count, i requires 0 <= i => i);
    forall b: nat ensures b in branches <==> b < count {
      if b < count { assert branches[b] == b; }
    }
    taken := 0;
    while taken < |events|
      invariant taken <= |events|
      invariant forall i, j | 0 <= i < j < |branches| :: branches[i] != branches[j]
      invariant forall b: nat :: b in branches <==> b < count && OpenUntil(closed, b, 0, |events|) >= taken
      invariant forall b: nat | b < count ::
        SentTo(sent, b) == events[..if b in branches then taken else OpenUntil(closed, b, 0, |events|)]
    {
      var event := events[taken];
      ghost var known := branches;
      branches := Retain(branches, closed, taken);
      forall b: nat | b in known
        ensures closed(b, taken) <==> OpenUntil(closed, b, 0, |events|) == taken
      {}
      taken := taken + 1;
      if branches == [] { return; }
      sent := SendToAll(sent, branches, event);
      assert events[..taken] == events[..taken - 1] + [event];
    }
  }
}

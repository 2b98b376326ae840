/** Bounded nonce replay protection (`local_auth/replay.py`).  Times are seconds. */
module NonceReplay {
  import opened Schema

  datatype Entry = Entry(nonce: string, acceptedAt: real)

  datatype Bounds = Bounds(freshness: real, skew: real, maximum: nat)

  /** What the constructor demands. */
  predicate Positive(b: Bounds) {
    b.freshness > 0.0 && b.skew >= 0.0 && b.maximum > 0
  }

  // ---------------------------------------------------------------- pruning

  /** Removes stale entries from the front and stops at the first that is not. */
  function PrunedFront(seen: seq<Entry>, cutoff: real): seq<Entry> {
    if seen != [] && seen[0].acceptedAt < cutoff then PrunedFront(seen[1..], cutoff) else seen
  }

  /** Removes every stale entry. */
  function Recent(seen: seq<Entry>, cutoff: real): seq<Entry> {
    if seen == [] then []
    else if seen[0].acceptedAt < cutoff then Recent(seen[1..], cutoff) else [seen[0]] + Recent(seen[1..], cutoff)
  }

  predicate InTimeOrder(seen: seq<Entry>) {
    forall i, j :: 0 <= i < j < |seen| ==> seen[i].acceptedAt <= seen[j].acceptedAt
  }

  predicate StaleBeforeRecent(seen: seq<Entry>, cutoff: real) {
    forall i, j :: 0 <= i < j < |seen| && seen[j].acceptedAt < cutoff ==> seen[i].acceptedAt < cutoff
  }

  lemma {:induction false} RecentIsShorter(seen: seq<Entry>, cutoff: real)
    ensures |Recent(seen, cutoff)| <= |seen|
  {
    if seen != [] { RecentIsShorter(seen[1..], cutoff); }
  }

  predicate AllRecent(seen: seq<Entry>, cutoff: real) {
    forall i :: 0 <= i < |seen| ==> seen[i].acceptedAt >= cutoff
  }

  lemma {:induction false} RecentIsAllIff(seen: seq<Entry>, cutoff: real)
    ensures Recent(seen, cutoff) == seen <==> AllRecent(seen, cutoff)
  {
    if seen != [] {
      RecentIsAllIff(seen[1..], cutoff);
      RecentIsShorter(seen[1..], cutoff);
      assert AllRecent(seen, cutoff) <==> seen[0].acceptedAt >= cutoff && AllRecent(seen[1..], cutoff) by {
        assert forall i :: 0 < i < |seen| ==> seen[i] == seen[1..][i - 1];
      }
      assert seen == [seen[0]] + seen[1..];
      assert Recent(seen, cutoff) == seen ==> Recent(seen, cutoff)[1..] == seen[1..];
    }
  }

  /** Pruning the front is filtering if and only if no stale entry follows a recent one. */
  lemma {:induction false} PruningIsFilteringIff(seen: seq<Entry>, cutoff: real)
    ensures PrunedFront(seen, cutoff) == Recent(seen, cutoff) <==> StaleBeforeRecent(seen, cutoff)
  {
    if seen == [] {
    } else if seen[0].acceptedAt < cutoff {
      PruningIsFilteringIff(seen[1..], cutoff);
      assert forall i :: 0 < i < |seen| ==> seen[i] == seen[1..][i - 1];
    } else {
      RecentIsAllIff(seen, cutoff);
      assert StaleBeforeRecent(seen, cutoff) <==> AllRecent(seen, cutoff);
    }
  }

  // ---------------------------------------------------------------- accepting

  predicate Listed(seen: seq<Entry>, nonce: string) {
    exists e :: e in seen && e.nonce == nonce
  }

  predicate InRange(b: Bounds, timestamp: int, now: real) {
    now - b.freshness <= timestamp as real <= now + b.skew
  }

  function LastOf(seen: seq<Entry>, maximum: nat): seq<Entry> {
    if |seen| > maximum then seen[|seen| - maximum..] else seen
  }

  function Accepting(b: Bounds, seen: seq<Entry>, nonce: string, timestamp: int, now: real): (seq<Entry>, bool) {
    if !InRange(b, timestamp, now) then (seen, false)
    else
      var kept := PrunedFront(seen, now - b.freshness);
      if Listed(kept, nonce) then (kept, false) else (LastOf(kept + [Entry(nonce, now)], b.maximum), true)
  }

  class ReplayWindow {
    const bounds: Bounds
    var seen: seq<Entry>

    constructor (bounds: Bounds)
      requires Positive(bounds)
      ensures this.bounds == bounds && seen == []
    {
      this.bounds := bounds;
      seen := [];
    }

    method Prune(now: real)
      modifies this
      ensures seen == PrunedFront(old(seen), now - bounds.freshness)
    {
      var cutoff := now - bounds.freshness;
      while seen != [] && seen[0].acceptedAt < cutoff
        invariant PrunedFront(seen, cutoff) == PrunedFront(old(seen), cutoff)
        decreases |seen|
      {
        seen := seen[1..];
      }
    }

    method Evict()
      modifies this
      ensures seen == LastOf(old(seen), bounds.maximum)
    {
      while |seen| > bounds.maximum
        invariant LastOf(seen, bounds.maximum) == LastOf(old(seen), bounds.maximum)
        decreases |seen|
      {
        seen := seen[1..];
      }
    }

    method Accept(nonce: string, timestamp: int, now: real) returns (accepted: bool)
      modifies this
      ensures (seen, accepted) == Accepting(bounds, old(seen), nonce, timestamp, now)
    {
      if (timestamp as real) < now - bounds.freshness { return false; }
      if (timestamp as real) > now + bounds.skew { return false; }
      Prune(now);
      if Listed(seen, nonce) { return false; }
      seen := seen + [Entry(nonce, now)];
      Evict();
      accepted := true;
    }

    method Size(now: real) returns (size: nat)
      modifies this
      ensures seen == PrunedFront(old(seen), now - bounds.freshness) && size == |seen|
    {
      Prune(now);
      size := |seen|;
    }
  }

  // ---------------------------------------------------------------- runs

  datatype Attempt = Attempt(nonce: string, timestamp: int, now: real)

  function SeenAfter(b: Bounds, attempts: seq<Attempt>): seq<Entry> {
    if attempts == [] then []
    else
      var n := |attempts| - 1;
      Accepting(b, SeenAfter(b, attempts[..n]), attempts[n].nonce, attempts[n].timestamp, attempts[n].now).0
  }

  function AcceptedAt(b: Bounds, attempts: seq<Attempt>, k: nat): bool
    requires k < |attempts|
  {
    Accepting(b, SeenAfter(b, attempts[..k]), attempts[k].nonce, attempts[k].timestamp, attempts[k].now).1
  }

  /** Every acceptance of the run, whatever was evicted since. */
  function Acceptances(b: Bounds, attempts: seq<Attempt>): seq<Entry> {
    if attempts == [] then []
    else
      var n := |attempts| - 1;
      var before := Acceptances(b, attempts[..n]);
      if AcceptedAt(b, attempts, n) then before + [Entry(attempts[n].nonce, attempts[n].now)] else before
  }

  predicate Forward(attempts: seq<Attempt>) {
    forall i, j :: 0 <= i < j < |attempts| ==> attempts[i].now <= attempts[j].now
  }

  lemma {:induction false} AcceptancesInOrder(b: Bounds, attempts: seq<Attempt>)
    requires Forward(attempts)
    ensures InTimeOrder(Acceptances(b, attempts))
    ensures attempts != [] ==> forall e :: e in Acceptances(b, attempts) ==>
      e.acceptedAt <= attempts[|attempts| - 1].now
  {
    if attempts != [] {
      var n := |attempts| - 1;
      AcceptancesInOrder(b, attempts[..n]);
      var before := Acceptances(b, attempts[..n]);
      forall i | 0 <= i < |before| ensures before[i].acceptedAt <= attempts[n].now {
        assert before[i] in before;
      }
    }
  }

  /** The window is the end of the acceptances: at most `maximum` of them, and of the last
      `maximum` it misses only stale ones. */
  ghost predicate IsWindow(b: Bounds, seen: seq<Entry>, all: seq<Entry>, cutoff: real) {
    && |seen| <= b.maximum && |seen| <= |all| && seen == all[|all| - |seen|..]
    && forall i :: 0 <= i < |all| - |seen| && i >= |all| - b.maximum ==> all[i].acceptedAt < cutoff
  }

  lemma {:induction false} PrunedFrontDrops(seen: seq<Entry>, cutoff: real) returns (d: nat)
    ensures d <= |seen| && PrunedFront(seen, cutoff) == seen[d..]
    ensures forall i :: 0 <= i < d ==> seen[i].acceptedAt < cutoff
    ensures d < |seen| ==> seen[d].acceptedAt >= cutoff
  {
    if seen != [] && seen[0].acceptedAt < cutoff {
      d := PrunedFrontDrops(seen[1..], cutoff);
      assert forall i :: 0 < i < |seen| ==> seen[i] == seen[1..][i - 1];
      d := d + 1;
    } else {
      d := 0;
    }
  }

  lemma PrunedIsWindow(b: Bounds, seen: seq<Entry>, all: seq<Entry>, earlier: real, cutoff: real)
    requires IsWindow(b, seen, all, earlier) && earlier <= cutoff
    ensures IsWindow(b, PrunedFront(seen, cutoff), all, cutoff)
  {
    var d := PrunedFrontDrops(seen, cutoff);
    var kept := seen[d..];
    forall i | 0 <= i < |all| - |kept| && i >= |all| - b.maximum ensures all[i].acceptedAt < cutoff {
      if i >= |all| - |seen| { assert all[i] == seen[i - (|all| - |seen|)]; }
    }
  }

  lemma AcceptedIsWindow(b: Bounds, seen: seq<Entry>, all: seq<Entry>, e: Entry, cutoff: real)
    requires Positive(b) && IsWindow(b, seen, all, cutoff)
    ensures IsWindow(b, LastOf(seen + [e], b.maximum), all + [e], cutoff)
  {}

  lemma WindowLater(b: Bounds, seen: seq<Entry>, all: seq<Entry>, earlier: real, later: real)
    requires IsWindow(b, seen, all, earlier) && earlier <= later
    ensures IsWindow(b, seen, all, later)
  {}

  lemma AttemptIsWindow(b: Bounds, seen: seq<Entry>, all: seq<Entry>, nonce: string, timestamp: int, now: real)
    requires Positive(b) && IsWindow(b, seen, all, now - b.freshness)
    ensures var (after, accepted) := Accepting(b, seen, nonce, timestamp, now);
      IsWindow(b, after, if accepted then all + [Entry(nonce, now)] else all, now - b.freshness)
  {
    PrunedIsWindow(b, seen, all, now - b.freshness, now - b.freshness);
    AcceptedIsWindow(b, PrunedFront(seen, now - b.freshness), all, Entry(nonce, now), now - b.freshness);
  }

  lemma {:induction false} SeenIsWindow(b: Bounds, attempts: seq<Attempt>, now: real)
    requires Positive(b) && Forward(attempts) && forall i :: 0 <= i < |attempts| ==> attempts[i].now <= now
    ensures IsWindow(b, SeenAfter(b, attempts), Acceptances(b, attempts), now - b.freshness)
  {
    if attempts != [] {
      var n := |attempts| - 1;
      var a := attempts[n];
      SeenIsWindow(b, attempts[..n], a.now);
      AttemptIsWindow(b, SeenAfter(b, attempts[..n]), Acceptances(b, attempts[..n]), a.nonce, a.timestamp, a.now);
      WindowLater(b, SeenAfter(b, attempts), Acceptances(b, attempts), a.now - b.freshness, now - b.freshness);
    }
  }

  /** The window never holds more than its maximum. */
  lemma SeenIsBounded(b: Bounds, attempts: seq<Attempt>, now: real)
    requires Positive(b) && Forward(attempts) && forall i :: 0 <= i < |attempts| ==> attempts[i].now <= now
    ensures |SeenAfter(b, attempts)| <= b.maximum
  {
    SeenIsWindow(b, attempts, now);
  }

  /** A recent use of the nonce among the last `maximum` acceptances. */
  ghost predicate RecentlyUsed(b: Bounds, all: seq<Entry>, nonce: string, cutoff: real) {
    exists i :: 0 <= i < |all| && i >= |all| - b.maximum && all[i].nonce == nonce && all[i].acceptedAt >= cutoff
  }

  lemma KeptWasAccepted(b: Bounds, seen: seq<Entry>, all: seq<Entry>, nonce: string, cutoff: real)
    requires IsWindow(b, seen, all, cutoff) && InTimeOrder(all) && Listed(PrunedFront(seen, cutoff), nonce)
    ensures RecentlyUsed(b, all, nonce, cutoff)
  {
    var d := PrunedFrontDrops(seen, cutoff);
    var shift := |all| - |seen|;
    var e :| e in seen[d..] && e.nonce == nonce;
    var i :| 0 <= i < |seen[d..]| && seen[d..][i] == e;
    assert all[d + shift] == seen[d] && all[i + d + shift] == e;
  }

  lemma AcceptedIsKept(b: Bounds, seen: seq<Entry>, all: seq<Entry>, nonce: string, cutoff: real)
    requires IsWindow(b, seen, all, cutoff) && RecentlyUsed(b, all, nonce, cutoff)
    ensures Listed(PrunedFront(seen, cutoff), nonce)
  {
    var d := PrunedFrontDrops(seen, cutoff);
    var i :| 0 <= i < |all| && i >= |all| - b.maximum && all[i].nonce == nonce && all[i].acceptedAt >= cutoff;
    var j := i - (|all| - |seen|);
    assert j >= 0 && seen[j] == all[i] && j >= d;
    assert seen[d..][j - d] == all[i];
  }

  /** With a clock that never goes back, a nonce is accepted if and only if its timestamp is in
      range and none of the last `maximum` acceptances used it within the freshness. */
  lemma AcceptedIff(b: Bounds, attempts: seq<Attempt>, k: nat)
    requires Positive(b) && k < |attempts| && Forward(attempts)
    ensures AcceptedAt(b, attempts, k) <==>
            attempts[k].now - b.freshness <= attempts[k].timestamp as real <= attempts[k].now + b.skew
            && !RecentlyUsed(b, Acceptances(b, attempts[..k]), attempts[k].nonce, attempts[k].now - b.freshness)
  {
    SeenIsWindow(b, attempts[..k], attempts[k].now);
    AcceptancesInOrder(b, attempts[..k]);
    var seen, all, nonce, cutoff :=
      SeenAfter(b, attempts[..k]), Acceptances(b, attempts[..k]), attempts[k].nonce, attempts[k].now - b.freshness;
    if Listed(PrunedFront(seen, cutoff), nonce) { KeptWasAccepted(b, seen, all, nonce, cutoff); }
    if RecentlyUsed(b, all, nonce, cutoff) { AcceptedIsKept(b, seen, all, nonce, cutoff); }
  }

  lemma {:induction false} AcceptancesGrow(b: Bounds, attempts: seq<Attempt>, i: nat)
    requires i <= |attempts|
    ensures |Acceptances(b, attempts[..i])| <= |Acceptances(b, attempts)|
    ensures Acceptances(b, attempts)[..|Acceptances(b, attempts[..i])|] == Acceptances(b, attempts[..i])
  {
    if i == |attempts| {
      assert attempts[..i] == attempts;
    } else {
      var n := |attempts| - 1;
      assert attempts[..n][..i] == attempts[..i];
      AcceptancesGrow(b, attempts[..n], i);
    }
  }

  /** A nonce is accepted twice only more than the freshness apart, or with at least `maximum`
      acceptances after the first. */
  lemma NonceIsReusedOnlyLater(b: Bounds, attempts: seq<Attempt>, i: nat, j: nat)
    requires Positive(b) && i < j < |attempts| && Forward(attempts)
    requires AcceptedAt(b, attempts, i) && AcceptedAt(b, attempts, j) && attempts[i].nonce == attempts[j].nonce
    ensures || attempts[j].now - attempts[i].now > b.freshness
            || |Acceptances(b, attempts[..j])| - |Acceptances(b, attempts[..i + 1])| >= b.maximum
  {
    AcceptedIff(b, attempts, j);
    var all, p := Acceptances(b, attempts[..j]), |Acceptances(b, attempts[..i])|;
    assert attempts[..j][..i + 1] == attempts[..i + 1] && attempts[..i + 1][..i] == attempts[..i];
    AcceptancesGrow(b, attempts[..j], i + 1);
    assert Acceptances(b, attempts[..i + 1])[p] == Entry(attempts[i].nonce, attempts[i].now);
    assert all[p] == Entry(attempts[i].nonce, attempts[i].now);
  }

  /** On a forward clock the entries kept by pruning the front are all the recent ones. */
  lemma ForwardPruningFilters(b: Bounds, attempts: seq<Attempt>, now: real, cutoff: real)
    requires Positive(b) && Forward(attempts) && forall i :: 0 <= i < |attempts| ==> attempts[i].now <= now
    ensures PrunedFront(SeenAfter(b, attempts), cutoff) == Recent(SeenAfter(b, attempts), cutoff)
  {
    SeenIsWindow(b, attempts, now);
    AcceptancesInOrder(b, attempts);
    var seen, all := SeenAfter(b, attempts), Acceptances(b, attempts);
    forall i, j | 0 <= i < j < |seen| && seen[j].acceptedAt < cutoff ensures seen[i].acceptedAt < cutoff {
      assert seen[i] == all[i + |all| - |seen|] && seen[j] == all[j + |all| - |seen|];
    }
    PruningIsFilteringIff(seen, cutoff);
  }
}

/** The Redis sliding-window limiter: the atomic script on a sorted set with a key
    TTL, against a limiter that keeps its full admission log
    (core/redis_limiter.py). Times are the server's seconds, never decreasing. */
module SlidingWindow {
  function Ceil(x: real): int {
    -((-x).Floor)
  }

  lemma CeilBounds(x: real)
    ensures x <= Ceil(x) as real < x + 1.0
  {
  }

  function Filter(s: seq<real>, p: real -> bool): seq<real> {
    if s == [] then []
    else if p(s[0]) then [s[0]] + Filter(s[1..], p)
    else Filter(s[1..], p)
  }

  /** What ZREMRANGEBYSCORE 0 cutoff leaves. */
  function AfterRemoval(scores: seq<real>, cutoff: real): seq<real> {
    Filter(scores, t => !(0.0 <= t <= cutoff))
  }

  /** The admissions that count at `now`: those in the window (now - window, now]. */
  function Counting(log: seq<real>, now: real, window: real): seq<real> {
    Filter(log, t => now - window < t <= now)
  }

  predicate Nondecreasing(s: seq<real>) {
    forall i, j :: 0 <= i < j < |s| ==> s[i] <= s[j]
  }

  /** All entries are real server times up to `last`. */
  predicate UpTo(s: seq<real>, last: real) {
    forall i :: 0 <= i < |s| ==> 0.0 <= s[i] <= last
  }

  // ---- The limiter as code -----------------------------------------------------------

  /** One limiter key. `scores` is the sorted set (empty when the key is absent) and
      `expireAt` its expiry; `log`, `gone` and `last` are history: every admission,
      those no longer stored, and the latest server time seen. */
  class Limiter {
    const window: real
    const maxCount: int
    var scores: seq<real>
    var expireAt: real
    ghost var log: seq<real>
    ghost var gone: seq<real>
    ghost var last: real

    /** The stored set is the log without some entries that have stopped counting. */
    ghost predicate Valid()
      reads this
    {
      && 0.0 <= last && UpTo(log, last) && Nondecreasing(log)
      && Legal(log, window, maxCount)
      && Stored(log, gone, scores, last - window)
      && (scores != [] ==> scores[|scores| - 1] + Ceil(window) as real <= expireAt)
    }

    constructor (window: real, maxCount: int)
      ensures Valid() && this.window == window && this.maxCount == maxCount && log == [] && last == 0.0
    {
      this.window, this.maxCount := window, maxCount;
      scores, expireAt := [], 0.0;
      log, gone, last := [], [], 0.0;
    }

    /** Key expiry and ZREMRANGEBYSCORE: afterwards the set is what counts now. */
    method Prune(now: real)
      requires Valid() && last <= now
      modifies this
      ensures Valid() && last == now && log == old(log)
      ensures scores == Counting(log, now, window)
    {
      if scores != [] && expireAt <= now {
        ExpiryDropsOnlyOld(log, gone, scores, last, now, window, expireAt);
        gone, scores := log, [];
      }
      RemovalKeepsCounting(log, gone, scores, last, now, window);
      gone, scores, last := gone + Prefix(scores, now - window), AfterRemoval(scores, now - window), now;
    }

    /** One run of the script at server time `now`: it decides exactly as a limiter
        that keeps every admission and counts those of the window ending now. */
    method Allow(now: real) returns (allowed: bool)
      requires Valid() && last <= now
      modifies this
      ensures Valid() && last == now
      ensures allowed <==> |Counting(old(log), now, window)| < maxCount
      ensures log == if allowed then old(log) + [now] else old(log)
    {
      Prune(now);
      if |scores| >= maxCount {
        return false;
      }
      AppendLegal(log, now, window, maxCount);
      log := log + [now];
      scores := scores + [now];
      expireAt := now + Ceil(window) as real;
      allowed := true;
    }
  }

  /** `log` is `gone` followed by `scores`, and nothing in `gone` is after the cutoff. */
  predicate Stored(log: seq<real>, gone: seq<real>, scores: seq<real>, cutoff: real) {
    log == gone + scores && forall i :: 0 <= i < |gone| ==> gone[i] <= cutoff
  }

  /** The entries of an ascending list up to the cutoff. */
  function Prefix(s: seq<real>, cutoff: real): seq<real> {
    if s == [] || s[0] > cutoff then [] else [s[0]] + Prefix(s[1..], cutoff)
  }

  // ---- Log lemmas ------------------------------------------------------------------------

  lemma {:induction false} FilterAll(s: seq<real>, p: real -> bool)
    requires forall i :: 0 <= i < |s| ==> p(s[i])
    ensures Filter(s, p) == s
  {
    if s != [] {
      assert s == [s[0]] + s[1..];
      FilterAll(s[1..], p);
    }
  }

  lemma {:induction false} FilterNone(s: seq<real>, p: real -> bool)
    requires forall i :: 0 <= i < |s| ==> !p(s[i])
    ensures Filter(s, p) == []
  {
    if s != [] { FilterNone(s[1..], p); }
  }

  lemma {:induction false} FilterConcat(a: seq<real>, b: seq<real>, p: real -> bool)
    ensures Filter(a + b, p) == Filter(a, p) + Filter(b, p)
  {
    if a == [] {
      assert a + b == b;
    } else {
      assert (a + b)[1..] == a[1..] + b;
      FilterConcat(a[1..], b, p);
    }
  }

  lemma {:induction false} FilterSubset(s: seq<real>, p: real -> bool, q: real -> bool)
    requires forall i :: 0 <= i < |s| && p(s[i]) ==> q(s[i])
    ensures |Filter(s, p)| <= |Filter(s, q)|
  {
    if s != [] {
      assert s[0] == s[0];
      forall i | 0 <= i < |s[1..]| && p(s[1..][i]) ensures q(s[1..][i]) { assert s[1..][i] == s[i + 1]; }
      FilterSubset(s[1..], p, q);
    }
  }

  predicate AtMost(s: seq<real>, cutoff: real) {
    forall i :: 0 <= i < |s| ==> s[i] <= cutoff
  }

  predicate Above(s: seq<real>, cutoff: real) {
    forall i :: 0 <= i < |s| ==> cutoff < s[i]
  }

  predicate Times(s: seq<real>) {
    Nondecreasing(s) && forall i :: 0 <= i < |s| ==> 0.0 <= s[i]
  }

  lemma {:induction false} PrefixAtMost(s: seq<real>, cutoff: real)
    ensures AtMost(Prefix(s, cutoff), cutoff)
  {
    if s != [] && s[0] <= cutoff {
      PrefixAtMost(s[1..], cutoff);
    }
  }

  lemma {:induction false} RemovalAbove(s: seq<real>, cutoff: real)
    requires Times(s)
    ensures Above(AfterRemoval(s, cutoff), cutoff)
  {
    if s != [] {
      RemovalUnfolds(s, cutoff);
      if s[0] <= cutoff { RemovalAbove(s[1..], cutoff); }
    }
  }

  /** Removing by score cuts an ascending list after its prefix. */
  lemma {:induction false} RemovalCutsPrefix(s: seq<real>, cutoff: real)
    requires Times(s)
    ensures s == Prefix(s, cutoff) + AfterRemoval(s, cutoff)
  {
    if s != [] {
      RemovalUnfolds(s, cutoff);
      if s[0] <= cutoff {
        RemovalCutsPrefix(s[1..], cutoff);
        assert s == [s[0]] + s[1..];
      }
    }
  }

  lemma RemovalUnfolds(s: seq<real>, cutoff: real)
    requires s != [] && Times(s)
    ensures AfterRemoval(s, cutoff) == if s[0] > cutoff then s else AfterRemoval(s[1..], cutoff)
  {
    var p := t => !(0.0 <= t <= cutoff);
    assert AfterRemoval(s, cutoff) == Filter(s, p) && AfterRemoval(s[1..], cutoff) == Filter(s[1..], p);
    if s[0] > cutoff {
      FilterAll(s, p);
    }
  }

  /** When the key expires, everything it held has left the window. */
  lemma ExpiryDropsOnlyOld(log: seq<real>, gone: seq<real>, scores: seq<real>, last: real, now: real, window: real, expireAt: real)
    requires Stored(log, gone, scores, last - window) && Nondecreasing(log) && UpTo(log, last) && last <= now
    requires scores != [] && scores[|scores| - 1] + Ceil(window) as real <= expireAt <= now
    ensures Stored(log, log, [], now - window)
  {
    CeilBounds(window);
    var newest := scores[|scores| - 1];
    assert log[|log| - 1] == newest;
    forall i | 0 <= i < |log| ensures log[i] <= now - window {
      if i < |log| - 1 { assert log[i] <= log[|log| - 1]; }
    }
  }

  /** Entries up to the cutoff do not count, the ones after it all do. */
  lemma CountingSplits(before: seq<real>, kept: seq<real>, now: real, window: real)
    requires forall i :: 0 <= i < |before| ==> before[i] <= now - window
    requires forall i :: 0 <= i < |kept| ==> now - window < kept[i]
    requires UpTo(before + kept, now)
    ensures Counting(before + kept, now, window) == kept
  {
    var p := t => now - window < t <= now;
    FilterConcat(before, kept, p);
    FilterNone(before, p);
    forall i | 0 <= i < |kept| ensures p(kept[i]) { assert kept[i] == (before + kept)[|before| + i]; }
    FilterAll(kept, p);
    assert Counting(before + kept, now, window) == Filter(before + kept, p);
  }

  /** After the removal the set holds exactly the admissions that count now. */
  lemma RemovalKeepsCounting(log: seq<real>, gone: seq<real>, scores: seq<real>, last: real, now: real, window: real)
    requires Nondecreasing(log) && UpTo(log, last) && last <= now && log == gone + scores
    requires forall i :: 0 <= i < |gone| ==> gone[i] <= now - window
    ensures Counting(log, now, window) == AfterRemoval(scores, now - window)
    ensures Stored(log, gone + Prefix(scores, now - window), AfterRemoval(scores, now - window), now - window)
    ensures AfterRemoval(scores, now - window) != [] ==>
      scores != [] && AfterRemoval(scores, now - window)[|AfterRemoval(scores, now - window)| - 1] == scores[|scores| - 1]
  {
    var cutoff := now - window;
    forall i | 0 <= i < |scores| ensures 0.0 <= scores[i] <= last { assert scores[i] == log[|gone| + i]; }
    forall i, j | 0 <= i < j < |scores| ensures scores[i] <= scores[j] {
      assert scores[i] == log[|gone| + i] && scores[j] == log[|gone| + j];
    }
    RemovalCutsPrefix(scores, cutoff);
    PrefixAtMost(scores, cutoff);
    RemovalAbove(scores, cutoff);
    assert log == (gone + Prefix(scores, cutoff)) + AfterRemoval(scores, cutoff);
    CountingSplits(gone + Prefix(scores, cutoff), AfterRemoval(scores, cutoff), now, window);
  }

  // ---- What the log satisfies ----------------------------------------------------------------

  /** Every admission found fewer than `maxCount` earlier ones in its own window. */
  ghost predicate Legal(log: seq<real>, window: real, maxCount: int)
    decreases |log|
  {
    log == [] ||
    var n := |log| - 1;
    Legal(log[..n], window, maxCount) && |Counting(log[..n], log[n], window)| < maxCount
  }

  lemma AppendLegal(log: seq<real>, now: real, window: real, maxCount: int)
    requires Legal(log, window, maxCount) && |Counting(log, now, window)| < maxCount
    ensures Legal(log + [now], window, maxCount)
  {
    assert (log + [now])[..|log|] == log;
  }

  /** At most `maxCount` admissions in any half-open window of the length, wherever it
      lies and whichever end is the open one. */
  lemma {:induction false} AnyWindowIsBounded(log: seq<real>, window: real, maxCount: int, x: real)
    requires Legal(log, window, maxCount) && Nondecreasing(log)
    ensures maxCount >= 0 ==> |Filter(log, t => x < t <= x + window)| <= maxCount
    ensures maxCount >= 0 ==> |Filter(log, t => x <= t < x + window)| <= maxCount
    ensures maxCount < 0 ==> log == []
    decreases |log|
  {
    if log != [] {
      var n := |log| - 1;
      AnyWindowIsBounded(log[..n], window, maxCount, x);
      WindowOfLast(log, window, maxCount, t => x < t <= x + window);
      WindowOfLast(log, window, maxCount, t => x <= t < x + window);
    }
  }

  /** A window that contains the last admission holds only admissions that counted
      when it was made; one that does not is a window of the shorter log. */
  lemma WindowOfLast(log: seq<real>, window: real, maxCount: int, p: real -> bool)
    requires log != [] && Legal(log, window, maxCount) && Nondecreasing(log)
    requires forall s, t :: p(s) && p(t) ==> t - window < s
    requires |Filter(log[..|log| - 1], p)| <= maxCount
    ensures |Filter(log, p)| <= maxCount
  {
    var n := |log| - 1;
    var before, t := log[..n], log[n];
    assert log == before + [t];
    FilterConcat(before, [t], p);
    assert Filter([t], p) == if p(t) then [t] else [];
    if p(t) {
      var q := s => t - window < s <= t;
      FilterSubset(before, p, q);
      assert Counting(before, t, window) == Filter(before, q);
    }
  }
}

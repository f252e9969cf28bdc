/** The user-id whitelist: a Bloom bitmap without false negatives, its batched
    reads, and the paged backfill that opens the gate (core/bloom.py,
    auth/bloom_seed.py). The two halves of the digest are parameters. */
module BloomWhitelist {
  import opened Wrappers

  type Key = nat

  /** The digest halves and the bitmap parameters; the source computes m, k >= 1. */
  datatype Params = Params(h1: Key -> nat, h2: Key -> nat, m: nat, k: nat)

  predicate Valid(p: Params) {
    p.m >= 1 && p.k >= 1
  }

  /** `_positions` */
  function Positions(p: Params, key: Key): (r: seq<nat>)
    requires Valid(p)
    ensures |r| == p.k && forall i :: 0 <= i < p.k ==> r[i] < p.m
  {
    seq(p.k, i requires 0 <= i < p.k => Position(p, key, i))
  }

  /** The second half is made odd (`| 1`). */
  function Position(p: Params, key: Key, i: nat): (r: nat)
    requires Valid(p)
    ensures r < p.m
  {
    var step := if p.h2(key) % 2 == 0 then p.h2(key) + 1 else p.h2(key);
    (p.h1(key) + i * step) % p.m
  }

  predicate AllSet(p: Params, bits: set<nat>, key: Key)
    requires Valid(p)
  {
    forall i :: 0 <= i < p.k ==> Position(p, key, i) in bits
  }

  const ADD_CHUNK: nat := 1000
  const PAGE: nat := 1000

  // ---- The filter ------------------------------------------------------------------------

  class Filter {
    const p: Params
    var bits: set<nat>
    var seeded: bool

    constructor (p: Params)
      requires Valid(p)
      ensures this.p == p && bits == {} && !seeded
    {
      this.p := p;
      bits, seeded := {}, false;
    }

    /** A pipeline of SETBITs; `applied` of them reach the server. */
    method SetBits(positions: seq<nat>, applied: nat)
      requires applied <= |positions|
      modifies this`bits
      ensures bits == old(bits) + set i | 0 <= i < applied :: positions[i]
    {
      var i := 0;
      while i < applied
        invariant 0 <= i <= applied
        invariant bits == old(bits) + set j | 0 <= j < i :: positions[j]
      {
        bits := bits + {positions[i]};
        i := i + 1;
      }
    }

    /** `add`: true only if all its bits were written; a failing pipeline may have
        written some. */
    method Add(key: Key, available: bool, applied: nat) returns (ok: bool)
      requires Valid(p) && applied <= p.k
      modifies this`bits
      ensures old(bits) <= bits
      ensures ok <==> available && applied == p.k
      ensures ok ==> AllSet(p, bits, key)
      ensures !available ==> bits == old(bits)
    {
      if !available {
        return false;
      }
      SetBits(Positions(p, key), applied);
      ok := applied == p.k;
      if ok {
        forall i | 0 <= i < p.k ensures Position(p, key, i) in bits {
          assert Positions(p, key)[i] == Position(p, key, i);
        }
      }
    }

    /** `add_many`: chunk by chunk, stopping at the first failing chunk; the keys it
        counts as written are all in. `failing` is the chunk that fails, if any; the
        bits of its first `reached` keys are then set without being counted. */
    method AddMany(keys: seq<Key>, available: bool, failing: Option<nat>, reached: nat) returns (written: nat)
      requires Valid(p)
      modifies this`bits
      ensures old(bits) <= bits
      ensures written <= |keys|
      ensures forall i :: 0 <= i < written ==> AllSet(p, bits, keys[i])
      ensures available && failing.None? ==> written == |keys|
      ensures !available ==> written == 0 && bits == old(bits)
      ensures written < |keys| && available ==> failing.Some? && written == failing.value * ADD_CHUNK
    {
      written := 0;
      if keys == [] || !available {
        return;
      }
      var chunk := 0;
      while written < |keys|
        invariant written <= |keys| && old(bits) <= bits
        invariant forall i :: 0 <= i < written ==> AllSet(p, bits, keys[i])
        invariant written < |keys| ==> written == chunk * ADD_CHUNK
        decreases |keys| - written
      {
        var end := if written + ADD_CHUNK < |keys| then written + ADD_CHUNK else |keys|;
        if failing == Some(chunk) {
          var part := if reached < end - written then reached else end - written;
          AddChunk(keys[written..written + part]);
          return;
        }
        AddChunk(keys[written..end]);
        assert forall i :: written <= i < end ==> keys[i] == keys[written..end][i - written];
        written := end;
        chunk := chunk + 1;
      }
    }

    method AddChunk(keys: seq<Key>)
      requires Valid(p)
      modifies this`bits
      ensures old(bits) <= bits
      ensures forall i :: 0 <= i < |keys| ==> AllSet(p, bits, keys[i])
    {
      var i := 0;
      while i < |keys|
        invariant 0 <= i <= |keys| && old(bits) <= bits
        invariant forall j :: 0 <= j < i ==> AllSet(p, bits, keys[j])
      {
        var ok := Add(keys[i], true, p.k);
        i := i + 1;
      }
    }

    /** `might_contain` */
    method MightContain(key: Key, available: bool) returns (b: bool)
      requires Valid(p)
      ensures b <==> !available || AllSet(p, bits, key)
    {
      if !available {
        return true;
      }
      var i := 0;
      while i < p.k
        invariant 0 <= i <= p.k
        invariant forall j :: 0 <= j < i ==> Position(p, key, j) in bits
      {
        if Position(p, key, i) !in bits {
          return false;
        }
        i := i + 1;
      }
      b := true;
    }

    /** `definitely_absent_many`: one flat reply for all keys, cut into k-bit slices.
        Each key gets the answer it would get alone, and none is rejected while the
        gate is shut. */
    method DefinitelyAbsentMany(keys: seq<Key>, available: bool) returns (absent: set<Key>)
      requires Valid(p)
      ensures forall key :: key in absent <==> key in keys && available && seeded && !AllSet(p, bits, key)
    {
      absent := {};
      if keys == [] || !available || !seeded {
        return;
      }
      var reply := ReadBits(keys);
      var i := 0;
      while i < |keys|
        invariant 0 <= i <= |keys|
        invariant forall key :: key in absent <==> key in keys[..i] && !AllSet(p, bits, key)
      {
        SliceBounds(i, |keys|, p.k);
        var slice := reply[i * p.k..(i + 1) * p.k];
        forall j | 0 <= j < p.k ensures slice[j] == (Position(p, keys[i], j) in bits) {
          assert AnswerAt(p, bits, keys, reply, i, j);
          assert slice[j] == reply[i * p.k + j];
        }
        var missing := exists j :: 0 <= j < p.k && !slice[j];
        assert missing <==> !AllSet(p, bits, keys[i]);
        if missing {
          absent := absent + {keys[i]};
        }
        assert keys[..i + 1] == keys[..i] + [keys[i]];
        i := i + 1;
      }
      assert keys[..i] == keys;
    }

    /** All GETBITs of all keys, in one list. */
    method ReadBits(keys: seq<Key>) returns (reply: seq<bool>)
      requires Valid(p)
      ensures ReplyFor(p, bits, keys, reply)
    {
      reply := [];
      var i := 0;
      while i < |keys|
        invariant 0 <= i <= |keys| && ReplyFor(p, bits, keys[..i], reply)
      {
        assert keys[..i + 1] == keys[..i] + [keys[i]];
        var answers := seq(p.k, j requires 0 <= j < p.k reads this => Position(p, keys[i], j) in bits);
        ExtendReply(p, bits, keys, i, reply, answers);
        reply := reply + answers;
        i := i + 1;
      }
      assert keys[..i] == keys;
    }

    /** `mark_seeded` */
    method MarkSeeded(available: bool) returns (ok: bool)
      modifies this`seeded
      ensures ok == available && seeded == (available || old(seeded))
    {
      if available {
        seeded := true;
      }
      ok := available;
    }
  }

  /** Key i's answers are the i-th run of k. */
  predicate ReplyFor(p: Params, bits: set<nat>, keys: seq<Key>, reply: seq<bool>)
    requires Valid(p)
  {
    && |reply| == |keys| * p.k
    && forall i, j :: 0 <= i < |keys| && 0 <= j < p.k ==> AnswerAt(p, bits, keys, reply, i, j)
  }

  predicate AnswerAt(p: Params, bits: set<nat>, keys: seq<Key>, reply: seq<bool>, i: nat, j: nat)
    requires Valid(p) && i < |keys|
  {
    0 <= i * p.k + j < |reply| && reply[i * p.k + j] == (Position(p, keys[i], j) in bits)
  }

  lemma ExtendReply(p: Params, bits: set<nat>, keys: seq<Key>, n: nat, reply: seq<bool>, answers: seq<bool>)
    requires Valid(p) && n < |keys| && ReplyFor(p, bits, keys[..n], reply)
    requires |answers| == p.k && forall j :: 0 <= j < p.k ==> answers[j] == (Position(p, keys[n], j) in bits)
    ensures ReplyFor(p, bits, keys[..n + 1], reply + answers)
  {
    var longer, upto := reply + answers, keys[..n + 1];
    SliceBounds(n, n + 1, p.k);
    assert |longer| == (n + 1) * p.k;
    forall i, j | 0 <= i < |upto| && 0 <= j < p.k ensures AnswerAt(p, bits, upto, longer, i, j) {
      if i < n { assert AnswerAt(p, bits, keys[..n], reply, i, j); }
    }
  }

  lemma SliceBounds(i: nat, n: nat, k: nat)
    requires i < n
    ensures 0 <= i * k <= (i + 1) * k <= n * k && (i + 1) * k - i * k == k
  {
    assert (i + 1) * k == i * k + k;
    assert (i + 1) * k <= n * k;
  }
}

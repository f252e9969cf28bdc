/** The key scheme: escaping, joining and the counter-key parser (core/cache.py,
    core/counters.py). */
module CacheKeys {
  import opened Wrappers

  // ---- Strings -------------------------------------------------------------------------------

  /** `str.replace` of one character. */
  function Replace(s: string, c: char, with: string): string {
    if s == "" then "" else (if s[0] == c then with else [s[0]]) + Replace(s[1..], c, with)
  }

  function Join(segments: seq<string>, c: char): string {
    if segments == [] then "" else if |segments| == 1 then segments[0]
    else segments[0] + [c] + Join(segments[1..], c)
  }

  /** `str.split` on one character */
  function Split(s: string, c: char): (r: seq<string>)
    ensures |r| >= 1
  {
    if s == "" then [""]
    else if s[0] == c then [""] + Split(s[1..], c)
    else var rest := Split(s[1..], c); [[s[0]] + rest[0]] + rest[1..]
  }

  lemma {:induction false} ReplaceAppends(s: string, t: string, c: char, with: string)
    ensures Replace(s + t, c, with) == Replace(s, c, with) + Replace(t, c, with)
  {
    if s == "" {
      assert s + t == t;
    } else {
      assert (s + t)[1..] == s[1..] + t;
      ReplaceAppends(s[1..], t, c, with);
    }
  }

  lemma {:induction false} SplitPrefix(s: string, t: string, c: char)
    requires c !in s
    ensures Split(s + [c] + t, c) == [s] + Split(t, c)
  {
    if s == "" {
      assert s + [c] + t == [c] + t;
      assert ([c] + t)[1..] == t;
    } else {
      var u := s + [c] + t;
      assert u[1..] == s[1..] + [c] + t;
      SplitPrefix(s[1..], t, c);
      assert [s[0]] + s[1..] == s;
    }
  }

  lemma {:induction false} SplitWhole(s: string, c: char)
    requires c !in s
    ensures Split(s, c) == [s]
  {
    if s != "" {
      SplitWhole(s[1..], c);
      assert [s[0]] + s[1..] == s;
    }
  }

  /** More separators, more segments. */
  lemma {:induction false} SplitCount(s: string, t: string, c: char)
    ensures |Split(s + [c] + t, c)| == |Split(s, c)| + |Split(t, c)|
  {
    var u := s + [c] + t;
    if s == "" {
      assert u == [c] + t && u[1..] == t;
    } else {
      assert u[1..] == s[1..] + [c] + t;
      SplitCount(s[1..], t, c);
    }
  }

  lemma {:induction false} SplitLength(s: string, c: char)
    ensures |Split(s, c)| == 1 <==> c !in s
  {
    if s != "" {
      SplitLength(s[1..], c);
      assert s == [s[0]] + s[1..];
    }
  }

  lemma {:induction false} SplitUndoesJoin(segments: seq<string>, c: char)
    requires segments != [] && forall i :: 0 <= i < |segments| ==> c !in segments[i]
    ensures Split(Join(segments, c), c) == segments
  {
    if |segments| == 1 {
      SplitWhole(segments[0], c);
    } else {
      SplitPrefix(segments[0], Join(segments[1..], c), c);
      SplitUndoesJoin(segments[1..], c);
    }
  }

  // ---- Escaping ------------------------------------------------------------------------------

  /** `_escape_seg`: first the percent signs, then the bars. */
  function EscapeSeg(seg: string): string {
    Replace(Replace(seg, '%', "%25"), '|', "%7C")
  }

  function EscapeChar(c: char): string {
    if c == '%' then "%25" else if c == '|' then "%7C" else [c]
  }

  /** The inverse a reader of keys would write. */
  function Unescape(s: string): string
    decreases |s|
  {
    if s == "" then ""
    else if |s| >= 3 && s[0] == '%' && s[1] == '2' && s[2] == '5' then ['%'] + Unescape(s[3..])
    else if |s| >= 3 && s[0] == '%' && s[1] == '7' && s[2] == 'C' then ['|'] + Unescape(s[3..])
    else [s[0]] + Unescape(s[1..])
  }

  lemma PercentIsKept()
    ensures Replace("%25", '|', "%7C") == "%25"
  {
    var s := "%25";
    assert s[1..] == "25" && "25"[1..] == "5" && "5"[1..] == "";
    assert Replace("5", '|', "%7C") == "5";
    assert Replace("25", '|', "%7C") == "25";
  }

  /** The two passes do not disturb each other: each character is escaped on its own. */
  lemma EscapeSplits(seg: string)
    requires seg != ""
    ensures EscapeSeg(seg) == EscapeChar(seg[0]) + EscapeSeg(seg[1..])
  {
    var tail := Replace(seg[1..], '%', "%25");
    if seg[0] == '%' {
      ReplaceAppends("%25", tail, '|', "%7C");
      PercentIsKept();
    } else {
      ReplaceAppends([seg[0]], tail, '|', "%7C");
      assert [seg[0]][1..] == "";
      assert Replace([seg[0]], '|', "%7C") == EscapeChar(seg[0]) + Replace("", '|', "%7C");
    }
  }

  lemma {:induction false} EscapedHasNoBar(seg: string)
    ensures '|' !in EscapeSeg(seg)
  {
    if seg != "" {
      EscapeSplits(seg);
      EscapedHasNoBar(seg[1..]);
      assert '|' !in EscapeChar(seg[0]);
    }
  }

  lemma {:induction false} EscapedHasNoColon(seg: string)
    requires ':' !in seg
    ensures ':' !in EscapeSeg(seg)
  {
    if seg != "" {
      EscapeSplits(seg);
      EscapedHasNoColon(seg[1..]);
      assert ':' !in EscapeChar(seg[0]);
    }
  }

  lemma {:induction false} UnescapeUndoesEscape(seg: string)
    ensures Unescape(EscapeSeg(seg)) == seg
  {
    if seg != "" {
      EscapeSplits(seg);
      var rest := EscapeSeg(seg[1..]);
      var whole := EscapeChar(seg[0]) + rest;
      UnescapeUndoesEscape(seg[1..]);
      if seg[0] == '%' || seg[0] == '|' {
        assert whole[3..] == rest;
      } else {
        assert whole[1..] == rest && whole[0] == seg[0];
      }
      assert seg == [seg[0]] + seg[1..];
    }
  }

  lemma {:induction false} EscapeLeaves(seg: string)
    requires '%' !in seg && '|' !in seg
    ensures EscapeSeg(seg) == seg
  {
    if seg != "" {
      EscapeSplits(seg);
      EscapeLeaves(seg[1..]);
      assert seg == [seg[0]] + seg[1..];
    }
  }

  // ---- make_key ------------------------------------------------------------------------------

  /** None becomes the empty segment. */
  function Text(part: Option<string>): string {
    if part.Some? then part.value else ""
  }

  function Segments(parts: seq<Option<string>>): (r: seq<string>)
    ensures |r| == |parts|
    ensures forall i :: 0 <= i < |parts| ==> r[i] == EscapeSeg(Text(parts[i]))
  {
    seq(|parts|, i requires 0 <= i < |parts| => EscapeSeg(Text(parts[i])))
  }

  const ROOT: string := "lkm"

  function MakeKey(env: string, prefix: string, parts: seq<Option<string>>): string {
    ROOT + ":" + env + ":" + prefix + ":" + Join(Segments(parts), '|')
  }

  /** What a key can tell of its parts: None reads as empty, no part as one empty part. */
  function Readable(parts: seq<Option<string>>): (r: seq<string>)
    ensures |r| >= 1
    ensures forall i :: 0 <= i < |parts| ==> |r| == |parts| && r[i] == Text(parts[i])
  {
    if parts == [] then [""]
    else seq(|parts|, i requires 0 <= i < |parts| => Text(parts[i]))
  }

  function Decode(payload: string): seq<string> {
    var segments := Split(payload, '|');
    seq(|segments|, i requires 0 <= i < |segments| => Unescape(segments[i]))
  }

  lemma PayloadDecodes(parts: seq<Option<string>>)
    ensures Decode(Join(Segments(parts), '|')) == Readable(parts)
  {
    if parts == [] {
      assert Split("", '|') == [""];
      assert Decode("") == [""];
    } else {
      forall i | 0 <= i < |parts|
        ensures '|' !in Segments(parts)[i] && Unescape(Segments(parts)[i]) == Readable(parts)[i]
      {
        EscapedHasNoBar(Readable(parts)[i]);
        UnescapeUndoesEscape(Readable(parts)[i]);
      }
      SplitUndoesJoin(Segments(parts), '|');
    }
  }

  lemma ReadableFixesPayload(ps: seq<Option<string>>, qs: seq<Option<string>>)
    requires Readable(ps) == Readable(qs)
    ensures Join(Segments(ps), '|') == Join(Segments(qs), '|')
  {
    if ps == [] || qs == [] {
      assert EscapeSeg("") == "";
      EmptyPayload(ps);
      EmptyPayload(qs);
    } else {
      forall i | 0 <= i < |ps| ensures Segments(ps)[i] == Segments(qs)[i] {
        assert Readable(ps)[i] == Readable(qs)[i];
      }
      assert Segments(ps) == Segments(qs);
    }
  }

  lemma EmptyPayload(parts: seq<Option<string>>)
    requires Readable(parts) == [""]
    ensures Join(Segments(parts), '|') == ""
  {
    if parts != [] {
      assert Readable(parts)[0] == "";
      assert EscapeSeg("") == "";
    }
  }

  /** Under one environment and prefix, two keys are equal exactly when their parts read
      alike. */
  lemma SameKeyIffSameParts(env: string, prefix: string, ps: seq<Option<string>>, qs: seq<Option<string>>)
    ensures MakeKey(env, prefix, ps) == MakeKey(env, prefix, qs) <==> Readable(ps) == Readable(qs)
  {
    var head := ROOT + ":" + env + ":" + prefix + ":";
    var p, q := Join(Segments(ps), '|'), Join(Segments(qs), '|');
    if head + p == head + q {
      assert (head + p)[|head|..] == p && (head + q)[|head|..] == q;
      PayloadDecodes(ps);
      PayloadDecodes(qs);
    }
    if Readable(ps) == Readable(qs) {
      ReadableFixesPayload(ps, qs);
    }
  }

  /** The last colon of a key, when the payload holds none. */
  lemma LastColonDecides(a: string, b: string, p: string, q: string)
    requires ':' !in p && ':' !in q && a + ":" + p == b + ":" + q
    ensures a == b && p == q
  {
    var s := a + ":" + p;
    assert s[|a|] == ':' && s[|b|] == ':';
    assert s == b + ":" + q;
    assert forall k :: |a| < k < |s| ==> s[k] == p[k - |a| - 1];
    assert forall k :: |b| < k < |s| ==> s[k] == q[k - |b| - 1];
    assert s[..|a|] == a && s[..|b|] == b;
    assert s[|a| + 1..] == p && s[|b| + 1..] == q;
  }

  predicate ColonFree(parts: seq<Option<string>>) {
    forall i :: 0 <= i < |parts| && parts[i].Some? ==> ':' !in parts[i].value
  }

  lemma {:induction false} JoinHasNoColon(segments: seq<string>)
    requires forall i :: 0 <= i < |segments| ==> ':' !in segments[i]
    ensures ':' !in Join(segments, '|')
  {
    if |segments| > 1 {
      JoinHasNoColon(segments[1..]);
    }
  }

  /** Across prefixes: keys with colon-free parts differ unless prefix and parts agree. */
  lemma PrefixesStayApart(env: string, prefix: string, other: string, ps: seq<Option<string>>, qs: seq<Option<string>>)
    requires ColonFree(ps) && ColonFree(qs)
    ensures MakeKey(env, prefix, ps) == MakeKey(env, other, qs) <==> prefix == other && Readable(ps) == Readable(qs)
  {
    var p, q := Join(Segments(ps), '|'), Join(Segments(qs), '|');
    forall i | 0 <= i < |ps| ensures ':' !in Segments(ps)[i] {
      EscapedHasNoColon(Text(ps[i]));
    }
    forall i | 0 <= i < |qs| ensures ':' !in Segments(qs)[i] {
      EscapedHasNoColon(Text(qs[i]));
    }
    JoinHasNoColon(Segments(ps));
    JoinHasNoColon(Segments(qs));
    var head := ROOT + ":" + env + ":";
    if MakeKey(env, prefix, ps) == MakeKey(env, other, qs) {
      LastColonDecides(head + prefix, head + other, p, q);
      assert (head + prefix)[|head|..] == prefix && (head + other)[|head|..] == other;
    }
    SameKeyIffSameParts(env, prefix, ps, qs);
  }

  /** `b` extends `a` by a colon and more, and `p` makes up for that before `q`. */
  predicate Shifted(a: string, p: string, b: string, q: string) {
    |a| < |b| && b[..|a| + 1] == a + ":" && p == b[|a| + 1..] + ":" + q
  }

  lemma ShiftedMeet(a: string, p: string, b: string, q: string)
    requires Shifted(a, p, b, q)
    ensures a + ":" + p == b + ":" + q
  {
    var more := b[|a| + 1..];
    assert b == a + ":" + more;
    assert a + ":" + (more + ":" + q) == (a + ":" + more) + ":" + q;
  }

  lemma LongerIsShifted(a: string, p: string, b: string, q: string)
    requires |a| < |b| && a + ":" + p == b + ":" + q
    ensures Shifted(a, p, b, q)
  {
    var s, t := a + ":" + p, b + ":" + q;
    assert s[..|a| + 1] == a + ":" && t[..|a| + 1] == b[..|a| + 1];
    assert s[|a| + 1..] == p && t[|a| + 1..] == b[|a| + 1..] + ":" + q;
  }

  /** Two ways to cut one string at a colon. */
  lemma CutsMeet(a: string, p: string, b: string, q: string)
    ensures a + ":" + p == b + ":" + q <==> (a == b && p == q) || Shifted(a, p, b, q) || Shifted(b, q, a, p)
  {
    if Shifted(a, p, b, q) { ShiftedMeet(a, p, b, q); }
    if Shifted(b, q, a, p) { ShiftedMeet(b, q, a, p); }
    if a + ":" + p == b + ":" + q {
      if |a| < |b| {
        LongerIsShifted(a, p, b, q);
      } else if |b| < |a| {
        LongerIsShifted(b, q, a, p);
      } else {
        assert (a + ":" + p)[..|a|] == a && (b + ":" + q)[..|a|] == b;
        assert (a + ":" + p)[|a| + 1..] == p && (b + ":" + q)[|a| + 1..] == q;
      }
    }
  }

  /** Two keys of one environment are equal exactly when prefix and parts agree, or when
      one prefix extends the other by a colon and more and the other's escaped parts
      begin with just that: colons are not escaped. */
  lemma SameKeyIffSameOrShifted(env: string, prefix: string, other: string, ps: seq<Option<string>>, qs: seq<Option<string>>)
    ensures MakeKey(env, prefix, ps) == MakeKey(env, other, qs)
      <==> (prefix == other && Readable(ps) == Readable(qs))
           || Shifted(prefix, Join(Segments(ps), '|'), other, Join(Segments(qs), '|'))
           || Shifted(other, Join(Segments(qs), '|'), prefix, Join(Segments(ps), '|'))
  {
    var head := ROOT + ":" + env + ":";
    var p, q := Join(Segments(ps), '|'), Join(Segments(qs), '|');
    assert MakeKey(env, prefix, ps) == head + (prefix + ":" + p);
    assert MakeKey(env, other, qs) == head + (other + ":" + q);
    assert (head + (prefix + ":" + p))[|head|..] == prefix + ":" + p;
    assert (head + (other + ":" + q))[|head|..] == other + ":" + q;
    CutsMeet(prefix, p, other, q);
    if prefix == other {
      SameKeyIffSameParts(env, prefix, ps, qs);
    }
  }

  /** So a colon in a part can make keys of two prefixes meet. */
  lemma ColonsCanMeet(env: string, prefix: string, more: string, part: string)
    requires '%' !in more && '|' !in more && '%' !in part && '|' !in part
    ensures MakeKey(env, prefix + ":" + more, [Some(part)]) == MakeKey(env, prefix, [Some(more + ":" + part)])
  {
    EscapeLeaves(part);
    EscapeLeaves(more + ":" + part);
    assert (prefix + ":" + more)[|prefix| + 1..] == more;
    SameKeyIffSameOrShifted(env, prefix, prefix + ":" + more, [Some(more + ":" + part)], [Some(part)]);
  }

  // ---- Counter keys -------------------------------------------------------------------------

  /** `uuid.UUID` and `str`: printing is free of separators and parsing reads it back. */
  datatype Uuids<!Id> = Uuids(show: Id -> string, parse: string -> Option<Id>)

  ghost predicate Faithful<Id(!new)>(u: Uuids<Id>) {
    forall id :: u.parse(u.show(id)) == Some(id) && Plain(u.show(id))
  }

  predicate Plain(s: string) {
    ':' !in s && '|' !in s && '%' !in s
  }

  const LIKE_COUNT := "like_count"
  const COMMENT_COUNT := "comment_count"
  const BOOKMARK_COUNT := "bookmark_count"
  const COUNTER_FIELDS: set<string> := {LIKE_COUNT, COMMENT_COUNT, BOOKMARK_COUNT}
  const COUNT: string := "count"

  lemma FieldsArePlain(field: string)
    requires field in COUNTER_FIELDS
    ensures Plain(field)
  {
  }

  function CounterKey<Id>(u: Uuids<Id>, env: string, field: string, id: Id): Option<string> {
    if field !in COUNTER_FIELDS then None
    else Some(MakeKey(env, COUNT, [Some(field), Some(u.show(id))]))
  }

  /** `str.partition` on the first bar */
  function Partition(s: string, c: char): (string, string) {
    if s == "" then ("", "")
    else if s[0] == c then ("", s[1..])
    else var rest := Partition(s[1..], c); ([s[0]] + rest.0, rest.1)
  }

  function ParseCounterKey<Id>(u: Uuids<Id>, key: string): Option<(string, Id)> {
    var parts := Split(key, ':');
    if |parts| != 4 || parts[2] != COUNT then None
    else
      var cut := Partition(parts[3], '|');
      if cut.0 !in COUNTER_FIELDS || u.parse(cut.1).None? then None
      else Some((cut.0, u.parse(cut.1).value))
  }

  lemma {:induction false} PartitionAtBar(s: string, t: string, c: char)
    requires c !in s
    ensures Partition(s + [c] + t, c) == (s, t)
  {
    var u := s + [c] + t;
    if s == "" {
      assert u[1..] == t;
    } else {
      assert u[1..] == s[1..] + [c] + t;
      PartitionAtBar(s[1..], t, c);
      assert [s[0]] + s[1..] == s;
    }
  }

  /** The payload of a counter key. */
  lemma CounterKeyShape<Id(!new)>(u: Uuids<Id>, env: string, field: string, id: Id)
    requires Faithful(u) && field in COUNTER_FIELDS
    ensures CounterKey(u, env, field, id) == Some(ROOT + ":" + env + ":" + COUNT + ":" + (field + "|" + u.show(id)))
    ensures ':' !in field + "|" + u.show(id)
  {
    FieldsArePlain(field);
    assert Plain(u.show(id));
    EscapeLeaves(field);
    EscapeLeaves(u.show(id));
    var parts: seq<Option<string>> := [Some(field), Some(u.show(id))];
    assert Segments(parts) == [field, u.show(id)];
    assert Segments(parts)[1..] == [u.show(id)];
    assert Join([u.show(id)], '|') == u.show(id);
  }

  lemma SplitKey(env: string, payload: string)
    requires ':' !in payload
    ensures var parts := Split(ROOT + ":" + env + ":" + COUNT + ":" + payload, ':');
            if ':' in env then |parts| > 4 else parts == [ROOT, env, COUNT, payload]
  {
    var key := ROOT + ":" + env + ":" + COUNT + ":" + payload;
    assert ':' !in ROOT && ':' !in COUNT;
    var tail := COUNT + ":" + payload;
    SplitPrefix(COUNT, payload, ':');
    SplitWhole(payload, ':');
    var rest := env + ":" + tail;
    assert key == ROOT + ":" + rest;
    SplitPrefix(ROOT, rest, ':');
    if ':' in env {
      SplitCount(env, tail, ':');
      SplitLength(env, ':');
    } else {
      SplitPrefix(env, tail, ':');
    }
  }

  /** The parser reads a printed counter key back exactly when the environment name holds
      no colon; otherwise it does not recognise the key at all. */
  lemma CounterKeyRoundTrip<Id(!new)>(u: Uuids<Id>, env: string, field: string, id: Id)
    requires Faithful(u) && field in COUNTER_FIELDS
    ensures CounterKey(u, env, field, id).Some?
    ensures ParseCounterKey(u, CounterKey(u, env, field, id).value) == if ':' in env then None else Some((field, id))
  {
    CounterKeyShape(u, env, field, id);
    var payload := field + "|" + u.show(id);
    SplitKey(env, payload);
    if ':' !in env {
      FieldsArePlain(field);
      PartitionAtBar(field, u.show(id), '|');
    }
  }
}

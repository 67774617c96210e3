/**
 Token usage read off a streamed response: events are cut at the leftmost blank
 line, each event's data lines may carry a usage object, and its numeric fields
 overwrite what was merged before. Bytes are characters; trimming, parsing and
 picking the usage object out of a data line is left to the caller's `usage`.
 The reference takes one byte at a time; the code appends a chunk and drains.
 */
module UsageStream {
  import opened Options
  import opened Sequences

  type Bytes = seq<char>
  type Key = nat

  const RESIDUE_MAX: nat := 1024 * 1024
  const DATA: Bytes := "data:"

  datatype Value = Number(n: real) | NotANumber

  datatype Field = Field(key: Key, val: Value)

  // ── Cutting the stream into events ───────────────────────

  datatype Out = Out(buf: Bytes, events: seq<Bytes>)

  /** A newline right after a newline ends the event. */
  function Byte(buf: Bytes, c: char): Out {
    if c == '\n' && buf != [] && buf[|buf| - 1] == '\n' then Out([], [buf + [c]]) else Out(buf + [c], [])
  }

  function Run(buf: Bytes, bytes: Bytes): Out {
    if bytes == [] then Out(buf, [])
    else
      var before := Run(buf, bytes[..|bytes| - 1]);
      var last := Byte(before.buf, bytes[|bytes| - 1]);
      Out(last.buf, before.events + last.events)
  }

  predicate NoPair(s: Bytes) {
    forall i {:trigger s[i]} :: 0 <= i < |s| - 1 ==> !(s[i] == '\n' && s[i + 1] == '\n')
  }

  lemma {:induction false} OneMoreByte(buf: Bytes, s: Bytes, c: char)
    ensures var before := Run(buf, s);
            var last := Byte(before.buf, c);
            Run(buf, s + [c]) == Out(last.buf, before.events + last.events)
  {
    assert (s + [c])[..|s|] == s;
  }

  ghost predicate RunsInTwo(buf: Bytes, a: Bytes, b: Bytes) {
    var first := Run(buf, a);
    var second := Run(first.buf, b);
    Run(buf, a + b) == Out(second.buf, first.events + second.events)
  }

  lemma {:induction false} OneMoreAfter(buf: Bytes, a: Bytes, b: Bytes, c: char)
    requires RunsInTwo(buf, a, b)
    ensures RunsInTwo(buf, a, b + [c])
  {
    Associative(a, b, [c]);
    OneMoreByte(buf, a + b, c);
    var first := Run(buf, a);
    OneMoreByte(first.buf, b, c);
    var mid := Run(first.buf, b);
    var last := Byte(mid.buf, c);
    Associative(first.events, mid.events, last.events);
  }

  /** Bytes in two parts, one part after the other. */
  lemma {:induction false} RunBoth(buf: Bytes, a: Bytes, b: Bytes)
    ensures RunsInTwo(buf, a, b)
  {
    var first := Run(buf, a);
    if b == [] {
      assert a + b == a && first.events + [] == first.events;
    } else {
      var n := |b| - 1;
      RunBoth(buf, a, b[..n]);
      OneMoreAfter(buf, a, b[..n], b[n]);
      assert b[..n] + [b[n]] == b;
    }
  }

  lemma {:induction false} RunWithoutPair(buf: Bytes, s: Bytes)
    requires NoPair(buf + s)
    ensures Run(buf, s) == Out(buf + s, [])
  {
    if s == [] {
      assert buf + s == buf;
    } else {
      var n := |s| - 1;
      var all := buf + s;
      assert buf + s[..n] == all[..|all| - 1];
      RunWithoutPair(buf, s[..n]);
      if |all| > 1 {
        assert all[|all| - 2] == (buf + s[..n])[|all| - 2];
      }
      assert buf + s[..n] + [s[n]] == all;
    }
  }

  lemma {:induction false} RunWholeEvent(ev: Bytes)
    requires |ev| >= 2 && ev[|ev| - 1] == '\n' && ev[|ev| - 2] == '\n' && NoPair(ev[..|ev| - 1])
    ensures Run([], ev) == Out([], [ev])
  {
    var n := |ev| - 1;
    var init := ev[..n];
    assert [] + init == init;
    RunWithoutPair([], init);
    assert init[|init| - 1] == '\n' && init + [ev[n]] == ev;
    OneMoreByte([], init, ev[n]);
  }

  /** An event up to its first blank line, taken whole. */
  lemma {:induction false} RunEvent(ev: Bytes, rest: Bytes)
    requires |ev| >= 2 && ev[|ev| - 1] == '\n' && ev[|ev| - 2] == '\n' && NoPair(ev[..|ev| - 1])
    ensures Run([], ev + rest) == Out(Run([], rest).buf, [ev] + Run([], rest).events)
  {
    RunWholeEvent(ev);
    RunBoth([], ev, rest);
  }

  // ── Reading one event ────────────────────────────────────

  /** The position of the first newline from `k` on, or the length when there is none. */
  function NewlineFrom(b: Bytes, k: nat): (i: nat)
    requires k <= |b|
    ensures k <= i <= |b|
    ensures i < |b| ==> b[i] == '\n'
    ensures forall j :: k <= j < i ==> b[j] != '\n'
    decreases |b| - k
  {
    if k == |b| || b[k] == '\n' then k else NewlineFrom(b, k + 1)
  }

  function WithoutCr(line: Bytes): Bytes {
    if line != [] && line[|line| - 1] == '\r' then line[..|line| - 1] else line
  }

  /** The lines of a text; the last may lack its newline. */
  function LinesOf(raw: Bytes): seq<Bytes>
    decreases |raw|
  {
    if raw == [] then []
    else
      var i := NewlineFrom(raw, 0);
      if i == |raw| then [raw] else [WithoutCr(raw[..i])] + LinesOf(raw[i + 1..])
  }

  /** The usage object a line carries, if any. */
  function UsageOf(usage: Bytes -> Option<seq<Field>>, line: Bytes): Option<seq<Field>> {
    if DATA <= line then usage(line[5..]) else None
  }

  /** Numeric fields overwrite, in order; the first object starts the record. */
  function Overwrite(m: map<Key, real>, fields: seq<Field>): map<Key, real> {
    if fields == [] then m
    else
      var f := fields[|fields| - 1];
      var before := Overwrite(m, fields[..|fields| - 1]);
      if f.val.Number? then before[f.key := f.val.n] else before
  }

  function MergeLine(
    usage: Bytes -> Option<seq<Field>>, m: Option<map<Key, real>>, line: Bytes): Option<map<Key, real>> {
    var u := UsageOf(usage, line);
    if u.Some? then Some(Overwrite(m.GetOr(map[]), u.value)) else m
  }

  function MergeLines(
    usage: Bytes -> Option<seq<Field>>, m: Option<map<Key, real>>, lines: seq<Bytes>): Option<map<Key, real>> {
    if lines == [] then m
    else MergeLine(usage, MergeLines(usage, m, lines[..|lines| - 1]), lines[|lines| - 1])
  }

  function MergeEvents(
    usage: Bytes -> Option<seq<Field>>, m: Option<map<Key, real>>, events: seq<Bytes>): Option<map<Key, real>> {
    if events == [] then m
    else MergeLines(usage, MergeEvents(usage, m, events[..|events| - 1]), LinesOf(events[|events| - 1]))
  }

  lemma {:induction false} MergeBoth(
    usage: Bytes -> Option<seq<Field>>, m: Option<map<Key, real>>, a: seq<Bytes>, b: seq<Bytes>)
    ensures MergeEvents(usage, m, a + b) == MergeEvents(usage, MergeEvents(usage, m, a), b)
  {
    if b == [] {
      assert a + b == a;
    } else {
      MergeBoth(usage, m, a, b[..|b| - 1]);
      assert (a + b)[..|a + b| - 1] == a + b[..|b| - 1];
    }
  }

  // ── The code ─────────────────────────────────────────────

  /** The position of the first blank line from `k` on. */
  function PairFrom(b: Bytes, k: nat): (i: Option<nat>)
    requires k <= |b|
    ensures i.None? ==> forall j {:trigger b[j]} :: k <= j < |b| - 1 ==> !(b[j] == '\n' && b[j + 1] == '\n')
    ensures i.Some? ==> k <= i.value < |b| - 1 && b[i.value] == '\n' && b[i.value + 1] == '\n'
    ensures i.Some? ==> forall j {:trigger b[j]} :: k <= j < i.value ==> !(b[j] == '\n' && b[j + 1] == '\n')
    decreases |b| - k
  {
    if k + 1 >= |b| then None
    else if b[k] == '\n' && b[k + 1] == '\n' then Some(k)
    else PairFrom(b, k + 1)
  }

  class UsageAccumulator {
    const usage: Bytes -> Option<seq<Field>>
    var merged: Option<map<Key, real>>

    constructor (usage: Bytes -> Option<seq<Field>>)
      ensures this.usage == usage && merged.None?
    {
      this.usage := usage;
      merged := None;
    }

    /** Merge the usage of one event. */
    method Event(raw: Bytes)
      modifies this
      ensures merged == MergeEvents(usage, old(merged), [raw])
    {
      var lines := LinesOf(raw);
      ghost var was := merged;
      for i := 0 to |lines|
        invariant merged == MergeLines(usage, was, lines[..i])
      {
        assert lines[..i + 1][..i] == lines[..i];
        var u := UsageOf(usage, lines[i]);
        if u.Some? {
          var m := if merged.Some? then merged.value else map[];
          for j := 0 to |u.value|
            invariant m == Overwrite(merged.GetOr(map[]), u.value[..j])
          {
            assert u.value[..j + 1][..j] == u.value[..j];
            if u.value[j].val.Number? {
              m := m[u.value[j].key := u.value[j].val.n];
            }
          }
          assert u.value[..|u.value|] == u.value;
          merged := Some(m);
        }
      }
      assert lines[..|lines|] == lines;
      assert [raw][..0] == [];
    }

    /** Take a chunk: merge every event it completes and return what is left over. */
    method Feed(buf: Bytes, chunk: Bytes) returns (rest: Bytes)
      requires NoPair(buf)
      modifies this
      ensures var o := Run(buf, chunk);
              && merged == MergeEvents(usage, old(merged), o.events)
              && rest == if |o.buf| > RESIDUE_MAX then [] else o.buf
      ensures NoPair(rest)
    {
      ghost var goal := Run(buf, chunk);
      ghost var was := merged;
      ghost var done: seq<Bytes> := [];
      BufferFirst(buf, chunk);
      rest := buf + chunk;
      var pos := PairFrom(rest, 0);
      while pos.Some?
        invariant pos == PairFrom(rest, 0)
        invariant LeadsTo(done, rest, goal)
        invariant merged == MergeEvents(usage, was, done)
        decreases |rest|
      {
        var ev := rest[..pos.value + 2];
        EventIsCut(done, rest, pos.value, goal);
        Event(ev);
        MergeBoth(usage, was, done, [ev]);
        done := done + [ev];
        rest := rest[pos.value + 2..];
        pos := PairFrom(rest, 0);
      }
      Arrive(done, rest, goal);
      if |rest| > RESIDUE_MAX {
        rest := [];
      }
    }

    /** The stream ended: what is left over is the last event. */
    method Flush(buf: Bytes)
      modifies this
      ensures merged == MergeEvents(usage, old(merged), Tail(buf))
    {
      if buf != [] {
        Event(buf);
      }
    }
  }

  function Tail(buf: Bytes): seq<Bytes> {
    if buf == [] then [] else [buf]
  }

  /** With `done` cut off and this much still to take, the reference ends at `goal`. */
  ghost predicate LeadsTo(done: seq<Bytes>, rest: Bytes, goal: Out) {
    goal.buf == Run([], rest).buf && goal.events == done + Run([], rest).events
  }

  lemma {:induction false} BufferFirst(buf: Bytes, chunk: Bytes)
    requires NoPair(buf)
    ensures LeadsTo([], buf + chunk, Run(buf, chunk))
  {
    assert [] + buf == buf;
    RunWithoutPair([], buf);
    RunBoth([], buf, chunk);
  }

  lemma {:induction false} EventIsCut(done: seq<Bytes>, rest: Bytes, pos: nat, goal: Out)
    requires LeadsTo(done, rest, goal) && PairFrom(rest, 0) == Some(pos)
    ensures LeadsTo(done + [rest[..pos + 2]], rest[pos + 2..], goal)
  {
    var ev, after := rest[..pos + 2], rest[pos + 2..];
    assert rest == ev + after;
    RunEvent(ev, after);
    assert done + ([ev] + Run([], after).events) == done + [ev] + Run([], after).events;
  }

  lemma {:induction false} Arrive(done: seq<Bytes>, rest: Bytes, goal: Out)
    requires LeadsTo(done, rest, goal) && PairFrom(rest, 0).None?
    ensures goal == Out(rest, done) && NoPair(rest)
  {
    assert [] + rest == rest;
    RunWithoutPair([], rest);
    assert done + [] == done;
  }

  // ── Chunks do not matter ─────────────────────────────────

  function Concat(chunks: seq<Bytes>): Bytes {
    if chunks == [] then [] else Concat(chunks[..|chunks| - 1]) + chunks[|chunks| - 1]
  }

  /** The stream as the code takes it: what is left over and what is merged after the chunks. */
  datatype Taken = Taken(rest: Bytes, merged: Option<map<Key, real>>)

  const UNFED: Taken := Taken([], None)

  /** One chunk more. */
  function Fed(usage: Bytes -> Option<seq<Field>>, t: Taken, chunk: Bytes): Taken {
    var o := Run(t.rest, chunk);
    Taken(if |o.buf| > RESIDUE_MAX then [] else o.buf, MergeEvents(usage, t.merged, o.events))
  }

  function FeedAll(usage: Bytes -> Option<seq<Field>>, chunks: seq<Bytes>): Taken {
    if chunks == [] then UNFED else Fed(usage, FeedAll(usage, chunks[..|chunks| - 1]), chunks[|chunks| - 1])
  }

  /** No chunk leaves more than the limit. */
  ghost predicate NeverOverlong(chunks: seq<Bytes>)
    decreases |chunks|
  {
    chunks == [] || (NeverOverlong(chunks[..|chunks| - 1]) && |Run([], Concat(chunks)).buf| <= RESIDUE_MAX)
  }

  lemma {:induction false} AnyChunking(usage: Bytes -> Option<seq<Field>>, chunks: seq<Bytes>)
    requires NeverOverlong(chunks)
    ensures var whole := Run([], Concat(chunks));
            FeedAll(usage, chunks) == Taken(whole.buf, MergeEvents(usage, None, whole.events))
    decreases |chunks|
  {
    if chunks != [] {
      var n := |chunks| - 1;
      AnyChunking(usage, chunks[..n]);
      RunBoth([], Concat(chunks[..n]), chunks[n]);
      var before := Run([], Concat(chunks[..n]));
      MergeBoth(usage, None, before.events, Run(before.buf, chunks[n]).events);
    }
  }

  /** The residue never holds a blank line. */
  lemma {:induction false} ResidueHasNoPair(buf: Bytes, bytes: Bytes)
    requires NoPair(buf)
    ensures NoPair(Run(buf, bytes).buf)
  {
    if bytes != [] {
      ResidueHasNoPair(buf, bytes[..|bytes| - 1]);
      var before := Run(buf, bytes[..|bytes| - 1]).buf;
      var after := Run(buf, bytes).buf;
      if after != [] {
        assert after[..|before|] == before;
        forall i {:trigger after[i]} | 0 <= i < |after| - 1
          ensures !(after[i] == '\n' && after[i + 1] == '\n')
        {
          assert after[i] == before[i];
          if i + 1 < |before| {
            assert after[i + 1] == before[i + 1];
          }
        }
      }
    }
  }

  // ── What is merged ───────────────────────────────────────

  /** The usage fields of some lines, in stream order. */
  function LineFields(usage: Bytes -> Option<seq<Field>>, lines: seq<Bytes>): seq<Field> {
    if lines == [] then []
    else LineFields(usage, lines[..|lines| - 1]) + UsageOf(usage, lines[|lines| - 1]).GetOr([])
  }

  /** The usage fields of the whole stream, in order. */
  function EventFields(usage: Bytes -> Option<seq<Field>>, events: seq<Bytes>): seq<Field> {
    if events == [] then []
    else EventFields(usage, events[..|events| - 1]) + LineFields(usage, LinesOf(events[|events| - 1]))
  }

  /** The last number given for a key. */
  function LastNumber(fields: seq<Field>, k: Key): Option<real> {
    if fields == [] then None
    else
      var f := fields[|fields| - 1];
      if f.key == k && f.val.Number? then Some(f.val.n) else LastNumber(fields[..|fields| - 1], k)
  }

  function Lookup(m: map<Key, real>, k: Key): Option<real> {
    if k in m then Some(m[k]) else None
  }

  lemma {:induction false} LastOfBoth(a: seq<Field>, b: seq<Field>, k: Key)
    ensures LastNumber(a + b, k) == LastNumber(b, k).Or(LastNumber(a, k))
  {
    if b == [] {
      assert a + b == a;
    } else {
      LastOfBoth(a, b[..|b| - 1], k);
      assert (a + b)[..|a + b| - 1] == a + b[..|b| - 1];
    }
  }

  lemma {:induction false} OverwriteKeepsLast(m: map<Key, real>, fields: seq<Field>, k: Key)
    ensures Lookup(Overwrite(m, fields), k) == LastNumber(fields, k).Or(Lookup(m, k))
  {
    if fields != [] {
      OverwriteKeepsLast(m, fields[..|fields| - 1], k);
    }
  }

  lemma {:induction false} LinesKeepLast(
    usage: Bytes -> Option<seq<Field>>, m: Option<map<Key, real>>, lines: seq<Bytes>, k: Key)
    ensures Lookup(MergeLines(usage, m, lines).GetOr(map[]), k)
            == LastNumber(LineFields(usage, lines), k).Or(Lookup(m.GetOr(map[]), k))
  {
    if lines != [] {
      var n := |lines| - 1;
      LinesKeepLast(usage, m, lines[..n], k);
      var u := UsageOf(usage, lines[n]);
      LastOfBoth(LineFields(usage, lines[..n]), u.GetOr([]), k);
      if u.Some? {
        OverwriteKeepsLast(MergeLines(usage, m, lines[..n]).GetOr(map[]), u.value, k);
      }
    }
  }

  /** Each key holds the last number the events gave it, and only keys given a number are held. */
  lemma {:induction false} MergedIsLast(usage: Bytes -> Option<seq<Field>>, events: seq<Bytes>, k: Key)
    ensures Lookup(MergeEvents(usage, None, events).GetOr(map[]), k) == LastNumber(EventFields(usage, events), k)
  {
    if events != [] {
      var n := |events| - 1;
      MergedIsLast(usage, events[..n], k);
      var lines := LinesOf(events[n]);
      LinesKeepLast(usage, MergeEvents(usage, None, events[..n]), lines, k);
      LastOfBoth(EventFields(usage, events[..n]), LineFields(usage, lines), k);
    }
  }

  /** The usage once the stream has ended. */
  function Flushed(usage: Bytes -> Option<seq<Field>>, t: Taken): Option<map<Key, real>> {
    MergeEvents(usage, t.merged, Tail(t.rest))
  }

  /** However the stream is cut, feeding it and flushing yields, per key, the last number in the stream. */
  lemma {:induction false} StreamedUsageIsLast(usage: Bytes -> Option<seq<Field>>, chunks: seq<Bytes>, k: Key)
    requires NeverOverlong(chunks)
    ensures var taken := FeedAll(usage, chunks);
            var whole := Run([], Concat(chunks));
            Lookup(Flushed(usage, taken).GetOr(map[]), k) == LastNumber(EventFields(usage, whole.events + Tail(whole.buf)), k)
  {
    var whole := Run([], Concat(chunks));
    AnyChunking(usage, chunks);
    MergeBoth(usage, None, whole.events, Tail(whole.buf));
    MergedIsLast(usage, whole.events + Tail(whole.buf), k);
  }

  // ── Exactly which cuts do not matter ─────────────────────

  /** Cutting a stream of `a` and `b` in between yields the usage of feeding it in one. */
  ghost predicate CutKeepsUsage(usage: Bytes -> Option<seq<Field>>, a: Bytes, b: Bytes) {
    Flushed(usage, Fed(usage, Fed(usage, UNFED, a), b)) == Flushed(usage, Fed(usage, UNFED, a + b))
  }

  lemma {:induction false} ShortCutIsInvisible(usage: Bytes -> Option<seq<Field>>, a: Bytes, b: Bytes)
    requires |Run([], a).buf| <= RESIDUE_MAX
    ensures Fed(usage, Fed(usage, UNFED, a), b) == Fed(usage, UNFED, a + b)
  {
    RunBoth([], a, b);
    MergeBoth(usage, None, Run([], a).events, Run(Run([], a).buf, b).events);
  }

  /** A data line still short of its newline is held as it is. */
  lemma {:induction false} HoldsALine(buf: Bytes, l: Bytes)
    requires NoPair(buf) && '\n' !in l
    ensures Run(buf, DATA + l) == Out(buf + (DATA + l), [])
  {
    var b := DATA + l;
    assert forall i {:trigger b[i]} :: 0 <= i < |b| ==> b[i] != '\n';
    assert NoPair(buf + b);
    RunWithoutPair(buf, b);
  }

  /** The last number a line's text gives for the key. */
  function NumberOn(usage: Bytes -> Option<seq<Field>>, l: Bytes, k: Key): Option<real> {
    LastNumber(usage(l).GetOr([]), k)
  }

  /** Two lines short enough to be held, off which different numbers are read for one key. */
  ghost predicate TellsApart(usage: Bytes -> Option<seq<Field>>, l: Bytes, other: Bytes, k: Key) {
    && '\n' !in l + other && |DATA + l| <= RESIDUE_MAX && |DATA + other| <= RESIDUE_MAX
    && NumberOn(usage, l, k).Some? && NumberOn(usage, other, k).Some?
    && NumberOn(usage, l, k) != NumberOn(usage, other, k)
  }

  lemma {:induction false} FlushesOneLine(
    usage: Bytes -> Option<seq<Field>>, m: Option<map<Key, real>>, l: Bytes, k: Key)
    requires '\n' !in l && NumberOn(usage, l, k).Some?
    ensures Lookup(Flushed(usage, Taken(DATA + l, m)).GetOr(map[]), k) == NumberOn(usage, l, k)
  {
    var line := DATA + l;
    assert LinesOf(line) == [line] && line[5..] == l;
    assert MergeLines(usage, m, [line]) == MergeLine(usage, m, line);
    assert MergeEvents(usage, m, [line]) == MergeLines(usage, m, LinesOf(line));
    OverwriteKeepsLast(m.GetOr(map[]), usage(l).value, k);
  }

  lemma {:induction false} EmptyHasNoPair()
    ensures NoPair([])
  {
  }

  lemma {:induction false} Joins(events: seq<Bytes>, b: Bytes)
    ensures events + [] == events && [] + b == b
  {
  }

  lemma {:induction false} NothingMerged(usage: Bytes -> Option<seq<Field>>, m: Option<map<Key, real>>)
    ensures MergeEvents(usage, m, []) == m
  {
  }

  /** Behind an overlong residue a last line is lost that a cut would save. */
  lemma {:induction false} OverlongCutShows(
    usage: Bytes -> Option<seq<Field>>, a: Bytes, l: Bytes, other: Bytes, k: Key)
    returns (b: Bytes)
    requires |Run([], a).buf| > RESIDUE_MAX && TellsApart(usage, l, other, k)
    ensures !CutKeepsUsage(usage, a, b)
  {
    hide Run, MergeEvents, NoPair, Lookup, NumberOn;
    var o := Run([], a);
    var m := MergeEvents(usage, None, o.events);
    var last := if Lookup(m.GetOr(map[]), k) == NumberOn(usage, l, k) then other else l;
    b := DATA + last;
    EmptyHasNoPair();
    ResidueHasNoPair([], a);
    HoldsALine(o.buf, last);
    HoldsALine([], last);
    Joins(o.events, b);
    RunBoth([], a, b);
    NothingMerged(usage, m);
    FlushesOneLine(usage, m, last, k);
    assert Flushed(usage, Fed(usage, UNFED, a + b)) == m;
    assert Fed(usage, Fed(usage, UNFED, a), b) == Taken(b, m);
    return;
  }

  /**
   Cutting after `a` never shows in the usage, whatever follows, when `a` leaves no
   residue over the limit; and only then, if any two lines are told apart at all.
   */
  lemma {:induction false} CutIsInvisibleExactly(usage: Bytes -> Option<seq<Field>>, a: Bytes)
    ensures |Run([], a).buf| <= RESIDUE_MAX ==> forall b :: CutKeepsUsage(usage, a, b)
    ensures (exists l, other, k :: TellsApart(usage, l, other, k)) ==>
              ((forall b :: CutKeepsUsage(usage, a, b)) <==> |Run([], a).buf| <= RESIDUE_MAX)
  {
    if |Run([], a).buf| <= RESIDUE_MAX {
      forall b
        ensures CutKeepsUsage(usage, a, b)
      {
        ShortCutIsInvisible(usage, a, b);
      }
    } else if l, other, k :| TellsApart(usage, l, other, k) {
      var b := OverlongCutShows(usage, a, l, other, k);
    }
  }
}

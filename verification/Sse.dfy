/**
 The incremental parser of server-sent events: the `data:` line, blank line and
 comment part of section 9.2.6 of the WHATWG HTML Living Standard, with lines
 ending in LF or CRLF. Bytes are characters; what an event's text decodes and
 parses to is left to the caller's `parse`. The reference takes one byte at a
 time; the code appends a whole chunk and drains the lines it completes.
 */
module Sse {
  import opened Options
  import opened Sequences

  type Bytes = seq<char>

  const LINE_MAX: nat := 0x10_0000
  const DATA: Bytes := "data:"

  function TrimCr(line: Bytes): Bytes {
    if line != [] && line[|line| - 1] == '\r' then TrimCr(line[..|line| - 1]) else line
  }

  function StripSpace(d: Bytes): Bytes {
    if d != [] && d[0] == ' ' then d[1..] else d
  }

  function Join(lines: seq<Bytes>): Bytes {
    if lines == [] then []
    else if |lines| == 1 then lines[0]
    else lines[0] + "\n" + Join(lines[1..])
  }

  /** One complete line: the data lines held afterwards, and the event it finished, if any. */
  function TakeLine(data: seq<Bytes>, raw: Bytes): (seq<Bytes>, seq<Bytes>) {
    var line := TrimCr(raw);
    if line == [] then
      if data != [] then ([], [Join(data)]) else (data, [])
    else if DATA <= line then (data + [StripSpace(line[5..])], [])
    else (data, [])
  }

  /** The incomplete line and the data lines of the event under way. */
  datatype Parsing = Parsing(buf: Bytes, data: seq<Bytes>)

  const EMPTY: Parsing := Parsing([], [])

  /** A parser and the texts of the events it has finished. */
  datatype Out = Out(p: Parsing, texts: seq<Bytes>)

  function Byte(p: Parsing, c: char): Out {
    if c == '\n' then
      var (held, e) := TakeLine(p.data, p.buf);
      Out(Parsing([], held), e)
    else Out(p.(buf := p.buf + [c]), [])
  }

  /** The reference: one byte after the other. */
  function Run(p: Parsing, bytes: Bytes): Out {
    if bytes == [] then Out(p, [])
    else
      var before := Run(p, bytes[..|bytes| - 1]);
      var last := Byte(before.p, bytes[|bytes| - 1]);
      Out(last.p, before.texts + last.texts)
  }

  /** A chunk at a time; a residue too long to be a line drops everything held. */
  function Feed(p: Parsing, chunk: Bytes): Out {
    var o := Run(p, chunk);
    if |o.p.buf| > LINE_MAX then Out(EMPTY, o.texts) else o
  }

  /** The events whose text parses. */
  function Parsed<V>(parse: Bytes -> Option<V>, texts: seq<Bytes>): seq<V> {
    if texts == [] then []
    else
      var v := parse(texts[|texts| - 1]);
      Parsed(parse, texts[..|texts| - 1]) + if v.Some? then [v.value] else []
  }

  // ── The reference, line by line ──────────────────────────

  lemma {:induction false} OneMoreByte(p: Parsing, s: Bytes, c: char)
    ensures var before := Run(p, s);
            var last := Byte(before.p, c);
            Run(p, s + [c]) == Out(last.p, before.texts + last.texts)
  {
    assert (s + [c])[..|s|] == s;
  }

  ghost predicate RunsInTwo(p: Parsing, a: Bytes, b: Bytes) {
    var first := Run(p, a);
    var second := Run(first.p, b);
    Run(p, a + b) == Out(second.p, first.texts + second.texts)
  }

  lemma {:induction false} OneMoreAfter(p: Parsing, a: Bytes, b: Bytes, c: char)
    requires RunsInTwo(p, a, b)
    ensures RunsInTwo(p, a, b + [c])
  {
    Associative(a, b, [c]);
    OneMoreByte(p, a + b, c);
    var first := Run(p, a);
    OneMoreByte(first.p, b, c);
    var mid := Run(first.p, b);
    var last := Byte(mid.p, c);
    Associative(first.texts, mid.texts, last.texts);
  }

  /** Bytes in two parts, one part after the other. */
  lemma {:induction false} RunBoth(p: Parsing, a: Bytes, b: Bytes)
    ensures RunsInTwo(p, a, b)
  {
    var first := Run(p, a);
    if b == [] {
      assert a + b == a && first.texts + [] == first.texts;
    } else {
      var n := |b| - 1;
      RunBoth(p, a, b[..n]);
      OneMoreAfter(p, a, b[..n], b[n]);
      assert b[..n] + [b[n]] == b;
    }
  }

  /** Bytes without a newline only lengthen the incomplete line. */
  lemma {:induction false} RunWithoutNewline(p: Parsing, s: Bytes)
    requires '\n' !in s
    ensures Run(p, s) == Out(p.(buf := p.buf + s), [])
  {
    if s == [] {
      assert p.buf + s == p.buf;
    } else {
      RunWithoutNewline(p, s[..|s| - 1]);
      assert s == s[..|s| - 1] + [s[|s| - 1]];
      assert p.buf + s == p.buf + s[..|s| - 1] + [s[|s| - 1]];
    }
  }

  /** A complete line, taken whole. */
  lemma {:induction false} RunLine(data: seq<Bytes>, line: Bytes, rest: Bytes)
    requires '\n' !in line
    ensures var (held, e) := TakeLine(data, line);
            var later := Run(Parsing([], held), rest);
            Run(Parsing([], data), line + "\n" + rest) == Out(later.p, e + later.texts)
  {
    var p := Parsing([], data);
    RunWithoutNewline(p, line);
    assert [] + line == line;
    RunBoth(p, line, "\n");
    assert "\n"[..0] == [];
    var (held, e) := TakeLine(data, line);
    assert [] + e == e;
    assert Run(Parsing(line, data), "\n") == Out(Parsing([], held), e);
    RunBoth(p, line + "\n", rest);
  }

  // ── The code ─────────────────────────────────────────────

  /** The position of the first newline from `k` on, or the length when there is none. */
  function NewlineFrom(b: Bytes, k: nat): (i: nat)
    requires k <= |b|
    ensures k <= i <= |b| && forall j :: k <= j < i ==> b[j] != '\n'
    ensures i < |b| ==> b[i] == '\n'
    decreases |b| - k
  {
    if k == |b| || b[k] == '\n' then k else NewlineFrom(b, k + 1)
  }

  class SseParser<V> {
    const parse: Bytes -> Option<V>
    var buf: Bytes
    var data: seq<Bytes>

    function State(): Parsing
      reads this
    {
      Parsing(buf, data)
    }

    constructor (parse: Bytes -> Option<V>)
      ensures State() == EMPTY && this.parse == parse
    {
      this.parse := parse;
      buf, data := [], [];
    }

    /** Finish one line drained from the buffer; the event it completes, if any. */
    method TakeDrained(raw: Bytes) returns (text: Option<Bytes>)
      modifies this`data
      ensures data == TakeLine(old(data), raw).0 && TakeLine(old(data), raw).1 == Opt(text)
    {
      text := None;
      var line := TrimCr(raw);
      if line == [] {
        if data != [] {
          text := Some(Join(data));
          data := [];
        }
      } else if DATA <= line {
        data := data + [StripSpace(line[5..])];
      }
    }

    /** Drain the line that ends at `nl`; the event it completes, if any. */
    method DrainLine(nl: nat) returns (text: Option<Bytes>)
      requires nl == NewlineFrom(buf, 0) < |buf|
      modifies this`buf, this`data
      ensures |buf| < |old(buf)|
      ensures var rest := Run(Parsing([], data), buf);
              Run(Parsing([], old(data)), old(buf)) == Out(rest.p, Opt(text) + rest.texts)
    {
      var raw := buf[..nl];
      assert buf == raw + "\n" + buf[nl + 1..];
      RunLine(data, raw, buf[nl + 1..]);
      buf := buf[nl + 1..];
      text := TakeDrained(raw);
    }

    /** Feed bytes; get back every complete event they finished. */
    method FeedBytes(chunk: Bytes) returns (out: seq<V>)
      requires '\n' !in buf
      modifies this
      ensures State() == Feed(old(State()), chunk).p && '\n' !in buf
      ensures out == Parsed(parse, Feed(old(State()), chunk).texts)
    {
      out := [];
      ghost var goal := Run(State(), chunk);
      ghost var texts: seq<Bytes> := [];
      BufferFirst(State(), chunk);
      buf := buf + chunk;
      var nl := NewlineFrom(buf, 0);
      while nl < |buf|
        invariant nl == NewlineFrom(buf, 0)
        invariant LeadsTo(texts, data, buf, goal)
        invariant out == Parsed(parse, texts)
        decreases |buf|
      {
        ghost var was := State();
        var text := DrainLine(nl);
        Advance(texts, was.data, was.buf, Opt(text), data, buf, goal);
        ParsedOneMore(parse, texts, text);
        if text.Some? {
          var v := parse(text.value);
          if v.Some? {
            out := out + [v.value];
          }
        }
        texts := texts + Opt(text);
        nl := NewlineFrom(buf, 0);
      }
      Arrive(texts, data, buf, goal);
      if |buf| > LINE_MAX {
        buf, data := [], [];
      }
    }
  }

  /** With `texts` finished and this much still to take, the reference ends at `goal`. */
  ghost predicate LeadsTo(texts: seq<Bytes>, data: seq<Bytes>, buf: Bytes, goal: Out) {
    var rest := Run(Parsing([], data), buf);
    goal.p == rest.p && goal.texts == texts + rest.texts
  }

  lemma {:induction false} Advance(
    texts: seq<Bytes>, data: seq<Bytes>, buf: Bytes, more: seq<Bytes>, data': seq<Bytes>, buf': Bytes, goal: Out)
    requires LeadsTo(texts, data, buf, goal)
    requires Run(Parsing([], data), buf)
             == Out(Run(Parsing([], data'), buf').p, more + Run(Parsing([], data'), buf').texts)
    ensures LeadsTo(texts + more, data', buf', goal)
  {
    var rest := Run(Parsing([], data'), buf');
    assert texts + (more + rest.texts) == texts + more + rest.texts;
  }

  lemma {:induction false} Arrive(texts: seq<Bytes>, data: seq<Bytes>, buf: Bytes, goal: Out)
    requires LeadsTo(texts, data, buf, goal) && '\n' !in buf
    ensures goal == Out(Parsing(buf, data), texts)
  {
    RunWithoutNewline(Parsing([], data), buf);
    assert [] + buf == buf && texts + [] == texts;
  }

  lemma {:induction false} ParsedOneMore<V>(parse: Bytes -> Option<V>, texts: seq<Bytes>, text: Option<Bytes>)
    ensures Parsed(parse, texts + Opt(text))
            == Parsed(parse, texts) + if text.Some? && parse(text.value).Some? then [parse(text.value).value] else []
  {
    if text.Some? {
      assert (texts + Opt(text))[..|texts|] == texts;
    } else {
      assert texts + Opt(text) == texts;
    }
  }

  function Opt(e: Option<Bytes>): seq<Bytes> {
    if e.Some? then [e.value] else []
  }

  /** Holding a partial line and reading on is reading the line from its start. */
  lemma {:induction false} BufferFirst(p: Parsing, chunk: Bytes)
    requires '\n' !in p.buf
    ensures LeadsTo([], p.data, p.buf + chunk, Run(p, chunk))
  {
    RunWithoutNewline(Parsing([], p.data), p.buf);
    assert [] + p.buf == p.buf;
    RunBoth(Parsing([], p.data), p.buf, chunk);
    assert [] + Run(p, chunk).texts == Run(p, chunk).texts;
  }

  // ── Chunks do not matter ─────────────────────────────────

  /** Splitting the input changes neither the events nor what is held, unless the first part leaves an overlong line. */
  lemma {:induction false} ChunkInvariant(p: Parsing, a: Bytes, b: Bytes)
    requires |Run(p, a).p.buf| <= LINE_MAX
    ensures var first := Feed(p, a);
            var second := Feed(first.p, b);
            Feed(p, a + b) == Out(second.p, first.texts + second.texts)
  {
    RunBoth(p, a, b);
  }

  /** The residue never holds a newline and never exceeds the limit. */
  lemma {:induction false} ResidueIsBounded(p: Parsing, chunk: Bytes)
    requires '\n' !in p.buf
    ensures '\n' !in Run(p, chunk).p.buf
    ensures '\n' !in Feed(p, chunk).p.buf && |Feed(p, chunk).p.buf| <= LINE_MAX
    decreases |chunk|
  {
    if chunk != [] {
      ResidueIsBounded(p, chunk[..|chunk| - 1]);
    }
  }

  function Concat(chunks: seq<Bytes>): Bytes {
    if chunks == [] then [] else Concat(chunks[..|chunks| - 1]) + chunks[|chunks| - 1]
  }

  function FeedAll(p: Parsing, chunks: seq<Bytes>): Out {
    if chunks == [] then Out(p, [])
    else
      var first := FeedAll(p, chunks[..|chunks| - 1]);
      var second := Feed(first.p, chunks[|chunks| - 1]);
      Out(second.p, first.texts + second.texts)
  }

  /** No chunk but perhaps the last leaves an overlong line. */
  ghost predicate NeverOverlong(p: Parsing, chunks: seq<Bytes>)
    decreases |chunks|
  {
    chunks == [] ||
    (var before := chunks[..|chunks| - 1];
     NeverOverlong(p, before) && |Run(p, Concat(before)).p.buf| <= LINE_MAX)
  }

  /** Any such chunking gives what feeding everything at once gives. */
  lemma {:induction false} AnyChunking(p: Parsing, chunks: seq<Bytes>)
    requires NeverOverlong(p, chunks) && chunks != []
    ensures FeedAll(p, chunks) == Feed(p, Concat(chunks))
    decreases |chunks|
  {
    var n := |chunks| - 1;
    var last := chunks[n];
    if n == 0 {
      assert chunks[..n] == [];
      assert Concat(chunks) == [] + last == last;
      assert [] + Feed(p, last).texts == Feed(p, last).texts;
    } else {
      AnyChunking(p, chunks[..n]);
      ChunkInvariant(p, Concat(chunks[..n]), last);
    }
  }

  // ── Printing and reading back ────────────────────────────

  function Eol(crlf: bool): Bytes { if crlf then "\r\n" else "\n" }

  function PrintLines(lines: seq<Bytes>, crlf: bool): Bytes {
    if lines == [] then [] else "data: " + lines[0] + Eol(crlf) + PrintLines(lines[1..], crlf)
  }

  /** Each event is one or more lines of text. */
  function Print(events: seq<seq<Bytes>>, crlf: bool): Bytes {
    if events == [] then [] else PrintLines(events[0], crlf) + Eol(crlf) + Print(events[1..], crlf)
  }

  function Texts(events: seq<seq<Bytes>>): seq<Bytes> {
    if events == [] then [] else [Join(events[0])] + Texts(events[1..])
  }

  predicate EndsInCr(l: Bytes) {
    l != [] && l[|l| - 1] == '\r'
  }

  /** A line that can be printed: no newline in it, and no carriage return at its end for the reader to trim. */
  predicate Printable(l: Bytes) {
    '\n' !in l && !EndsInCr(l)
  }

  predicate PrintableEvent(lines: seq<Bytes>) {
    lines != [] && forall i :: 0 <= i < |lines| ==> Printable(lines[i])
  }

  /** One line, its end of line, and whatever follows. */
  lemma {:induction false} OneLine(data: seq<Bytes>, line: Bytes, crlf: bool, rest: Bytes)
    requires Printable(line)
    ensures var (held, e) := TakeLine(data, line);
            var later := Run(Parsing([], held), rest);
            Run(Parsing([], data), line + Eol(crlf) + rest) == Out(later.p, e + later.texts)
  {
    if crlf {
      var raw := line + "\r";
      assert line + Eol(crlf) + rest == raw + "\n" + rest;
      assert raw[..|raw| - 1] == line;
      assert TrimCr(raw) == TrimCr(line);
      RunLine(data, raw, rest);
    } else {
      RunLine(data, line, rest);
    }
  }

  lemma {:induction false} TrimIsPrefix(line: Bytes)
    ensures |TrimCr(line)| <= |line| && TrimCr(line) == line[..|TrimCr(line)|]
  {
    if EndsInCr(line) {
      TrimIsPrefix(line[..|line| - 1]);
    }
  }

  /** A data line is read back as printed exactly when it does not end in a carriage return. */
  lemma {:induction false} DataLineExactly(data: seq<Bytes>, l: Bytes)
    ensures TakeLine(data, "data: " + l) == (data + [l], []) <==> !EndsInCr(l)
  {
    var raw := "data: " + l;
    if EndsInCr(l) {
      var t := TrimCr(raw);
      TrimIsPrefix(raw[..|raw| - 1]);
      assert |t| < |raw|;
      if DATA <= t {
        assert |t| > 5 ==> t[5] == raw[5];
        assert |StripSpace(t[5..])| < |l|;
        assert (data + [StripSpace(t[5..])])[|data|] != l && (data + [l])[|data|] == l;
      } else {
        assert |data + [l]| != |data|;
      }
    } else {
      assert raw[..5] == DATA && raw[5..] == " " + l;
    }
  }

  lemma {:induction false} ReadsOneLineBack(data: seq<Bytes>, l: Bytes, crlf: bool, more: Bytes)
    requires Printable(l)
    ensures Run(Parsing([], data), "data: " + l + Eol(crlf) + more) == Run(Parsing([], data + [l]), more)
  {
    DataLineExactly(data, l);
    OneLine(data, "data: " + l, crlf, more);
    var o := Run(Parsing([], data + [l]), more);
    assert [] + o.texts == o.texts;
  }

  lemma {:induction false} ReadsLinesBack(data: seq<Bytes>, lines: seq<Bytes>, crlf: bool, rest: Bytes)
    requires forall i :: 0 <= i < |lines| ==> Printable(lines[i])
    ensures Run(Parsing([], data), PrintLines(lines, crlf) + rest) == Run(Parsing([], data + lines), rest)
    decreases |lines|
  {
    if lines == [] {
      assert data + lines == data && PrintLines(lines, crlf) + rest == rest;
    } else {
      var more := PrintLines(lines[1..], crlf) + rest;
      Associative("data: " + lines[0] + Eol(crlf), PrintLines(lines[1..], crlf), rest);
      ReadsOneLineBack(data, lines[0], crlf, more);
      ReadsLinesBack(data + [lines[0]], lines[1..], crlf, rest);
      Associative(data, [lines[0]], lines[1..]);
      assert [lines[0]] + lines[1..] == lines;
    }
  }

  /** Events printed as data lines and a blank line are read back, text for text, leaving nothing behind. */
  lemma {:induction false} PrintedIsReadBack(events: seq<seq<Bytes>>, crlf: bool)
    requires forall i :: 0 <= i < |events| ==> PrintableEvent(events[i])
    ensures Run(EMPTY, Print(events, crlf)) == Out(EMPTY, Texts(events))
    decreases |events|
  {
    if events != [] {
      var rest := Print(events[1..], crlf);
      var blank: Bytes := [];
      assert Print(events, crlf) == PrintLines(events[0], crlf) + (blank + Eol(crlf) + rest);
      ReadsLinesBack([], events[0], crlf, blank + Eol(crlf) + rest);
      assert [] + events[0] == events[0];
      OneLine(events[0], blank, crlf, rest);
      PrintedIsReadBack(events[1..], crlf);
    }
  }

  /** Printing, cutting anywhere into chunks that leave no overlong line, and feeding returns the events. */
  lemma {:induction false} RoundTrip(events: seq<seq<Bytes>>, crlf: bool, chunks: seq<Bytes>)
    requires forall i :: 0 <= i < |events| ==> PrintableEvent(events[i])
    requires chunks != [] && Concat(chunks) == Print(events, crlf) && NeverOverlong(EMPTY, chunks)
    ensures FeedAll(EMPTY, chunks) == Out(EMPTY, Texts(events))
  {
    AnyChunking(EMPTY, chunks);
    PrintedIsReadBack(events, crlf);
  }

  lemma {:induction false} BlankLinesAreSilent()
    ensures Run(EMPTY, "\n\n") == Out(EMPTY, [])
  {
    var blank: Bytes := [];
    RunLine([], blank, "\n");
    RunLine([], blank, []);
    assert blank + "\n" + "\n" == "\n\n" && blank + "\n" + [] == "\n";
  }

  lemma {:induction false} WholeLineIsRead(l: Bytes)
    requires Printable(l)
    ensures Run(EMPTY, "data: " + l + "\n\n") == Out(EMPTY, [l])
  {
    ReadsOneLineBack([], l, false, "\n");
    assert "data: " + l + Eol(false) + "\n" == "data: " + l + "\n\n";
    assert [] + [l] == [l];
    var blank: Bytes := [];
    RunLine([l], blank, []);
    assert blank + "\n" + [] == "\n";
  }

  /**
   The family the limit cuts off: a data line longer than it is lost when a chunk
   ends just after it, and read when none does.
   */
  lemma {:induction false} OverlongLineIsLost(l: Bytes)
    requires Printable(l) && |l| > LINE_MAX
    ensures Feed(EMPTY, "data: " + l) == Out(EMPTY, [])
    ensures Feed(EMPTY, "\n\n") == Out(EMPTY, [])
    ensures Feed(EMPTY, "data: " + l + "\n\n") == Out(EMPTY, [l])
  {
    RunWithoutNewline(EMPTY, "data: " + l);
    BlankLinesAreSilent();
    WholeLineIsRead(l);
  }

  // ── Exactly which cuts do not matter ─────────────────────

  /** Cutting after `a` gives what feeding `a` and `b` in one gives. */
  ghost predicate CutKeepsOutput<V(!new)>(parse: Bytes -> Option<V>, p: Parsing, a: Bytes, b: Bytes) {
    Parsed(parse, Feed(p, a + b).texts) == Parsed(parse, Feed(p, a).texts) + Parsed(parse, Feed(Feed(p, a).p, b).texts)
  }

  /** It gives the very events, parsed or not, and leaves the parser in the same state. */
  ghost predicate CutIsInvisible(p: Parsing, a: Bytes, b: Bytes) {
    var first := Feed(p, a);
    var second := Feed(first.p, b);
    Feed(p, a + b) == Out(second.p, first.texts + second.texts)
  }

  /** As JSON is read: `1` and `2` are two values, and no text that ends in `data: 1` is the value of `1`. */
  ghost predicate ReadsNumbers<V(!new)>(parse: Bytes -> Option<V>) {
    && parse("1").Some? && parse("2").Some? && parse("1") != parse("2")
    && forall t: Bytes :: parse(t + "data: 1") != parse("1")
  }

  lemma {:induction false} ParsedBoth<V>(parse: Bytes -> Option<V>, a: seq<Bytes>, b: seq<Bytes>)
    ensures Parsed(parse, a + b) == Parsed(parse, a) + Parsed(parse, b)
  {
    if b == [] {
      assert a + b == a;
    } else {
      ParsedBoth(parse, a, b[..|b| - 1]);
      assert (a + b)[..|a + b| - 1] == a + b[..|b| - 1];
    }
  }

  lemma {:induction false} JoinEndsInLast(lines: seq<Bytes>) returns (t: Bytes)
    requires lines != []
    ensures Join(lines) == t + lines[|lines| - 1]
  {
    if |lines| == 1 {
      t := [];
    } else {
      var rest := lines[1..];
      var u := JoinEndsInLast(rest);
      t := lines[0] + "\n" + u;
      Associative(lines[0] + "\n", u, rest[|rest| - 1]);
    }
  }

  lemma {:induction false} LineThenBlank(data: seq<Bytes>, raw: Bytes)
    requires '\n' !in raw
    ensures var (held, e) := TakeLine(data, raw);
            Run(Parsing([], data), raw + "\n" + "\n").texts == e + TakeLine(held, []).1
  {
    RunLine(data, raw, "\n");
    var held := TakeLine(data, raw).0;
    var blank: Bytes := [];
    RunLine(held, blank, []);
    assert blank + "\n" + [] == "\n";
    assert TakeLine(held, []).1 + [] == TakeLine(held, []).1;
  }

  /** The line `buf` and a short data line make together. */
  lemma {:induction false} TakeBehind(data: seq<Bytes>, buf: Bytes, l: Bytes) returns (t: Bytes)
    requires |buf| > LINE_MAX && Printable(l) && |l| == 1
    ensures TakeLine(data, buf + ("data: " + l))
            == (if DATA <= buf then data + [t + ("data: " + l)] else data, [])
  {
    var raw := buf + ("data: " + l);
    t := StripSpace(buf[5..]);
    NothingToTrim(raw);
    AfterThePrefix(buf, "data: " + l);
    hide TrimCr, StripSpace;
    return;
  }

  lemma {:induction false} NothingToTrim(raw: Bytes)
    requires raw != [] && raw[|raw| - 1] != '\r'
    ensures TrimCr(raw) == raw
  {
  }

  lemma {:induction false} AfterThePrefix(buf: Bytes, more: Bytes)
    requires |buf| > 5
    ensures DATA <= buf + more <==> DATA <= buf
    ensures StripSpace((buf + more)[5..]) == StripSpace(buf[5..]) + more
  {
    assert (buf + more)[..5] == buf[..5];
    assert (buf + more)[5..] == buf[5..] + more;
  }

  /** What an event of one short line `l` becomes behind the partial line: `t` is what comes before it in the text. */
  function Behind(q: Parsing, t: Bytes, l: Bytes): seq<Bytes> {
    if DATA <= q.buf then [t + ("data: " + l)] else if q.data == [] then [] else [Join(q.data)]
  }

  lemma {:induction false} BehindAnOverlongLine(q: Parsing, l: Bytes) returns (t: Bytes)
    requires '\n' !in q.buf && |q.buf| > LINE_MAX && Printable(l) && |l| == 1
    ensures Run(q, "data: " + l + "\n\n").texts == Behind(q, t, l)
  {
    var raw := q.buf + ("data: " + l);
    BufferFirst(q, "data: " + l + "\n\n");
    assert q.buf + ("data: " + l + "\n\n") == raw + "\n" + "\n";
    LineThenBlank(q.data, raw);
    var s := TakeBehind(q.data, q.buf, l);
    var held := TakeLine(q.data, raw).0;
    assert [] + TakeLine(held, []).1 == TakeLine(held, []).1;
    if DATA <= q.buf {
      var u := JoinEndsInLast(held);
      t := u + s;
      Associative(u, s, "data: " + l);
    } else {
      t := [];
    }
  }

  /** The number that what is held cannot be read as. */
  ghost function Numeral<V(!new)>(parse: Bytes -> Option<V>, q: Parsing): Bytes {
    if !(DATA <= q.buf) && q.data != [] && parse(Join(q.data)) == parse("1") then "2" else "1"
  }

  lemma {:induction false} ReadOtherwise<V(!new)>(parse: Bytes -> Option<V>, q: Parsing, t: Bytes)
    requires ReadsNumbers(parse)
    ensures var l := Numeral(parse, q); Parsed(parse, Behind(q, t, l)) != Parsed(parse, [l])
  {
    var l := Numeral(parse, q);
    if DATA <= q.buf {
      assert "data: " + l == "data: 1";
    }
    ParsedOne(parse, l);
    if Behind(q, t, l) != [] {
      ParsedOne(parse, Behind(q, t, l)[0]);
    }
  }

  lemma {:induction false} ParsedOne<V>(parse: Bytes -> Option<V>, text: Bytes)
    ensures Parsed(parse, [text]) == if parse(text).Some? then [parse(text).value] else []
  {
  }

  /** Behind an overlong residue a number is read differently, or not at all. */
  lemma {:induction false} OverlongCutShows<V(!new)>(parse: Bytes -> Option<V>, p: Parsing, a: Bytes)
    returns (b: Bytes)
    requires ReadsNumbers(parse) && '\n' !in p.buf && |Run(p, a).p.buf| > LINE_MAX
    ensures !CutKeepsOutput(parse, p, a, b)
  {
    var q := Run(p, a).p;
    var l := Numeral(parse, q);
    b := "data: " + l + "\n\n";
    hide Run, ReadsNumbers, Parsed, Behind;
    ResidueIsBounded(p, a);
    var t := BehindAnOverlongLine(q, l);
    ReadOtherwise(parse, q, t);
    WholeLineIsRead(l);
    RunBoth(p, a, b);
    var before, u := Run(p, a).texts, Run(q, b).texts;
    assert Feed(p, a + b).texts == before + u;
    assert Feed(p, a) == Out(EMPTY, before);
    assert Feed(EMPTY, b).texts == [l];
    ParsedBoth(parse, before, u);
    Cancels(Parsed(parse, before), Parsed(parse, u), Parsed(parse, [l]));
    return;
  }

  /**
   Cutting after `a` never shows, whatever follows, exactly when `a` leaves no residue
   over the limit: neither in the events and the parser's state, nor in what a caller is
   given who reads numbers.
   */
  lemma {:induction false} CutIsInvisibleExactly<V(!new)>(parse: Bytes -> Option<V>, p: Parsing, a: Bytes)
    requires '\n' !in p.buf
    ensures (forall b :: CutIsInvisible(p, a, b)) <==> |Run(p, a).p.buf| <= LINE_MAX
    ensures |Run(p, a).p.buf| <= LINE_MAX ==> forall b :: CutKeepsOutput(parse, p, a, b)
    ensures ReadsNumbers(parse) ==>
              ((forall b :: CutKeepsOutput(parse, p, a, b)) <==> |Run(p, a).p.buf| <= LINE_MAX)
  {
    if |Run(p, a).p.buf| <= LINE_MAX {
      forall b
        ensures CutIsInvisible(p, a, b) && CutKeepsOutput(parse, p, a, b)
      {
        ChunkInvariant(p, a, b);
        InvisibleKeepsOutput(parse, p, a, b);
      }
    } else {
      if ReadsNumbers(parse) {
        var b := OverlongCutShows(parse, p, a);
      }
      var unparsed := (text: Bytes) => Some(text);
      var b := OverlongCutShows(unparsed, p, a);
      if CutIsInvisible(p, a, b) {
        InvisibleKeepsOutput(unparsed, p, a, b);
      }
    }
  }

  lemma {:induction false} InvisibleKeepsOutput<V(!new)>(parse: Bytes -> Option<V>, p: Parsing, a: Bytes, b: Bytes)
    requires CutIsInvisible(p, a, b)
    ensures CutKeepsOutput(parse, p, a, b)
  {
    ParsedBoth(parse, Feed(p, a).texts, Feed(Feed(p, a).p, b).texts);
  }
}

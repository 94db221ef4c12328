/**
 Server-sent events as the rollout client reads them (benchmark/agentic-rollout/simulate.py):
 lines off the wire, `data:` lines gathered into an event by a blank line.
 */
module SseFraming {

  // ---------- Stripping ----------

  /** Drops trailing carriage returns and line feeds. */
  function RStrip(s: string): (r: string)
    ensures r <= s
  {
    if s != [] && (s[|s| - 1] == '\r' || s[|s| - 1] == '\n') then RStrip(s[..|s| - 1]) else s
  }

  /** Drops leading spaces. */
  function LStrip(s: string): string {
    if s != [] && s[0] == ' ' then LStrip(s[1..]) else s
  }

  // ---------- The reader ----------

  /** The events of a stream, and whether it broke off inside one. */
  datatype Outcome = Outcome(events: seq<string>, truncated: bool)

  function Join(lines: seq<string>): string {
    if lines == [] then [] else if |lines| == 1 then lines[0] else lines[0] + "\n" + Join(lines[1..])
  }

  predicate IsData(line: string) {
    "data:" <= line
  }

  /** What is left of a data line. */
  function Payload(line: string): string
    requires IsData(line)
  {
    LStrip(line[5..])
  }

  /** The events in `raws` when the data lines `pending` have been seen. */
  function Events(raws: seq<string>, pending: seq<string>): Outcome
    decreases |raws|
  {
    if raws == [] then Outcome([], pending != [])
    else
      var line := RStrip(raws[0]);
      if line == [] then
        if pending == [] then Events(raws[1..], [])
        else
          var rest := Events(raws[1..], []);
          rest.(events := [Join(pending)] + rest.events)
      else if IsData(line) then Events(raws[1..], pending + [Payload(line)])
      else Events(raws[1..], pending)
  }

  method SseEvents(raws: seq<string>) returns (r: Outcome)
    ensures r == Events(raws, [])
  {
    var data: seq<string> := [];
    var out: seq<string> := [];
    for i := 0 to |raws|
      invariant Events(raws, []) ==
                Outcome(out + Events(raws[i..], data).events, Events(raws[i..], data).truncated)
    {
      assert raws[i..][1..] == raws[i + 1..];
      var line := RStrip(raws[i]);
      if line == [] {
        if data != [] {
          assert out + ([Join(data)] + Events(raws[i + 1..], []).events) ==
                 (out + [Join(data)]) + Events(raws[i + 1..], []).events;
          out := out + [Join(data)];
          data := [];
        }
      } else if IsData(line) {
        data := data + [LStrip(line[5..])];
      }
    }
    assert raws[|raws|..] == [];
    r := Outcome(out, data != []);
  }

  // ---------- The wire ----------

  /** Splits a stream after every line feed, as the transport hands it over. */
  function ReadLines(stream: string): seq<string> {
    ReadFrom([], stream)
  }

  function ReadFrom(partial: string, stream: string): seq<string>
    decreases |stream|
  {
    if stream == [] then (if partial == [] then [] else [partial])
    else if stream[0] == '\n' then [partial + "\n"] + ReadFrom([], stream[1..])
    else ReadFrom(partial + [stream[0]], stream[1..])
  }

  // ---------- The writer ----------

  /** The lines of a message; there is always at least one. */
  function Split(m: string): (lines: seq<string>)
    ensures lines != [] && forall i :: 0 <= i < |lines| ==> '\n' !in lines[i]
  {
    if m == [] then [[]]
    else if m[0] == '\n' then [[]] + Split(m[1..])
    else
      var rest := Split(m[1..]);
      [[m[0]] + rest[0]] + rest[1..]
  }

  function DataLines(lines: seq<string>): seq<string> {
    if lines == [] then [] else ["data: " + lines[0] + "\n"] + DataLines(lines[1..])
  }

  function Frame(m: string): seq<string> {
    DataLines(Split(m)) + ["\n"]
  }

  function Frames(ms: seq<string>): seq<string> {
    if ms == [] then [] else Frame(ms[0]) + Frames(ms[1..])
  }

  function Concat(raws: seq<string>): string {
    if raws == [] then [] else raws[0] + Concat(raws[1..])
  }

  /** A list of messages as a stream. */
  function Encode(ms: seq<string>): string {
    Concat(Frames(ms))
  }

  // ---------- What arrives ----------

  function NormalLine(line: string): string {
    LStrip(RStrip(line))
  }

  function NormalLines(lines: seq<string>): (r: seq<string>)
    ensures |r| == |lines| && forall i :: 0 <= i < |lines| ==> r[i] == NormalLine(lines[i])
  {
    if lines == [] then [] else [NormalLine(lines[0])] + NormalLines(lines[1..])
  }

  /** A message as the reader sees it. */
  function Normalise(m: string): string {
    Join(NormalLines(Split(m)))
  }

  function NormaliseAll(ms: seq<string>): (r: seq<string>)
    ensures |r| == |ms| && forall i :: 0 <= i < |ms| ==> r[i] == Normalise(ms[i])
  {
    if ms == [] then [] else [Normalise(ms[0])] + NormaliseAll(ms[1..])
  }

  /** A line that survives: no leading space, no trailing carriage return. */
  predicate CleanLine(line: string) {
    line == [] || (line[0] != ' ' && line[|line| - 1] != '\r')
  }

  ghost predicate CleanMessage(m: string) {
    forall i :: 0 <= i < |Split(m)| ==> CleanLine(Split(m)[i])
  }

  // ---------- Reading lines back ----------

  lemma {:induction false} ReadOneLine(partial: string, line: string, rest: string)
    requires '\n' !in line
    ensures ReadFrom(partial, line + "\n" + rest) == [partial + line + "\n"] + ReadFrom([], rest)
    decreases |line|
  {
    var stream := line + "\n" + rest;
    if line == [] {
      assert stream[1..] == rest;
      assert partial + line == partial;
    } else {
      assert stream[1..] == line[1..] + "\n" + rest;
      ReadOneLine(partial + [line[0]], line[1..], rest);
      assert partial + [line[0]] + line[1..] == partial + line;
    }
  }

  /** A raw line: no line feed but the one that ends it. */
  ghost predicate RawLine(raw: string) {
    raw != [] && raw[|raw| - 1] == '\n' && '\n' !in raw[..|raw| - 1]
  }

  lemma ConcatFirst(x: string, xs: seq<string>)
    ensures Concat([x] + xs) == x + Concat(xs)
  {
    assert ([x] + xs)[1..] == xs;
  }

  lemma Associate(a: string, b: string, c: string)
    ensures a + (b + c) == a + b + c
  {
  }

  lemma ReadRaw(raw: string, rest: string)
    requires RawLine(raw)
    ensures ReadLines(raw + rest) == [raw] + ReadLines(rest)
  {
    var line := raw[..|raw| - 1];
    assert raw == line + "\n";
    ReadOneLine([], line, rest);
    assert [] + line + "\n" == raw;
  }

  /** Whole lines are handed over one by one, whatever follows them. */
  lemma {:induction false} ReadConcat(raws: seq<string>, rest: string)
    requires forall i :: 0 <= i < |raws| ==> RawLine(raws[i])
    ensures ReadLines(Concat(raws) + rest) == raws + ReadLines(rest)
    decreases |raws|
  {
    if raws == [] {
      assert Concat(raws) + rest == rest;
    } else {
      hide Concat, ReadLines;
      ReadConcat(raws[1..], rest);
      assert raws == [raws[0]] + raws[1..];
      ConcatFirst(raws[0], raws[1..]);
      Associate(raws[0], Concat(raws[1..]), rest);
      ReadRaw(raws[0], Concat(raws[1..]) + rest);
      assert [raws[0]] + (raws[1..] + ReadLines(rest)) == raws + ReadLines(rest);
    }
  }

  lemma {:induction false} DataLinesAreRaw(lines: seq<string>)
    requires forall i :: 0 <= i < |lines| ==> '\n' !in lines[i]
    ensures forall i :: 0 <= i < |DataLines(lines)| ==> RawLine(DataLines(lines)[i])
    decreases |lines|
  {
    if lines != [] {
      DataLinesAreRaw(lines[1..]);
      var raw := "data: " + lines[0] + "\n";
      assert raw[..|raw| - 1] == "data: " + lines[0];
    }
  }

  lemma {:induction false} FramesAreRaw(ms: seq<string>)
    ensures forall i :: 0 <= i < |Frames(ms)| ==> RawLine(Frames(ms)[i])
    decreases |ms|
  {
    if ms != [] {
      FramesAreRaw(ms[1..]);
      DataLinesAreRaw(Split(ms[0]));
    }
  }

  // ---------- Parsing frames back ----------

  lemma {:induction false} RStripDrops(s: string, line: string)
    requires '\n' !in line && (s == [] || (s[|s| - 1] != '\r' && s[|s| - 1] != '\n'))
    ensures RStrip(s + line + "\n") == s + RStrip(line)
    decreases |line|
  {
    var whole := s + line + "\n";
    assert whole[..|whole| - 1] == s + line;
    RStripKeeps(s, line);
  }

  lemma {:induction false} RStripKeeps(s: string, line: string)
    requires '\n' !in line && (s == [] || (s[|s| - 1] != '\r' && s[|s| - 1] != '\n'))
    ensures RStrip(s + line) == s + RStrip(line)
    decreases |line|
  {
    if line == [] {
      assert s + line == s;
    } else {
      var n := |line| - 1;
      assert (s + line)[..|s| + n] == s + line[..n];
      assert (s + line)[|s + line| - 1] == line[n];
      if line[n] == '\r' {
        RStripKeeps(s, line[..n]);
      }
    }
  }

  lemma DataLineReads(line: string)
    requires '\n' !in line
    ensures var got := RStrip("data: " + line + "\n");
            got != [] && IsData(got) && Payload(got) == NormalLine(line)
  {
    RStripDrops("data: ", line);
    var got := "data: " + RStrip(line);
    assert got[5..] == [' '] + RStrip(line);
    assert ([' '] + RStrip(line))[1..] == RStrip(line);
  }

  lemma ReadsDataLine(line: string, rest: seq<string>, pending: seq<string>)
    requires '\n' !in line
    ensures Events(["data: " + line + "\n"] + rest, pending) == Events(rest, pending + [NormalLine(line)])
  {
    DataLineReads(line);
    var raws := ["data: " + line + "\n"] + rest;
    assert raws[1..] == rest;
  }

  lemma {:induction false} ReadsDataLines(lines: seq<string>, rest: seq<string>, pending: seq<string>)
    requires forall i :: 0 <= i < |lines| ==> '\n' !in lines[i]
    ensures Events(DataLines(lines) + rest, pending) == Events(rest, pending + NormalLines(lines))
    decreases |lines|
  {
    hide Events, NormalLine;
    if lines == [] {
      assert DataLines(lines) + rest == rest;
      assert pending + NormalLines(lines) == pending;
    } else {
      ReadsDataLine(lines[0], DataLines(lines[1..]) + rest, pending);
      assert DataLines(lines) + rest == ["data: " + lines[0] + "\n"] + (DataLines(lines[1..]) + rest);
      ReadsDataLines(lines[1..], rest, pending + [NormalLine(lines[0])]);
      assert pending + [NormalLine(lines[0])] + NormalLines(lines[1..]) == pending + NormalLines(lines);
    }
  }

  lemma ReadsFrame(m: string, rest: seq<string>)
    ensures Events(Frame(m) + rest, []) ==
            Outcome([Normalise(m)] + Events(rest, []).events, Events(rest, []).truncated)
  {
    var lines := Split(m);
    var tail := ["\n"] + rest;
    ReadsDataLines(lines, tail, []);
    assert Frame(m) + rest == DataLines(lines) + tail;
    assert [] + NormalLines(lines) == NormalLines(lines);
    assert "\n"[..0] == "";
    assert RStrip("\n") == "";
    assert tail[1..] == rest;
  }

  lemma {:induction false} ReadsFrames(ms: seq<string>, rest: seq<string>)
    ensures Events(Frames(ms) + rest, []) ==
            Outcome(NormaliseAll(ms) + Events(rest, []).events, Events(rest, []).truncated)
    decreases |ms|
  {
    hide Events, Frame, Normalise;
    if ms == [] {
      assert Frames(ms) + rest == rest;
    } else {
      ReadsFrames(ms[1..], rest);
      ReadsFrame(ms[0], Frames(ms[1..]) + rest);
      assert Frames(ms) + rest == Frame(ms[0]) + (Frames(ms[1..]) + rest);
      assert [Normalise(ms[0])] + (NormaliseAll(ms[1..]) + Events(rest, []).events) ==
             NormaliseAll(ms) + Events(rest, []).events;
    }
  }

  // ---------- Which messages survive ----------

  lemma {:induction false} JoinSplit(m: string)
    ensures Join(Split(m)) == m
    decreases |m|
  {
    if m != [] {
      JoinSplit(m[1..]);
      if m[0] == '\n' {
        assert Split(m)[1..] == Split(m[1..]);
        assert [] + "\n" + m[1..] == m;
      } else {
        var rest := Split(m[1..]);
        assert Split(m)[1..] == rest[1..];
        assert [m[0]] + m[1..] == m;
        if |rest| > 1 {
          assert [m[0]] + rest[0] + "\n" + Join(rest[1..]) == [m[0]] + (rest[0] + "\n" + Join(rest[1..]));
        }
      }
    }
  }

  lemma {:induction false} SplitLine(line: string)
    requires '\n' !in line
    ensures Split(line) == [line]
    decreases |line|
  {
    if line != [] {
      SplitLine(line[1..]);
      assert [line[0]] + line[1..] == line;
    }
  }

  lemma {:induction false} SplitFirst(line: string, rest: string)
    requires '\n' !in line
    ensures Split(line + "\n" + rest) == [line] + Split(rest)
    decreases |line|
  {
    var m := line + "\n" + rest;
    if line == [] {
      assert m[1..] == rest;
    } else {
      assert m[1..] == line[1..] + "\n" + rest;
      SplitFirst(line[1..], rest);
      assert [line[0]] + line[1..] == line;
    }
  }

  lemma {:induction false} SplitJoin(lines: seq<string>)
    requires lines != [] && forall i :: 0 <= i < |lines| ==> '\n' !in lines[i]
    ensures Split(Join(lines)) == lines
    decreases |lines|
  {
    if |lines| == 1 {
      SplitLine(lines[0]);
    } else {
      SplitJoin(lines[1..]);
      SplitFirst(lines[0], Join(lines[1..]));
    }
  }

  lemma {:induction false} LStripSuffix(s: string)
    ensures |LStrip(s)| <= |s| && (LStrip(s) == s <==> s == [] || s[0] != ' ')
    ensures forall c :: c in LStrip(s) ==> c in s
    decreases |s|
  {
    if s != [] && s[0] == ' ' {
      LStripSuffix(s[1..]);
    }
  }

  lemma CleanIsFixed(line: string)
    requires '\n' !in line
    ensures NormalLine(line) == line <==> CleanLine(line)
    ensures '\n' !in NormalLine(line)
  {
    LStripSuffix(RStrip(line));
    assert line != [] && line[|line| - 1] == '\r' ==> RStrip(line) == RStrip(line[..|line| - 1]);
  }

  lemma NormaliseFixesClean(m: string)
    ensures Normalise(m) == m <==> CleanMessage(m)
  {
    var lines := Split(m);
    var normal := NormalLines(lines);
    JoinSplit(m);
    forall i | 0 <= i < |lines|
      ensures (normal[i] == lines[i] <==> CleanLine(lines[i])) && '\n' !in normal[i]
    {
      CleanIsFixed(lines[i]);
    }
    if CleanMessage(m) {
      assert normal == lines;
    }
    if Normalise(m) == m {
      SplitJoin(normal);
    }
  }

  lemma NothingToRead()
    ensures Events([], []) == Outcome([], false) && ReadLines([]) == []
  {
  }

  lemma LeadingSpaceIsLost()
    ensures Events(ReadLines(Encode([" a"])), []) == Outcome(["a"], false)
    ensures !CleanMessage(" a")
  {
    SplitLine(" a");
    assert !CleanLine(Split(" a")[0]);
    assert RStrip(" a") == " a";
    assert " a"[1..] == "a";
    assert LStrip(" a") == LStrip("a") == "a";
    assert NormalLines([" a"]) == ["a"];
    assert NormaliseAll([" a"]) == ["a"];
    RoundTrip([" a"]);
  }

  /** Any list of messages reads back, normalised; unchanged exactly when every line is clean. */
  lemma RoundTrip(ms: seq<string>)
    ensures Events(ReadLines(Encode(ms)), []) == Outcome(NormaliseAll(ms), false)
    ensures Events(ReadLines(Encode(ms)), []).events == ms <==> forall i :: 0 <= i < |ms| ==> CleanMessage(ms[i])
  {
    hide Events, CleanMessage, Normalise, Frames, ReadLines, Concat;
    FramesAreRaw(ms);
    ReadConcat(Frames(ms), []);
    NothingToRead();
    assert Encode(ms) + [] == Encode(ms);
    ReadsFrames(ms, []);
    assert Frames(ms) + [] == Frames(ms);
    assert NormaliseAll(ms) + [] == NormaliseAll(ms);
    forall i | 0 <= i < |ms| ensures NormaliseAll(ms)[i] == ms[i] <==> CleanMessage(ms[i]) {
      NormaliseFixesClean(ms[i]);
    }
  }

  /** A line that is neither blank nor data changes nothing, wherever it stands. */
  lemma {:induction false} NoiseIgnored(before: seq<string>, noise: string, after: seq<string>, pending: seq<string>)
    requires RStrip(noise) != [] && !IsData(RStrip(noise))
    ensures Events(before + [noise] + after, pending) == Events(before + after, pending)
    decreases |before|
  {
    var all := before + [noise] + after;
    if before == [] {
      assert all[1..] == after && before + after == after;
    } else {
      assert all[1..] == before[1..] + [noise] + after;
      assert (before + after)[1..] == before[1..] + after;
      var line := RStrip(before[0]);
      if line == [] {
        NoiseIgnored(before[1..], noise, after, []);
      } else if IsData(line) {
        NoiseIgnored(before[1..], noise, after, pending + [Payload(line)]);
      } else {
        NoiseIgnored(before[1..], noise, after, pending);
      }
    }
  }

  // ---------- Streams cut short ----------

  lemma {:induction false} ReadPartial(partial: string, t: string)
    requires '\n' !in t
    ensures ReadFrom(partial, t) == if partial + t == [] then [] else [partial + t]
    decreases |t|
  {
    if t == [] {
      assert partial + t == partial;
    } else {
      ReadPartial(partial + [t[0]], t[1..]);
      assert partial + [t[0]] + t[1..] == partial + t;
    }
  }

  /** The last line of a cut stream counts as data once "data:" has arrived. */
  lemma PartialLine(t: string, line: string, pending: seq<string>)
    requires '\n' !in line && t <= "data: " + line
    ensures Events(ReadLines(t), pending) == Outcome([], pending != [] || |t| >= 5)
  {
    var whole := "data: " + line;
    assert forall i :: 0 <= i < |t| ==> t[i] == whole[i];
    assert '\n' !in t;
    ReadPartial([], t);
    assert [] + t == t;
    if |t| >= 5 {
      var u := t[5..];
      assert t == "data:" + u;
      RStripKeeps("data:", u);
      assert [t][1..] == [];
    } else if t != [] {
      assert t[|t| - 1] in "data";
      assert RStrip(t) == t;
      assert [t][1..] == [];
    }
  }

  /** What is left of a frame: some data lines and the blank line. */
  function Tail(lines: seq<string>): string {
    Concat(DataLines(lines)) + "\n"
  }

  lemma TailFirst(lines: seq<string>)
    requires lines != []
    ensures Tail(lines) == "data: " + lines[0] + "\n" + Tail(lines[1..])
  {
    var first := "data: " + lines[0] + "\n";
    assert DataLines(lines)[1..] == DataLines(lines[1..]);
    assert first + Concat(DataLines(lines[1..])) + "\n" == first + (Concat(DataLines(lines[1..])) + "\n");
  }

  lemma {:induction false} CutTail(lines: seq<string>, t: string, pending: seq<string>)
    requires forall i :: 0 <= i < |lines| ==> '\n' !in lines[i]
    requires t < Tail(lines)
    ensures Events(ReadLines(t), pending) == Outcome([], pending != [] || (lines != [] && |t| >= 5))
    decreases |lines|
  {
    if lines == [] {
      assert Tail(lines) == "\n";
      assert t == [];
      assert ReadLines(t) == [];
    } else {
      var line := lines[0];
      var first := "data: " + line + "\n";
      TailFirst(lines);
      if |t| < |first| {
        assert first[..|first| - 1] == "data: " + line;
        assert t <= "data: " + line;
        PartialLine(t, line, pending);
      } else {
        var rest := t[|first|..];
        assert t == first + rest;
        assert rest < Tail(lines[1..]);
        ReadOneLine([], "data: " + line, rest);
        assert [] + ("data: " + line) + "\n" == first;
        assert "data: " + line + "\n" + rest == t;
        ReadsDataLine(line, ReadLines(rest), pending);
        CutTail(lines[1..], rest, pending + [NormalLine(line)]);
      }
    }
  }

  /** A message as it goes over the wire. */
  function FrameText(m: string): string {
    Concat(Frame(m))
  }

  lemma {:induction false} ConcatAppend(xs: seq<string>, ys: seq<string>)
    ensures Concat(xs + ys) == Concat(xs) + Concat(ys)
    decreases |xs|
  {
    if xs == [] {
      assert xs + ys == ys;
    } else {
      hide Concat;
      ConcatAppend(xs[1..], ys);
      assert xs + ys == [xs[0]] + (xs[1..] + ys) && xs == [xs[0]] + xs[1..];
      ConcatFirst(xs[0], xs[1..] + ys);
      ConcatFirst(xs[0], xs[1..]);
      Associate(xs[0], Concat(xs[1..]), Concat(ys));
    }
  }

  lemma FrameTextIsTail(m: string)
    ensures FrameText(m) == Tail(Split(m)) && |FrameText(m)| > 0
  {
    ConcatAppend(DataLines(Split(m)), ["\n"]);
    assert ["\n"][1..] == [];
    assert Concat(["\n"]) == "\n";
  }

  /** A stream that breaks off inside a frame, at any character. */
  lemma CutInsideFrame(ms: seq<string>, m: string, t: string)
    requires t < FrameText(m)
    ensures Events(ReadLines(Encode(ms) + t), []) == Outcome(NormaliseAll(ms), |t| >= 5)
  {
    hide Events, Normalise, Frames, ReadLines, Frame, Concat;
    FrameTextIsTail(m);
    CutTail(Split(m), t, []);
    FramesAreRaw(ms);
    ReadConcat(Frames(ms), t);
    ReadsFrames(ms, ReadLines(t));
    assert NormaliseAll(ms) + [] == NormaliseAll(ms);
  }

  /** Where a stream of messages is cut: after how many whole frames, and how far into the next. */
  datatype Cut = Cut(frames: nat, offset: nat)

  function CutAt(ms: seq<string>, k: nat): Cut {
    if ms == [] || k < |FrameText(ms[0])| then Cut(0, k)
    else
      var rest := CutAt(ms[1..], k - |FrameText(ms[0])|);
      Cut(rest.frames + 1, rest.offset)
  }

  lemma EncodeFirst(ms: seq<string>)
    requires ms != []
    ensures Encode(ms) == FrameText(ms[0]) + Encode(ms[1..])
  {
    ConcatAppend(Frame(ms[0]), Frames(ms[1..]));
  }

  lemma {:induction false} CutSplits(ms: seq<string>, k: nat)
    requires k <= |Encode(ms)|
    ensures var c := CutAt(ms, k);
            && c.frames <= |ms| && |Encode(ms[..c.frames])| + c.offset == k
            && (c.frames == |ms| ==> c.offset == 0)
            && (c.frames < |ms| ==>
                  c.offset < |FrameText(ms[c.frames])|
                  && Encode(ms)[..k] == Encode(ms[..c.frames]) + FrameText(ms[c.frames])[..c.offset])
            && (c.frames == |ms| ==> Encode(ms)[..k] == Encode(ms))
    decreases |ms|
  {
    hide Concat, Frame, Frames;
    if ms == [] {
      NoFrames();
    } else {
      var first := FrameText(ms[0]);
      EncodeFirst(ms);
      hide Encode, FrameText;
      if k < |first| {
        NoFrames();
        assert ms[..0] == [];
        assert Encode(ms)[..k] == first[..k] == [] + first[..k];
      } else {
        var c := CutAt(ms[1..], k - |first|);
        CutSplits(ms[1..], k - |first|);
        assert ms[..c.frames + 1][1..] == ms[1..][..c.frames];
        EncodeFirst(ms[..c.frames + 1]);
        assert Encode(ms)[..k] == first + Encode(ms[1..])[..k - |first|];
      }
    }
  }

  lemma NoFrames()
    ensures Encode([]) == []
  {
  }

  /**
   A stream cut at any character delivers the messages whose frames are whole, and is rejected
   if and only if the cut lies at least five characters into a frame.
   */
  lemma CutAnywhere(ms: seq<string>, k: nat)
    requires k <= |Encode(ms)|
    ensures var c := CutAt(ms, k);
            && c.frames <= |ms|
            && Events(ReadLines(Encode(ms)[..k]), []) == Outcome(NormaliseAll(ms[..c.frames]), c.offset >= 5)
  {
    hide Events, Normalise, ReadLines, Encode, FrameText;
    var c := CutAt(ms, k);
    CutSplits(ms, k);
    if c.frames < |ms| {
      CutInsideFrame(ms[..c.frames], ms[c.frames], FrameText(ms[c.frames])[..c.offset]);
    } else {
      assert ms[..c.frames] == ms;
      RoundTrip(ms);
    }
  }

  lemma TwoLetters()
    ensures Encode(["a"]) == "data: a\n\n" && Encode(["a", "b"]) == "data: a\n\n" + "data: b\n\n"
  {
    LetterFrame('a');
    LetterFrame('b');
    EncodeFirst(["a", "b"]);
    EncodeFirst(["b"]);
    EncodeFirst(["a"]);
    NoFrames();
    assert ["a", "b"][1..] == ["b"] && ["b"][1..] == [] && ["a"][1..] == [];
  }

  lemma ShortCutPrefix()
    ensures "dat" < FrameText("b")
  {
    LetterFrame('b');
  }

  /** Three characters into a frame the cut goes unnoticed: the second message is dropped silently. */
  lemma ShortCutIsAccepted()
    ensures "data: a\n\ndat" <= Encode(["a", "b"])
    ensures Events(ReadLines("data: a\n\ndat"), []) == Outcome(["a"], false)
  {
    hide Events, ReadLines, Encode, FrameText, NormaliseAll;
    TwoLetters();
    ShortCutPrefix();
    assert "data: a\n\n" + "dat" == "data: a\n\ndat";
    CutInsideFrame(["a"], "b", "dat");
    LetterNormal('a');
  }

  lemma LetterFrame(c: char)
    requires c != '\n'
    ensures FrameText([c]) == "data: " + [c] + "\n\n"
  {
    SplitLine([c]);
    FrameTextIsTail([c]);
    assert [[c]][1..] == [];
    TailFirst([[c]]);
    assert Tail([]) == "\n";
  }

  lemma LetterNormal(c: char)
    requires c != '\n' && c != '\r' && c != ' '
    ensures NormaliseAll([[c]]) == [[c]]
  {
    SplitLine([c]);
    NormaliseFixesClean([c]);
    assert CleanMessage([c]);
    assert [[c]][1..] == [];
  }
}

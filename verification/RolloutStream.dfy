/**
 The rollout client from the wire up (benchmark/agentic-rollout/simulate.py): the event reader
 feeds the generation, so what a cut stream does to one shows in the other.
 */
module RolloutStream {
  import opened Options
  import opened Rollout
  import opened RolloutOutcome
  import opened SseFraming

  /** How a message is understood, apart from the end marker. */
  type Parser = string -> Event

  const END := "[DONE]"

  /** Only the end marker is understood as the end. */
  ghost predicate EndsOnlyAtMarker(parse: Parser) {
    forall m :: parse(m) == Done <==> m == END
  }

  function ParseAll(parse: Parser, ms: seq<string>): (stream: seq<Event>)
    ensures |stream| == |ms| && forall i :: 0 <= i < |ms| ==> stream[i] == parse(ms[i])
  {
    seq(|ms|, i requires 0 <= i < |ms| => parse(ms[i]))
  }

  /** What the client makes of the bytes it gets. */
  function Receive(parse: Parser, incremental: bool, text: string, ask: Ask): Result<Reading, Error> {
    var outcome := Events(ReadLines(text), []);
    GenerateSpec(incremental, ParseAll(parse, outcome.events), outcome.truncated, ask)
  }

  /** The client's loop, reader and generation together. */
  method Request(parse: Parser, incremental: bool, text: string, ask: Ask) returns (r: Result<Reading, Error>)
    ensures r == Receive(parse, incremental, text, ask)
  {
    var outcome := SseEvents(ReadLines(text));
    r := Generate(incremental, ParseAll(parse, outcome.events), outcome.truncated, ask);
  }

  /** An undisturbed answer is read as its messages followed by the end. */
  lemma WholeStream(parse: Parser, incremental: bool, ms: seq<string>, ask: Ask)
    requires EndsOnlyAtMarker(parse)
    ensures Receive(parse, incremental, Encode(ms + [END]), ask) ==
            GenerateSpec(incremental, ParseAll(parse, NormaliseAll(ms)) + [Done], false, ask)
  {
    hide Events, ReadLines, Encode, GenerateSpec, CleanMessage, Normalise;
    RoundTrip(ms + [END]);
    MarkerIsClean();
    assert ParseAll(parse, NormaliseAll(ms + [END])) == ParseAll(parse, NormaliseAll(ms)) + [Done];
  }

  lemma MarkerIsClean()
    ensures Normalise(END) == END
  {
    SplitLine(END);
    NormaliseFixesClean(END);
  }

  /** All that is answered, as events, up to and with the end. */
  function Answer(parse: Parser, ms: seq<string>): seq<Event> {
    ParseAll(parse, NormaliseAll(ms)) + [Done]
  }

  lemma AnswerEndsOnce(parse: Parser, ms: seq<string>, n: nat)
    requires EndsOnlyAtMarker(parse) && END !in NormaliseAll(ms) && n < |Answer(parse, ms)|
    ensures Answer(parse, ms)[n].Done? <==> n == |ms|
  {
    hide Normalise;
    if n < |ms| {
      assert NormaliseAll(ms)[n] in NormaliseAll(ms);
    }
  }

  /**
   Off the wire, an undisturbed answer gives a generation exactly if all its messages are
   progress reports whose counts never go back, and the last of them reports what was asked.
   */
  lemma AnswerSucceedsIff(parse: Parser, incremental: bool, ms: seq<string>, ask: Ask)
    requires EndsOnlyAtMarker(parse) && END !in NormaliseAll(ms)
    ensures var answer := Answer(parse, ms);
            Receive(parse, incremental, Encode(ms + [END]), ask).Ok? <==>
            GoodUpTo(answer, |ms|) && exists g :: KnowsAfter(incremental, answer, |ms|, g) && AsAsked(g, ask)
    ensures var answer, r := Answer(parse, ms), Receive(parse, incremental, Encode(ms + [END]), ask);
            r.Ok? ==> GoodUpTo(answer, |ms|) && KnowsAfter(incremental, answer, |ms|, r.value) && AsAsked(r.value, ask)
  {
    hide Receive, Encode, GenerateSpec, GoodUpTo, KnowsAfter, AsAsked, Normalise, NormaliseAll;
    var answer := Answer(parse, ms);
    WholeStream(parse, incremental, ms, ask);
    SucceedsIff(incremental, answer, false, ask);
    forall n: nat | n < |answer| ensures answer[n].Done? <==> n == |ms| {
      AnswerEndsOnce(parse, ms, n);
    }
  }

  /**
   An answer cut anywhere before its end marker is whole never gives a generation: either the
   cut is noticed, or the missing marker is.
   */
  lemma CutStreamFails(parse: Parser, incremental: bool, ms: seq<string>, k: nat, ask: Ask)
    requires EndsOnlyAtMarker(parse) && END !in NormaliseAll(ms) && k < |Encode(ms + [END])|
    ensures Receive(parse, incremental, Encode(ms + [END])[..k], ask).Err?
  {
    hide Events, ReadLines, Encode, GenerateSpec, Normalise;
    var all := ms + [END];
    var c := CutAt(all, k);
    CutAnywhere(all, k);
    CutBeforeEnd(all, k);
    var delivered := NormaliseAll(all[..c.frames]);
    forall i | 0 <= i < |delivered| ensures parse(delivered[i]) != Done {
      assert delivered[i] == Normalise(ms[i]) == NormaliseAll(ms)[i];
    }
    assert Done !in ParseAll(parse, delivered);
    EndlessFails(incremental, NOTHING, ParseAll(parse, delivered), c.offset >= 5, ask);
  }

  lemma GoodPrefix(stream: seq<Event>, n: nat, prefix: seq<Event>)
    requires GoodUpTo(stream, n) && prefix <= stream[..n]
    ensures StopsAt(prefix, |prefix|)
  {
    assert forall k :: 0 <= k < |prefix| ==> prefix[k] == stream[k];
    forall k | 0 <= k < |prefix| ensures CountBefore(prefix, k) <= prefix[k].completed {
      assert CountBefore(stream, k) == CountBefore(prefix, k);
    }
  }

  /** What a cut answer of good messages is called: truncated if the cut is inside data, else incomplete. */
  lemma CutStreamComplains(parse: Parser, incremental: bool, ms: seq<string>, k: nat, ask: Ask)
    requires k < |Encode(ms + [END])| && GoodUpTo(ParseAll(parse, NormaliseAll(ms)), |ms|)
    ensures Receive(parse, incremental, Encode(ms + [END])[..k], ask) ==
            Err(if CutAt(ms + [END], k).offset >= 5 then TruncatedFrame else Incomplete)
  {
    hide Events, ReadLines, Encode, GenerateSpec, Normalise, GoodUpTo, StopsAt, CutAt, KnowsAfter;
    var all := ms + [END];
    var c := CutAt(all, k);
    CutAnywhere(all, k);
    CutBeforeEnd(all, k);
    var delivered := ParseAll(parse, NormaliseAll(all[..c.frames]));
    assert delivered <= ParseAll(parse, NormaliseAll(ms))[..|ms|];
    GoodPrefix(ParseAll(parse, NormaliseAll(ms)), |ms|, delivered);
    StopIsGood(delivered);
    var g := ReadsUpTo(incremental, delivered, |delivered|, c.offset >= 5);
    GenerationEnds(incremental, delivered, c.offset >= 5, ask, |delivered|, g);
  }

  lemma StopIsGood(stream: seq<Event>)
    requires StopsAt(stream, |stream|)
    ensures GoodUpTo(stream, |stream|) && AllMessages(stream, |stream|)
  {
  }

  /** A cut before the end leaves the last frame unfinished. */
  lemma {:induction false} CutBeforeEnd(ms: seq<string>, k: nat)
    requires k < |Encode(ms)|
    ensures CutAt(ms, k).frames < |ms|
    decreases |ms|
  {
    if ms == [] {
      NoFrames();
    } else {
      EncodeFirst(ms);
      if k >= |FrameText(ms[0])| {
        CutBeforeEnd(ms[1..], k - |FrameText(ms[0])|);
      }
    }
  }
}

/**
 The rollout client (benchmark/agentic-rollout/simulate.py): one generation read off a
 stream, the synthetic inputs, and the turns of a conversation.
 */
module Rollout {
  import opened Arithmetic
  import opened Options
  import opened Sorting

  type Token = int

  /** One event of the stream. */
  datatype Event =
    | Done
    | Failure
    | Message(at: real, completed: int, meta: Meta, ids: Option<seq<Token>>)

  /** What a message says about its request. */
  datatype Meta = Meta(finishedByLength: bool, promptTokens: int, dpRank: Option<int>)

  datatype Error = ServerError | MovedBackwards | TruncatedFrame | Incomplete | WrongCount | WrongContext | WrongRank

  /** An arrival: when, and how many tokens there were by then. */
  datatype Arrival = Arrival(at: real, count: int)

  /** The client's variables while it reads a stream. */
  datatype Reading = Reading(count: int, ids: seq<Token>, arrivals: seq<Arrival>, meta: Meta, done: bool)

  const NOTHING := Reading(0, [], [], Meta(false, 0, None), false)

  /** What the request asked for: tokens, context length, and the rank it was routed to. */
  datatype Ask = Ask(expected: int, context: int, rank: Option<int>, dpSize: Option<int>)

  /** Reading one message. */
  function Absorb(incremental: bool, g: Reading, e: Event): Result<Reading, Error>
    requires e.Message?
  {
    if e.completed < g.count then Err(MovedBackwards)
    else
      Ok(Reading(e.completed,
                 if e.ids.None? then g.ids else if incremental then g.ids + e.ids.value else e.ids.value,
                 if e.completed > g.count then g.arrivals + [Arrival(e.at, e.completed)] else g.arrivals,
                 e.meta, false))
  }

  /** Reading up to the end marker, an error, or the end of the stream, which may be inside a frame. */
  function Read(incremental: bool, g: Reading, stream: seq<Event>, truncated: bool): Result<Reading, Error>
    decreases |stream|
  {
    if stream == [] then (if truncated then Err(TruncatedFrame) else Ok(g))
    else
      match stream[0]
      case Done => Ok(g.(done := true))
      case Failure => Err(ServerError)
      case Message(_, _, _, _) =>
        match Absorb(incremental, g, stream[0])
        case Err(e) => Err(e)
        case Ok(g') => Read(incremental, g', stream[1..], truncated)
  }

  /** A rank other than the one asked for; a missing rank passes only on a single worker. */
  predicate RankDiffers(ask: Ask, rank: Option<int>) {
    ask.rank.Some? && rank != ask.rank && !(ask.dpSize == Some(1) && ask.rank == Some(0) && rank.None?)
  }

  /** The checks at the end. */
  function Finish(g: Reading, ask: Ask): Result<Reading, Error> {
    if !g.done || g.count == 0 || !g.meta.finishedByLength then Err(Incomplete)
    else if g.count != ask.expected || |g.ids| != ask.expected then Err(WrongCount)
    else if g.meta.promptTokens != ask.context then Err(WrongContext)
    else if RankDiffers(ask, g.meta.dpRank) then Err(WrongRank)
    else Ok(g)
  }

  function GenerateSpec(incremental: bool, stream: seq<Event>, truncated: bool, ask: Ask): Result<Reading, Error> {
    match Read(incremental, NOTHING, stream, truncated)
    case Err(e) => Err(e)
    case Ok(g) => Finish(g, ask)
  }

  method ReadMessage(incremental: bool, g: Reading, e: Event) returns (r: Result<Reading, Error>)
    requires e.Message? && !g.done
    ensures r == Absorb(incremental, g, e)
  {
    var count, ids, arrivals := g.count, g.ids, g.arrivals;
    if e.completed < count {
      return Err(MovedBackwards);
    }
    if e.completed > count {
      arrivals := arrivals + [Arrival(e.at, e.completed)];
      count := e.completed;
    }
    if e.ids.Some? {
      if incremental {
        ids := ids + e.ids.value;
      } else {
        ids := e.ids.value;
      }
    }
    return Ok(Reading(count, ids, arrivals, e.meta, false));
  }

  method Generate(incremental: bool, stream: seq<Event>, truncated: bool, ask: Ask) returns (r: Result<Reading, Error>)
    ensures r == GenerateSpec(incremental, stream, truncated, ask)
  {
    hide Absorb;
    var g := NOTHING;
    var i := 0;
    while i < |stream| && !g.done
      invariant 0 <= i <= |stream|
      invariant if g.done then Read(incremental, NOTHING, stream, truncated) == Ok(g)
                else Read(incremental, NOTHING, stream, truncated) == Read(incremental, g, stream[i..], truncated)
      decreases |stream| - i
    {
      assert stream[i..][1..] == stream[i + 1..];
      match stream[i] {
        case Done =>
          g := g.(done := true);
        case Failure =>
          return Err(ServerError);
        case Message(_, _, _, _) =>
          var next := ReadMessage(incremental, g, stream[i]);
          if next.Err? {
            return Err(next.error);
          }
          AbsorbKeepsReading(incremental, g, stream[i]);
          g := next.value;
      }
      i := i + 1;
    }
    if !g.done && truncated {
      return Err(TruncatedFrame);
    }
    if !g.done || g.count == 0 || !g.meta.finishedByLength {
      return Err(Incomplete);
    }
    if g.count != ask.expected || |g.ids| != ask.expected {
      return Err(WrongCount);
    }
    if g.meta.promptTokens != ask.context {
      return Err(WrongContext);
    }
    if ask.rank.Some? && g.meta.dpRank != ask.rank
       && !(ask.dpSize == Some(1) && ask.rank == Some(0) && g.meta.dpRank.None?) {
      return Err(WrongRank);
    }
    return Ok(g);
  }

  lemma AbsorbKeepsReading(incremental: bool, g: Reading, e: Event)
    requires e.Message? && Absorb(incremental, g, e).Ok?
    ensures !Absorb(incremental, g, e).value.done
  {
  }

  // ---------- Counts only grow ----------

  /** Counts above 0, each above the one before, and the last one equal to `count`. */
  ghost predicate Growing(arrivals: seq<Arrival>, count: int) {
    && (forall i :: 0 <= i < |arrivals| ==> 0 < arrivals[i].count)
    && (forall i, j :: 0 <= i < j < |arrivals| ==> arrivals[i].count < arrivals[j].count)
    && count == if arrivals == [] then 0 else arrivals[|arrivals| - 1].count
  }

  lemma AbsorbGrows(incremental: bool, g: Reading, e: Event)
    requires Growing(g.arrivals, g.count) && g.count >= 0 && e.Message?
    ensures var r := Absorb(incremental, g, e);
            r.Ok? ==> Growing(r.value.arrivals, r.value.count) && r.value.count >= 0
  {
  }

  lemma {:induction false} ReadGrows(incremental: bool, g: Reading, stream: seq<Event>, truncated: bool)
    requires Growing(g.arrivals, g.count) && g.count >= 0
    ensures Read(incremental, g, stream, truncated).Ok? ==>
              var r := Read(incremental, g, stream, truncated).value; Growing(r.arrivals, r.count)
    decreases |stream|
  {
    hide Growing, Absorb;
    if stream != [] && stream[0].Message? && Absorb(incremental, g, stream[0]).Ok? {
      AbsorbGrows(incremental, g, stream[0]);
      ReadGrows(incremental, Absorb(incremental, g, stream[0]).value, stream[1..], truncated);
    }
  }

  /** A successful generation has as many tokens as asked for, with growing counts that end there. */
  lemma GenerationIsComplete(incremental: bool, stream: seq<Event>, truncated: bool, ask: Ask)
    ensures var r := GenerateSpec(incremental, stream, truncated, ask);
            r.Ok? ==> && |r.value.ids| == ask.expected && Growing(r.value.arrivals, ask.expected)
                      && r.value.arrivals != [] && r.value.meta.promptTokens == ask.context
                      && (ask.rank.Some? && r.value.meta.dpRank.Some? ==> r.value.meta.dpRank == ask.rank)
  {
    ReadGrows(incremental, NOTHING, stream, truncated);
  }

  /** Whatever a stream without its end marker holds, the generation fails. */
  lemma {:induction false} EndlessFails(incremental: bool, g: Reading, stream: seq<Event>, truncated: bool, ask: Ask)
    requires !g.done && Done !in stream
    ensures Read(incremental, g, stream, truncated).Ok? ==> !Read(incremental, g, stream, truncated).value.done
    ensures g == NOTHING ==> GenerateSpec(incremental, stream, truncated, ask).Err?
    decreases |stream|
  {
    if stream != [] && stream[0].Message? && Absorb(incremental, g, stream[0]).Ok? {
      EndlessFails(incremental, Absorb(incremental, g, stream[0]).value, stream[1..], truncated, ask);
    }
  }

  // ---------- Incremental and cumulative streams ----------

  /** The same stream with each id list replaced by all ids so far. */
  function Cumulative(stream: seq<Event>, sofar: seq<Token>): seq<Event> {
    if stream == [] then []
    else
      match stream[0]
      case Message(_, _, _, Some(ids)) =>
        [stream[0].(ids := Some(sofar + ids))] + Cumulative(stream[1..], sofar + ids)
      case _ => [stream[0]] + Cumulative(stream[1..], sofar)
  }

  lemma {:induction false} ModesRead(g: Reading, stream: seq<Event>, truncated: bool)
    ensures Read(true, g, stream, truncated) == Read(false, g, Cumulative(stream, g.ids), truncated)
    decreases |stream|
  {
    if stream != [] && stream[0].Message? && Absorb(true, g, stream[0]).Ok? {
      ModesRead(Absorb(true, g, stream[0]).value, stream[1..], truncated);
    }
  }

  /** Both streaming modes yield the same ids, counts and errors. */
  lemma ModesAgree(stream: seq<Event>, truncated: bool, ask: Ask)
    ensures GenerateSpec(true, stream, truncated, ask) ==
            GenerateSpec(false, Cumulative(stream, []), truncated, ask)
  {
    ModesRead(NOTHING, stream, truncated);
  }

  // ---------- Synthetic inputs ----------

  function Repeat(ids: seq<Token>, k: nat): seq<Token> {
    if k == 0 then [] else ids + Repeat(ids, k - 1)
  }

  /** The tokenised text repeated and trimmed; an empty text is an error. */
  function SyntheticTokens(ids: seq<Token>, length: nat): Option<seq<Token>> {
    if ids == [] then None
    else
      var long := Repeat(ids, (length + |ids| - 1) / |ids|);
      Some(if length <= |long| then long[..length] else long)
  }

  lemma {:induction false} RepeatLength(ids: seq<Token>, k: nat)
    ensures |Repeat(ids, k)| == k * |ids|
    decreases k
  {
    if k > 0 {
      RepeatLength(ids, k - 1);
      assert k * |ids| == |ids| + (k - 1) * |ids|;
    }
  }

  lemma {:induction false} RepeatIsPeriodic(ids: seq<Token>, k: nat, i: nat)
    requires ids != [] && i < |Repeat(ids, k)|
    ensures Repeat(ids, k)[i] == ids[i % |ids|]
    decreases k
  {
    if i >= |ids| {
      RepeatIsPeriodic(ids, k - 1, i - |ids|);
      ModuloShift(i, |ids|);
    } else {
      RemainderIs(i, |ids|, 0, i);
    }
  }

  lemma CeilingCovers(length: nat, n: nat)
    requires n > 0
    ensures length <= ((length + n - 1) / n) * n
  {
  }

  /** Exactly the requested length, and periodic in the text. */
  lemma SyntheticTokensExact(ids: seq<Token>, length: nat)
    requires ids != []
    ensures SyntheticTokens(ids, length).Some? && |SyntheticTokens(ids, length).value| == length
    ensures forall i :: 0 <= i < length ==> SyntheticTokens(ids, length).value[i] == ids[i % |ids|]
  {
    var k := (length + |ids| - 1) / |ids|;
    CeilingCovers(length, |ids|);
    RepeatLength(ids, k);
    forall i | 0 <= i < length ensures Repeat(ids, k)[i] == ids[i % |ids|] {
      RepeatIsPeriodic(ids, k, i);
    }
  }

  // ---------- Conversations ----------

  datatype Mode = FullHistory | Session

  datatype Args = Args(turns: nat, initialTokens: nat, toolTokens: nat, outputTokens: nat)

  /** What the server answers to the tokens it has in front of it. */
  type Server = seq<Token> -> seq<Token>

  /** One turn: what was sent, the context length recorded for it, what the server had before it, its answer. */
  datatype Turn = Turn(inputIds: seq<Token>, contextTokens: nat, seen: seq<Token>, output: seq<Token>)

  /** A conversation so far: the client's history, what the server holds, and the turns. */
  datatype Talk = Talk(history: seq<Token>, held: seq<Token>, turns: seq<Turn>)

  /** One more turn.  A session server adds to what it holds; without a session it sees only the request. */
  function NextTurn(mode: Mode, server: Server, talk: Talk, input: seq<Token>): Talk {
    var history := talk.history + input;
    var sent := if mode == FullHistory then history else input;
    var seen := if mode == FullHistory then sent else talk.held + sent;
    var output := server(seen);
    Talk(history + output, seen + output, talk.turns + [Turn(sent, |history|, seen, output)])
  }

  function TalkAfter(mode: Mode, server: Server, inputs: seq<seq<Token>>, t: nat): Talk
    requires t <= |inputs|
  {
    if t == 0 then Talk([], [], [])
    else NextTurn(mode, server, TalkAfter(mode, server, inputs, t - 1), inputs[t - 1])
  }

  /** What is said in a conversation, one piece after the other: input, answer, input, answer. */
  function Exchanged(inputs: seq<seq<Token>>, turns: seq<Turn>, n: nat): (pieces: seq<seq<Token>>)
    requires n <= 2 * |inputs| && n <= 2 * |turns|
    ensures |pieces| == n
  {
    seq(n, k requires 0 <= k < n => if k % 2 == 0 then inputs[k / 2] else turns[k / 2].output)
  }

  /** A turn: all that was said up to its input is before the server, which answers to that. */
  ghost predicate Conversed(mode: Mode, server: Server, inputs: seq<seq<Token>>, turns: seq<Turn>, t: nat)
    requires t < |inputs| && t < |turns|
  {
    var context := Flatten(Exchanged(inputs, turns, 2 * t + 1));
    && turns[t].seen == context && turns[t].contextTokens == |context| && turns[t].output == server(context)
    && turns[t].inputIds == if mode == FullHistory then context else inputs[t]
  }

  lemma ExchangedNext(inputs: seq<seq<Token>>, turns: seq<Turn>, t: nat)
    requires t < |inputs| && t < |turns|
    ensures var before := Flatten(Exchanged(inputs, turns, 2 * t));
            && Flatten(Exchanged(inputs, turns, 2 * t + 1)) == before + inputs[t]
            && Flatten(Exchanged(inputs, turns, 2 * t + 2)) == before + inputs[t] + turns[t].output
  {
    var one, two := Exchanged(inputs, turns, 2 * t + 1), Exchanged(inputs, turns, 2 * t + 2);
    assert one[..2 * t] == Exchanged(inputs, turns, 2 * t) && two[..2 * t + 1] == one;
    FlattenLast(one);
    FlattenLast(two);
  }

  /** Turns added later do not change what was said before. */
  lemma ExchangedStays(inputs: seq<seq<Token>>, turns: seq<Turn>, last: Turn, n: nat)
    requires n <= 2 * |inputs| && n <= 2 * |turns|
    ensures Exchanged(inputs, turns + [last], n) == Exchanged(inputs, turns, n)
  {
  }

  /** The history is the inputs and the answers in the order exchanged. */
  ghost predicate IsExchanged(mode: Mode, server: Server, inputs: seq<seq<Token>>, talk: Talk) {
    && |talk.turns| <= |inputs|
    && talk.held == talk.history == Flatten(Exchanged(inputs, talk.turns, 2 * |talk.turns|))
    && forall t :: 0 <= t < |talk.turns| ==> Conversed(mode, server, inputs, talk.turns, t)
  }

  lemma ConversedStays(mode: Mode, server: Server, inputs: seq<seq<Token>>, turns: seq<Turn>, last: Turn, t: nat)
    requires t < |inputs| && t < |turns| && Conversed(mode, server, inputs, turns, t)
    ensures Conversed(mode, server, inputs, turns + [last], t)
  {
    ExchangedStays(inputs, turns, last, 2 * t + 1);
  }

  /** One more turn, on a server that holds the history. */
  lemma NextTurnIs(mode: Mode, server: Server, talk: Talk, input: seq<Token>)
    requires talk.held == talk.history
    ensures var context := talk.history + input;
            var sent := if mode == FullHistory then context else input;
            var said := context + server(context);
            NextTurn(mode, server, talk, input) ==
            Talk(said, said, talk.turns + [Turn(sent, |context|, context, server(context))])
  {
  }

  lemma LastConversed(mode: Mode, server: Server, inputs: seq<seq<Token>>, turns: seq<Turn>, last: Turn)
    requires |turns| < |inputs|
    requires var context := Flatten(Exchanged(inputs, turns, 2 * |turns|)) + inputs[|turns|];
             && last.inputIds == (if mode == FullHistory then context else inputs[|turns|])
             && last.contextTokens == |context| && last.seen == context && last.output == server(context)
    ensures Conversed(mode, server, inputs, turns + [last], |turns|)
    ensures Flatten(Exchanged(inputs, turns + [last], 2 * |turns + [last]|)) == last.seen + last.output
  {
    hide Exchanged, Flatten;
    ExchangedStays(inputs, turns, last, 2 * |turns|);
    ExchangedNext(inputs, turns + [last], |turns|);
  }

  lemma NextIsExchanged(mode: Mode, server: Server, inputs: seq<seq<Token>>, talk: Talk)
    requires IsExchanged(mode, server, inputs, talk) && |talk.turns| < |inputs|
    ensures IsExchanged(mode, server, inputs, NextTurn(mode, server, talk, inputs[|talk.turns|]))
  {
    var t := |talk.turns|;
    NextTurnIs(mode, server, talk, inputs[t]);
    hide NextTurn, Exchanged, Flatten, Conversed;
    var last := NextTurn(mode, server, talk, inputs[t]).turns[t];
    LastConversed(mode, server, inputs, talk.turns, last);
    forall k | 0 <= k < t ensures Conversed(mode, server, inputs, talk.turns + [last], k) {
      ConversedStays(mode, server, inputs, talk.turns, last, k);
    }
  }

  lemma {:induction false} HistoryIsExchanged(mode: Mode, server: Server, inputs: seq<seq<Token>>, t: nat)
    requires t <= |inputs|
    ensures |TalkAfter(mode, server, inputs, t).turns| == t
    ensures IsExchanged(mode, server, inputs, TalkAfter(mode, server, inputs, t))
    decreases t
  {
    if t > 0 {
      hide IsExchanged;
      HistoryIsExchanged(mode, server, inputs, t - 1);
      NextIsExchanged(mode, server, inputs, TalkAfter(mode, server, inputs, t - 1));
    }
  }

  /** The client's loop against a server. */
  method Conversation(mode: Mode, server: Server, inputs: seq<seq<Token>>) returns (talk: Talk)
    ensures talk == TalkAfter(mode, server, inputs, |inputs|)
    ensures |talk.turns| == |inputs| && IsExchanged(mode, server, inputs, talk)
  {
    hide IsExchanged;
    var history, held, turns := [], [], [];
    for t := 0 to |inputs|
      invariant Talk(history, held, turns) == TalkAfter(mode, server, inputs, t)
    {
      history := history + inputs[t];
      var inputIds := if mode == FullHistory then history else inputs[t];
      var contextTokens := |history|;
      held := if mode == FullHistory then inputIds else held + inputIds;
      var output := server(held);
      turns := turns + [Turn(inputIds, contextTokens, held, output)];
      history, held := history + output, held + output;
    }
    talk := Talk(history, held, turns);
    HistoryIsExchanged(mode, server, inputs, |inputs|);
  }

  lemma {:induction false} ServerHoldsHistory(mode: Mode, server: Server, inputs: seq<seq<Token>>, t: nat)
    requires t <= |inputs|
    ensures TalkAfter(mode, server, inputs, t).held == TalkAfter(mode, server, inputs, t).history
    ensures |TalkAfter(mode, server, inputs, t).turns| == t
    decreases t
  {
    if t > 0 {
      ServerHoldsHistory(mode, server, inputs, t - 1);
    }
  }

  /** A turn in a session and the same turn with full history. */
  ghost predicate SameTurn(session: Turn, full: Turn) {
    && session.seen == full.inputIds == full.seen && session.output == full.output
    && session.contextTokens == full.contextTokens == |full.inputIds|
  }

  /** The two conversations so far: the same history, and the same turns. */
  ghost predicate SameTalk(session: Talk, full: Talk) {
    && session.history == full.history && |session.turns| == |full.turns|
    && forall k :: 0 <= k < |full.turns| ==> SameTurn(session.turns[k], full.turns[k])
  }

  lemma SameNext(server: Server, session: Talk, full: Talk, input: seq<Token>)
    requires SameTalk(session, full) && session.held == session.history
    ensures SameTalk(NextTurn(Session, server, session, input), NextTurn(FullHistory, server, full, input))
  {
  }

  /**
   Against any server, the two modes exchange the same outputs and end with the same history;
   at every turn the session server has before it exactly what full-history mode sends, and
   its length is the context length the client records.
   */
  lemma {:induction false} SessionMatchesHistory(server: Server, inputs: seq<seq<Token>>, t: nat)
    requires t <= |inputs|
    ensures SameTalk(TalkAfter(Session, server, inputs, t), TalkAfter(FullHistory, server, inputs, t))
    decreases t
  {
    hide NextTurn;
    if t == 0 {
    } else {
      hide SameTalk;
      SessionMatchesHistory(server, inputs, t - 1);
      ServerHoldsHistory(Session, server, inputs, t - 1);
      SameNext(server, TalkAfter(Session, server, inputs, t - 1), TalkAfter(FullHistory, server, inputs, t - 1),
               inputs[t - 1]);
    }
  }

  // ---------- Context lengths ----------

  function InputLength(args: Args, turn: nat): nat {
    if turn == 0 then args.initialTokens else args.toolTokens
  }

  function MaxContextTokens(args: Args): int {
    args.initialTokens + (args.turns - 1) * (args.toolTokens + args.outputTokens) + args.outputTokens
  }

  /** Tokens after t turns. */
  function HistoryTokens(args: Args, t: nat): int {
    if t == 0 then 0
    else args.initialTokens + args.outputTokens + (t - 1) * (args.toolTokens + args.outputTokens)
  }

  lemma OneMoreTurn(args: Args, t: nat)
    ensures HistoryTokens(args, t + 1) == HistoryTokens(args, t) + InputLength(args, t) + args.outputTokens
  {
    OneMorePeriod(t, args.toolTokens + args.outputTokens);
  }

  /** Inputs and answers of the lengths the arguments ask for. */
  ghost predicate LengthsOk(args: Args, inputs: seq<seq<Token>>, talk: Talk) {
    && |inputs| == |talk.turns| == args.turns
    && forall t :: 0 <= t < args.turns ==>
         |inputs[t]| == InputLength(args, t) && |talk.turns[t].output| == args.outputTokens
  }

  lemma LengthsAt(args: Args, inputs: seq<seq<Token>>, talk: Talk, t: nat)
    requires LengthsOk(args, inputs, talk) && t < |inputs|
    ensures |talk.turns| == |inputs| == args.turns
    ensures |inputs[t]| == InputLength(args, t) && |talk.turns[t].output| == args.outputTokens
  {
  }

  /** Earlier turns stay as they were. */
  lemma {:induction false} TurnsStay(mode: Mode, server: Server, inputs: seq<seq<Token>>, t: nat, n: nat)
    requires t <= n <= |inputs|
    ensures TalkAfter(mode, server, inputs, t).turns <= TalkAfter(mode, server, inputs, n).turns
    decreases n
  {
    if t < n {
      TurnsStay(mode, server, inputs, t, n - 1);
    }
  }

  /** One turn adds its input and its answer to the history. */
  lemma TurnAdds(mode: Mode, server: Server, inputs: seq<seq<Token>>, t: nat)
    requires t < |inputs|
    ensures var talk := TalkAfter(mode, server, inputs, |inputs|);
            var before := |TalkAfter(mode, server, inputs, t).history|;
            && |talk.turns| == |inputs| && talk.turns[t].contextTokens == before + |inputs[t]|
            && |TalkAfter(mode, server, inputs, t + 1).history| ==
               before + |inputs[t]| + |talk.turns[t].output|
  {
    TurnsStay(mode, server, inputs, t + 1, |inputs|);
    ServerHoldsHistory(mode, server, inputs, t);
    ServerHoldsHistory(mode, server, inputs, |inputs|);
    assert TalkAfter(mode, server, inputs, t + 1).turns[t] == TalkAfter(mode, server, inputs, |inputs|).turns[t];
  }

  lemma {:induction false} HistoryLength(mode: Mode, server: Server, args: Args, inputs: seq<seq<Token>>, t: nat)
    requires t <= |inputs| && LengthsOk(args, inputs, TalkAfter(mode, server, inputs, |inputs|))
    ensures |TalkAfter(mode, server, inputs, t).history| == HistoryTokens(args, t)
    decreases t
  {
    hide LengthsOk, NextTurn;
    if t > 0 {
      hide TalkAfter, HistoryTokens, InputLength;
      LengthsAt(args, inputs, TalkAfter(mode, server, inputs, |inputs|), t - 1);
      HistoryLength(mode, server, args, inputs, t - 1);
      TurnAdds(mode, server, inputs, t - 1);
      OneMoreTurn(args, t - 1);
    }
  }

  lemma OneMorePeriod(k: int, per: int)
    ensures k * per == (k - 1) * per + per
  {
  }

  lemma ProductMonotone(a: nat, b: nat, c: nat)
    requires a <= b
    ensures a * c <= b * c
  {
  }

  /**
   The context at turn t is the initial prompt and t rounds of tool and output; context and
   answer together stay within the computed maximum, which the final history attains.
   */
  lemma ContextWithinMaximum(mode: Mode, server: Server, args: Args, inputs: seq<seq<Token>>, t: nat)
    requires LengthsOk(args, inputs, TalkAfter(mode, server, inputs, |inputs|)) && t < args.turns
    ensures var talk := TalkAfter(mode, server, inputs, |inputs|);
            && talk.turns[t].contextTokens == args.initialTokens + t * (args.toolTokens + args.outputTokens)
            && talk.turns[t].contextTokens + args.outputTokens <= MaxContextTokens(args)
            && |talk.history| == MaxContextTokens(args)
  {
    hide TalkAfter;
    HistoryLength(mode, server, args, inputs, t);
    HistoryLength(mode, server, args, inputs, args.turns);
    TurnAdds(mode, server, inputs, t);
    OneMorePeriod(t, args.toolTokens + args.outputTokens);
    ProductMonotone(t, args.turns - 1, args.toolTokens + args.outputTokens);
  }
}

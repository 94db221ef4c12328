/**
 When a generation of the rollout client succeeds, and with what (benchmark/agentic-rollout/
 simulate.py), said of the stream alone.
 */
module RolloutOutcome {
  import opened Options
  import opened Sorting
  import opened Rollout

  // ---------- The stream before its end marker ----------

  /** The first `n` events are messages. */
  ghost predicate AllMessages(stream: seq<Event>, n: nat) {
    n <= |stream| && forall k :: 0 <= k < n ==> stream[k].Message?
  }

  /** How many tokens there were before event `k`. */
  function CountBefore(stream: seq<Event>, k: nat): int
    requires k <= |stream| && (k > 0 ==> stream[k - 1].Message?)
  {
    if k == 0 then 0 else stream[k - 1].completed
  }

  /** The counts start at 0 or above and never go back. */
  ghost predicate NeverBack(stream: seq<Event>, n: nat)
    requires AllMessages(stream, n)
  {
    forall k :: 0 <= k < n ==> CountBefore(stream, k) <= stream[k].completed
  }

  /** Which messages brought tokens. */
  function Brought(stream: seq<Event>, n: nat): (flags: seq<bool>)
    requires AllMessages(stream, n)
    ensures |flags| == n
  {
    seq(n, k requires 0 <= k < n => CountBefore(stream, k) < stream[k].completed)
  }

  /** When tokens came, and how many there were by then. */
  function ArrivalsOf(stream: seq<Event>, at: seq<nat>): seq<Arrival>
    requires forall i :: 0 <= i < |at| ==> at[i] < |stream| && stream[at[i]].Message?
  {
    seq(|at|, i requires 0 <= i < |at| => Arrival(stream[at[i]].at, stream[at[i]].completed))
  }

  function GivenIds(e: Event): seq<Token> {
    if e.Message? && e.ids.Some? then e.ids.value else []
  }

  /** All ids given, one message after the other. */
  function AllIds(stream: seq<Event>, n: nat): seq<Token>
    requires n <= |stream|
  {
    Flatten(seq(n, k requires 0 <= k < n => GivenIds(stream[k])))
  }

  /** The ids of the last message that gave any. */
  ghost predicate LastIds(stream: seq<Event>, n: nat, ids: seq<Token>)
    requires AllMessages(stream, n)
  {
    if forall k :: 0 <= k < n ==> stream[k].ids.None? then ids == []
    else exists k :: 0 <= k < n && stream[k].ids == Some(ids) && forall j :: k < j < n ==> stream[j].ids.None?
  }

  /** What the client knows after the first `n` messages. */
  ghost predicate KnowsAfter(incremental: bool, stream: seq<Event>, n: nat, g: Reading)
    requires AllMessages(stream, n)
  {
    && g.count == CountBefore(stream, n) && g.meta == (if n == 0 then NOTHING.meta else stream[n - 1].meta)
    && g.arrivals == ArrivalsOf(stream, Positions(Brought(stream, n)))
    && (if incremental then g.ids == AllIds(stream, n) else LastIds(stream, n, g.ids))
  }

  // ---------- Message by message ----------

  lemma BroughtNext(stream: seq<Event>, n: nat)
    requires AllMessages(stream, n + 1)
    ensures AllMessages(stream, n)
    ensures ArrivalsOf(stream, Positions(Brought(stream, n + 1))) ==
            ArrivalsOf(stream, Positions(Brought(stream, n))) +
            if CountBefore(stream, n) < stream[n].completed then [Arrival(stream[n].at, stream[n].completed)] else []
  {
    assert Brought(stream, n + 1)[..n] == Brought(stream, n);
  }

  lemma AllIdsNext(stream: seq<Event>, n: nat)
    requires n < |stream|
    ensures AllIds(stream, n + 1) == AllIds(stream, n) + GivenIds(stream[n])
  {
    var pieces := seq(n + 1, k requires 0 <= k < n + 1 => GivenIds(stream[k]));
    FlattenLast(pieces);
    assert pieces[..n] == seq(n, k requires 0 <= k < n => GivenIds(stream[k]));
  }

  lemma LastIdsNext(stream: seq<Event>, n: nat, ids: seq<Token>)
    requires AllMessages(stream, n + 1) && LastIds(stream, n, ids)
    ensures LastIds(stream, n + 1, if stream[n].ids.None? then ids else stream[n].ids.value)
  {
    if stream[n].ids.Some? {
      assert stream[n].ids == Some(stream[n].ids.value);
    } else if k :| 0 <= k < n && stream[k].ids == Some(ids) && forall j :: k < j < n ==> stream[j].ids.None? {
      assert stream[k].ids == Some(ids) && forall j :: k < j < n + 1 ==> stream[j].ids.None?;
    }
  }

  lemma AbsorbKnows(incremental: bool, stream: seq<Event>, n: nat, g: Reading)
    requires AllMessages(stream, n + 1) && AllMessages(stream, n) && KnowsAfter(incremental, stream, n, g)
    ensures Absorb(incremental, g, stream[n]).Ok? <==> CountBefore(stream, n) <= stream[n].completed
    ensures Absorb(incremental, g, stream[n]).Ok? ==>
              KnowsAfter(incremental, stream, n + 1, Absorb(incremental, g, stream[n]).value)
  {
    BroughtNext(stream, n);
    AllIdsNext(stream, n);
    hide ArrivalsOf, AllIds;
    if !incremental {
      LastIdsNext(stream, n, g.ids);
      hide LastIds;
    }
  }

  lemma StartKnows(incremental: bool, stream: seq<Event>)
    ensures AllMessages(stream, 0) && KnowsAfter(incremental, stream, 0, NOTHING)
  {
    assert Positions(Brought(stream, 0)) == [];
  }

  // ---------- Up to where the reading stops ----------

  /** Messages up to `n`, with counts that never go back. */
  ghost predicate GoodUpTo(stream: seq<Event>, n: nat) {
    AllMessages(stream, n) && NeverBack(stream, n)
  }

  /** No good message follows: the stream is over, there is a marker, or the count goes back. */
  ghost predicate StopsAt(stream: seq<Event>, n: nat) {
    GoodUpTo(stream, n) && !GoodUpTo(stream, n + 1)
  }

  /** Every stream stops somewhere. */
  lemma {:induction false} FindStop(stream: seq<Event>, k: nat) returns (n: nat)
    requires GoodUpTo(stream, k)
    ensures k <= n && StopsAt(stream, n)
    decreases |stream| - k
  {
    if GoodUpTo(stream, k + 1) {
      n := FindStop(stream, k + 1);
    } else {
      n := k;
    }
  }

  lemma OneReading(incremental: bool, stream: seq<Event>, n: nat, g: Reading, h: Reading)
    requires AllMessages(stream, n) && KnowsAfter(incremental, stream, n, g) && KnowsAfter(incremental, stream, n, h)
    ensures g.count == h.count && g.ids == h.ids && g.arrivals == h.arrivals && g.meta == h.meta
  {
    if !incremental {
      if i :| 0 <= i < n && stream[i].ids == Some(g.ids) && forall j :: i < j < n ==> stream[j].ids.None? {
        var k :| 0 <= k < n && stream[k].ids == Some(h.ids) && forall j :: k < j < n ==> stream[j].ids.None?;
        assert i == k;
      }
    }
  }

  /** Reading the first `n` messages, and then the rest. */
  lemma {:induction false} ReadsUpTo(incremental: bool, stream: seq<Event>, n: nat, truncated: bool)
    returns (g: Reading)
    requires GoodUpTo(stream, n)
    ensures KnowsAfter(incremental, stream, n, g) && !g.done
    ensures Read(incremental, NOTHING, stream, truncated) == Read(incremental, g, stream[n..], truncated)
    decreases n
  {
    if n == 0 {
      StartKnows(incremental, stream);
      g := NOTHING;
      assert stream[0..] == stream;
    } else {
      var before := ReadsUpTo(incremental, stream, n - 1, truncated);
      AbsorbKnows(incremental, stream, n - 1, before);
      hide KnowsAfter, CountBefore;
      assert CountBefore(stream, n - 1) <= stream[n - 1].completed;
      AbsorbKeepsReading(incremental, before, stream[n - 1]);
      hide Absorb;
      g := Absorb(incremental, before, stream[n - 1]).value;
      assert stream[n - 1..][0] == stream[n - 1] && stream[n - 1..][1..] == stream[n..];
    }
  }

  // ---------- How a generation ends ----------

  /** The rank is the one asked for; none at all is the only worker's. */
  ghost predicate RightRank(rank: Option<int>, ask: Ask) {
    ask.rank.None? || rank == ask.rank || (rank.None? && ask.rank == Some(0) && ask.dpSize == Some(1))
  }

  /** The last message reports what was asked for. */
  ghost predicate AsAsked(g: Reading, ask: Ask) {
    && g.count == ask.expected == |g.ids| && g.count != 0 && g.meta.finishedByLength
    && g.meta.promptTokens == ask.context && RightRank(g.meta.dpRank, ask)
  }

  /** What goes wrong with a reading that reached the end marker. */
  function Complaint(g: Reading, ask: Ask): Error
    requires !AsAsked(g, ask)
  {
    if g.count == 0 || !g.meta.finishedByLength then Incomplete
    else if g.count != ask.expected || |g.ids| != ask.expected then WrongCount
    else if g.meta.promptTokens != ask.context then WrongContext
    else WrongRank
  }

  /**
   Where the reading stops decides how the generation ends, whatever it knows there: at the end
   marker by what the last message reports, elsewhere with an error.
   */
  lemma GenerationEnds(incremental: bool, stream: seq<Event>, truncated: bool, ask: Ask, n: nat, g: Reading)
    requires StopsAt(stream, n) && KnowsAfter(incremental, stream, n, g)
    ensures var r := GenerateSpec(incremental, stream, truncated, ask);
            && (n == |stream| ==> r == Err(if truncated then TruncatedFrame else Incomplete))
            && (n < |stream| && stream[n].Failure? ==> r == Err(ServerError))
            && (n < |stream| && stream[n].Message? ==> r == Err(MovedBackwards))
            && (n < |stream| && stream[n].Done? ==>
                  if AsAsked(g, ask) then
                    r == Ok(Reading(g.count, g.ids, g.arrivals, g.meta, true))
                  else r == Err(Complaint(g, ask)))
  {
    var h := ReadsUpTo(incremental, stream, n, truncated);
    OneReading(incremental, stream, n, g, h);
    if n < |stream| {
      assert stream[n..][0] == stream[n];
      if stream[n].Message? {
        assert AllMessages(stream, n + 1);
        AbsorbKnows(incremental, stream, n, h);
      }
    }
  }

  /**
   A generation succeeds exactly if the stream is messages with counts that never go back, then
   the end marker, and the last of them reports what was asked: then its ids are those given,
   all of them or the last, and its arrivals are the messages that brought tokens.
   */
  lemma SucceedsIff(incremental: bool, stream: seq<Event>, truncated: bool, ask: Ask)
    ensures GenerateSpec(incremental, stream, truncated, ask).Ok? <==>
            exists n: nat, g :: n < |stream| && GoodUpTo(stream, n) && stream[n].Done?
                                && KnowsAfter(incremental, stream, n, g) && AsAsked(g, ask)
    ensures GenerateSpec(incremental, stream, truncated, ask).Ok? ==>
              var g := GenerateSpec(incremental, stream, truncated, ask).value;
              exists n: nat :: n < |stream| && GoodUpTo(stream, n) && stream[n].Done?
                               && KnowsAfter(incremental, stream, n, g) && AsAsked(g, ask)
  {
    hide KnowsAfter, AsAsked;
    var n := FindStop(stream, 0);
    var g := ReadsUpTo(incremental, stream, n, truncated);
    GenerationEnds(incremental, stream, truncated, ask, n, g);
    DoneKnows(incremental, stream, n, g, ask);
    hide GenerateSpec;
    if m: nat, h :| m < |stream| && GoodUpTo(stream, m) && stream[m].Done?
                    && KnowsAfter(incremental, stream, m, h) && AsAsked(h, ask) {
      assert StopsAt(stream, m);
      GenerationEnds(incremental, stream, truncated, ask, m, h);
    }
  }

  lemma DoneKnows(incremental: bool, stream: seq<Event>, n: nat, g: Reading, ask: Ask)
    requires AllMessages(stream, n) && KnowsAfter(incremental, stream, n, g)
    ensures var done := Reading(g.count, g.ids, g.arrivals, g.meta, true);
            KnowsAfter(incremental, stream, n, done) && AsAsked(done, ask) == AsAsked(g, ask)
  {
  }
}

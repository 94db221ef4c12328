/**
 The conversation filter of the benchmark data loader (benchmark/hicache/data_processing.py):
 turns outside the length limits are dropped, and the surviving conversations are taken
 round and round until there are enough.
 */
module DatasetFilter {
  import opened Arithmetic
  import opened Options
  import opened Sorting

  /** A turn of the dataset, and a turn that is kept with its lengths. */
  datatype Turn = Turn(prompt: string, completion: string)
  datatype Kept = Kept(prompt: string, promptLen: nat, outputLen: int)

  datatype Limits = Limits(
    minPrompt: Option<int>, minOutput: Option<int>, maxPrompt: Option<int>, maxOutput: Option<int>,
    fixedOutput: Option<int>)

  type Encode = string -> seq<int>

  function OutputLen(encode: Encode, lim: Limits, t: Turn): int {
    if lim.fixedOutput.None? then |encode(t.completion)| else lim.fixedOutput.value
  }

  predicate TooLongOrShort(lim: Limits, promptLen: int, outputLen: int) {
    || (lim.minPrompt.Some? && promptLen < lim.minPrompt.value)
    || (lim.minOutput.Some? && outputLen < lim.minOutput.value)
    || (lim.maxPrompt.Some? && promptLen > lim.maxPrompt.value)
    || (lim.maxOutput.Some? && outputLen > lim.maxOutput.value)
  }

  /** Every limit that is given is kept. */
  predicate WithinLimits(lim: Limits, promptLen: int, outputLen: int) {
    && (lim.minPrompt.Some? ==> lim.minPrompt.value <= promptLen)
    && (lim.maxPrompt.Some? ==> promptLen <= lim.maxPrompt.value)
    && (lim.minOutput.Some? ==> lim.minOutput.value <= outputLen)
    && (lim.maxOutput.Some? ==> outputLen <= lim.maxOutput.value)
  }

  /** The turn is within the limits; a fixed output length stands for its own. */
  predicate Fits(encode: Encode, lim: Limits, t: Turn) {
    match lim.fixedOutput
    case Some(fixed) => WithinLimits(lim, |encode(t.prompt)|, fixed)
    case None => WithinLimits(lim, |encode(t.prompt)|, |encode(t.completion)|)
  }

  lemma FitsIff(encode: Encode, lim: Limits, t: Turn)
    ensures Fits(encode, lim, t) <==> !TooLongOrShort(lim, |encode(t.prompt)|, OutputLen(encode, lim, t))
  {
  }

  /** The turns of a conversation within the limits. */
  function KeptTurns(encode: Encode, lim: Limits, conv: seq<Turn>): seq<Kept> {
    if conv == [] then []
    else
      var t := conv[|conv| - 1];
      KeptTurns(encode, lim, conv[..|conv| - 1]) +
      if TooLongOrShort(lim, |encode(t.prompt)|, OutputLen(encode, lim, t)) then []
      else [Kept(t.prompt, |encode(t.prompt)|, OutputLen(encode, lim, t))]
  }

  /** The conversations that keep at least one turn. */
  function Survivors(encode: Encode, lim: Limits, data: seq<seq<Turn>>): seq<seq<Kept>> {
    if data == [] then []
    else
      var kept := KeptTurns(encode, lim, data[|data| - 1]);
      Survivors(encode, lim, data[..|data| - 1]) + if kept == [] then [] else [kept]
  }

  function PromptTokens(turns: seq<Kept>): int {
    if turns == [] then 0 else PromptTokens(turns[..|turns| - 1]) + turns[|turns| - 1].promptLen
  }

  function OutputTokens(turns: seq<Kept>): int {
    if turns == [] then 0 else OutputTokens(turns[..|turns| - 1]) + turns[|turns| - 1].outputLen
  }

  function AllPromptTokens(convs: seq<seq<Kept>>): int {
    if convs == [] then 0 else AllPromptTokens(convs[..|convs| - 1]) + PromptTokens(convs[|convs| - 1])
  }

  function AllOutputTokens(convs: seq<seq<Kept>>): int {
    if convs == [] then 0 else AllOutputTokens(convs[..|convs| - 1]) + OutputTokens(convs[|convs| - 1])
  }

  lemma KeptNext(encode: Encode, lim: Limits, conv: seq<Turn>, j: nat)
    requires j < |conv|
    ensures KeptTurns(encode, lim, conv[..j + 1]) ==
            KeptTurns(encode, lim, conv[..j]) +
            if TooLongOrShort(lim, |encode(conv[j].prompt)|, OutputLen(encode, lim, conv[j])) then []
            else [Kept(conv[j].prompt, |encode(conv[j].prompt)|, OutputLen(encode, lim, conv[j]))]
  {
    hide TooLongOrShort;
    assert conv[..j + 1][..j] == conv[..j];
  }

  lemma TokensNext(turns: seq<Kept>, t: Kept)
    ensures PromptTokens(turns + [t]) == PromptTokens(turns) + t.promptLen
    ensures OutputTokens(turns + [t]) == OutputTokens(turns) + t.outputLen
  {
    assert (turns + [t])[..|turns|] == turns;
  }

  lemma NothingKept(encode: Encode, lim: Limits, conv: seq<Turn>)
    ensures KeptTurns(encode, lim, conv[..0]) == [] && PromptTokens([]) == 0 == OutputTokens([])
  {
  }

  // ---------- Which turns are kept ----------

  /** What is kept of a turn: its prompt, the length of that, and its own or the fixed output length. */
  ghost predicate KeptAs(encode: Encode, lim: Limits, t: Turn, kept: Kept) {
    && kept.prompt == t.prompt && kept.promptLen == |encode(t.prompt)|
    && match lim.fixedOutput
       case Some(fixed) => kept.outputLen == fixed
       case None => kept.outputLen == |encode(t.completion)|
  }

  /** Where the turns within the limits are. */
  function FitAt(encode: Encode, lim: Limits, conv: seq<Turn>): (at: seq<nat>)
    ensures forall k :: 0 <= k < |at| ==> at[k] < |conv|
  {
    Positions(seq(|conv|, j requires 0 <= j < |conv| => Fits(encode, lim, conv[j])))
  }

  /** The turns within the limits, all of them and in order. */
  ghost predicate KeptInOrder(encode: Encode, lim: Limits, conv: seq<Turn>, processed: seq<Kept>) {
    var at := FitAt(encode, lim, conv);
    |processed| == |at| && forall k :: 0 <= k < |at| ==> KeptAs(encode, lim, conv[at[k]], processed[k])
  }

  lemma FitAtNext(encode: Encode, lim: Limits, conv: seq<Turn>, n: nat)
    requires |conv| == n + 1
    ensures FitAt(encode, lim, conv) == FitAt(encode, lim, conv[..n]) + if Fits(encode, lim, conv[n]) then [n] else []
  {
    hide Fits;
    var flags := seq(|conv|, j requires 0 <= j < |conv| => Fits(encode, lim, conv[j]));
    assert flags[..n] == seq(n, j requires 0 <= j < n => Fits(encode, lim, conv[..n][j]));
  }

  lemma {:induction false} TurnsAreKept(encode: Encode, lim: Limits, conv: seq<Turn>)
    ensures KeptInOrder(encode, lim, conv, KeptTurns(encode, lim, conv))
    decreases |conv|
  {
    if conv != [] {
      var n := |conv| - 1;
      TurnsAreKept(encode, lim, conv[..n]);
      FitAtNext(encode, lim, conv, n);
      FitsIff(encode, lim, conv[n]);
      hide Fits, TooLongOrShort, FitAt;
    }
  }

  /** Something is kept exactly when some turn is within the limits. */
  lemma KeptIff(encode: Encode, lim: Limits, conv: seq<Turn>)
    ensures KeptTurns(encode, lim, conv) != [] <==> exists j :: 0 <= j < |conv| && Fits(encode, lim, conv[j])
  {
    hide Fits, KeptTurns, KeptAs;
    TurnsAreKept(encode, lim, conv);
    var flags := seq(|conv|, j requires 0 <= j < |conv| => Fits(encode, lim, conv[j]));
    if j :| 0 <= j < |conv| && Fits(encode, lim, conv[j]) {
      PositionsAre(flags, j);
    }
    if KeptTurns(encode, lim, conv) != [] {
      PositionsAre(flags, Positions(flags)[0]);
    }
  }

  /** The kept turns of one conversation, with their token totals. */
  method FilterConversation(encode: Encode, lim: Limits, conv: seq<Turn>)
    returns (processed: seq<Kept>, promptTokens: int, outputTokens: int)
    ensures processed == KeptTurns(encode, lim, conv) && KeptInOrder(encode, lim, conv, processed)
    ensures promptTokens == PromptTokens(processed) && outputTokens == OutputTokens(processed)
  {
    hide KeptTurns, KeptInOrder, PromptTokens, OutputTokens, TooLongOrShort;
    NothingKept(encode, lim, conv);
    processed, promptTokens, outputTokens := [], 0, 0;
    for j := 0 to |conv|
      invariant processed == KeptTurns(encode, lim, conv[..j])
      invariant promptTokens == PromptTokens(processed) && outputTokens == OutputTokens(processed)
    {
      KeptNext(encode, lim, conv, j);
      var t := conv[j];
      var promptLen := |encode(t.prompt)|;
      var outputLen := if lim.fixedOutput.None? then |encode(t.completion)| else lim.fixedOutput.value;
      if !TooLongOrShort(lim, promptLen, outputLen) {
        promptTokens := promptTokens + promptLen;
        outputTokens := outputTokens + outputLen;
        TokensNext(processed, Kept(t.prompt, promptLen, outputLen));
        processed := processed + [Kept(t.prompt, promptLen, outputLen)];
      }
    }
    assert conv[..|conv|] == conv;
    TurnsAreKept(encode, lim, conv);
  }

  /** One pass over the data adds the survivors, as far as they are wanted. */
  function Pass(xs: seq<seq<Kept>>, survivors: seq<seq<Kept>>, wanted: int): seq<seq<Kept>>
    requires |xs| <= wanted
  {
    xs + survivors[..Min(|survivors|, wanted - |xs|)]
  }

  method OnePass(encode: Encode, lim: Limits, data: seq<seq<Turn>>, xs: seq<seq<Kept>>, wanted: int)
    returns (filtered: seq<seq<Kept>>, promptTokens: int, outputTokens: int)
    requires |xs| <= wanted
    ensures filtered == Pass(xs, Survivors(encode, lim, data), wanted)
    ensures promptTokens == AllPromptTokens(filtered) - AllPromptTokens(xs)
    ensures outputTokens == AllOutputTokens(filtered) - AllOutputTokens(xs)
  {
    hide KeptTurns, Survivors, PromptTokens, OutputTokens, AllPromptTokens, AllOutputTokens, TooLongOrShort;
    filtered, promptTokens, outputTokens := xs, 0, 0;
    ghost var all := Survivors(encode, lim, data);
    var i := 0;
    SurvivorsPrefix(encode, lim, data, 0);
    SurvivorsNone(encode, lim);
    assert data[..0] == [];
    while i < |data| && |filtered| < wanted
      invariant 0 <= i <= |data| && |filtered| <= wanted
      invariant filtered == xs + Survivors(encode, lim, data[..i]) && Survivors(encode, lim, data[..i]) <= all
      invariant promptTokens == AllPromptTokens(filtered) - AllPromptTokens(xs)
      invariant outputTokens == AllOutputTokens(filtered) - AllOutputTokens(xs)
      decreases |data| - i
    {
      var processed, p, o := FilterConversation(encode, lim, data[i]);
      SurvivorsPrefix(encode, lim, data, i + 1);
      SurvivorsNext(encode, lim, data, i);
      TokensThen(filtered, processed);
      promptTokens := promptTokens + p;
      outputTokens := outputTokens + o;
      if |processed| != 0 {
        filtered := filtered + [processed];
      }
      i := i + 1;
    }
    assert data[..|data|] == data;
    assert filtered == xs + all[..|filtered| - |xs|];
  }

  lemma SurvivorsNone(encode: Encode, lim: Limits)
    ensures Survivors(encode, lim, []) == []
  {
  }

  lemma SurvivorsNext(encode: Encode, lim: Limits, data: seq<seq<Turn>>, i: nat)
    requires i < |data|
    ensures var kept := KeptTurns(encode, lim, data[i]);
            Survivors(encode, lim, data[..i + 1]) ==
            Survivors(encode, lim, data[..i]) + if kept == [] then [] else [kept]
  {
    assert data[..i + 1][..i] == data[..i];
  }

  lemma TokensThen(convs: seq<seq<Kept>>, conv: seq<Kept>)
    ensures AllPromptTokens(convs + [conv]) == AllPromptTokens(convs) + PromptTokens(conv)
    ensures AllOutputTokens(convs + [conv]) == AllOutputTokens(convs) + OutputTokens(conv)
    ensures conv == [] ==> PromptTokens(conv) == 0 == OutputTokens(conv)
  {
    assert (convs + [conv])[..|convs|] == convs;
  }

  lemma {:induction false} SurvivorsPrefix(encode: Encode, lim: Limits, data: seq<seq<Turn>>, i: nat)
    requires i <= |data|
    ensures Survivors(encode, lim, data[..i]) <= Survivors(encode, lim, data)
    decreases |data| - i
  {
    if i < |data| {
      SurvivorsPrefix(encode, lim, data, i + 1);
      assert data[..i + 1][..i] == data[..i];
    } else {
      assert data[..i] == data;
    }
  }

  /** The survivors taken round and round. */
  ghost predicate Cyclic(xs: seq<seq<Kept>>, survivors: seq<seq<Kept>>)
    requires survivors != []
  {
    forall k :: 0 <= k < |xs| ==> xs[k] == survivors[k % |survivors|]
  }

  lemma PassIsCyclic(xs: seq<seq<Kept>>, survivors: seq<seq<Kept>>, wanted: int, rounds: nat)
    requires survivors != [] && Cyclic(xs, survivors) && |xs| == |survivors| * rounds && |xs| <= wanted
    ensures Cyclic(Pass(xs, survivors, wanted), survivors)
  {
    var ys := Pass(xs, survivors, wanted);
    forall k | 0 <= k < |ys| ensures ys[k] == survivors[k % |survivors|] {
      if k >= |xs| {
        RemainderIs(k, |survivors|, rounds, k - |xs|);
        assert ys[k] == survivors[k - |xs|];
      }
    }
  }

  // ---------- Pass after pass ----------

  /** What has been collected when the outer loop has gone round `n` times. */
  function AfterPasses(encode: Encode, lim: Limits, data: seq<seq<Turn>>, wanted: int, n: nat): (r: seq<seq<Kept>>)
    ensures |r| <= Max(wanted, 0)
  {
    if n == 0 then []
    else
      var before := AfterPasses(encode, lim, data, wanted, n - 1);
      if |before| < wanted then Pass(before, Survivors(encode, lim, data), wanted) else before
  }

  lemma {:induction false} PassesCollect(encode: Encode, lim: Limits, data: seq<seq<Turn>>, wanted: nat, n: nat)
    ensures |AfterPasses(encode, lim, data, wanted, n)| == Min(|Survivors(encode, lim, data)| * n, wanted)
    decreases n
  {
    hide Survivors;
    var size := |Survivors(encode, lim, data)|;
    if n > 0 {
      PassesCollect(encode, lim, data, wanted, n - 1);
      assert size * n == size * (n - 1) + size;
    }
  }

  lemma {:induction false} PassesRotate(encode: Encode, lim: Limits, data: seq<seq<Turn>>, wanted: nat, n: nat)
    requires Survivors(encode, lim, data) != []
    ensures Cyclic(AfterPasses(encode, lim, data, wanted, n), Survivors(encode, lim, data))
    decreases n
  {
    hide Survivors;
    if n > 0 {
      PassesRotate(encode, lim, data, wanted, n - 1);
      PassesCollect(encode, lim, data, wanted, n - 1);
      var before := AfterPasses(encode, lim, data, wanted, n - 1);
      if |before| < wanted {
        PassIsCyclic(before, Survivors(encode, lim, data), wanted, n - 1);
      }
    }
  }

  /** The outer loop stops after `n` passes. */
  ghost predicate StopsAfter(encode: Encode, lim: Limits, data: seq<seq<Turn>>, wanted: int, n: nat) {
    |AfterPasses(encode, lim, data, wanted, n)| >= wanted
  }

  predicate SomeTurnFits(encode: Encode, lim: Limits, data: seq<seq<Turn>>) {
    exists i, j :: 0 <= i < |data| && 0 <= j < |data[i]| && Fits(encode, lim, data[i][j])
  }

  /** Some conversation survives exactly when some turn of some conversation is within the limits. */
  lemma {:induction false} SurvivorsIff(encode: Encode, lim: Limits, data: seq<seq<Turn>>)
    ensures Survivors(encode, lim, data) != [] <==> SomeTurnFits(encode, lim, data)
    decreases |data|
  {
    if data != [] {
      var n := |data| - 1;
      SurvivorsIff(encode, lim, data[..n]);
      KeptIff(encode, lim, data[n]);
      hide KeptTurns, Fits;
      if i, j :| 0 <= i < n && 0 <= j < |data[i]| && Fits(encode, lim, data[i][j]) {
        assert data[..n][i] == data[i];
      }
    }
  }

  ghost predicate TurnFits(encode: Encode, lim: Limits, conv: seq<Turn>) {
    exists j :: 0 <= j < |conv| && Fits(encode, lim, conv[j])
  }

  /** Where the conversations with a turn within the limits are. */
  ghost function SurviveAt(encode: Encode, lim: Limits, data: seq<seq<Turn>>): (at: seq<nat>)
    ensures forall k :: 0 <= k < |at| ==> at[k] < |data|
  {
    Positions(seq(|data|, i requires 0 <= i < |data| => TurnFits(encode, lim, data[i])))
  }

  lemma SurviveAtNext(encode: Encode, lim: Limits, data: seq<seq<Turn>>, n: nat)
    requires |data| == n + 1
    ensures SurviveAt(encode, lim, data) ==
            SurviveAt(encode, lim, data[..n]) + if TurnFits(encode, lim, data[n]) then [n] else []
  {
    hide TurnFits;
    var flags := seq(|data|, i requires 0 <= i < |data| => TurnFits(encode, lim, data[i]));
    assert flags[..n] == seq(n, i requires 0 <= i < n => TurnFits(encode, lim, data[..n][i]));
  }

  /** The survivors are those conversations, in order. */
  lemma {:induction false} SurvivorsAre(encode: Encode, lim: Limits, data: seq<seq<Turn>>)
    ensures var at := SurviveAt(encode, lim, data);
            && |Survivors(encode, lim, data)| == |at|
            && forall k :: 0 <= k < |at| ==> Survivors(encode, lim, data)[k] == KeptTurns(encode, lim, data[at[k]])
    decreases |data|
  {
    if data != [] {
      var n := |data| - 1;
      SurvivorsAre(encode, lim, data[..n]);
      SurviveAtNext(encode, lim, data, n);
      KeptIff(encode, lim, data[n]);
      hide KeptTurns, SurviveAt, Fits;
    }
  }

  /** Round and round: conversation `k` is what is kept of the surviving one whose turn it is. */
  ghost predicate InRotation(encode: Encode, lim: Limits, data: seq<seq<Turn>>, filtered: seq<seq<Kept>>) {
    var at := SurviveAt(encode, lim, data);
    at != [] && forall k :: 0 <= k < |filtered| ==> KeptInOrder(encode, lim, data[at[k % |at|]], filtered[k])
  }

  lemma CyclicRotates(encode: Encode, lim: Limits, data: seq<seq<Turn>>, filtered: seq<seq<Kept>>)
    requires Survivors(encode, lim, data) != [] && Cyclic(filtered, Survivors(encode, lim, data))
    ensures InRotation(encode, lim, data, filtered)
  {
    hide Survivors, SurviveAt, KeptInOrder, KeptTurns;
    SurvivorsAre(encode, lim, data);
    var at := SurviveAt(encode, lim, data);
    forall k | 0 <= k < |filtered| ensures KeptInOrder(encode, lim, data[at[k % |at|]], filtered[k]) {
      TurnsAreKept(encode, lim, data[at[k % |at|]]);
    }
  }

  /** The loop ends if and only if nothing is wanted or some turn is within the limits. */
  lemma FilterEndsIff(encode: Encode, lim: Limits, data: seq<seq<Turn>>, wanted: int)
    ensures (exists n: nat :: StopsAfter(encode, lim, data, wanted, n)) <==>
            wanted <= 0 || SomeTurnFits(encode, lim, data)
    ensures !SomeTurnFits(encode, lim, data) ==> forall n: nat :: AfterPasses(encode, lim, data, wanted, n) == []
  {
    hide Survivors, AfterPasses, SomeTurnFits;
    SurvivorsIff(encode, lim, data);
    var size := |Survivors(encode, lim, data)|;
    if wanted <= 0 {
      assert StopsAfter(encode, lim, data, wanted, 0);
    } else if size > 0 {
      PassesCollect(encode, lim, data, wanted, wanted);
      AtLeastFactor(size, wanted);
      assert StopsAfter(encode, lim, data, wanted, wanted);
    }
    if size == 0 {
      forall n: nat ensures AfterPasses(encode, lim, data, wanted, n) == [] {
        if wanted > 0 {
          PassesCollect(encode, lim, data, wanted, n);
        }
      }
    }
  }

  lemma AtLeastFactor(a: nat, b: nat)
    requires a > 0
    ensures a * b >= b
  {
  }

  /** With a minimum prompt length that no prompt reaches, the loop goes round for ever. */
  lemma FilterCanLoopForever(encode: Encode, n: nat)
    requires |encode("short")| < 100
    ensures var lim := Limits(Some(100), None, None, None, None);
            !StopsAfter(encode, lim, [[Turn("short", "answer")]], 1, n)
  {
    var lim := Limits(Some(100), None, None, None, None);
    var data := [[Turn("short", "answer")]];
    assert !SomeTurnFits(encode, lim, data);
    FilterEndsIff(encode, lim, data, 1);
  }

  /** The loop for any data, stopped after at most `passes` rounds. */
  method FilterPasses(encode: Encode, lim: Limits, data: seq<seq<Turn>>, numRequests: int, passes: nat)
    returns (filtered: seq<seq<Kept>>, inputTokens: int, outputTokens: int)
    ensures filtered == AfterPasses(encode, lim, data, numRequests, passes)
    ensures inputTokens == AllPromptTokens(filtered) && outputTokens == AllOutputTokens(filtered)
  {
    hide Survivors;
    filtered, inputTokens, outputTokens := [], 0, 0;
    for n := 0 to passes
      invariant filtered == AfterPasses(encode, lim, data, numRequests, n)
      invariant inputTokens == AllPromptTokens(filtered) && outputTokens == AllOutputTokens(filtered)
    {
      if |filtered| < numRequests {
        var more, p, o := OnePass(encode, lim, data, filtered, numRequests);
        filtered, inputTokens, outputTokens := more, inputTokens + p, outputTokens + o;
      }
    }
  }

  lemma PassesGrow(encode: Encode, lim: Limits, data: seq<seq<Turn>>, wanted: int, n: nat)
    requires Survivors(encode, lim, data) != [] && |AfterPasses(encode, lim, data, wanted, n)| < wanted
    ensures |AfterPasses(encode, lim, data, wanted, n)| < |AfterPasses(encode, lim, data, wanted, n + 1)|
  {
  }

  lemma NothingYet(encode: Encode, lim: Limits, data: seq<seq<Turn>>, wanted: int)
    ensures AfterPasses(encode, lim, data, wanted, 0) == []
    ensures AllPromptTokens([]) == 0 == AllOutputTokens([])
  {
  }

  /**
   The loop itself, on the data on which it ends: the requested number of conversations, the
   survivors in rotation, and the totals of their tokens.
   */
  method CommonFilterChat(encode: Encode, lim: Limits, data: seq<seq<Turn>>, numRequests: int)
    returns (filtered: seq<seq<Kept>>, inputTokens: int, outputTokens: int)
    requires numRequests <= 0 || SomeTurnFits(encode, lim, data)
    ensures |filtered| == Max(numRequests, 0)
    ensures numRequests > 0 ==>
              Survivors(encode, lim, data) != [] && Cyclic(filtered, Survivors(encode, lim, data))
    ensures numRequests > 0 ==> InRotation(encode, lim, data, filtered)
    ensures exists n: nat :: filtered == AfterPasses(encode, lim, data, numRequests, n)
    ensures inputTokens == AllPromptTokens(filtered) && outputTokens == AllOutputTokens(filtered)
  {
    hide Survivors, AllPromptTokens, AllOutputTokens, Cyclic, InRotation, SomeTurnFits;
    SurvivorsIff(encode, lim, data);
    NothingYet(encode, lim, data, numRequests);
    filtered, inputTokens, outputTokens := [], 0, 0;
    ghost var rounds: nat := 0;
    while |filtered| < numRequests
      invariant filtered == AfterPasses(encode, lim, data, numRequests, rounds)
      invariant inputTokens == AllPromptTokens(filtered) && outputTokens == AllOutputTokens(filtered)
      decreases numRequests - |filtered|
    {
      var more, p, o := OnePass(encode, lim, data, filtered, numRequests);
      PassesGrow(encode, lim, data, numRequests, rounds);
      filtered, rounds := more, rounds + 1;
      inputTokens, outputTokens := inputTokens + p, outputTokens + o;
    }
    if numRequests > 0 {
      PassesRotate(encode, lim, data, numRequests, rounds);
      CyclicRotates(encode, lim, data, filtered);
    }
  }
}

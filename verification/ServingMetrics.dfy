// calculate_metrics: counts, token totals and goodput of a serving benchmark.
module ServingMetrics {
  import opened Sequences

  class RequestOutput {
    const success: bool
    const latency: real
    const ttft: real
    const outputLen: nat     // tokens of the generated text, as the tokenizer counts them
    var tpot: real

    constructor (success: bool, latency: real, ttft: real, outputLen: nat)
      ensures this.success == success && this.latency == latency && this.ttft == ttft && this.outputLen == outputLen
    {
      this.success, this.latency, this.ttft, this.outputLen, this.tpot := success, latency, ttft, outputLen, 0.0;
    }

    // Time per output token; a request with at most one token counts as 0.
    function Tpot(): real {
      if outputLen > 1 then (latency - ttft) / (outputLen - 1) as real else 0.0
    }
  }

  // The service-level objectives, in milliseconds.
  type Goals = map<string, real>

  function Limit(goals: Goals, name: string): real
    requires name in goals
  {
    goals[name] / 1000.0
  }

  predicate Meets(o: RequestOutput, goals: Goals) {
    && ("ttft" in goals ==> o.ttft <= Limit(goals, "ttft"))
    && ("tpot" in goals ==> o.Tpot() <= Limit(goals, "tpot"))
    && ("e2el" in goals ==> o.latency <= Limit(goals, "e2el"))
  }

  predicate HasGoal(goals: Goals) {
    "ttft" in goals || "tpot" in goals || "e2el" in goals
  }

  // The successful requests, in order.
  function Successes(outputs: seq<RequestOutput>): seq<RequestOutput> {
    if outputs == [] then []
    else
      Successes(outputs[..|outputs| - 1])
      + if outputs[|outputs| - 1].success then [outputs[|outputs| - 1]] else []
  }

  function CountMeeting(rs: seq<RequestOutput>, goals: Goals): nat {
    if rs == [] then 0 else CountMeeting(rs[..|rs| - 1], goals) + if Meets(rs[|rs| - 1], goals) then 1 else 0
  }

  function OutputTokens(rs: seq<RequestOutput>): nat {
    if rs == [] then 0 else OutputTokens(rs[..|rs| - 1]) + rs[|rs| - 1].outputLen
  }

  // Prompt tokens of the successful requests only.
  function InputTokens(outputs: seq<RequestOutput>, promptLens: seq<nat>): nat
    requires |outputs| == |promptLens|
  {
    if outputs == [] then 0
    else
      var n := |outputs| - 1;
      InputTokens(outputs[..n], promptLens[..n]) + if outputs[n].success then promptLens[n] else 0
  }

  // Position k of each list belongs to the k-th successful request.
  ghost predicate Aligned(rs: seq<RequestOutput>, ttfts: seq<real>, tpots: seq<real>, e2els: seq<real>) {
    && |ttfts| == |tpots| == |e2els| == |rs|
    && forall k :: 0 <= k < |rs| ==> ttfts[k] == rs[k].ttft && tpots[k] == rs[k].Tpot() && e2els[k] == rs[k].latency
  }

  lemma AlignedOneMore(rs: seq<RequestOutput>, ttfts: seq<real>, tpots: seq<real>, e2els: seq<real>, o: RequestOutput)
    requires Aligned(rs, ttfts, tpots, e2els)
    ensures Aligned(rs + [o], ttfts + [o.ttft], tpots + [o.Tpot()], e2els + [o.latency])
  {
  }

  datatype Metrics = Metrics(completed: nat, totalInput: nat, totalOutput: nat, goodCompleted: nat)

  // The goodput loop: zip of the lists that have a goal, each compared with its limit.
  method CountGood(ttfts: seq<real>, tpots: seq<real>, e2els: seq<real>, goals: Goals, ghost rs: seq<RequestOutput>)
    returns (good: nat)
    requires Aligned(rs, ttfts, tpots, e2els)
    ensures good == if HasGoal(goals) then CountMeeting(rs, goals) else 0
  {
    var validMetrics: seq<seq<real>>, limits: seq<real> := [], [];
    if "ttft" in goals {
      validMetrics, limits := validMetrics + [ttfts], limits + [Limit(goals, "ttft")];
    }
    if "tpot" in goals {
      validMetrics, limits := validMetrics + [tpots], limits + [Limit(goals, "tpot")];
    }
    if "e2el" in goals {
      validMetrics, limits := validMetrics + [e2els], limits + [Limit(goals, "e2el")];
    }
    good := 0;
    if validMetrics == [] {
      return;
    }
    for k := 0 to |ttfts|
      invariant good == CountMeeting(rs[..k], goals)
    {
      assert rs[..k + 1][..k] == rs[..k];
      var isGood := forall j :: 0 <= j < |validMetrics| ==> validMetrics[j][k] <= limits[j];
      GoodIffMeets(rs[k], goals, validMetrics, limits, ttfts, tpots, e2els, k);
      if isGood {
        good := good + 1;
      }
    }
    assert rs[..|rs|] == rs;
  }

  // Comparing the k-th entries of the selected lists is checking the k-th request's objectives.
  lemma GoodIffMeets(r: RequestOutput, goals: Goals, metrics: seq<seq<real>>, limits: seq<real>,
                     ttfts: seq<real>, tpots: seq<real>, e2els: seq<real>, k: nat)
    requires k < |ttfts| == |tpots| == |e2els|
    requires ttfts[k] == r.ttft && tpots[k] == r.Tpot() && e2els[k] == r.latency
    requires metrics == (if "ttft" in goals then [ttfts] else []) + (if "tpot" in goals then [tpots] else [])
                        + (if "e2el" in goals then [e2els] else [])
    requires limits == (if "ttft" in goals then [Limit(goals, "ttft")] else [])
                       + (if "tpot" in goals then [Limit(goals, "tpot")] else [])
                       + (if "e2el" in goals then [Limit(goals, "e2el")] else [])
    ensures |metrics| == |limits| && (forall j :: 0 <= j < |metrics| ==> k < |metrics[j]|)
    ensures (forall j :: 0 <= j < |metrics| ==> metrics[j][k] <= limits[j]) <==> Meets(r, goals)
  {
    var a := if "ttft" in goals then 1 else 0;
    var b := a + if "tpot" in goals then 1 else 0;
    if "ttft" in goals {
      assert metrics[0][k] == r.ttft && limits[0] == Limit(goals, "ttft");
    }
    if "tpot" in goals {
      assert metrics[a][k] == r.Tpot() && limits[a] == Limit(goals, "tpot");
    }
    if "e2el" in goals {
      assert metrics[b][k] == r.latency && limits[b] == Limit(goals, "e2el");
    }
  }

  // ---------------------------------------------------------------- in plain terms

  // The requests that succeeded, and those of them that meet every objective, by position.
  ghost function SucceededAt(outputs: seq<RequestOutput>): set<nat> {
    set i: nat | i < |outputs| && outputs[i].success
  }

  // Each objective is given in milliseconds; the times are seconds.
  ghost predicate InTime(o: RequestOutput, goals: Goals) {
    && ("ttft" in goals ==> o.ttft * 1000.0 <= goals["ttft"])
    && ("tpot" in goals ==> o.Tpot() * 1000.0 <= goals["tpot"])
    && ("e2el" in goals ==> o.latency * 1000.0 <= goals["e2el"])
  }

  ghost function GoodAt(outputs: seq<RequestOutput>, goals: Goals): set<nat> {
    set i: nat | i < |outputs| && outputs[i].success && InTime(outputs[i], goals)
  }

  // Time per output token: what is left after the first token, shared by the others.
  lemma TpotIs(o: RequestOutput)
    ensures o.outputLen > 1 ==> o.Tpot() * (o.outputLen - 1) as real == o.latency - o.ttft
    ensures o.outputLen <= 1 ==> o.Tpot() == 0.0
  {
  }

  lemma {:induction false} SuccessesCount(outputs: seq<RequestOutput>)
    ensures |Successes(outputs)| == |SucceededAt(outputs)|
  {
    if outputs != [] {
      var n := |outputs| - 1;
      SuccessesCount(outputs[..n]);
      if outputs[n].success {
        assert SucceededAt(outputs) == SucceededAt(outputs[..n]) + {n};
      } else {
        assert SucceededAt(outputs) == SucceededAt(outputs[..n]);
      }
    }
  }

  lemma {:induction false} GoodCount(outputs: seq<RequestOutput>, goals: Goals)
    ensures CountMeeting(Successes(outputs), goals) == |GoodAt(outputs, goals)|
  {
    if outputs != [] {
      var n := |outputs| - 1;
      var before, o := outputs[..n], outputs[n];
      GoodCount(before, goals);
      MeetingOneMore(Successes(before), o, goals);
      if o.success && InTime(o, goals) {
        assert GoodAt(outputs, goals) == GoodAt(before, goals) + {n};
      } else {
        assert GoodAt(outputs, goals) == GoodAt(before, goals);
      }
    }
  }

  lemma MeetingOneMore(rs: seq<RequestOutput>, o: RequestOutput, goals: Goals)
    ensures CountMeeting(rs + [o], goals) == CountMeeting(rs, goals) + if InTime(o, goals) then 1 else 0
    ensures CountMeeting(rs + [], goals) == CountMeeting(rs, goals)
  {
    assert (rs + [o])[..|rs|] == rs;
    assert rs + [] == rs;
  }

  // The prompt lengths that count.
  function CountedPrompts(outputs: seq<RequestOutput>, promptLens: seq<nat>): (xs: seq<nat>)
    requires |outputs| == |promptLens|
    ensures |xs| == |outputs| && forall i :: 0 <= i < |xs| ==> xs[i] == if outputs[i].success then promptLens[i] else 0
  {
    seq(|outputs|, i requires 0 <= i < |outputs| => if outputs[i].success then promptLens[i] else 0)
  }

  // The output lengths as they are listed.
  function CountedLens(outputs: seq<RequestOutput>): (xs: seq<nat>)
    ensures |xs| == |outputs| && forall i :: 0 <= i < |xs| ==> xs[i] == if outputs[i].success then outputs[i].outputLen else 0
  {
    seq(|outputs|, i requires 0 <= i < |outputs| => if outputs[i].success then outputs[i].outputLen else 0)
  }

  lemma CountedLensOneMore(outputs: seq<RequestOutput>, i: nat)
    requires i < |outputs|
    ensures CountedLens(outputs[..i + 1])
         == CountedLens(outputs[..i]) + [if outputs[i].success then outputs[i].outputLen else 0]
  {
  }

  lemma {:induction false} InputTokensIs(outputs: seq<RequestOutput>, promptLens: seq<nat>)
    requires |outputs| == |promptLens|
    ensures InputTokens(outputs, promptLens) == Sum(CountedPrompts(outputs, promptLens))
  {
    if outputs != [] {
      var n := |outputs| - 1;
      InputTokensIs(outputs[..n], promptLens[..n]);
      assert CountedPrompts(outputs, promptLens)[..n] == CountedPrompts(outputs[..n], promptLens[..n]);
    }
  }

  lemma MetricsPlainly(outputs: seq<RequestOutput>, promptLens: seq<nat>, goals: Goals)
    requires |outputs| == |promptLens|
    ensures |Successes(outputs)| == |SucceededAt(outputs)|
    ensures CountMeeting(Successes(outputs), goals) == |GoodAt(outputs, goals)|
    ensures InputTokens(outputs, promptLens) == Sum(CountedPrompts(outputs, promptLens))
  {
    SuccessesCount(outputs);
    GoodCount(outputs, goals);
    InputTokensIs(outputs, promptLens);
  }

  lemma {:induction false} OutputTokensIs(outputs: seq<RequestOutput>)
    ensures OutputTokens(Successes(outputs)) == Sum(CountedLens(outputs))
  {
    if outputs != [] {
      var n := |outputs| - 1;
      OutputTokensIs(outputs[..n]);
      TokensOneMore(Successes(outputs[..n]), outputs[n]);
      assert CountedLens(outputs)[..n] == CountedLens(outputs[..n]);
      assert Successes(outputs[..n]) + [] == Successes(outputs[..n]);
    }
  }

  // The first loop: lists and counters over the successful requests.
  method ReadOutputs(outputs: seq<RequestOutput>, promptLens: seq<nat>)
    returns (completed: nat, totalInput: nat, lens: seq<nat>, ttfts: seq<real>, tpots: seq<real>, e2els: seq<real>)
    requires |promptLens| == |outputs|
    modifies outputs`tpot
    ensures completed == |Successes(outputs)| && totalInput == InputTokens(outputs, promptLens)
    ensures lens == CountedLens(outputs)
    ensures Aligned(Successes(outputs), ttfts, tpots, e2els)
    ensures forall o :: o in outputs && o.success ==> o.tpot == o.Tpot()
  {
    completed, totalInput, lens := 0, 0, [];
    ttfts, tpots, e2els := [], [], [];
    for i := 0 to |outputs|
      invariant completed == |Successes(outputs[..i])|
      invariant totalInput == InputTokens(outputs[..i], promptLens[..i])
      invariant lens == CountedLens(outputs[..i])
      invariant Aligned(Successes(outputs[..i]), ttfts, tpots, e2els)
      invariant forall j :: 0 <= j < i && outputs[j].success ==> outputs[j].tpot == outputs[j].Tpot()
    {
      var o := outputs[i];
      ghost var done := Successes(outputs[..i]);
      SuccessesOneMore(outputs, promptLens, i);
      CountedLensOneMore(outputs, i);
      if o.success {
        var tpot := o.Tpot();
        AlignedOneMore(done, ttfts, tpots, e2els, o);
        lens := lens + [o.outputLen];
        totalInput := totalInput + promptLens[i];
        o.tpot := tpot;
        tpots := tpots + [tpot];
        ttfts := ttfts + [o.ttft];
        e2els := e2els + [o.latency];
        completed := completed + 1;
      } else {
        lens := lens + [0];
      }
    }
    assert outputs[..|outputs|] == outputs && promptLens[..|outputs|] == promptLens;
  }

  method CalculateMetrics(outputs: seq<RequestOutput>, promptLens: seq<nat>, goals: Goals)
    returns (m: Metrics, actualOutputLens: seq<nat>)
    requires |promptLens| == |outputs|
    modifies outputs`tpot
    ensures m.completed == |SucceededAt(outputs)|
    ensures m.totalInput == Sum(CountedPrompts(outputs, promptLens))
    ensures actualOutputLens == CountedLens(outputs)
    ensures m.totalOutput == OutputTokens(Successes(outputs)) == Sum(actualOutputLens)
    ensures m.goodCompleted == if "ttft" in goals || "tpot" in goals || "e2el" in goals then |GoodAt(outputs, goals)| else 0
    ensures forall o :: o in outputs && o.success ==> o.tpot == o.Tpot()
  {
    var completed, totalInput, ttfts, tpots, e2els;
    completed, totalInput, actualOutputLens, ttfts, tpots, e2els := ReadOutputs(outputs, promptLens);
    var good := CountGood(ttfts, tpots, e2els, goals, Successes(outputs));
    MetricsPlainly(outputs, promptLens, goals);
    OutputTokensIs(outputs);
    m := Metrics(completed, totalInput, Sum(actualOutputLens), good);
  }

  lemma SuccessesOneMore(outputs: seq<RequestOutput>, promptLens: seq<nat>, i: nat)
    requires i < |outputs| == |promptLens|
    ensures Successes(outputs[..i + 1])
         == if outputs[i].success then Successes(outputs[..i]) + [outputs[i]] else Successes(outputs[..i])
    ensures InputTokens(outputs[..i + 1], promptLens[..i + 1])
         == InputTokens(outputs[..i], promptLens[..i]) + if outputs[i].success then promptLens[i] else 0
  {
    assert outputs[..i + 1][..i] == outputs[..i] && promptLens[..i + 1][..i] == promptLens[..i];
  }

  lemma TokensOneMore(rs: seq<RequestOutput>, o: RequestOutput)
    ensures OutputTokens(rs + [o]) == OutputTokens(rs) + o.outputLen
  {
    assert (rs + [o])[..|rs|] == rs;
  }

  // Goodput never exceeds throughput, and tightening an objective never raises it.
  lemma {:induction false} GoodAtMostCompleted(rs: seq<RequestOutput>, goals: Goals, tighter: Goals)
    requires goals.Keys <= tighter.Keys && forall k :: k in goals ==> tighter[k] <= goals[k]
    ensures CountMeeting(rs, tighter) <= CountMeeting(rs, goals) <= |rs|
  {
    if rs != [] {
      GoodAtMostCompleted(rs[..|rs| - 1], goals, tighter);
    }
  }
}

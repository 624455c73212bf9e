/** pkg/backends/retry.go: observed decode rates and the per-call deadline drawn from them. */
module Deadline {
  import opened Text
  import opened Float64

  // ---- throughput ----------------------------------------------------------

  /** One model's estimate: an exponentially weighted mean and how many calls back it. */
  datatype Entry = Entry(tps: real, samples: nat)

  /** One finished call; elapsed in nanoseconds. */
  datatype Call = Call(model: string, tokens: int, elapsed: int)

  /** Whether Observe takes the call into account. */
  predicate Counts(c: Call) { c.tokens >= 8 && c.elapsed > 0 && Trim(c.model) != "" }

  function Rate(c: Call): (r: real)
    requires Counts(c)
    ensures r > 0.0
  {
    c.tokens as real * 1_000_000_000.0 / c.elapsed as real
  }

  /** One step of the mean. */
  function Blend(mean: real, rate: real): (r: real)
    ensures (mean <= r <= rate) || (rate <= r <= mean)
    ensures r - rate == 0.7 * (mean - rate)
  {
    0.7 * mean + 0.3 * rate
  }

  function Observed(m: map<string, Entry>, c: Call): map<string, Entry> {
    if !Counts(c) then m
    else
      var model := Trim(c.model);
      if model !in m then m[model := Entry(Rate(c), 1)]
      else m[model := Entry(Blend(m[model].tps, Rate(c)), m[model].samples + 1)]
  }

  /** The tracker after a history of calls. */
  function After(calls: seq<Call>): map<string, Entry> {
    if calls == [] then map[] else Observed(After(calls[..|calls| - 1]), calls[|calls| - 1])
  }

  /** The rates a history gives one model. */
  function Rates(calls: seq<Call>, model: string): (rs: seq<real>)
    ensures forall i :: 0 <= i < |rs| ==> rs[i] > 0.0
  {
    if calls == [] then []
    else
      var c := calls[|calls| - 1];
      Rates(calls[..|calls| - 1], model) + if Counts(c) && Trim(c.model) == model then [Rate(c)] else []
  }

  /** The weighted mean of a non-empty list of rates. */
  function Mean(rates: seq<real>): real
    requires rates != []
  {
    if |rates| == 1 then rates[0] else Blend(Mean(rates[..|rates| - 1]), rates[|rates| - 1])
  }

  /** What the tracker holds for a model depends only on that model's own calls: their
      weighted mean, and their number; a model never measured has no entry. */
  lemma {:induction false} TrackerIsMean(calls: seq<Call>, model: string)
    requires Trim(model) == model
    ensures var rs := Rates(calls, model);
            && (model in After(calls) <==> rs != [])
            && (rs != [] ==> After(calls)[model] == Entry(Mean(rs), |rs|))
  {
    if calls != [] {
      var front, c := calls[..|calls| - 1], calls[|calls| - 1];
      TrackerIsMean(front, model);
      assert Rates(front, model) + [] == Rates(front, model);
      if Counts(c) {
        ObservedOnce(After(front), c, model, Rates(front, model));
      }
    }
  }

  lemma ObservedOnce(m: map<string, Entry>, c: Call, model: string, rs: seq<real>)
    requires Counts(c) && (model in m <==> rs != []) && (rs != [] ==> m[model] == Entry(Mean(rs), |rs|))
    ensures var rs' := rs + if Trim(c.model) == model then [Rate(c)] else [];
            && (model in Observed(m, c) <==> rs' != [])
            && (rs' != [] ==> Observed(m, c)[model] == Entry(Mean(rs'), |rs'|))
  {
    var rate := Rate(c);
    assert (rs + [rate])[..|rs|] == rs;
    assert rs + [] == rs;
  }

  /** The estimate never leaves the range of what was observed. */
  lemma {:induction false} MeanWithin(rates: seq<real>, lo: real, hi: real)
    requires rates != [] && forall i :: 0 <= i < |rates| ==> lo <= rates[i] <= hi
    ensures lo <= Mean(rates) <= hi
  {
    if |rates| > 1 {
      MeanWithin(rates[..|rates| - 1], lo, hi);
    }
  }

  function Decay(x: real, n: nat): real { if n == 0 then x else 0.7 * Decay(x, n - 1) }

  function Repeated(r: real, n: nat): (s: seq<real>)
    ensures |s| == n
  {
    if n == 0 then [] else Repeated(r, n - 1) + [r]
  }

  /** On a steady rate the error shrinks by the factor 0.7 with every call, from whatever the
      estimate was: geometric convergence. */
  lemma {:induction false} MeanConverges(rates: seq<real>, r: real, n: nat)
    requires rates != []
    ensures Mean(rates + Repeated(r, n)) - r == Decay(Mean(rates) - r, n)
  {
    if n == 0 {
      assert rates + [] == rates;
    } else {
      MeanConverges(rates, r, n - 1);
      var all := rates + Repeated(r, n);
      assert all[..|all| - 1] == rates + Repeated(r, n - 1);
      assert all[|all| - 1] == r;
    }
  }

  /** The tracker. The ghost history is every call it was ever shown. */
  class Throughput {
    var m: map<string, Entry>
    ghost var calls: seq<Call>

    ghost predicate Valid()
      reads this
    {
      m == After(calls)
    }

    constructor ()
      ensures Valid() && m == map[] && calls == []
    {
      m := map[];
      calls := [];
    }

    /** Observe. */
    method Observe(c: Call)
      requires Valid()
      modifies this
      ensures Valid() && calls == old(calls) + [c] && m == Observed(old(m), c)
    {
      calls := calls + [c];
      assert calls[..|calls| - 1] == old(calls);
      if c.tokens < 8 || c.elapsed <= 0 {
        return;
      }
      var model := Trim(c.model);
      if model == "" {
        return;
      }
      var rate := Rate(c);
      if model !in m {
        m := m[model := Entry(rate, 1)];
        return;
      }
      var e := m[model];
      m := m[model := Entry(Blend(e.tps, rate), e.samples + 1)];
    }

    /** TokensPerSec: the weighted mean of the rates of the model's own calls and their number. */
    method TokensPerSec(model: string) returns (tps: real, samples: nat)
      requires Valid()
      ensures var rs := Rates(calls, Trim(model));
              samples == |rs| && tps == if rs == [] then 0.0 else Mean(rs)
    {
      TrimIsTrimmed(model);
      TrackerIsMean(calls, Trim(model));
      if Trim(model) in m {
        tps, samples := m[Trim(model)].tps, m[Trim(model)].samples;
      } else {
        tps, samples := 0.0, 0;
      }
    }
  }

  // ---- the deadline --------------------------------------------------------

  const MIN_CALL_TIMEOUT: int := 45_000_000_000
  const MAX_CALL_TIMEOUT: int := 600_000_000_000
  const PREFILL_ALLOWANCE: int := 40_000_000_000
  const DEFAULT_TOKENS_PER_SEC: real := 12.0

  /** Two's complement wrap-around of a 64-bit sum. */
  function Wrap64(x: int): (w: int)
    ensures -MAX_INT64 - 1 <= w <= MAX_INT64
    ensures -MAX_INT64 - 1 <= x <= MAX_INT64 ==> w == x
  {
    (x + MAX_INT64 + 1) % (2 * (MAX_INT64 + 1)) - MAX_INT64 - 1
  }

  /** The rate the estimate is drawn from: a prior until something is known, and close to the
      prior while only one or two calls are. */
  function EffectiveRate(tps: real, samples: nat): (r: real)
    ensures r > 0.0
  {
    if samples == 0 || tps <= 0.0 then DEFAULT_TOKENS_PER_SEC
    else if samples < 3 && tps > DEFAULT_TOKENS_PER_SEC then (tps + DEFAULT_TOKENS_PER_SEC) / 2.0
    else tps
  }

  function Budgeted(maxTokens: int): (n: int)
    ensures n > 0
  {
    if maxTokens <= 0 then 1024 else maxTokens
  }

  /** Nanoseconds to decode n tokens at a rate, with the safety factor. */
  function DecodeTime(n: int, rate: real): (d: real)
    requires n > 0 && rate > 0.0
    ensures d > 0.0
  {
    n as real / rate * 2.5 * 1_000_000_000.0
  }

  function Clamp(x: int): (c: int)
    ensures MIN_CALL_TIMEOUT <= c <= MAX_CALL_TIMEOUT
    ensures MIN_CALL_TIMEOUT <= x <= MAX_CALL_TIMEOUT ==> c == x
  {
    if x < MIN_CALL_TIMEOUT then MIN_CALL_TIMEOUT else if x > MAX_CALL_TIMEOUT then MAX_CALL_TIMEOUT else x
  }

  /** Nanoseconds, kept between 45 s and 600 s. */
  function Within45To600(x: int): int {
    if x <= 45_000_000_000 then 45_000_000_000 else if x >= 600_000_000_000 then 600_000_000_000 else x
  }

  /** Two and a half times what n tokens take at a rate, in whole nanoseconds. */
  function DecodeNanos(n: int, pace: real): int
    requires pace > 0.0
  {
    (n as real / pace * 2_500_000_000.0).Floor
  }

  /** 40 s and the decoding, unless that is more than a Duration holds. */
  ghost predicate DeadlineIs(t: int, n: int, pace: real) {
    pace > 0.0 && (DecodeNanos(n, pace) <= 9_223_372_036_854_775_807 - 40_000_000_000 ==>
                     t == Within45To600(40_000_000_000 + DecodeNanos(n, pace)))
  }

  lemma DecodeTimeIs(n: int, pace: real)
    requires n > 0 && pace > 0.0
    ensures DecodeTime(n, pace).Floor == DecodeNanos(n, pace)
  {
    assert n as real / pace * 2.5 * 1_000_000_000.0 == n as real / pace * 2_500_000_000.0;
  }

  /** EstimateTimeout on a 64-bit machine: from three measured calls on a model's own rate counts; before
      that a rate above 12 tokens a second counts half with 12; a model not measured has 12; and a call
      without a budget counts as 1024 tokens. convert is what the processor makes of a float that
      does not fit an int64; one that fits is truncated. */
  function EstimateTimeout(tps: real, samples: nat, maxTokens: int, convert: real -> int): (t: int)
    ensures MIN_CALL_TIMEOUT <= t <= MAX_CALL_TIMEOUT
    ensures tps > 0.0 && samples >= 3 ==> DeadlineIs(t, if maxTokens > 0 then maxTokens else 1024, tps)
    ensures tps > 12.0 && 1 <= samples <= 2 ==>
              DeadlineIs(t, if maxTokens > 0 then maxTokens else 1024, (tps + 12.0) / 2.0)
    ensures 0.0 < tps <= 12.0 && 1 <= samples <= 2 ==> DeadlineIs(t, if maxTokens > 0 then maxTokens else 1024, tps)
    ensures samples == 0 || tps <= 0.0 ==> DeadlineIs(t, if maxTokens > 0 then maxTokens else 1024, 12.0)
  {
    DecodeTimeIs(Budgeted(maxTokens), EffectiveRate(tps, samples));
    var decode := DecodeTime(Budgeted(maxTokens), EffectiveRate(tps, samples));
    var ns := if decode.Floor <= MAX_INT64 then decode.Floor else Wrap64(convert(decode));
    Clamp(Wrap64(PREFILL_ALLOWANCE + ns))
  }

  /** The deadline the formula means: unbounded arithmetic. */
  function IdealTimeout(tps: real, samples: nat, maxTokens: int): (t: int)
    ensures MIN_CALL_TIMEOUT <= t <= MAX_CALL_TIMEOUT
  {
    Clamp(PREFILL_ALLOWANCE + DecodeTime(Budgeted(maxTokens), EffectiveRate(tps, samples)).Floor)
  }

  /** The estimate fits 64 bits with the prefill allowance added. */
  predicate Fits(tps: real, samples: nat, maxTokens: int) {
    DecodeTime(Budgeted(maxTokens), EffectiveRate(tps, samples)).Floor <= MAX_INT64 - PREFILL_ALLOWANCE
  }

  /** On amd64 the deadline is the one the formula means if and only if the decode estimate
      fits: an estimate too long for 64 bits, which should get the longest deadline, gets the
      shortest one instead. */
  lemma TimeoutIdealIff(tps: real, samples: nat, maxTokens: int)
    ensures EstimateTimeout(tps, samples, maxTokens, Amd64) == IdealTimeout(tps, samples, maxTokens)
       <==> Fits(tps, samples, maxTokens)
    ensures !Fits(tps, samples, maxTokens) ==>
              EstimateTimeout(tps, samples, maxTokens, Amd64) == MIN_CALL_TIMEOUT
              && IdealTimeout(tps, samples, maxTokens) == MAX_CALL_TIMEOUT
  {
    var d := DecodeTime(Budgeted(maxTokens), EffectiveRate(tps, samples)).Floor;
    if MAX_INT64 - PREFILL_ALLOWANCE < d <= MAX_INT64 {
      assert Wrap64(PREFILL_ALLOWANCE + d) == PREFILL_ALLOWANCE + d - 2 * (MAX_INT64 + 1);
    }
  }

  /** Whatever the processor does, an estimate that fits is exact. */
  lemma TimeoutExactWhenFits(tps: real, samples: nat, maxTokens: int, convert: real -> int)
    requires Fits(tps, samples, maxTokens)
    ensures EstimateTimeout(tps, samples, maxTokens, convert) == IdealTimeout(tps, samples, maxTokens)
  {
  }

  lemma Cancel(x: real, y: real, r: real)
    requires r > 0.0 && x * r <= y * r
    ensures x <= y
  {
  }

  lemma TimesMonotone(q: real, s: real, r: real)
    requires q >= 0.0 && s <= r
    ensures q * s <= q * r
  {
  }

  lemma QuotientMonotone(a: real, b: real, r: real, s: real)
    requires 0.0 < a <= b && 0.0 < s <= r
    ensures a / r <= b / s
  {
    assert a / r * r == a && b / s * s == b;
    TimesMonotone(b / s, s, r);
    Cancel(a / r, b / s, r);
  }

  lemma DecodeMonotone(n: int, m: int, r: real, s: real)
    requires 0 < n <= m && 0.0 < s <= r
    ensures DecodeTime(n, r).Floor <= DecodeTime(m, s).Floor
  {
    QuotientMonotone(n as real, m as real, r, s);
  }

  lemma RateMonotone(slow: real, fast: real, samples: nat)
    requires 0.0 < slow <= fast
    ensures EffectiveRate(slow, samples) <= EffectiveRate(fast, samples)
  {
  }

  /** As long as the larger estimate fits, more tokens never shorten the deadline and, for a
      fixed number of samples, a faster model never lengthens it. */
  lemma TimeoutMonotone(slow: real, fast: real, samples: nat, few: int, many: int, convert: real -> int)
    requires 0.0 < slow <= fast && Budgeted(few) <= Budgeted(many) && Fits(slow, samples, many)
    ensures EstimateTimeout(fast, samples, few, convert) <= EstimateTimeout(slow, samples, many, convert)
  {
    RateMonotone(slow, fast, samples);
    DecodeMonotone(Budgeted(few), Budgeted(many), EffectiveRate(fast, samples), EffectiveRate(slow, samples));
  }

  // ---- the deadline of a history -------------------------------------------

  /** The deadline of the next call of a model after a history of calls. */
  function CallTimeout(calls: seq<Call>, model: string, maxTokens: int, convert: real -> int): int {
    var rs := Rates(calls, Trim(model));
    EstimateTimeout(if rs == [] then 0.0 else Mean(rs), |rs|, maxTokens, convert)
  }

  /** EstimateTimeout as the source runs it, over the process-wide tracker. */
  method TimeoutFor(t: Throughput, model: string, maxTokens: int, convert: real -> int) returns (timeout: int)
    requires t.Valid()
    ensures timeout == CallTimeout(t.calls, model, maxTokens, convert)
  {
    var tps, samples := t.TokensPerSec(model);
    timeout := EstimateTimeout(tps, samples, maxTokens, convert);
  }

  /** The deadline of a measured model lies between the deadlines its fastest and its slowest
      observed rate would give, whatever was observed of other models. */
  lemma HistoryBoundsTimeout(calls: seq<Call>, model: string, maxTokens: int, slow: real, fast: real,
                             convert: real -> int)
    requires Rates(calls, Trim(model)) != [] && 0.0 < slow
    requires forall r :: r in Rates(calls, Trim(model)) ==> slow <= r <= fast
    requires Fits(slow, |Rates(calls, Trim(model))|, maxTokens)
    ensures var n := |Rates(calls, Trim(model))|;
            EstimateTimeout(fast, n, maxTokens, convert) <= CallTimeout(calls, model, maxTokens, convert)
            <= EstimateTimeout(slow, n, maxTokens, convert)
  {
    var rs := Rates(calls, Trim(model));
    forall i | 0 <= i < |rs| ensures slow <= rs[i] <= fast {
      assert rs[i] in rs;
    }
    MeanWithin(rs, slow, fast);
    TimeoutMonotone(slow, Mean(rs), |rs|, maxTokens, maxTokens, convert);
    RateMonotone(slow, Mean(rs), |rs|);
    DecodeMonotone(Budgeted(maxTokens), Budgeted(maxTokens), EffectiveRate(Mean(rs), |rs|), EffectiveRate(slow, |rs|));
    TimeoutMonotone(Mean(rs), fast, |rs|, maxTokens, maxTokens, convert);
  }

  lemma {:induction false} OtherCallsIgnored(calls: seq<Call>, model: string)
    requires forall c :: c in calls ==> !Counts(c) || Trim(c.model) != model
    ensures Rates(calls, model) == []
  {
    if calls != [] {
      OtherCallsIgnored(calls[..|calls| - 1], model);
    }
  }

  /** A model without a call that counts gets the deadline of the prior, 12 tokens a second. */
  lemma UnmeasuredGetsPrior(calls: seq<Call>, model: string, maxTokens: int, convert: real -> int)
    requires forall c :: c in calls ==> !Counts(c) || Trim(c.model) != Trim(model)
    ensures CallTimeout(calls, model, maxTokens, convert)
         == EstimateTimeout(DEFAULT_TOKENS_PER_SEC, 3, maxTokens, convert)
  {
    OtherCallsIgnored(calls, Trim(model));
  }

  /** The estimate that does not fit is within reach of a configuration: nothing measured and a
      hundred thousand million tokens allowed. The call that needs longest gets the shortest
      deadline. */
  lemma HugeBudgetGetsShortest(model: string)
    ensures !Fits(0.0, 0, 100_000_000_000)
    ensures CallTimeout([], model, 100_000_000_000, Amd64) == MIN_CALL_TIMEOUT
    ensures IdealTimeout(0.0, 0, 100_000_000_000) == MAX_CALL_TIMEOUT
  {
    assert DecodeTime(100_000_000_000, 12.0) == 100_000_000_000.0 / 12.0 * 2.5 * 1_000_000_000.0;
    TimeoutIdealIff(0.0, 0, 100_000_000_000);
  }

  // ---- every deadline, in numbers ------------------------------------------

  /** The pace a history of rates stands for. */
  function Pace(rs: seq<real>): real {
    if rs == [] then 12.0
    else if |rs| <= 2 && Mean(rs) > 12.0 then (Mean(rs) + 12.0) / 2.0
    else Mean(rs)
  }

  lemma {:induction false} MeanPositive(rs: seq<real>)
    requires rs != [] && forall i :: 0 <= i < |rs| ==> rs[i] > 0.0
    ensures Mean(rs) > 0.0
  {
    if |rs| > 1 {
      MeanPositive(rs[..|rs| - 1]);
    }
  }

  /** Carried to a history of calls: the deadline is drawn from the weighted mean of the model's own rates. */
  lemma HistoryDeadline(calls: seq<Call>, model: string, n: int, convert: real -> int)
    ensures DeadlineIs(CallTimeout(calls, model, n, convert), if n > 0 then n else 1024,
                       Pace(Rates(calls, Trim(model))))
  {
    var rs := Rates(calls, Trim(model));
    if rs != [] {
      MeanPositive(rs);
    }
  }

  /** The faster of two measured models gets the strictly shorter deadline, wherever their estimates
      differ inside the limits. */
  lemma FasterIsShorter(slow: real, fast: real, samples: nat, n: int, convert: real -> int)
    requires 0.0 < slow < fast && samples >= 3 && n > 0 && DecodeNanos(n, slow) != DecodeNanos(n, fast)
    requires 5_000_000_000 <= DecodeNanos(n, fast) && DecodeNanos(n, slow) <= 560_000_000_000
    ensures EstimateTimeout(fast, samples, n, convert) < EstimateTimeout(slow, samples, n, convert)
  {
    DecodeMonotone(n, n, fast, slow);
    DecodeTimeIs(n, slow);
    DecodeTimeIs(n, fast);
  }

  /** A rate is tokens per second: times the seconds it took, it gives the tokens back. */
  lemma RateIsTokensPerSecond(c: Call)
    requires Counts(c)
    ensures Rate(c) * (c.elapsed as real / 1_000_000_000.0) == c.tokens as real
  {
    var e := c.elapsed as real;
    assert Rate(c) * e == c.tokens as real * 1_000_000_000.0;
    assert Rate(c) * (e / 1_000_000_000.0) == Rate(c) * e / 1_000_000_000.0;
  }

  lemma ThreeCalls(c: Call)
    requires Counts(c) && Trim(c.model) == c.model
    ensures Rates([c, c, c], c.model) == [Rate(c), Rate(c), Rate(c)] && Mean([Rate(c), Rate(c), Rate(c)]) == Rate(c)
  {
    var r := Rate(c);
    assert [c, c, c][..2] == [c, c] && [c, c][..1] == [c] && [c][..0] == [];
    assert Rates([c], c.model) == [r] && Rates([c, c], c.model) == [r, r];
    assert [r, r, r][..2] == [r, r] && [r, r][..1] == [r];
    assert Mean([r]) == r && Mean([r, r]) == r;
  }

  lemma ThreeCallsDeadline(c: Call, n: int, convert: real -> int)
    requires Counts(c) && Trim(c.model) == c.model && n > 0
    ensures DeadlineIs(CallTimeout([c, c, c], c.model, n, convert), n, Rate(c))
  {
    ThreeCalls(c);
    HistoryDeadline([c, c, c], c.model, n, convert);
  }

  /** Three calls of 400 tokens: in 100 s each, the next 1024 tokens get the longest deadline; in 4 s each
      they get 65.6 s; of a model not measured they get 253.3 s. */
  lemma ThreeCallsDecide(convert: real -> int)
    ensures var slow, fast := Call("m", 400, 100_000_000_000), Call("m", 400, 4_000_000_000);
            && CallTimeout([slow, slow, slow], "m", 1024, convert) == 600_000_000_000
            && CallTimeout([fast, fast, fast], "m", 1024, convert) == 65_600_000_000
            && CallTimeout([], "m", 1024, convert) == 253_333_333_333
  {
    var slow, fast := Call("m", 400, 100_000_000_000), Call("m", 400, 4_000_000_000);
    TrimIsTrimmed("m");
    ThreeCallsDeadline(slow, 1024, convert);
    ThreeCallsDeadline(fast, 1024, convert);
    HistoryDeadline([], "m", 1024, convert);
    assert Rate(slow) == 4.0 && Rate(fast) == 100.0;
    assert DecodeNanos(1024, 4.0) == 640_000_000_000;
    assert DecodeNanos(1024, 100.0) == 25_600_000_000;
    assert DecodeNanos(1024, 12.0) == 213_333_333_333;
  }
}

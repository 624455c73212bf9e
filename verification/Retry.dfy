/** pkg/backends/retry.go: which failures are retried, how long the waits are, and why a
    stream is never shown twice. */
module Retry {
  import opened Text
  import opened Float64

  // ---- errors --------------------------------------------------------------

  /** What the text matching of Classify can find in an error's message. */
  datatype Message = Message(transient: bool, status: int, overflow: bool, after: int)

  /** A Go error: a leaf, or a node that unwraps to one or two others. */
  datatype Error =
    | EarlyExit(text: Message)
    | ContextErr(deadline: bool)
    | Http(status: int, overflow: bool, after: int)
    | Net(text: Message)
    | Plain(text: Message)
    | Wrapped(inner: Error, text: Message)
    | Joined(first: Error, second: Error, text: Message)
    | Partial(inner: Error)

  /** The error tree in the order errors.Is and errors.As walk it: itself, then what it wraps. */
  function Chain(e: Error): (c: seq<Error>)
    ensures |c| > 0 && c[0] == e
  {
    match e
    case Wrapped(inner, _) => [e] + Chain(inner)
    case Partial(inner) => [e] + Chain(inner)
    case Joined(first, second, _) => [e] + Chain(first) + Chain(second)
    case _ => [e]
  }

  /** errors.As: the first error in the chain that an index predicate accepts. */
  function FirstHttp(c: seq<Error>): (r: Option<Error>)
    ensures r.Some? ==> r.value.Http? && r.value in c
    ensures r.None? ==> forall e :: e in c ==> !e.Http?
  {
    if c == [] then None else if c[0].Http? then Some(c[0]) else FirstHttp(c[1..])
  }

  function FirstPartial(c: seq<Error>): (r: Option<Error>)
    ensures r.Some? ==> r.value.Partial? && r.value in c
    ensures r.None? ==> forall e :: e in c ==> !e.Partial?
  {
    if c == [] then None else if c[0].Partial? then Some(c[0]) else FirstPartial(c[1..])
  }

  function MessageOf(e: Error): Message {
    match e
    case EarlyExit(t) => t
    case ContextErr(_) => Message(false, 0, false, 0)
    case Http(status, overflow, after) => Message(false, status, overflow, after)
    case Net(t) => t
    case Plain(t) => t
    case Wrapped(_, t) => t
    case Joined(_, _, t) => t
    case Partial(inner) => MessageOf(inner)
  }

  // ---- classification ------------------------------------------------------

  datatype Class = Unknown | Transient | RateLimited | Permanent | ContextOverflow | Canceled

  datatype Classification = Classification(class_: Class, status: int, retryAfter: int) {
    predicate Retryable() { class_ == Transient || class_ == RateLimited }
  }

  function ClassifyStatus(status: int, overflow: bool, after: int): Classification {
    if status == 429 then Classification(RateLimited, status, after)
    else if status == 408 || status == 409 || status == 425 then Classification(Transient, status, after)
    else if 500 <= status < 600 then Classification(Transient, status, after)
    else if status == 400 && overflow then Classification(ContextOverflow, status, 0)
    else if 400 <= status < 500 then Classification(Permanent, status, 0)
    else if overflow then Classification(ContextOverflow, status, 0)
    else if status == 0 then Classification(Unknown, 0, 0)
    else Classification(Unknown, status, 0)
  }

  /** errors.Is and errors.As as yes-or-no questions. */
  predicate HasEarlyExit(c: seq<Error>) { c != [] && (c[0].EarlyExit? || HasEarlyExit(c[1..])) }

  predicate HasContextErr(c: seq<Error>) { c != [] && (c[0].ContextErr? || HasContextErr(c[1..])) }

  predicate HasNet(c: seq<Error>) { c != [] && (c[0].Net? || HasNet(c[1..])) }

  /** Classify, in the order of its branches. */
  function Classify(err: Option<Error>): Classification {
    if err.None? then Classification(Canceled, 0, 0)
    else
      var c := Chain(err.value);
      if HasEarlyExit(c) || HasContextErr(c) then Classification(Canceled, 0, 0)
      else if FirstPartial(c).Some? then Classification(Permanent, 0, 0)
      else if FirstHttp(c).Some? then
        var he := FirstHttp(c).value;
        ClassifyStatus(he.status, he.overflow, he.after)
      else if HasNet(c) then Classification(Transient, 0, 0)
      else
        var m := MessageOf(err.value);
        if m.transient then Classification(Transient, 0, 0) else ClassifyStatus(m.status, m.overflow, m.after)
  }

  /** The statuses worth another prefill. */
  predicate RetryStatus(status: int) { status in {408, 409, 425, 429} || 500 <= status < 600 }

  /** A typed HTTP failure is retried for exactly these statuses, whatever wraps it. */
  lemma HttpRetriedIff(e: Error)
    requires FirstHttp(Chain(e)).Some?
    requires !HasEarlyExit(Chain(e)) && !HasContextErr(Chain(e)) && FirstPartial(Chain(e)).None?
    ensures Classify(Some(e)).Retryable() <==> RetryStatus(FirstHttp(Chain(e)).value.status)
    ensures Classify(Some(e)).Retryable() ==> Classify(Some(e)).retryAfter == FirstHttp(Chain(e)).value.after
  {
  }

  /** An attempt that delivered anything is never retried, whatever the failure under the
      partial-stream mark is and however many layers wrap the mark. */
  lemma PartialNeverRetried(e: Error, mark: Error)
    requires mark in Chain(e) && mark.Partial?
    ensures !Classify(Some(e)).Retryable()
  {
  }

  /** The verdict comes from a typed error in the chain rather than from the text. */
  predicate Typed(e: Error) {
    var c := Chain(e);
    HasEarlyExit(c) || HasContextErr(c) || FirstPartial(c).Some? || FirstHttp(c).Some? || HasNet(c)
  }

  /** Wrapping does not change the verdict on an error that carries a typed cause. */
  lemma WrapKeepsVerdict(e: Error, text: Message)
    requires Typed(e)
    ensures Typed(Wrapped(e, text)) && Classify(Some(Wrapped(e, text))) == Classify(Some(e))
  {
    assert Chain(Wrapped(e, text))[1..] == Chain(e);
  }

  // ---- backoff -------------------------------------------------------------

  /** Durations are nanoseconds. */
  datatype Policy = Policy(maxAttempts: int, baseDelay: int, maxDelay: int, jitter: bool)

  function Normalized(p: Policy): (n: Policy)
    ensures n.maxAttempts >= 1 && n.baseDelay > 0 && n.maxDelay > 0
    ensures p.maxAttempts >= 1 && p.baseDelay > 0 && p.maxDelay > 0 ==> n == p
  {
    Policy(if p.maxAttempts <= 0 then 1 else p.maxAttempts,
           if p.baseDelay <= 0 then 500_000_000 else p.baseDelay,
           if p.maxDelay <= 0 then 20_000_000_000 else p.maxDelay,
           p.jitter)
  }

  /** base * 2^k for any integer k. */
  function Doubled(base: real, k: int): (r: real)
    requires base > 0.0
    ensures r > 0.0
    decreases if k < 0 then -k else k
  {
    if k == 0 then base else if k > 0 then 2.0 * Doubled(base, k - 1) else Doubled(base, k + 1) / 2.0
  }

  /** The doubling, held in a double like both delays it starts from. */
  function Exponential(p: Policy, attempt: int): (exp: real)
    requires p.baseDelay > 0 && p.maxDelay > 0
    ensures 0.0 < exp <= Rounded(p.maxDelay) as real
  {
    RoundedPositive(p.baseDelay);
    RoundedPositive(p.maxDelay);
    var exp, cap := Doubled(Rounded(p.baseDelay) as real, attempt - 1), Rounded(p.maxDelay) as real;
    if exp > cap then cap else exp
  }

  /** Full jitter: a share of the whole pause. */
  function Draw(random: real, exp: real): (x: real)
    requires 0.0 <= random <= 1.0 && exp > 0.0
    ensures 0.0 <= x <= exp
  {
    random * exp
  }

  /** time.Duration of a float that is not negative: truncated when it fits an int64, and what the
      processor makes of it when it does not. */
  function Converted(x: real, convert: real -> int): int {
    if x.Floor <= MAX_INT64 then x.Floor else convert(x)
  }

  lemma ConvertedMonotone(x: real, y: real, convert: real -> int)
    requires 0.0 <= x <= y && y.Floor <= MAX_INT64
    ensures 0 <= Converted(x, convert) <= Converted(y, convert) <= y.Floor
  {
  }

  /** The ceiling is no larger as a double than as a duration. */
  predicate CeilingFits(p: Policy) { Rounded(Normalized(p).maxDelay) <= Normalized(p).maxDelay <= MAX_INT64 }

  /** Every ceiling up to 2^53 nanoseconds, a hundred days, fits. */
  lemma ShortCeilingFits(p: Policy)
    requires p.maxDelay <= TWO_53
    ensures CeilingFits(p)
  {
    RoundedExact(Normalized(p).maxDelay);
  }

  lemma PauseWithin(p: Policy, pause: real, convert: real -> int)
    requires p.maxDelay > 0 && 0.0 <= pause <= Rounded(p.maxDelay) as real
    ensures Rounded(p.maxDelay) <= p.maxDelay <= MAX_INT64 ==> 0 <= Converted(pause, convert) <= p.maxDelay
  {
    if Rounded(p.maxDelay) <= p.maxDelay <= MAX_INT64 {
      ConvertedMonotone(pause, Rounded(p.maxDelay) as real, convert);
    }
  }

  /** Backoff: the pause after failed attempt n; random is what the source draws, and full jitter
      takes that share of the whole pause. A hint wins outright, up to the ceiling. */
  function Backoff(p0: Policy, attempt: int, hint: int, random: real, convert: real -> int): (delay: int)
    requires 0.0 <= random <= 1.0
    ensures CeilingFits(p0) ==> 0 <= delay <= Normalized(p0).maxDelay
  {
    var p := Normalized(p0);
    if hint > 0 then if hint > p.maxDelay then p.maxDelay else hint
    else
      var exp := Exponential(p, attempt);
      var pause := if p.jitter then Draw(random, exp) else exp;
      PauseWithin(p, pause, convert);
      Converted(pause, convert)
  }

  // ---- exactly which ceilings hold -----------------------------------------

  lemma {:induction false} DoublingReaches(base: real, n: nat)
    requires base >= 1.0
    ensures Doubled(base, n) >= n as real && Doubled(base, n) >= 1.0
  {
    if n > 0 {
      DoublingReaches(base, n - 1);
    }
  }

  /** Some attempt pauses for the whole ceiling. */
  lemma CeilingReached(p: Policy) returns (attempt: int)
    requires p.baseDelay > 0 && p.maxDelay > 0
    ensures Exponential(p, attempt) == Rounded(p.maxDelay) as real
  {
    RoundedPositive(p.baseDelay);
    attempt := Rounded(p.maxDelay) + 1;
    DoublingReaches(Rounded(p.baseDelay) as real, Rounded(p.maxDelay));
  }

  /** Every pause of this policy stays between zero and its ceiling. */
  ghost predicate PausesBounded(p: Policy) {
    forall attempt, hint, random :: 0.0 <= random <= 1.0 ==>
      0 <= Backoff(p, attempt, hint, random, Amd64) <= Normalized(p).maxDelay
  }

  /** Without jitter the promised ceiling holds if and only if the ceiling does not grow when it is
      held in a double; one that does is exceeded, and the largest of all, math.MAX_INT64, even
      gives a negative pause, that is none. */
  lemma PausesBoundedIff(p: Policy)
    requires !p.jitter && p.maxDelay <= MAX_INT64
    ensures PausesBounded(p) <==> CeilingFits(p)
  {
    var n := Normalized(p);
    if !CeilingFits(p) {
      var attempt := CeilingReached(n);
      assert Backoff(p, attempt, 0, 0.0, Amd64) == Converted(Rounded(n.maxDelay) as real, Amd64);
      assert !PausesBounded(p);
    }
  }

  lemma LongestCeilingGoesNegative(p: Policy)
    requires !p.jitter && p.maxDelay == MAX_INT64
    ensures !CeilingFits(p)
    ensures exists attempt :: Backoff(p, attempt, 0, 0.0, Amd64) < 0
  {
    RoundedMaxInt64();
    var attempt := CeilingReached(Normalized(p));
    assert Backoff(p, attempt, 0, 0.0, Amd64) == Amd64((MAX_INT64 + 1) as real);
  }

  // ---- the shape of the pauses ---------------------------------------------

  /** base * 2^k as a whole number. */
  function DoubledInt(base: int, k: nat): int {
    if k == 0 then base else 2 * DoubledInt(base, k - 1)
  }

  lemma {:induction false} DoubledWhole(base: int, k: nat)
    requires base > 0
    ensures Doubled(base as real, k) == DoubledInt(base, k) as real
  {
    if k > 0 {
      DoubledWhole(base, k - 1);
    }
  }

  lemma UnjitteredBackoff(p: Policy, attempt: int, random: real, convert: real -> int)
    requires attempt >= 1 && !p.jitter && 0.0 <= random <= 1.0 && CeilingFits(p)
    ensures var n := Normalized(p);
            var first, cap := Rounded(n.baseDelay), Rounded(n.maxDelay);
            Backoff(p, attempt, 0, random, convert)
            == if DoubledInt(first, attempt - 1) > cap then cap else DoubledInt(first, attempt - 1)
  {
    RoundedPositive(Normalized(p).baseDelay);
    DoubledWhole(Rounded(Normalized(p).baseDelay), attempt - 1);
  }

  /** Without jitter or a hint the first pause is the base delay, and each is twice the one before
      until the ceiling, both as a double holds them. */
  lemma BackoffDoubles(p: Policy, attempt: int, random: real, convert: real -> int)
    requires attempt >= 1 && !p.jitter && 0.0 <= random <= 1.0 && CeilingFits(p)
    ensures var first, cap := Rounded(Normalized(p).baseDelay), Rounded(Normalized(p).maxDelay);
            var now := Backoff(p, attempt, 0, random, convert);
            && Backoff(p, attempt + 1, 0, random, convert) == (if 2 * now > cap then cap else 2 * now)
            && Backoff(p, 1, 0, random, convert) == if first > cap then cap else first
  {
    UnjitteredBackoff(p, attempt, random, convert);
    UnjitteredBackoff(p, attempt + 1, random, convert);
    UnjitteredBackoff(p, 1, random, convert);
  }

  /** Jitter only ever shortens a pause, and never touches a hint. */
  lemma JitterShortens(p: Policy, attempt: int, hint: int, random: real, convert: real -> int)
    requires 0.0 <= random <= 1.0 && CeilingFits(p)
    ensures Backoff(p.(jitter := true), attempt, hint, random, convert)
         <= Backoff(p.(jitter := false), attempt, hint, random, convert)
    ensures hint > 0 ==> Backoff(p.(jitter := true), attempt, hint, random, convert)
                         == Backoff(p.(jitter := false), attempt, hint, random, convert)
  {
    if hint <= 0 {
      var exp := Exponential(Normalized(p), attempt);
      assert Exponential(Normalized(p.(jitter := true)), attempt) == exp;
      assert Exponential(Normalized(p.(jitter := false)), attempt) == exp;
      ConvertedMonotone(exp, Rounded(Normalized(p).maxDelay) as real, convert);
      ConvertedMonotone(Draw(random, exp), exp, convert);
    }
  }

  // ---- every pause, in numbers ---------------------------------------------

  function Ceiling(p: Policy): int { if p.maxDelay > 0 then p.maxDelay else 20_000_000_000 }

  function FirstPause(p: Policy): int { if p.baseDelay > 0 then p.baseDelay else 500_000_000 }

  /** The doubling, up to the ceiling. */
  function Doubling(p: Policy, n: nat): int {
    var pause := FirstPause(p) * PowTwo(n);
    if pause < Ceiling(p) then pause else Ceiling(p)
  }

  lemma {:induction false} DoubledIsProduct(base: int, k: nat)
    requires base > 0
    ensures DoubledInt(base, k) == base * PowTwo(k)
  {
    if k > 0 {
      DoubledIsProduct(base, k - 1);
    }
  }

  lemma ExponentialIsDoubling(p: Policy, attempt: int)
    requires attempt >= 1 && Ceiling(p) <= TWO_53 && FirstPause(p) <= TWO_53
    ensures Exponential(Normalized(p), attempt) == Doubling(p, attempt - 1) as real
  {
    var n := Normalized(p);
    RoundedExact(n.baseDelay);
    RoundedExact(n.maxDelay);
    DoubledWhole(n.baseDelay, attempt - 1);
    DoubledIsProduct(n.baseDelay, attempt - 1);
  }

  lemma ShareFits(random: real, pause: int)
    requires 0.0 <= random <= 1.0 && 0 <= pause <= TWO_53
    ensures (random * pause as real).Floor <= MAX_INT64
  {
    ShareBelow(random, pause as real);
  }

  lemma ShareBelow(random: real, pause: real)
    requires 0.0 <= random <= 1.0 && pause >= 0.0
    ensures random * pause <= pause
  {
  }

  lemma HintExact(p: Policy, attempt: int, hint: int, random: real, convert: real -> int)
    requires 0.0 <= random <= 1.0 && hint > 0
    ensures Backoff(p, attempt, hint, random, convert) == if hint < Ceiling(p) then hint else Ceiling(p)
  {
  }

  lemma ConvertedWhole(random: real, pause: int, convert: real -> int)
    requires 0.0 <= random <= 1.0 && 0 < pause <= TWO_53
    ensures Converted(pause as real, convert) == pause
    ensures Converted(Draw(random, pause as real), convert) == (random * pause as real).Floor
  {
    ShareFits(random, pause);
  }

  lemma DoublingWithin(p: Policy, n: nat)
    requires Ceiling(p) <= TWO_53
    ensures 0 < Doubling(p, n) <= TWO_53
  {
    assert FirstPause(p) * PowTwo(n) > 0;
  }

  lemma PauseIs(p: Policy, attempt: int, hint: int, random: real, convert: real -> int)
    requires 0.0 <= random <= 1.0 && hint <= 0
    ensures var exp := Exponential(Normalized(p), attempt);
            Backoff(p, attempt, hint, random, convert)
            == Converted(if p.jitter then Draw(random, exp) else exp, convert)
  {
  }

  lemma PauseExact(p: Policy, attempt: int, hint: int, random: real, convert: real -> int)
    requires 0.0 <= random <= 1.0 && hint <= 0 && attempt >= 1
    requires Ceiling(p) <= TWO_53 && FirstPause(p) <= TWO_53
    ensures var pause := Doubling(p, attempt - 1);
            Backoff(p, attempt, hint, random, convert) == if p.jitter then (random * pause as real).Floor else pause
  {
    PauseIs(p, attempt, hint, random, convert);
    ExponentialIsDoubling(p, attempt);
    DoublingWithin(p, attempt - 1);
    ConvertedWhole(random, Doubling(p, attempt - 1), convert);
  }

  /** A hint of the server is waited for exactly, up to the ceiling. Without one, for delays up to a hundred
      days, the pause after attempt n is the base delay times 2^(n - 1), up to the ceiling; with jitter it
      is the drawn share of that. A policy without its delays has 500 ms and 20 s. */
  lemma BackoffExact(p: Policy, attempt: int, hint: int, random: real, convert: real -> int)
    requires 0.0 <= random <= 1.0
    ensures hint > 0 ==>
              Backoff(p, attempt, hint, random, convert) == if hint < Ceiling(p) then hint else Ceiling(p)
    ensures hint <= 0 && attempt >= 1 && Ceiling(p) <= TWO_53 && FirstPause(p) <= TWO_53 ==>
              var pause := Doubling(p, attempt - 1);
              Backoff(p, attempt, hint, random, convert) == if p.jitter then (random * pause as real).Floor else pause
  {
    if hint > 0 {
      HintExact(p, attempt, hint, random, convert);
    } else if attempt >= 1 && Ceiling(p) <= TWO_53 && FirstPause(p) <= TWO_53 {
      PauseExact(p, attempt, hint, random, convert);
    }
  }
}

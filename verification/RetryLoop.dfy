/** retryDo and streamWithRetry against an arbitrary provider, context and random source. */
module RetryLoop {
  import opened Text
  import opened Retry
  import opened Verdict

  /** (T, error): a value or an error. */
  datatype Reply<T> = Done(value: T) | Fail(error: Error)

  /** The context: its error when attempt n is about to start, and whether it ends while the
      pause after attempt n is running; the jitter drawn for that pause; and what the processor
      makes of a float that does not fit an int64. */
  datatype World = World(ctxErr: int -> Option<Error>, doneWaiting: int -> bool, random: int -> real,
                         convert: real -> int) {
    ghost predicate Valid() { forall n :: 0.0 <= random(n) <= 1.0 }
  }

  /** What retryDo returns, how often it called, and the pauses it took. */
  datatype Outcome<T> = Outcome(reply: Option<Reply<T>>, calls: nat, waits: seq<int>)

  function Failed<T>(e: Error): Option<Reply<T>> { Some(Fail(e)) }

  /** The loop from a given attempt on, with the pauses taken so far. reply is None only past
      the last attempt with nothing to report, which never happens. */
  function Attempts<T>(p: Policy, w: World, fn: int -> Reply<T>, attempt: nat, last: Option<Error>,
                       waits: seq<int>): Outcome<T>
    requires w.Valid() && attempt >= 1
    decreases p.maxAttempts + 1 - attempt
  {
    if attempt > p.maxAttempts then Outcome(if last.Some? then Failed(last.value) else None, attempt - 1, waits)
    else if w.ctxErr(attempt).Some? then
      Outcome(Failed(if last.Some? then last.value else w.ctxErr(attempt).value), attempt - 1, waits)
    else match fn(attempt)
      case Done(v) => Outcome(Some(Done(v)), attempt, waits)
      case Fail(e) =>
        var c := Classify(Some(e));
        if !c.Retryable() || attempt == p.maxAttempts then Outcome(Failed(e), attempt, waits)
        else
          var waits := waits + [Backoff(p, attempt, c.retryAfter, w.random(attempt), w.convert)];
          if w.doneWaiting(attempt) then Outcome(Failed(e), attempt, waits)
          else Attempts(p, w, fn, attempt + 1, Some(e), waits)
  }

  function Retried<T>(p: Policy, w: World, fn: int -> Reply<T>): Outcome<T>
    requires w.Valid()
  {
    Attempts(Normalized(p), w, fn, 1, None, [])
  }

  // ---- where retryDo stops -------------------------------------------------

  /** How many attempts a policy allows; one that names none allows one. */
  function Allowed(p: Policy): int { if p.maxAttempts > 0 then p.maxAttempts else 1 }

  /** Attempt a fails in a way worth another one, and the pause after it runs to its end. */
  ghost predicate GoesOn<T>(w: World, fn: int -> Reply<T>, a: int) {
    w.ctxErr(a).None? && fn(a).Fail? && WorthRetrying(fn(a).error) && !w.doneWaiting(a)
  }

  /** The pause after attempt n follows the hint of its failure. */
  ghost predicate PauseFits<T>(p: Policy, w: World, fn: int -> Reply<T>, n: int, pause: int)
    requires w.Valid()
  {
    fn(n).Fail? && exists after :: Hints(fn(n).error, after)
                                   && pause == Backoff(p, n, after, w.random(n), w.convert)
  }

  ghost predicate Pauses<T>(p: Policy, w: World, fn: int -> Reply<T>, waits: seq<int>)
    requires w.Valid()
  {
    forall i :: 0 <= i < |waits| ==> PauseFits(p, w, fn, i + 1, waits[i])
  }

  /** What the attempts before k left to report. */
  function Pending<T>(fn: int -> Reply<T>, k: int): Option<Error> {
    if k > 1 && fn(k - 1).Fail? then Some(fn(k - 1).error) else None
  }

  /** How retryDo ends when attempt k is the one it does not go on from. */
  ghost predicate EndsAt<T>(max: int, w: World, fn: int -> Reply<T>, k: nat, o: Outcome<T>) {
    if w.ctxErr(k).Some? then
      && o.calls == |o.waits| == k - 1
      && o.reply == Failed(if Pending(fn, k).Some? then Pending(fn, k).value else w.ctxErr(k).value)
    else
      && o.reply == Some(fn(k)) && o.calls == k
      && |o.waits| == if fn(k).Fail? && WorthRetrying(fn(k).error) && k < max then k else k - 1
  }

  lemma PauseAfter<T>(p: Policy, w: World, fn: int -> Reply<T>, waits: seq<int>) returns (more: seq<int>)
    requires w.Valid() && Pauses(p, w, fn, waits)
    requires fn(|waits| + 1).Fail? && WorthRetrying(fn(|waits| + 1).error)
    ensures Pauses(p, w, fn, more) && |more| == |waits| + 1
    ensures var n := |waits| + 1;
            && Classify(Some(fn(n).error)).Retryable()
            && more == waits + [Backoff(p, n, Classify(Some(fn(n).error)).retryAfter, w.random(n), w.convert)]
  {
    var n := |waits| + 1;
    VerdictIff(fn(n).error);
    more := waits + [Backoff(p, n, Classify(Some(fn(n).error)).retryAfter, w.random(n), w.convert)];
  }

  /** The loop arrives at attempt k with the pauses before it taken. */
  lemma {:induction false} Arrives<T>(p: Policy, w: World, fn: int -> Reply<T>, k: nat) returns (waits: seq<int>)
    requires w.Valid() && p == Normalized(p) && 1 <= k <= p.maxAttempts && forall a :: 1 <= a < k ==> GoesOn(w, fn, a)
    ensures |waits| == k - 1 && Pauses(p, w, fn, waits)
    ensures Attempts(p, w, fn, 1, None, []) == Attempts(p, w, fn, k, Pending(fn, k), waits)
  {
    if k == 1 {
      waits := [];
    } else {
      var before := Arrives(p, w, fn, k - 1);
      assert GoesOn(w, fn, k - 1);
      waits := PauseAfter(p, w, fn, before);
    }
  }

  lemma NormalizedTwice(p: Policy)
    ensures Normalized(Normalized(p)) == Normalized(p)
  {
  }

  lemma EndsThere<T>(p: Policy, w: World, fn: int -> Reply<T>, k: nat, waits: seq<int>)
    requires w.Valid() && p == Normalized(p) && 1 <= k <= p.maxAttempts && !(GoesOn(w, fn, k) && k < p.maxAttempts)
    requires |waits| == k - 1 && Pauses(p, w, fn, waits)
    ensures var o := Attempts(p, w, fn, k, Pending(fn, k), waits);
            EndsAt(p.maxAttempts, w, fn, k, o) && Pauses(p, w, fn, o.waits)
  {
    if w.ctxErr(k).None? && fn(k).Fail? {
      VerdictIff(fn(k).error);
      if WorthRetrying(fn(k).error) {
        var more := PauseAfter(p, w, fn, waits);
      }
    }
  }

  /** Attempt k is the first from which it does not go on, or the last allowed, and o is how that ends. */
  ghost predicate StopsAt<T>(p: Policy, w: World, fn: int -> Reply<T>, k: nat, o: Outcome<T>)
    requires w.Valid()
  {
    && 1 <= k <= Allowed(p) && (forall a :: 1 <= a < k ==> GoesOn(w, fn, a)) && !(GoesOn(w, fn, k) && k < Allowed(p))
    && EndsAt(Allowed(p), w, fn, k, o) && Pauses(Normalized(p), w, fn, o.waits)
  }

  /** retryDo, exactly: it goes on while attempts fail in a way worth another and nothing ends it. At the
      first attempt k from which it does not, it returns that attempt's reply after k calls and the k - 1
      pauses between them if the attempt succeeded, was not worth another or was the last one allowed; the
      same reply and one pause more if the context ended during that pause; and after k - 1 calls the
      pending failure, or else the context's own error, if the context was over before the attempt. */
  lemma RetriedExact<T>(p: Policy, w: World, fn: int -> Reply<T>, k: nat)
    requires w.Valid() && 1 <= k <= Allowed(p)
    requires forall a :: 1 <= a < k ==> GoesOn(w, fn, a)
    requires !(GoesOn(w, fn, k) && k < Allowed(p))
    ensures EndsAt(Allowed(p), w, fn, k, Retried(p, w, fn))
    ensures Pauses(Normalized(p), w, fn, Retried(p, w, fn).waits)
  {
    NormalizedTwice(p);
    var waits := Arrives(Normalized(p), w, fn, k);
    EndsThere(Normalized(p), w, fn, k, waits);
  }

  lemma {:induction false} SomewhereItStops<T>(w: World, fn: int -> Reply<T>, n: nat) returns (k: nat)
    requires 1 <= n
    ensures 1 <= k <= n && forall a :: 1 <= a < k ==> GoesOn(w, fn, a)
    ensures k == n || !GoesOn(w, fn, k)
  {
    if n == 1 {
      k := 1;
    } else {
      k := SomewhereItStops(w, fn, n - 1);
      if k == n - 1 && GoesOn(w, fn, k) {
        k := n;
      }
    }
  }

  /** Every run of retryDo ends at such an attempt: the first one that does not go on, or the last allowed. */
  lemma RetriedEnds<T>(p: Policy, w: World, fn: int -> Reply<T>) returns (k: nat)
    requires w.Valid()
    ensures StopsAt(p, w, fn, k, Retried(p, w, fn))
  {
    k := SomewhereItStops(w, fn, Allowed(p));
    RetriedExact(p, w, fn, k);
  }

  /** Progress: a server that refuses connections while it loads its model, and then answers within the
      attempts allowed, has its answer returned. */
  lemma LoadingServerIsWaitedFor<T>(p: Policy, w: World, fn: int -> Reply<T>, k: nat, v: T)
    requires w.Valid() && 1 <= k <= Allowed(p) && fn(k) == Done(v)
    requires forall a :: 1 <= a < k ==> fn(a).Fail? && fn(a).error.Net?
    requires forall a :: 1 <= a <= k ==> w.ctxErr(a).None? && !w.doneWaiting(a)
    ensures Retried(p, w, fn).reply == Some(Done(v)) && Retried(p, w, fn).calls == k
  {
    forall a | 1 <= a < k ensures GoesOn(w, fn, a) {
      var e := fn(a).error;
      assert Under(e, e);
      NetAlone(e);
    }
    RetriedExact(p, w, fn, k);
  }

  lemma NetAlone(e: Error)
    requires e.Net?
    ensures WorthRetrying(e)
  {
    assert Under(e, e);
    assert forall x :: Under(e, x) ==> x == e;
  }

  /** retryDo as the source writes it. */
  method RetryDo<T>(p0: Policy, w: World, fn: int -> Reply<T>) returns (reply: Reply<T>, calls: nat, waits: seq<int>)
    requires w.Valid()
    ensures Outcome(Some(reply), calls, waits) == Retried(p0, w, fn)
    ensures exists k: nat :: StopsAt(p0, w, fn, k, Outcome(Some(reply), calls, waits))
  {
    ghost var k := RetriedEnds(p0, w, fn);
    var p := Normalized(p0);
    var last: Option<Error> := None;
    waits := [];
    var attempt: nat := 1;
    while attempt <= p.maxAttempts
      invariant 1 <= attempt <= p.maxAttempts
      invariant Attempts(p, w, fn, attempt, last, waits) == Retried(p0, w, fn)
      decreases p.maxAttempts - attempt
    {
      if w.ctxErr(attempt).Some? {
        return Fail(if last.Some? then last.value else w.ctxErr(attempt).value), attempt - 1, waits;
      }
      var out := fn(attempt);
      if out.Done? {
        return out, attempt, waits;
      }
      last := Some(out.error);
      var c := Classify(last);
      if !c.Retryable() || attempt == p.maxAttempts {
        return out, attempt, waits;
      }
      var delay := Backoff(p, attempt, c.retryAfter, w.random(attempt), w.convert);
      waits := waits + [delay];
      if w.doneWaiting(attempt) {
        return out, attempt, waits;
      }
      attempt := attempt + 1;
    }
    // The final return of the source is dead code: the last attempt returns from inside.
    assert false;
  }

  // ---- what retryDo promises ----------------------------------------------

  function Sum(xs: seq<int>): int { if xs == [] then 0 else Sum(xs[..|xs| - 1]) + xs[|xs| - 1] }

  /** n pauses of the ceiling. */
  function Cap(n: nat, maxDelay: int): int { if n == 0 then 0 else maxDelay + Cap(n - 1, maxDelay) }

  /** Pauses that never exceed the ceiling, when the ceiling fits a double. */
  ghost predicate Capped(waits: seq<int>, p: Policy) {
    CeilingFits(p) ==> 0 <= Sum(waits) <= Cap(|waits|, Normalized(p).maxDelay)
  }

  lemma OneWait(waits: seq<int>, delay: int, p: Policy)
    requires Capped(waits, p) && (CeilingFits(p) ==> 0 <= delay <= Normalized(p).maxDelay)
    ensures Capped(waits + [delay], p)
  {
    assert (waits + [delay])[..|waits|] == waits;
  }

  /** Every call but the last failed in a way worth retrying. */
  ghost predicate OnlyRetryable<T>(fn: int -> Reply<T>, lo: int, calls: nat) {
    forall a :: lo <= a < calls ==> fn(a).Fail? && Classify(Some(fn(a).error)).Retryable()
  }

  /** From attempt on: at most the attempts left, pauses only between them and never longer
      than the ceiling, and the reply of the last call, or without a call the pending error or
      the context's. */
  ghost predicate Bounded<T>(p: Policy, w: World, fn: int -> Reply<T>, attempt: nat, last: Option<Error>,
                             before: nat, o: Outcome<T>)
  {
    && o.reply.Some? && attempt - 1 <= o.calls <= p.maxAttempts
    && before <= |o.waits| <= before + p.maxAttempts - attempt
    && Capped(o.waits, p)
    && OnlyRetryable(fn, attempt, o.calls)
    && (o.calls >= attempt ==> o.reply == Some(fn(o.calls)))
    && (o.calls == attempt - 1 ==>
          && w.ctxErr(attempt).Some?
          && o.reply == Failed(if last.Some? then last.value else w.ctxErr(attempt).value))
  }

  lemma {:induction false} AttemptsBounded<T>(p: Policy, w: World, fn: int -> Reply<T>, attempt: nat,
                                              last: Option<Error>, waits: seq<int>)
    requires w.Valid() && 1 <= attempt <= p.maxAttempts && Normalized(p) == p && Capped(waits, p)
    ensures Bounded(p, w, fn, attempt, last, |waits|, Attempts(p, w, fn, attempt, last, waits))
    decreases p.maxAttempts - attempt
  {
    if w.ctxErr(attempt).None? && fn(attempt).Fail? && Classify(Some(fn(attempt).error)).Retryable()
       && attempt < p.maxAttempts {
      var c := Classify(Some(fn(attempt).error));
      var delay := Backoff(p, attempt, c.retryAfter, w.random(attempt), w.convert);
      OneWait(waits, delay, p);
      if !w.doneWaiting(attempt) {
        AttemptsBounded(p, w, fn, attempt + 1, Some(fn(attempt).error), waits + [delay]);
      }
    }
  }

  lemma {:induction false} CapIsProduct(n: nat, maxDelay: int)
    ensures Cap(n, maxDelay) == n * maxDelay
  {
    if n > 0 {
      CapIsProduct(n - 1, maxDelay);
    }
  }

  lemma {:induction false} CapMonotone(n: nat, m: nat, maxDelay: int)
    requires n <= m && maxDelay >= 0
    ensures Cap(n, maxDelay) <= Cap(m, maxDelay)
  {
    if n < m {
      CapMonotone(n, m - 1, maxDelay);
    }
  }

  /** The whole of retryDo: at most MaxAttempts calls, at most MaxAttempts - 1 pauses that sum
      to at most (MaxAttempts - 1) * MaxDelay when that ceiling fits a double, every repeated call
      justified by a retryable failure, and always a reply: the last call's, or the context's error if it was over
      before the first. */
  lemma RetryDoBounded<T>(p0: Policy, w: World, fn: int -> Reply<T>)
    requires w.Valid()
    ensures var p, o := Normalized(p0), Retried(p0, w, fn);
            && o.reply.Some? && o.calls <= p.maxAttempts
            && |o.waits| <= p.maxAttempts - 1
            && (CeilingFits(p0) ==> 0 <= Sum(o.waits) <= (p.maxAttempts - 1) * p.maxDelay)
            && OnlyRetryable(fn, 1, o.calls)
            && (o.calls > 0 ==> o.reply == Some(fn(o.calls)))
            && (o.calls == 0 ==> w.ctxErr(1).Some? && o.reply == Failed(w.ctxErr(1).value))
  {
    var p := Normalized(p0);
    AttemptsBounded(p, w, fn, 1, None, []);
    CapMonotone(|Retried(p0, w, fn).waits|, p.maxAttempts - 1, p.maxDelay);
    CapIsProduct(p.maxAttempts - 1, p.maxDelay);
  }

  // ---- streams -------------------------------------------------------------

  /** One streaming call: the chunks the provider delivers and how it ends. The caller's own
      callback errors are among the ways it can end. */
  datatype Stream<C> = Stream(chunks: seq<C>, end: Option<Error>)

  /** The closure retryDo runs: a failure after a delivery is marked partial. */
  function Marked<C>(s: Stream<C>): Reply<()> {
    match s.end
    case None => Done(())
    case Some(e) => Fail(if s.chunks != [] then Partial(e) else e)
  }

  /** The closure over a streaming call. */
  function Marking<C>(call: int -> Stream<C>): int -> Reply<()> { n => Marked(call(n)) }

  /** What the caller gets: the error under the outermost partial mark, if there is one. */
  function Unmark(e: Error): Error {
    var mark := FirstPartial(Chain(e));
    if mark.Some? then mark.value.inner else e
  }

  function Delivered<C>(call: int -> Stream<C>, n: nat): seq<(int, C)> {
    if n == 0 then [] else Delivered(call, n - 1) + Tag(n, call(n).chunks)
  }

  function Tag<C>(attempt: int, chunks: seq<C>): (r: seq<(int, C)>)
    ensures |r| == |chunks| && forall i :: 0 <= i < |r| ==> r[i] == (attempt, chunks[i])
  {
    if chunks == [] then [] else Tag(attempt, chunks[..|chunks| - 1]) + [(attempt, chunks[|chunks| - 1])]
  }

  /** The caller's callback: everything it was shown, with the attempt it came from. */
  class Listener<C> {
    var seen: seq<(int, C)>

    constructor ()
      ensures seen == []
    {
      seen := [];
    }

    method Callback(attempt: int, chunk: C)
      modifies this
      ensures seen == old(seen) + [(attempt, chunk)]
    {
      seen := seen + [(attempt, chunk)];
    }
  }

  /** One attempt through the wrapped callback and its delivered flag. */
  method StreamOnce<C>(attempt: int, s: Stream<C>, cb: Listener<C>) returns (out: Reply<()>)
    modifies cb
    ensures out == Marked(s) && cb.seen == old(cb.seen) + Tag(attempt, s.chunks)
  {
    var delivered := false;
    for i := 0 to |s.chunks|
      invariant delivered == (i > 0)
      invariant cb.seen == old(cb.seen) + Tag(attempt, s.chunks[..i])
    {
      delivered := true;
      cb.Callback(attempt, s.chunks[i]);
      assert s.chunks[..i + 1][..i] == s.chunks[..i];
    }
    assert s.chunks[..|s.chunks|] == s.chunks;
    if s.end.None? {
      return Done(());
    }
    out := Fail(if delivered then Partial(s.end.value) else s.end.value);
  }

  /** after is before followed by everything attempts 1 to n delivered. */
  ghost predicate Shown<C>(before: seq<(int, C)>, after: seq<(int, C)>, call: int -> Stream<C>, n: nat)
    decreases n
  {
    if n == 0 then after == before
    else
      var k := |after| - |call(n).chunks|;
      k >= 0 && after[k..] == Tag(n, call(n).chunks) && Shown(before, after[..k], call, n - 1)
  }

  lemma ShownNext<C>(before: seq<(int, C)>, seen: seq<(int, C)>, call: int -> Stream<C>, n: nat)
    requires n > 0 && Shown(before, seen, call, n - 1)
    ensures Shown(before, seen + Tag(n, call(n).chunks), call, n)
  {
    var more := Tag(n, call(n).chunks);
    assert (seen + more)[..|seen|] == seen && (seen + more)[|seen|..] == more;
  }

  lemma {:induction false} ShownIsDelivered<C>(before: seq<(int, C)>, after: seq<(int, C)>, call: int -> Stream<C>,
                                               n: nat)
    requires Shown(before, after, call, n)
    ensures after == before + Delivered(call, n)
    decreases n
  {
    if n > 0 {
      ShownIsDelivered(before, after[..|after| - |call(n).chunks|], call, n - 1);
    }
  }

  /** The attempt with everything it adds to what was shown. */
  method StreamAttempt<C>(ghost before: seq<(int, C)>, attempt: nat, call: int -> Stream<C>, cb: Listener<C>)
    returns (out: Reply<()>)
    requires attempt > 0 && Shown(before, cb.seen, call, attempt - 1)
    modifies cb
    ensures out == Marking(call)(attempt) && Shown(before, cb.seen, call, attempt)
  {
    ShownNext(before, cb.seen, call, attempt);
    out := StreamOnce(attempt, call(attempt), cb);
  }

  /** retryDo's loop around the streaming attempt. */
  method StreamLoop<C>(p: Policy, w: World, call: int -> Stream<C>, cb: Listener<C>)
    returns (reply: Reply<()>, calls: nat)
    requires w.Valid() && p == Normalized(p)
    modifies cb
    ensures var o := Attempts(p, w, Marking(call), 1, None, []); o.reply == Some(reply) && o.calls == calls
    ensures Shown(old(cb.seen), cb.seen, call, calls)
  {
    ghost var fn := Marking(call);
    ghost var waits: seq<int> := [];
    var last: Option<Error> := None;
    var attempt: nat := 1;
    calls := 0;
    while true
      invariant 1 <= attempt <= p.maxAttempts && calls == attempt - 1
      invariant Attempts(p, w, fn, attempt, last, waits) == Attempts(p, w, fn, 1, None, [])
      invariant Shown(old(cb.seen), cb.seen, call, calls)
      decreases p.maxAttempts - attempt
    {
      if w.ctxErr(attempt).Some? {
        reply := Fail(if last.Some? then last.value else w.ctxErr(attempt).value);
        return;
      }
      reply := StreamAttempt(old(cb.seen), attempt, call, cb);
      calls := attempt;
      if reply.Done? {
        return;
      }
      last := Some(reply.error);
      var c := Classify(last);
      if !c.Retryable() || attempt == p.maxAttempts {
        return;
      }
      waits := waits + [Backoff(p, attempt, c.retryAfter, w.random(attempt), w.convert)];
      if w.doneWaiting(attempt) {
        return;
      }
      attempt := attempt + 1;
    }
  }

  /** streamWithRetry: the loop, then the mark taken off. */
  method StreamWithRetry<C>(p: Policy, w: World, call: int -> Stream<C>, cb: Listener<C>)
    returns (error: Option<Error>, calls: nat)
    requires w.Valid()
    modifies cb
    ensures var o := Retried(p, w, Marking(call));
            && calls == o.calls && cb.seen == old(cb.seen) + Delivered(call, calls)
            && o.reply.Some?
            && error == if o.reply.value.Fail? then Some(Unmark(o.reply.value.error)) else None
  {
    var reply;
    reply, calls := StreamLoop(Normalized(p), w, call, cb);
    ShownIsDelivered(old(cb.seen), cb.seen, call, calls);
    error := if reply.Fail? then Some(Unmark(reply.error)) else None;
  }

  /** Nothing before attempt n was shown. */
  lemma {:induction false} SilentBefore<C>(call: int -> Stream<C>, n: nat)
    requires forall a :: 1 <= a <= n ==> call(a).chunks == []
    ensures Delivered(call, n) == []
  {
    if n > 0 {
      SilentBefore(call, n - 1);
    }
  }

  /** No stream is ever replayed: whatever the provider does, everything the callback saw came
      from one attempt, the last one, and is exactly what that attempt delivered; every earlier
      attempt delivered nothing. */
  lemma StreamsNeverReplay<C>(p0: Policy, w: World, call: int -> Stream<C>)
    requires w.Valid()
    ensures var n := Retried(p0, w, Marking(call)).calls;
            && (n > 0 ==> Delivered(call, n) == Tag(n, call(n).chunks))
            && (n == 0 ==> Delivered(call, n) == [])
            && forall a :: 1 <= a < n ==> call(a).chunks == []
  {
    var fn := Marking(call);
    RetryDoBounded(p0, w, fn);
    var n := Retried(p0, w, fn).calls;
    forall a | 1 <= a < n ensures call(a).chunks == [] {
      assert fn(a).Fail? && Classify(Some(fn(a).error)).Retryable();
      if call(a).chunks != [] {
        PartialNeverRetried(fn(a).error, fn(a).error);
      }
    }
    if n > 0 {
      SilentBefore(call, n - 1);
    }
  }

  /** The caller gets the provider's own error: of an attempt that delivered, always the very
      error it ended with; of one that delivered nothing, exactly when that error does not
      itself carry a partial-stream mark (then one layer is peeled off). */
  lemma ErrorIsOriginalIff<C>(p0: Policy, w: World, call: int -> Stream<C>)
    requires w.Valid()
    ensures var o := Retried(p0, w, Marking(call));
            o.calls > 0 && call(o.calls).end.Some? ==>
              && o.reply.Some? && o.reply.value.Fail?
              && (Unmark(o.reply.value.error) == call(o.calls).end.value
                  <==> call(o.calls).chunks != [] || FirstPartial(Chain(call(o.calls).end.value)).None?)
  {
    var fn := Marking(call);
    RetryDoBounded(p0, w, fn);
    var n := Retried(p0, w, fn).calls;
    if n > 0 && call(n).end.Some? {
      var e := call(n).end.value;
      assert Retried(p0, w, fn).reply == Some(fn(n));
      if call(n).chunks != [] {
        assert Chain(Partial(e))[0] == Partial(e);
      } else {
        PeelShrinks(e);
      }
    }
  }

  /** Removing a mark really changes the error. */
  lemma PeelShrinks(e: Error)
    ensures FirstPartial(Chain(e)).Some? ==> Unmark(e) != e
  {
    if FirstPartial(Chain(e)).Some? {
      ChainSmaller(e, FirstPartial(Chain(e)).value);
    }
  }

  function Size(e: Error): nat {
    match e
    case Wrapped(inner, _) => 1 + Size(inner)
    case Partial(inner) => 1 + Size(inner)
    case Joined(first, second, _) => 1 + Size(first) + Size(second)
    case _ => 0
  }

  lemma {:induction false} ChainSmaller(e: Error, x: Error)
    requires x in Chain(e)
    ensures Size(x) <= Size(e)
  {
    match e {
      case Wrapped(inner, _) => if x != e { ChainSmaller(inner, x); }
      case Partial(inner) => if x != e { ChainSmaller(inner, x); }
      case Joined(first, second, _) =>
        if x in Chain(first) {
          ChainSmaller(first, x);
        } else if x != e {
          ChainSmaller(second, x);
        }
      case _ =>
    }
  }
}

/** The verdict on every error tree, by what is in it. */
module Verdict {
  import opened Text
  import opened Retry

  // ---- what is in an error -------------------------------------------------

  /** x is e or one of the errors e wraps, at any depth. */
  predicate Under(e: Error, x: Error) {
    e == x || match e
              case Wrapped(inner, _) => Under(inner, x)
              case Partial(inner) => Under(inner, x)
              case Joined(first, second, _) => Under(first, x) || Under(second, x)
              case _ => false
  }

  ghost predicate HasHttp(e: Error) { exists x :: Under(e, x) && x.Http? }

  /** The HTTP failure errors.As finds: e itself, or the one of what it wraps, the first branch first. */
  ghost predicate Responds(e: Error, h: Error) {
    h.Http? && match e
               case Http(_, _, _) => h == e
               case Wrapped(inner, _) => Responds(inner, h)
               case Partial(inner) => Responds(inner, h)
               case Joined(first, second, _) => Responds(first, h) || (!HasHttp(first) && Responds(second, h))
               case _ => false
  }

  lemma {:induction false} ChainHolds(e: Error, x: Error)
    ensures x in Chain(e) <==> Under(e, x)
  {
    match e {
      case Wrapped(inner, _) => ChainHolds(inner, x);
      case Partial(inner) => ChainHolds(inner, x);
      case Joined(first, second, _) => ChainHolds(first, x); ChainHolds(second, x);
      case _ =>
    }
  }

  lemma {:induction false} FirstHttpConcat(a: seq<Error>, b: seq<Error>)
    ensures FirstHttp(a + b) == if FirstHttp(a).Some? then FirstHttp(a) else FirstHttp(b)
  {
    if a == [] {
      assert a + b == b;
    } else {
      assert (a + b)[1..] == a[1..] + b;
      FirstHttpConcat(a[1..], b);
    }
  }

  lemma HasHttpIff(e: Error)
    ensures HasHttp(e) <==> FirstHttp(Chain(e)).Some?
  {
    if HasHttp(e) {
      var x :| Under(e, x) && x.Http?;
      ChainHolds(e, x);
    }
    if FirstHttp(Chain(e)).Some? {
      ChainHolds(e, FirstHttp(Chain(e)).value);
    }
  }

  lemma FirstHttpBelow(e: Error, below: seq<Error>)
    requires Chain(e) == [e] + below && !e.Http?
    ensures FirstHttp(Chain(e)) == FirstHttp(below)
  {
    assert ([e] + below)[1..] == below;
  }

  lemma {:induction false} RespondsIff(e: Error, h: Error)
    ensures Responds(e, h) <==> FirstHttp(Chain(e)) == Some(h)
  {
    match e {
      case Wrapped(inner, _) => FirstHttpBelow(e, Chain(inner)); RespondsIff(inner, h);
      case Partial(inner) => FirstHttpBelow(e, Chain(inner)); RespondsIff(inner, h);
      case Joined(first, second, _) =>
        assert [e] + Chain(first) + Chain(second) == [e] + (Chain(first) + Chain(second));
        FirstHttpBelow(e, Chain(first) + Chain(second));
        FirstHttpConcat(Chain(first), Chain(second));
        HasHttpIff(first);
        RespondsIff(first, h);
        RespondsIff(second, h);
      case _ =>
    }
  }

  lemma {:induction false} NetInChain(c: seq<Error>)
    ensures HasNet(c) <==> exists x :: x in c && x.Net?
  {
    if c != [] {
      NetInChain(c[1..]);
      assert forall x :: x in c <==> x == c[0] || x in c[1..];
    }
  }

  lemma {:induction false} OverInChain(c: seq<Error>)
    ensures HasEarlyExit(c) || HasContextErr(c) <==> exists x :: x in c && (x.EarlyExit? || x.ContextErr?)
  {
    if c != [] {
      OverInChain(c[1..]);
      assert forall x :: x in c <==> x == c[0] || x in c[1..];
    }
  }

  // ---- the verdict ---------------------------------------------------------

  /** The caller stopped, or something of the stream was already shown. */
  ghost predicate PastRetrying(e: Error) {
    exists x :: Under(e, x) && (x.EarlyExit? || x.ContextErr? || x.Partial?)
  }

  ghost predicate HasTransport(e: Error) { exists x :: Under(e, x) && x.Net? }

  /** The text of an error without a type of its own. */
  ghost predicate Says(e: Error, m: Message) {
    (e.Plain? || e.Wrapped? || e.Joined?) && e.text == m
  }

  /** Worth another attempt. */
  ghost predicate WorthRetrying(e: Error) {
    && !PastRetrying(e)
    && if HasHttp(e) then exists h :: Responds(e, h) && RetryStatus(h.status)
       else HasTransport(e) || exists m :: Says(e, m) && (m.transient || RetryStatus(m.status))
  }

  /** The server's hint that comes with it. */
  ghost predicate Hints(e: Error, after: int) {
    if HasHttp(e) then exists h :: Responds(e, h) && after == h.after
    else if HasTransport(e) then after == 0
    else exists m :: Says(e, m) && after == if m.transient then 0 else m.after
  }

  lemma PastRetryingIff(e: Error)
    ensures PastRetrying(e) <==> HasEarlyExit(Chain(e)) || HasContextErr(Chain(e)) || FirstPartial(Chain(e)).Some?
  {
    var c := Chain(e);
    OverInChain(c);
    forall x ensures x in c <==> Under(e, x) {
      ChainHolds(e, x);
    }
    if FirstPartial(c).Some? {
      assert Under(e, FirstPartial(c).value);
    }
    if PastRetrying(e) {
      var x :| Under(e, x) && (x.EarlyExit? || x.ContextErr? || x.Partial?);
      assert x in c;
    }
    if x :| x in c && (x.EarlyExit? || x.ContextErr?) {
      assert Under(e, x);
    }
  }

  lemma HasTransportIff(e: Error)
    ensures HasTransport(e) <==> HasNet(Chain(e))
  {
    NetInChain(Chain(e));
    forall x ensures x in Chain(e) <==> Under(e, x) {
      ChainHolds(e, x);
    }
  }

  /** An untyped error is what its text says. */
  lemma UntypedSays(e: Error)
    requires !PastRetrying(e) && !HasHttp(e) && !HasTransport(e)
    ensures Says(e, MessageOf(e))
  {
    assert Under(e, e);
  }

  lemma ResponseFound(e: Error) returns (h: Error)
    requires HasHttp(e)
    ensures Responds(e, h) && FirstHttp(Chain(e)) == Some(h)
    ensures forall g :: Responds(e, g) ==> g == h
  {
    HasHttpIff(e);
    h := FirstHttp(Chain(e)).value;
    RespondsIff(e, h);
    forall g | Responds(e, g) ensures g == h {
      RespondsIff(e, g);
    }
  }

  /** The verdict on every error, by what is in it: an early exit, an ended context or a partial stream
      ends the matter; else the HTTP failure found first decides by its status; else a transport failure
      is worth another attempt; else the text decides. The hint goes with whatever decided. */
  lemma VerdictIff(e: Error)
    ensures Classify(Some(e)).Retryable() <==> WorthRetrying(e)
    ensures Classify(Some(e)).Retryable() ==> Hints(e, Classify(Some(e)).retryAfter)
  {
    PastRetryingIff(e);
    HasHttpIff(e);
    HasTransportIff(e);
    if !PastRetrying(e) {
      if HasHttp(e) {
        var h := ResponseFound(e);
      } else {
        forall h ensures !Responds(e, h) {
          RespondsIff(e, h);
        }
        if !HasTransport(e) {
          UntypedSays(e);
        }
      }
    }
  }

  /** A stopped caller is told so. */
  lemma CanceledIff(e: Error)
    ensures Classify(Some(e)).class_ == Canceled <==> exists x :: Under(e, x) && (x.EarlyExit? || x.ContextErr?)
  {
    OverInChain(Chain(e));
    forall x ensures x in Chain(e) <==> Under(e, x) {
      ChainHolds(e, x);
    }
  }

  /** A status is reported only with the failure it came with: none for what is past retrying or for a
      transport failure. */
  lemma NoStatusWithoutOne(e: Error)
    requires PastRetrying(e) || (!HasHttp(e) && HasTransport(e))
    ensures Classify(Some(e)).status == 0 && Classify(Some(e)).retryAfter == 0
  {
    PastRetryingIff(e);
    HasHttpIff(e);
    HasTransportIff(e);
  }

  /** A prompt that did not fit is told apart from every other refusal, and a limit on the rate from every
      other passing trouble. */
  lemma OverflowIff(e: Error, h: Error)
    requires !PastRetrying(e) && Responds(e, h)
    ensures Classify(Some(e)).class_ == ContextOverflow
       <==> h.overflow && (h.status == 400 || !(400 <= h.status < 600))
    ensures Classify(Some(e)).class_ == RateLimited <==> h.status == 429
    ensures Classify(Some(e)).class_ == Permanent
       <==> 400 <= h.status < 500 && !RetryStatus(h.status) && !(h.status == 400 && h.overflow)
    ensures Classify(Some(e)).status == h.status
  {
    PastRetryingIff(e);
    RespondsIff(e, h);
  }
}

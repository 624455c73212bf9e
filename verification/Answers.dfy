/** What becomes of a model's answer: unfenced, given Unix line ends, and proposed or dropped. */
module Answers {
  import opened Text
  import opened Domains
  import opened Disk
  import opened Surface
  import opened Trials
  import opened Propose
  import opened Membership

  predicate No(c: char, s: string) { forall i :: 0 <= i < |s| ==> s[i] != c }

  /** ReplaceAll "\r\n" by "\n": a carriage return goes when a line feed follows, */
  lemma UnixLinesPair(b: string)
    ensures UnixLines("\r\n" + b) == "\n" + UnixLines(b)
  {
    assert ("\r\n" + b)[2..] == b;
  }

  /** stays when none does, */
  lemma UnixLinesAlone(b: string)
    requires b == "" || b[0] != '\n'
    ensures UnixLines("\r" + b) == "\r" + UnixLines(b)
  {
    assert ("\r" + b)[1..] == b;
  }

  /** and text without one stays as it is. */
  lemma {:induction false} UnixLinesPlain(a: string, b: string)
    requires No('\r', a)
    ensures UnixLines(a + b) == a + UnixLines(b)
  {
    if a == [] {
      assert a + b == b;
    } else {
      assert (a + b)[1..] == a[1..] + b;
      UnixLinesPlain(a[1..], b);
      assert a == [a[0]] + a[1..];
    }
  }

  lemma UnixLinesKept(a: string)
    requires No('\r', a)
    ensures UnixLines(a) == a
  {
    UnixLinesPlain(a, "");
    assert a + "" == a;
  }

  lemma {:induction false} IndexAfter(a: string, c: char, b: string)
    requires No(c, a)
    ensures IndexOfChar(a + [c] + b, c) == |a|
  {
    if a != [] {
      assert (a + [c] + b)[1..] == a[1..] + [c] + b;
      IndexAfter(a[1..], c, b);
    }
  }

  lemma SuffixSplits(s: string, t: string)
    ensures HasSuffix(s + t, t) && (s + t)[..|s + t| - |t|] == s
  {
  }

  /** An answer without a fence is left alone. */
  lemma PlainIsKept(s: string)
    requires !("```" <= s)
    ensures Unfence(s) == s
  {
  }

  /** An answer in a fence, whatever language the fence names, loses the fence and the space around
      what it held. */
  lemma FenceIsStripped(language: string, body: string)
    requires No('\n', language)
    ensures Unfence("```" + language + "\n" + body + "```") == Trim(body)
  {
    var head := "```" + language;
    var s := head + ['\n'] + (body + "```");
    assert s == "```" + language + "\n" + body + "```";
    IndexAfter(head, '\n', body + "```");
    assert s[|head| + 1..] == body + "```";
    FenceTail(body);
  }

  /** A fence that is not closed is opened all the same. */
  lemma FenceLeftOpen(language: string, body: string)
    requires No('\n', language) && !HasSuffix(Trim(body), "```")
    ensures Unfence("```" + language + "\n" + body) == Trim(body)
  {
    var head := "```" + language;
    var s := head + ['\n'] + body;
    assert s == "```" + language + "\n" + body;
    IndexAfter(head, '\n', body);
    assert s[|head| + 1..] == body;
    TrimIsTrimmed(body);
  }

  /** An answer on one line keeps its opening fence and loses the closing one. */
  lemma FenceOnOneLine(body: string)
    requires No('\n', body) && body != "" && !IsSpace(body[|body| - 1])
    ensures Unfence("```" + body + "```") == "```" + body
  {
    var s, kept := "```" + body + "```", "```" + body;
    assert Trimmed(s) && Trimmed(kept) && s == kept + "```";
    TrimIsTrimmed(s);
    TrimIsTrimmed(kept);
    NoIndex(s, '\n');
    SuffixSplits(kept, "```");
  }

  /** A fence around nothing leaves nothing. */
  lemma FenceAlone()
    ensures Unfence("```") == ""
  {
    TrimIsTrimmed("```");
    NoIndex("```", '\n');
  }

  lemma {:induction false} NoIndex(s: string, c: char)
    requires No(c, s)
    ensures IndexOfChar(s, c) == |s|
  {
    if s != [] {
      NoIndex(s[1..], c);
    }
  }

  /** Trimming in front of the closing fence does not touch the fence. */
  lemma FenceTail(body: string)
    ensures HasSuffix(Trim(body + "```"), "```")
    ensures Trim(Trim(body + "```")[..|Trim(body + "```")| - 3]) == Trim(body)
  {
    TrimLeftBefore(body, "```");
    var t := TrimLeft(body + "```");
    assert t == TrimLeft(body) + "```";
    assert t[|t| - 1] == '`' && TrimRight(t) == t;
    SuffixSplits(TrimLeft(body), "```");
    TrimLeftTwice(body);
  }

  lemma {:induction false} TrimLeftBefore(a: string, b: string)
    requires b != "" && !IsSpace(b[0])
    ensures TrimLeft(a + b) == TrimLeft(a) + b
  {
    if a == [] {
      assert a + b == b;
    } else {
      assert (a + b)[1..] == a[1..] + b;
      TrimLeftBefore(a[1..], b);
    }
  }

  lemma {:induction false} TrimLeftTwice(s: string)
    ensures TrimLeft(TrimLeft(s)) == TrimLeft(s)
  {
    TrimLeftStartsSolid(s);
  }

  /** What a text domain makes of an answer without a fence or carriage returns: the trimmed answer
      when it is not blank and not too long, and nothing otherwise. */
  lemma PlainAnswer(answer: string, d: Domain)
    requires d.kind == KnobText && !("```" <= Trim(answer)) && No('\r', Trim(answer))
    ensures Sanitize(answer, d)
         == if Trim(answer) != "" && ByteLength(Trim(answer)) <= TextLimit(d) then Trim(answer) else ""
  {
    var s := Trim(answer);
    PlainIsKept(s);
    UnixLinesKept(s);
    TrimIsTrimmed(answer);
    AllowsIff(d, s);
  }

  /** And of an answer in a fence: what the fence held. */
  lemma FencedAnswer(language: string, body: string, d: Domain)
    requires d.kind == KnobText && No('\n', language) && No('\r', body)
    ensures Sanitize("```" + language + "\n" + body + "```", d)
         == if Trim(body) != "" && ByteLength(Trim(body)) <= TextLimit(d) then Trim(body) else ""
  {
    var out := "```" + language + "\n" + body + "```";
    assert out[0] == '`' && out[|out| - 1] == '`' && Trimmed(out);
    TrimIsTrimmed(out);
    FenceIsStripped(language, body);
    TrimKeepsNo('\r', body);
    UnixLinesKept(Trim(body));
    TrimIsTrimmed(body);
    AllowsIff(d, Trim(body));
  }

  lemma {:induction false} TrimLeftKeepsNo(c: char, s: string)
    requires No(c, s)
    ensures No(c, TrimLeft(s))
  {
    if s != [] && IsSpace(s[0]) {
      TrimLeftKeepsNo(c, s[1..]);
    }
  }

  lemma TrimKeepsNo(c: char, s: string)
    requires No(c, s)
    ensures No(c, Trim(s))
  {
    TrimLeftKeepsNo(c, s);
    TrimRightKeepsHead(TrimLeft(s));
  }

  // ---- which answer is proposed --------------------------------------------

  /** The text knob a model is asked about. */
  predicate FirstText(knobs: seq<Knob>, i: nat)
    requires i < |knobs|
  {
    knobs[i].domain.kind == KnobText && forall j :: 0 <= j < i ==> knobs[j].domain.kind != KnobText
  }

  /** The answer moves this knob: it is usable, new and not what the knob holds. */
  predicate Usable(k: Knob, trials: seq<Trial>, answer: Option<string>, c: Change) {
    && answer.Some? && c.knobID == k.id && c.before == k.value && c.after == Sanitize(answer.value, k.domain)
    && c.after != "" && c.after != k.value && !Tried(trials, k.id, c.after)
  }

  lemma {:induction false} PromptMoveFirst(rewrite: (Knob, seq<Trial>) -> Option<string>, knobs: seq<Knob>,
                                           trials: seq<Trial>)
    returns (i: nat)
    requires PromptMove(rewrite, knobs, trials).Some?
    ensures var c := PromptMove(rewrite, knobs, trials).value;
            i < |knobs| && FirstText(knobs, i) && c.knobID == knobs[i].id && c.before == knobs[i].value
  {
    if knobs[0].domain.kind == KnobText {
      i := 0;
    } else {
      var j := PromptMoveFirst(rewrite, knobs[1..], trials);
      i := j + 1;
    }
  }

  lemma {:induction false} PromptMoveAt(rewrite: (Knob, seq<Trial>) -> Option<string>, knobs: seq<Knob>,
                                        trials: seq<Trial>, i: nat)
    requires i < |knobs| && FirstText(knobs, i)
    ensures PromptMove(rewrite, knobs, trials) == PromptMove(rewrite, [knobs[i]], trials)
  {
    if i > 0 {
      assert knobs[1..][i - 1] == knobs[i];
      assert forall j :: 0 <= j < i - 1 ==> knobs[1..][j] == knobs[j + 1];
      PromptMoveAt(rewrite, knobs[1..], trials, i - 1);
    }
  }

  /** A usable answer for the first text knob in the surface's order. */
  ghost predicate UsableMove(rewrite: (Knob, seq<Trial>) -> Option<string>, knobs: seq<Knob>, trials: seq<Trial>,
                             c: Change)
  {
    exists i :: 0 <= i < |knobs| && FirstText(knobs, i) && Usable(knobs[i], trials, rewrite(knobs[i], trials), c)
  }

  /** Exactly one knob is ever asked about, and exactly a usable answer for it becomes a proposal. */
  lemma PromptMoveIff(rewrite: (Knob, seq<Trial>) -> Option<string>, knobs: seq<Knob>, trials: seq<Trial>, c: Change)
    ensures PromptMove(rewrite, knobs, trials) == Some(c) <==> UsableMove(rewrite, knobs, trials, c)
  {
    if PromptMove(rewrite, knobs, trials) == Some(c) {
      var i := PromptMoveFirst(rewrite, knobs, trials);
      PromptMoveAt(rewrite, knobs, trials, i);
      assert Usable(knobs[i], trials, rewrite(knobs[i], trials), c);
    }
    if UsableMove(rewrite, knobs, trials, c) {
      var i :| 0 <= i < |knobs| && FirstText(knobs, i) && Usable(knobs[i], trials, rewrite(knobs[i], trials), c);
      PromptMoveAt(rewrite, knobs, trials, i);
    }
  }

  /** The model has its say on one proposal in every, counted over the history; then a usable answer
      is what is proposed. */
  lemma AskedOneInEvery(o: Orders, rewrite: (Knob, seq<Trial>) -> Option<string>, every: int, knobs: seq<Knob>,
                        trials: seq<Trial>, c: Change)
    requires o.Valid() && every >= 1 && |trials| % every == 0 && UsableMove(rewrite, knobs, trials, c)
    ensures LlmPropose(o, Some(rewrite), every, knobs, trials) == Proposal.Propose(c)
  {
    PromptMoveIff(rewrite, knobs, trials, c);
  }

  /** On the other proposals, without a model, or without a usable answer, the sweep goes on. */
  lemma OtherwiseSweeps(o: Orders, rewrite: Option<(Knob, seq<Trial>) -> Option<string>>, every: int,
                        knobs: seq<Knob>, trials: seq<Trial>)
    requires o.Valid() && every >= 1
    requires rewrite.None? || |trials| % every != 0 || forall c :: !UsableMove(rewrite.value, knobs, trials, c)
    ensures LlmPropose(o, rewrite, every, knobs, trials) == DetPropose(o, knobs, trials)
  {
    if rewrite.Some? && PromptMove(rewrite.value, knobs, trials).Some? {
      PromptMoveIff(rewrite.value, knobs, trials, PromptMove(rewrite.value, knobs, trials).value);
    }
  }

  // ---- what is too much ----------------------------------------------------

  function Exes(n: nat): string { seq(n, _ => 'x') }

  /** Nine thousand letters are no answer for a system prompt: nothing is proposed, and written by
      hand the change is refused. */
  lemma LongAnswerDropped(knobs: seq<Knob>, disk: Files, c: Change, fault: Option<string>)
    requires Lookup(knobs, c.knobID).Some? && c.after == Exes(9000)
    requires knobs[Lookup(knobs, c.knobID).value].domain == Domain(KnobText, 0, 0, 0, [], 8000)
    ensures Sanitize(c.after, Domain(KnobText, 0, 0, 0, [], 8000)) == ""
    ensures Apply(knobs, disk, c, fault).Refused?
  {
    var v := Exes(9000);
    assert Trimmed(v) && v[0] == 'x' && No('\r', v) && !("```" <= v);
    TrimIsTrimmed(v);
    ByteLengthAscii(v);
    PlainAnswer(v, Domain(KnobText, 0, 0, 0, [], 8000));
    LongPromptRefused(knobs, disk, c, fault);
  }

  /** Ten thousand turns are refused where one to twenty-four are allowed. */
  lemma TooManyTurnsRefused(knobs: seq<Knob>, disk: Files, c: Change, fault: Option<string>)
    requires Lookup(knobs, c.knobID).Some? && c.after == "9999"
    requires knobs[Lookup(knobs, c.knobID).value].domain == Domain(KnobInt, 1_000_000, 24_000_000, 1_000_000, [], 0)
    ensures Apply(knobs, disk, c, fault).Refused?
  {
    var d := Domain(KnobInt, 1_000_000, 24_000_000, 1_000_000, [], 0);
    NineThousand();
    NumbersNormal(d, 9999);
    NumbersAllowedIff(d, 9999);
  }
}

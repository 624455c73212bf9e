/** pkg/autoresearch/evaluate.go: scores and the metrics that may veto a change. */
module Guards {
  import opened Text

  /** One evaluation's outcome; a negative metric is Unknown. */
  datatype Score = Score(primary: real, tokensPerTask: real, secondsPerTask: real,
                         toolErrorRate: real, editApplyRate: real, tokens: int)

  const UNKNOWN: real := -1.0
  const SLACK: real := 0.000000000001

  function UnknownScore(): Score {
    Score(UNKNOWN, UNKNOWN, UNKNOWN, UNKNOWN, UNKNOWN, 0)
  }

  /** A guard without a Value function never fires. */
  datatype Guard = Guard(name: string, higherIsBetter: bool, tolerance: real, relative: bool,
                         value: Option<Score -> real>)

  function DefaultGuards(): seq<Guard> {
    [ Guard("tokens per task", false, 0.05, true, Some((s: Score) => s.tokensPerTask)),
      Guard("wall seconds per task", false, 0.10, true, Some((s: Score) => s.secondsPerTask)),
      Guard("tool error rate", false, 0.02, false, Some((s: Score) => s.toolErrorRate)),
      Guard("edit-format apply rate", true, 0.02, false, Some((s: Score) => s.editApplyRate)) ]
  }

  function Allowance(g: Guard, b: real): real {
    if g.relative then g.tolerance * (if b < 0.0 then -b else b) else g.tolerance
  }

  function Regression(g: Guard, b: real, c: real): real {
    if g.higherIsBetter then b - c else c - b
  }

  /** Whether one guard trips; an unmeasured metric on either side never does. */
  predicate Breached(g: Guard, baseline: Score, current: Score) {
    g.value.Some? &&
    var b, c := g.value.value(baseline), g.value.value(current);
    && b >= 0.0 && c >= 0.0
    && !(g.relative && b <= 0.0)
    && Regression(g, b, c) > Allowance(g, b) + SLACK
  }

  /** Guard i trips and none before it does. */
  predicate FirstBreach(guards: seq<Guard>, baseline: Score, current: Score, i: nat)
    requires i < |guards|
  {
    && Breached(guards[i], baseline, current)
    && forall j :: 0 <= j < i ==> !Breached(guards[j], baseline, current)
  }

  /** What a guard asks of a score, next to a reference: a metric measured on both sides may be worse by the
      tolerance, which is a share of the reference value if the guard is relative, and better by anything. */
  ghost predicate Tolerates(g: Guard, reference: Score, s: Score) {
    g.value.Some? ==>
      var was, now := g.value.value(reference), g.value.value(s);
      var room := if g.relative then g.tolerance * was else g.tolerance;
      was < 0.0 || now < 0.0 || (g.relative && was == 0.0)
      || if g.higherIsBetter then now >= was - room - 0.000000000001 else now <= was + room + 0.000000000001
  }

  lemma ToleratesIff(g: Guard, reference: Score, s: Score)
    ensures Tolerates(g, reference, s) <==> !Breached(g, reference, s)
  {
  }

  /** CheckGuards: the name of the first guard that trips, in slice order. */
  function CheckGuards(baseline: Score, current: Score, guards: seq<Guard>): (breach: Option<string>)
    ensures breach.None? <==> forall i :: 0 <= i < |guards| ==> !Breached(guards[i], baseline, current)
    ensures breach.None? <==> forall i :: 0 <= i < |guards| ==> Tolerates(guards[i], baseline, current)
    ensures forall i :: 0 <= i < |guards| && FirstBreach(guards, baseline, current, i) ==>
              breach == Some(guards[i].name)
  {
    if |guards| == 0 then None
    else
      ToleratesIff(guards[0], baseline, current);
      if Breached(guards[0], baseline, current) then Some(guards[0].name)
      else
        assert forall i :: 0 < i < |guards| && FirstBreach(guards, baseline, current, i) ==>
            FirstBreach(guards[1..], baseline, current, i - 1);
        CheckGuards(baseline, current, guards[1..])
  }

  predicate Passes(guards: seq<Guard>, baseline: Score, current: Score) {
    CheckGuards(baseline, current, guards).None?
  }

  /** A score passes against itself exactly when no applicable guard has a negative allowance. */
  lemma SelfPass(guards: seq<Guard>, s: Score)
    ensures Passes(guards, s, s) <==>
      forall i :: 0 <= i < |guards| && guards[i].value.Some? && guards[i].value.value(s) >= 0.0
                  && !(guards[i].relative && guards[i].value.value(s) <= 0.0)
                ==> Allowance(guards[i], guards[i].value.value(s)) >= -SLACK
  {
    if Passes(guards, s, s) {
      forall i | 0 <= i < |guards| && guards[i].value.Some? && guards[i].value.value(s) >= 0.0
                 && !(guards[i].relative && guards[i].value.value(s) <= 0.0)
        ensures Allowance(guards[i], guards[i].value.value(s)) >= -SLACK
      {
        assert !Breached(guards[i], s, s);
      }
    } else {
      var i :| 0 <= i < |guards| && Breached(guards[i], s, s);
    }
  }

  // ---- what passing means, metric by metric --------------------------------

  /** Passing a list of guards is passing each of them alone. */
  lemma {:induction false} PassesEach(guards: seq<Guard>, b: Score, c: Score)
    ensures Passes(guards, b, c) <==> forall i :: 0 <= i < |guards| ==> Passes([guards[i]], b, c)
  {
    forall i | 0 <= i < |guards| ensures Passes([guards[i]], b, c) <==> !Breached(guards[i], b, c) {
      assert [guards[i]][0] == guards[i];
    }
  }

  /** The name reported is that of the first guard in the list that does not pass alone. */
  lemma {:induction false} NamesFirst(guards: seq<Guard>, b: Score, c: Score, i: nat)
    requires i < |guards| && !Passes([guards[i]], b, c)
    requires forall j :: 0 <= j < i ==> Passes([guards[j]], b, c)
    ensures CheckGuards(b, c, guards) == Some(guards[i].name)
  {
    forall j | 0 <= j <= i ensures Passes([guards[j]], b, c) <==> !Breached(guards[j], b, c) {
      assert [guards[j]][0] == guards[j];
    }
    assert FirstBreach(guards, b, c, i);
  }

  /** An absolute tolerance: the metric may move by that much in its bad direction, no more, and by
      any amount in its good one. */
  lemma AbsolutePassIff(g: Guard, b: Score, c: Score)
    requires g.value.Some? && !g.relative && g.value.value(b) >= 0.0 && g.value.value(c) >= 0.0
    ensures var was, now := g.value.value(b), g.value.value(c);
            Passes([g], b, c) <==>
            if g.higherIsBetter then now >= was - g.tolerance - 0.000000000001
            else now <= was + g.tolerance + 0.000000000001
  {
    assert [g][0] == g;
  }

  /** A relative tolerance: a share of the reference value. */
  lemma RelativePassIff(g: Guard, b: Score, c: Score)
    requires g.value.Some? && g.relative && g.value.value(b) > 0.0 && g.value.value(c) >= 0.0
    ensures var was, now := g.value.value(b), g.value.value(c);
            Passes([g], b, c) <==>
            if g.higherIsBetter then now >= (1.0 - g.tolerance) * was - 0.000000000001
            else now <= (1.0 + g.tolerance) * was + 0.000000000001
  {
    assert [g][0] == g;
  }

  /** A metric that was not measured on either side, or a share of nothing, never vetoes. */
  lemma UnmeasuredPasses(g: Guard, b: Score, c: Score)
    requires g.value.None? || g.value.value(b) < 0.0 || g.value.value(c) < 0.0
             || (g.relative && g.value.value(b) <= 0.0)
    ensures Passes([g], b, c)
  {
    assert [g][0] == g;
  }

  /** The limit the i-th default guard sets: a twentieth more tokens, a tenth more time, two points
      of tool errors, and two points of apply rate the other way. */
  ghost predicate LimitHolds(i: int, b: Score, s: Score) {
    match i
    case 0 =>
      b.tokensPerTask > 0.0 && s.tokensPerTask >= 0.0 ==> s.tokensPerTask <= 1.05 * b.tokensPerTask + 0.000000000001
    case 1 =>
      b.secondsPerTask > 0.0 && s.secondsPerTask >= 0.0 ==> s.secondsPerTask <= 1.10 * b.secondsPerTask + 0.000000000001
    case 2 =>
      b.toolErrorRate >= 0.0 && s.toolErrorRate >= 0.0 ==> s.toolErrorRate <= b.toolErrorRate + 0.02 + 0.000000000001
    case _ =>
      b.editApplyRate >= 0.0 && s.editApplyRate >= 0.0 ==> s.editApplyRate >= b.editApplyRate - 0.02 - 0.000000000001
  }

  lemma OneDefault(i: nat, b: Score, s: Score)
    requires i < 4 && |DefaultGuards()| == 4
    ensures Passes([DefaultGuards()[i]], b, s) <==> LimitHolds(i, b, s)
  {
    var g := DefaultGuards()[i];
    var was, now := g.value.value(b), g.value.value(s);
    if was < 0.0 || now < 0.0 || (g.relative && was <= 0.0) {
      UnmeasuredPasses(g, b, s);
    } else if g.relative {
      RelativePassIff(g, b, s);
    } else {
      AbsolutePassIff(g, b, s);
    }
  }

  /** The default guards hold each metric measured on both sides to its limit, and do nothing else. */
  lemma DefaultsPassIff(b: Score, s: Score)
    ensures Passes(DefaultGuards(), b, s) <==> forall i :: 0 <= i < 4 ==> LimitHolds(i, b, s)
  {
    var guards := DefaultGuards();
    PassesEach(guards, b, s);
    assert |guards| == 4;
    forall i | 0 <= i < 4 ensures Passes([guards[i]], b, s) <==> LimitHolds(i, b, s) {
      OneDefault(i, b, s);
    }
  }

  /** With every metric measured. */
  lemma DefaultGuardsExact(b: Score, s: Score)
    requires b.tokensPerTask > 0.0 && s.tokensPerTask >= 0.0 && b.secondsPerTask > 0.0 && s.secondsPerTask >= 0.0
    requires b.toolErrorRate >= 0.0 && s.toolErrorRate >= 0.0 && b.editApplyRate >= 0.0 && s.editApplyRate >= 0.0
    ensures Passes(DefaultGuards(), b, s) <==>
            && s.tokensPerTask <= 1.05 * b.tokensPerTask + 0.000000000001
            && s.secondsPerTask <= 1.10 * b.secondsPerTask + 0.000000000001
            && s.toolErrorRate <= b.toolErrorRate + 0.02 + 0.000000000001
            && s.editApplyRate >= b.editApplyRate - 0.02 - 0.000000000001
  {
    DefaultsPassIff(b, s);
    if Passes(DefaultGuards(), b, s) {
      assert LimitHolds(0, b, s) && LimitHolds(1, b, s) && LimitHolds(2, b, s) && LimitHolds(3, b, s);
    }
  }

  /** A change that buys a better pass rate with a tenth of the edits applying is vetoed by name; one
      that lifts the apply rate is not. */
  lemma ApplyRateVeto()
    ensures var b := Score(0.5, 1000.0, 10.0, 0.0, 0.95, 0);
            CheckGuards(b, Score(0.9, 1000.0, 10.0, 0.0, 0.10, 0), DefaultGuards()) == Some("edit-format apply rate")
    ensures var b := Score(0.5, 1000.0, 10.0, 0.0, 0.90, 0);
            Passes(DefaultGuards(), b, Score(0.9, 1000.0, 10.0, 0.0, 0.95, 0))
  {
    var b, s := Score(0.5, 1000.0, 10.0, 0.0, 0.95, 0), Score(0.9, 1000.0, 10.0, 0.0, 0.10, 0);
    forall i | 0 <= i < 4 ensures Passes([DefaultGuards()[i]], b, s) <==> LimitHolds(i, b, s) {
      OneDefault(i, b, s);
    }
    NamesFirst(DefaultGuards(), b, s, 3);
    DefaultsPassIff(Score(0.5, 1000.0, 10.0, 0.0, 0.90, 0), Score(0.9, 1000.0, 10.0, 0.0, 0.95, 0));
  }

  // ---- why the baseline is checked too ------------------------------------

  function Power(x: real, n: nat): real {
    if n == 0 then 1.0 else x * Power(x, n - 1)
  }

  /** k steps each within a relative tolerance, slack included. */
  function CompoundBound(start: real, tolerance: real, k: nat): real {
    if k == 0 then start else CompoundBound(start, tolerance, k - 1) * (1.0 + tolerance) + SLACK
  }

  /** Every score passes against the one just before it. */
  ghost predicate ChampionChain(guards: seq<Guard>, scores: seq<Score>) {
    forall i :: 0 < i < |scores| ==> Passes(guards, scores[i - 1], scores[i])
  }

  /** A cost metric guarded relative to its reference. */
  ghost predicate CostGuard(g: Guard) {
    g.value.Some? && !g.higherIsBetter && g.relative && g.tolerance >= 0.0
  }

  /** Checking only the champion bounds a measured cost by compound growth... */
  lemma {:induction false} ChampionOnlyBound(g: Guard, scores: seq<Score>)
    requires CostGuard(g) && |scores| > 0 && ChampionChain([g], scores)
    requires forall i :: 0 <= i < |scores| ==> g.value.value(scores[i]) > 0.0
    ensures g.value.value(scores[|scores| - 1])
         <= CompoundBound(g.value.value(scores[0]), g.tolerance, |scores| - 1)
  {
    if |scores| > 1 {
      var front := scores[..|scores| - 1];
      ChampionOnlyBound(g, front);
      var b, c := g.value.value(scores[|scores| - 2]), g.value.value(scores[|scores| - 1]);
      assert Passes([g], scores[|scores| - 2], scores[|scores| - 1]);
      assert !Breached([g][0], scores[|scores| - 2], scores[|scores| - 1]);
      assert c <= b * (1.0 + g.tolerance) + SLACK;
      MulMonotone(b, CompoundBound(g.value.value(scores[0]), g.tolerance, |scores| - 2), 1.0 + g.tolerance);
    }
  }

  lemma MulMonotone(a: real, b: real, m: real)
    requires a <= b && m >= 0.0
    ensures a * m <= b * m
  {
  }

  /** start * (1 + tolerance)^k. */
  function Compounded(start: real, tolerance: real, k: nat): real {
    if k == 0 then start else Compounded(start, tolerance, k - 1) * (1.0 + tolerance)
  }

  lemma {:induction false} CompoundedIsPower(start: real, tolerance: real, k: nat)
    ensures Compounded(start, tolerance, k) == start * Power(1.0 + tolerance, k)
  {
    if k > 0 {
      CompoundedIsPower(start, tolerance, k - 1);
      var x, p := 1.0 + tolerance, Power(1.0 + tolerance, k - 1);
      assert start * p * x == start * (x * p);
    }
  }

  lemma {:induction false} CompoundedGrows(start: real, tolerance: real, k: nat)
    requires start > 0.0 && tolerance > 0.0
    ensures Compounded(start, tolerance, k) >= start
    ensures k >= 2 && start * tolerance * (1.0 + tolerance) > SLACK ==>
              Compounded(start, tolerance, k) - start > tolerance * start + SLACK
  {
    if k > 0 {
      CompoundedGrows(start, tolerance, k - 1);
      var last := Compounded(start, tolerance, k - 1);
      assert last * (1.0 + tolerance) == last + last * tolerance;
      assert last * tolerance >= start * tolerance > 0.0 by { MulMonotone(start, last, tolerance); }
      if k == 2 {
        assert Compounded(start, tolerance, 1) == Compounded(start, tolerance, 0) * (1.0 + tolerance);
        assert last == start * (1.0 + tolerance);
        assert last * tolerance == start * tolerance * (1.0 + tolerance);
      }
    }
  }

  function CostScore(cost: real): Score { Score(0.0, cost, 0.0, 0.0, 0.0, 0) }

  function TokenGuard(tolerance: real): Guard {
    Guard("tokens per task", false, tolerance, true, Some((s: Score) => s.tokensPerTask))
  }

  /** ...and that growth is attained: a run that champion-only checking lets through
      multiplies the cost by (1 + tolerance)^k, and from the second step on it is past the
      tolerance of where it started. */
  lemma {:induction false} ChampionOnlyErodes(start: real, tolerance: real, k: nat) returns (scores: seq<Score>)
    requires start > 0.0 && tolerance > 0.0
    ensures |scores| == k + 1 && scores[0] == CostScore(start)
    ensures ChampionChain([TokenGuard(tolerance)], scores)
    ensures scores[k] == CostScore(Compounded(start, tolerance, k))
    ensures k >= 2 && start * tolerance * (1.0 + tolerance) > SLACK ==>
              !Passes([TokenGuard(tolerance)], scores[0], scores[k])
    // ...while against a baseline that never measured the metric, no score is ever vetoed.
    ensures forall i :: 0 <= i <= k ==> Passes([TokenGuard(tolerance)], UnknownScore(), scores[i])
  {
    if k == 0 {
      scores := [CostScore(start)];
    } else {
      var front := ChampionOnlyErodes(start, tolerance, k - 1);
      var last, next := Compounded(start, tolerance, k - 1), Compounded(start, tolerance, k);
      CompoundedGrows(start, tolerance, k - 1);
      CompoundedGrows(start, tolerance, k);
      StepPasses(tolerance, last, next);
      ChainSnoc([TokenGuard(tolerance)], front, CostScore(next));
      scores := front + [CostScore(next)];
      if k >= 2 && start * tolerance * (1.0 + tolerance) > SLACK {
        FarBreaches(tolerance, start, next);
      }
    }
  }

  lemma ChainSnoc(guards: seq<Guard>, front: seq<Score>, s: Score)
    requires front != [] && ChampionChain(guards, front) && Passes(guards, front[|front| - 1], s)
    ensures ChampionChain(guards, front + [s])
  {
    var scores := front + [s];
    forall i | 0 < i < |scores| ensures Passes(guards, scores[i - 1], scores[i]) {
      if i < |front| {
        assert scores[i - 1] == front[i - 1] && scores[i] == front[i];
      } else {
        assert scores[i - 1] == front[|front| - 1];
      }
    }
  }

  lemma StepPasses(tolerance: real, cost: real, next: real)
    requires cost > 0.0 && tolerance > 0.0 && next == cost * (1.0 + tolerance)
    ensures Passes([TokenGuard(tolerance)], CostScore(cost), CostScore(next))
  {
    assert next - cost == tolerance * cost;
    assert !Breached(TokenGuard(tolerance), CostScore(cost), CostScore(next));
  }

  lemma FarBreaches(tolerance: real, start: real, cost: real)
    requires start > 0.0 && tolerance > 0.0 && cost - start > tolerance * start + SLACK
    ensures !Passes([TokenGuard(tolerance)], CostScore(start), CostScore(cost))
  {
    var guards := [TokenGuard(tolerance)];
    assert cost >= 0.0 by { assert tolerance * start > 0.0; }
    assert Breached(guards[0], CostScore(start), CostScore(cost));
  }
}

/** pkg/autoresearch/journal.go and propose.go: what a run has already tried. */
module Trials {
  import opened Guards

  /** One experiment. Times, origin and free-text reasons are not recorded here. */
  datatype Trial = Trial(number: nat, knobID: string, before: string, after: string,
                         baseline: Score, score: Score, kept: bool, guard: string,
                         error: string, dryRun: bool)

  const ZERO_SCORE: Score := Score(0.0, 0.0, 0.0, 0.0, 0.0, 0)

  /** History.Tried. */
  predicate Tried(trials: seq<Trial>, knobID: string, value: string) {
    exists i :: 0 <= i < |trials| && trials[i].knobID == knobID && trials[i].after == value
  }

  method HasTried(trials: seq<Trial>, knobID: string, value: string) returns (b: bool)
    ensures b == Tried(trials, knobID, value)
  {
    for i := 0 to |trials|
      invariant !Tried(trials[..i], knobID, value)
    {
      if trials[i].knobID == knobID && trials[i].after == value {
        return true;
      }
      assert forall j :: 0 <= j < i ==> trials[..i + 1][j] == trials[..i][j];
    }
    assert trials[..|trials|] == trials;
    return false;
  }

  /** How often a knob has been moved. */
  function Moves(trials: seq<Trial>, knobID: string): nat {
    if trials == [] then 0
    else Moves(trials[..|trials| - 1], knobID) + if trials[|trials| - 1].knobID == knobID then 1 else 0
  }

  lemma TriedSnoc(trials: seq<Trial>, t: Trial, knobID: string, value: string)
    ensures Tried(trials + [t], knobID, value) <==>
            Tried(trials, knobID, value) || (t.knobID == knobID && t.after == value)
  {
    var all := trials + [t];
    if Tried(trials, knobID, value) {
      var i :| 0 <= i < |trials| && trials[i].knobID == knobID && trials[i].after == value;
      assert all[i].knobID == knobID && all[i].after == value;
    }
    if t.knobID == knobID && t.after == value {
      assert all[|trials|].knobID == knobID && all[|trials|].after == value;
    }
  }

  lemma MovesSnoc(trials: seq<Trial>, t: Trial, knobID: string)
    ensures Moves(trials + [t], knobID) == Moves(trials, knobID) + if t.knobID == knobID then 1 else 0
  {
    assert (trials + [t])[..|trials|] == trials;
  }

  // ---- Result's counters ---------------------------------------------------

  function CountKept(trials: seq<Trial>): nat {
    if trials == [] then 0
    else CountKept(trials[..|trials| - 1]) + if trials[|trials| - 1].kept then 1 else 0
  }

  /** Result.Reverted. */
  function Reverted(trials: seq<Trial>): nat {
    if trials == [] then 0
    else
      var t := trials[|trials| - 1];
      Reverted(trials[..|trials| - 1]) + if !t.kept && !t.dryRun then 1 else 0
  }

  /** Result.GuardVetoes. */
  function GuardVetoes(trials: seq<Trial>): nat {
    if trials == [] then 0
    else GuardVetoes(trials[..|trials| - 1]) + if trials[|trials| - 1].guard != "" then 1 else 0
  }

  function TokensSpent(trials: seq<Trial>): int {
    if trials == [] then 0
    else TokensSpent(trials[..|trials| - 1]) + trials[|trials| - 1].score.tokens
  }

  method CountReverted(trials: seq<Trial>) returns (n: nat)
    ensures n == Reverted(trials)
  {
    n := 0;
    for i := 0 to |trials|
      invariant n == Reverted(trials[..i])
    {
      assert trials[..i + 1][..i] == trials[..i];
      if !trials[i].kept && !trials[i].dryRun {
        n := n + 1;
      }
    }
    assert trials[..|trials|] == trials;
  }

  method CountGuardVetoes(trials: seq<Trial>) returns (n: nat)
    ensures n == GuardVetoes(trials)
  {
    n := 0;
    for i := 0 to |trials|
      invariant n == GuardVetoes(trials[..i])
    {
      assert trials[..i + 1][..i] == trials[..i];
      if trials[i].guard != "" {
        n := n + 1;
      }
    }
    assert trials[..|trials|] == trials;
  }

  /** Appending one trial adds its own contribution to every counter. */
  lemma CountersSnoc(trials: seq<Trial>, t: Trial)
    ensures CountKept(trials + [t]) == CountKept(trials) + if t.kept then 1 else 0
    ensures Reverted(trials + [t]) == Reverted(trials) + if !t.kept && !t.dryRun then 1 else 0
    ensures GuardVetoes(trials + [t]) == GuardVetoes(trials) + if t.guard != "" then 1 else 0
    ensures TokensSpent(trials + [t]) == TokensSpent(trials) + t.score.tokens
  {
    assert (trials + [t])[..|trials|] == trials;
  }
}

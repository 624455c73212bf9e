/** A seed that puts one chosen knob first in every cycle. */
module Seeds {
  import opened Text
  import opened Surface
  import opened Trials
  import opened Propose

  function Identity(n: nat): (p: seq<nat>)
    ensures |p| == n && forall i :: 0 <= i < n ==> p[i] == i
  {
    seq(n, i => i)
  }

  /** 0 to n - 1 with i and 0 exchanged. */
  function Swapped(n: nat, i: nat): (p: seq<nat>)
    requires i < n
    ensures |p| == n
    ensures forall r :: 0 <= r < n ==> p[r] == if r == 0 then i else if r == i then 0 else r
  {
    seq(n, r => if r == 0 then i else if r == i then 0 else r)
  }

  function Cycle(n: nat, i: nat): seq<nat> { if i < n then Swapped(n, i) else Identity(n) }

  function Favouring(i: nat): Orders { Orders(n => Cycle(n, i), (id, n) => Identity(n)) }

  lemma CyclePermutes(n: nat, i: nat)
    ensures IsPermutation(Cycle(n, i), n)
  {
    var p := Cycle(n, i);
    forall k: nat | k < n ensures k in p {
      assert p[if i < n then (if k == i then 0 else if k == 0 then i else k) else k] == k;
    }
  }

  lemma IdentityPermutes(n: nat)
    ensures IsPermutation(Identity(n), n)
  {
    forall k: nat | k < n ensures k in Identity(n) {
      assert Identity(n)[k] == k;
    }
  }

  lemma FavouringValid(i: nat)
    ensures Favouring(i).Valid()
  {
    forall n ensures IsPermutation(Favouring(i).knobs(n), n) {
      CyclePermutes(n, i);
    }
    forall id, n ensures IsPermutation(Favouring(i).values(id, n), n) {
      IdentityPermutes(n);
    }
  }

  /** The deterministic proposer under the seed that favours knob i. */
  ghost function Favoured(i: nat): (seq<Knob>, seq<Trial>) -> Proposal {
    FavouringValid(i);
    Seeded(Favouring(i))
  }

  /** The favoured knob is chosen as long as it is open and has not been charged with a trial. */
  lemma FavouredIsChosen(knobs: seq<Knob>, trials: seq<Trial>, i: nat)
    requires i < |knobs| && Open(knobs[i], trials) && Tries(knobs, trials, i) == 0
    ensures Favouring(i).Valid() && Earliest(Favouring(i), knobs, trials, |knobs|) == Some(i)
    ensures DetPropose(Favouring(i), knobs, trials).Propose?
    ensures Chosen(Favouring(i), knobs, trials, i, DetPropose(Favouring(i), knobs, trials).change)
  {
    FavouringValid(i);
    var o := Favouring(i);
    var perm := o.knobs(|knobs|);
    assert perm[0] == i;
    forall j | 0 <= j < |knobs| && j != i && Open(knobs[j], trials) ensures Before(o, knobs, trials, i, j) {
      assert IsPermutation(perm, |knobs|);
      assert RankOf(perm, i) == 0 && RankOf(perm, j) > 0;
    }
    FirstOpenIsEarliest(o, knobs, trials, i);
  }
}

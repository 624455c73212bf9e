/** pkg/augment/augment.go: what fits in a small prompt, picked greedily within a budget. */
module Augment {

  /** A knowledge entry or a tool-skill card: a name and a token cost. */
  datatype Item = Item(name: string, tokenCost: int)

  /** A missing cost counts as 100 tokens. */
  function Cost(e: Item): (c: int)
    ensures c > 0
  {
    if e.tokenCost <= 0 then 100 else e.tokenCost
  }

  function Total(items: seq<Item>): (t: int)
    ensures t >= 0
  {
    if items == [] then 0 else Total(items[..|items| - 1]) + Cost(items[|items| - 1])
  }

  lemma TotalSnoc(items: seq<Item>, e: Item)
    ensures Total(items + [e]) == Total(items) + Cost(e)
  {
    assert (items + [e])[..|items|] == items;
  }

  lemma {:induction false} TotalPrefix(items: seq<Item>, n: nat)
    requires n <= |items|
    ensures Total(items[..n]) <= Total(items)
  {
    if n < |items| {
      assert items[..|items| - 1][..n] == items[..n];
      TotalPrefix(items[..|items| - 1], n);
    } else {
      assert items[..n] == items;
    }
  }

  // ---- SelectKnowledge -----------------------------------------------------

  datatype Scored = Scored(score: real, entry: Item)

  function Qualifying(entries: seq<Item>, score: Item -> real): seq<Scored> {
    if entries == [] then []
    else
      var e := entries[|entries| - 1];
      Qualifying(entries[..|entries| - 1], score) + if score(e) >= 2.0 then [Scored(score(e), e)] else []
  }

  predicate Descending(list: seq<Scored>) {
    forall i, j :: 0 <= i < j < |list| ==> list[i].score >= list[j].score
  }

  /** The first n places hold the n best, in order. */
  predicate BestFirst(list: seq<Scored>, n: nat)
    requires n <= |list|
  {
    forall i, j :: 0 <= i < n && i < j < |list| ==> list[i].score >= list[j].score
  }

  lemma SwapPermutes(before: seq<Scored>, after: seq<Scored>, i: nat, j: nat)
    requires i < |before| && j < |before| && after == before[i := before[j]][j := before[i]]
    ensures multiset(after) == multiset(before)
  {
  }

  lemma SwapSettles(before: seq<Scored>, after: seq<Scored>, i: nat, best: nat)
    requires i <= best < |before| && after == before[i := before[best]][best := before[i]]
    requires BestFirst(before, i) && forall j :: i <= j < |before| ==> before[best].score >= before[j].score
    ensures BestFirst(after, i + 1)
  {
  }

  /** One pass of the sort: the best of the rest moves to place i. */
  method PlaceBest(list: array<Scored>, i: nat)
    requires i < list.Length && BestFirst(list[..], i)
    modifies list
    ensures BestFirst(list[..], i + 1) && multiset(list[..]) == multiset(old(list[..]))
  {
    var best := i;
    for j := i + 1 to list.Length
      invariant i <= best < list.Length
      invariant forall k :: i <= k < j ==> list[best].score >= list[k].score
    {
      if list[j].score > list[best].score {
        best := j;
      }
    }
    ghost var before := list[..];
    list[i], list[best] := list[best], list[i];
    assert list[..] == before[i := before[best]][best := before[i]];
    SwapPermutes(before, list[..], i, best);
    SwapSettles(before, list[..], i, best);
  }

  /** The in-place selection sort, best score first. */
  method SortByScore(list: array<Scored>)
    modifies list
    ensures Descending(list[..]) && multiset(list[..]) == multiset(old(list[..]))
  {
    for i := 0 to list.Length
      invariant BestFirst(list[..], i) && multiset(list[..]) == multiset(old(list[..]))
    {
      PlaceBest(list, i);
    }
  }

  /** Whether the next item still fits. */
  predicate FitsIn(chosen: seq<Item>, e: Item, budget: int) { Total(chosen) + Cost(e) <= budget }

  /** Greedy selection: every item that still fits when its turn comes. */
  function Greedy(list: seq<Scored>, budget: int): seq<Item> {
    if list == [] then []
    else
      var chosen := Greedy(list[..|list| - 1], budget);
      var e := list[|list| - 1].entry;
      if FitsIn(chosen, e, budget) then chosen + [e] else chosen
  }

  /** A greedy choice from the qualifying entries in some best-first order; entries with equal
      scores may stand in either order in it. */
  ghost predicate GreedyChoice(entries: seq<Item>, score: Item -> real, budget: int, selected: seq<Item>) {
    exists sorted :: IsRanking(sorted, Qualifying(entries, score)) && selected == Greedy(sorted, budget)
  }

  ghost predicate IsRanking(sorted: seq<Scored>, list: seq<Scored>) {
    Descending(sorted) && multiset(sorted) == multiset(list)
  }

  /** The last loop: every entry that still fits, best first. */
  method TakeGreedily(list: array<Scored>, limit: int) returns (selected: seq<Item>)
    ensures selected == Greedy(list[..], limit)
  {
    selected := [];
    var used := 0;
    for i := 0 to list.Length
      invariant selected == Greedy(list[..i], limit) && used == Total(selected)
    {
      assert list[..i + 1][..i] == list[..i];
      var cost := Cost(list[i].entry);
      TotalSnoc(selected, list[i].entry);
      if used + cost > limit {
        continue;
      }
      selected := selected + [list[i].entry];
      used := used + cost;
    }
    assert list[..list.Length] == list[..];
  }

  /** SelectKnowledge: filter, sort in place, then take greedily. */
  method SelectKnowledge(entries: seq<Item>, score: Item -> real, budget0: int) returns (selected: seq<Item>)
    ensures GreedyChoice(entries, score, if budget0 <= 0 then 200 else budget0, selected)
  {
    var limit := if budget0 <= 0 then 200 else budget0;
    var qualified: seq<Scored> := [];
    for i := 0 to |entries|
      invariant qualified == Qualifying(entries[..i], score)
    {
      assert entries[..i + 1][..i] == entries[..i];
      var s := score(entries[i]);
      if s >= 2.0 {
        qualified := qualified + [Scored(s, entries[i])];
      }
    }
    assert entries[..|entries|] == entries;
    var list := new Scored[|qualified|](i requires 0 <= i < |qualified| => qualified[i]);
    assert list[..] == qualified;
    SortByScore(list);
    selected := TakeGreedily(list, limit);
    assert IsRanking(list[..], qualified);
  }

  lemma {:induction false} GreedyWithin(list: seq<Scored>, budget: int)
    requires budget >= 0
    ensures Total(Greedy(list, budget)) <= budget
  {
    if list != [] {
      GreedyWithin(list[..|list| - 1], budget);
      TotalSnoc(Greedy(list[..|list| - 1], budget), list[|list| - 1].entry);
    }
  }

  lemma {:induction false} GreedyGrows(list: seq<Scored>, n: nat, budget: int)
    requires n <= |list|
    ensures Greedy(list[..n], budget) <= Greedy(list, budget)
  {
    if n < |list| {
      assert list[..|list| - 1][..n] == list[..n];
      GreedyGrows(list[..|list| - 1], n, budget);
    } else {
      assert list[..n] == list;
    }
  }

  /** Entry k was taken when its turn came. */
  predicate Taken(list: seq<Scored>, k: nat, budget: int)
    requires k < |list|
  {
    FitsIn(Greedy(list[..k], budget), list[k].entry, budget)
  }

  /** Why an entry is missing: entries scored at least as high had already used up the room,
      and it does not fit in what is left over at the end either. */
  lemma LeftOutOnlyForBetter(list: seq<Scored>, k: nat, budget: int)
    requires k < |list| && Descending(list)
    ensures !Taken(list, k, budget) ==>
              && Total(Greedy(list[..k], budget)) + Cost(list[k].entry) > budget
              && (forall i :: 0 <= i < k ==> list[i].score >= list[k].score)
              && Total(Greedy(list, budget)) + Cost(list[k].entry) > budget
    ensures Taken(list, k, budget) ==> list[k].entry in Greedy(list, budget)
  {
    var before := Greedy(list[..k], budget);
    GreedyGrows(list, k, budget);
    TotalPrefix(Greedy(list, budget), |before|);
    assert Greedy(list, budget)[..|before|] == before;
    GreedyGrows(list, k + 1, budget);
    assert list[..k + 1][..k] == list[..k];
    if Taken(list, k, budget) {
      assert Greedy(list[..k + 1], budget)[|before|] == list[k].entry;
    }
  }

  /** Nothing is picked twice and nothing is made up: the selection is a sub-multiset of the
      qualifying entries. */
  lemma {:induction false} GreedyPicksOnce(list: seq<Scored>, budget: int)
    ensures multiset(Greedy(list, budget)) <= multiset(Entries(list))
  {
    if list != [] {
      GreedyPicksOnce(list[..|list| - 1], budget);
    }
  }

  function Entries(list: seq<Scored>): seq<Item> {
    if list == [] then [] else Entries(list[..|list| - 1]) + [list[|list| - 1].entry]
  }

  // ---- SelectToolSkills ----------------------------------------------------

  /** The card for each tool: the last one listed. */
  function ByName(skills: seq<Item>): (m: map<string, Item>)
    ensures forall n :: n in m ==> m[n].name == n
  {
    if skills == [] then map[]
    else ByName(skills[..|skills| - 1])[skills[|skills| - 1].name := skills[|skills| - 1]]
  }

  predicate Named(selected: seq<Item>, name: string) {
    exists i :: 0 <= i < |selected| && selected[i].name == name
  }

  function Try(cards: map<string, Item>, selected: seq<Item>, name: string, budget: int): seq<Item> {
    if name !in cards || Named(selected, name) || !FitsIn(selected, cards[name], budget) then selected
    else selected + [cards[name]]
  }

  function Pick(cards: map<string, Item>, names: seq<string>, budget: int): seq<Item> {
    if names == [] then []
    else Try(cards, Pick(cards, names[..|names| - 1], budget), names[|names| - 1], budget)
  }

  /** tryAdd. */
  method TryAdd(cards: map<string, Item>, selected: seq<Item>, used: int, name: string, budget: int)
    returns (selected': seq<Item>, used': int)
    requires used == Total(selected)
    ensures selected' == Try(cards, selected, name, budget) && used' == Total(selected')
  {
    if name !in cards {
      return selected, used;
    }
    for i := 0 to |selected|
      invariant forall j :: 0 <= j < i ==> selected[j].name != name
    {
      if selected[i].name == name {
        return selected, used;
      }
    }
    var cost := Cost(cards[name]);
    if used + cost > budget {
      return selected, used;
    }
    TotalSnoc(selected, cards[name]);
    return selected + [cards[name]], used + cost;
  }

  lemma PickSnoc(cards: map<string, Item>, names: seq<string>, name: string, budget: int)
    ensures Pick(cards, names + [name], budget) == Try(cards, Pick(cards, names, budget), name, budget)
  {
    assert (names + [name])[..|names|] == names;
  }

  /** Once the budget is spent no card fits, so stopping early changes nothing. */
  lemma {:induction false} SpentPicksNothing(cards: map<string, Item>, names: seq<string>, more: seq<string>,
                                             budget: int)
    requires Total(Pick(cards, names, budget)) >= budget
    ensures Pick(cards, names + more, budget) == Pick(cards, names, budget)
  {
    if more == [] {
      assert names + more == names;
    } else {
      SpentPicksNothing(cards, names, more[..|more| - 1], budget);
      assert (names + more)[..|names + more| - 1] == names + more[..|more| - 1];
    }
  }

  /** One of the source's loops over a list of names, with its early stop. */
  method TryAll(cards: map<string, Item>, ghost done: seq<string>, names: seq<string>, selected0: seq<Item>,
                used0: int, budget: int)
    returns (selected: seq<Item>, used: int)
    requires selected0 == Pick(cards, done, budget) && used0 == Total(selected0)
    ensures selected == Pick(cards, done + names, budget) && used == Total(selected)
  {
    selected, used := selected0, used0;
    assert done + names[..0] == done;
    for i := 0 to |names|
      invariant selected == Pick(cards, done + names[..i], budget) && used == Total(selected)
    {
      if used >= budget {
        SpentPicksNothing(cards, done + names[..i], names[i..], budget);
        assert done + names[..i] + names[i..] == done + names;
        return;
      }
      PickSnoc(cards, done + names[..i], names[i], budget);
      assert done + names[..i + 1] == done + names[..i] + [names[i]];
      selected, used := TryAdd(cards, selected, used, names[i], budget);
    }
    assert names[..|names|] == names;
  }

  /** The order in which cards are tried: recovery, recency, intent, then writing and editing. */
  function Tries(lastFailed: string, recent: seq<string>, predicted: seq<string>): seq<string> {
    (if lastFailed != "" then [lastFailed] else []) + recent + predicted + ["ws_write", "ws_edit"]
  }

  method SelectToolSkills(skills: seq<Item>, lastFailed: string, recent: seq<string>, predicted: seq<string>,
                          budget0: int)
    returns (selected: seq<Item>)
    ensures selected == Pick(ByName(skills), Tries(lastFailed, recent, predicted),
                             if budget0 <= 0 then 300 else budget0)
  {
    var budget := if budget0 <= 0 then 300 else budget0;
    var cards: map<string, Item> := map[];
    for i := 0 to |skills|
      invariant cards == ByName(skills[..i])
    {
      assert skills[..i + 1][..i] == skills[..i];
      cards := cards[skills[i].name := skills[i]];
    }
    assert skills[..|skills|] == skills;
    var first := if lastFailed != "" then [lastFailed] else [];
    var used;
    selected, used := [], 0;
    if lastFailed != "" {
      PickSnoc(cards, [], lastFailed, budget);
      assert [] + [lastFailed] == first;
      selected, used := TryAdd(cards, selected, used, lastFailed, budget);
    }
    selected, used := TryAll(cards, first, recent, selected, used, budget);
    selected, used := TryAll(cards, first + recent, predicted, selected, used, budget);
    selected, used := TryAll(cards, first + recent + predicted, ["ws_write", "ws_edit"], selected, used, budget);
  }

  lemma {:induction false} PickWithin(cards: map<string, Item>, names: seq<string>, budget: int)
    requires budget >= 0
    ensures Total(Pick(cards, names, budget)) <= budget
  {
    if names != [] {
      var before := Pick(cards, names[..|names| - 1], budget);
      PickWithin(cards, names[..|names| - 1], budget);
      if names[|names| - 1] in cards {
        TotalSnoc(before, cards[names[|names| - 1]]);
      }
    }
  }

  /** Every picked card is a known card that was tried, and no card is picked twice. */
  lemma {:induction false} PickDistinct(cards: map<string, Item>, names: seq<string>, budget: int)
    requires forall n :: n in cards ==> cards[n].name == n
    ensures var picked := Pick(cards, names, budget);
            && (forall e :: e in picked ==> e.name in names && e.name in cards && e == cards[e.name])
            && (forall i, j :: 0 <= i < j < |picked| ==> picked[i].name != picked[j].name)
  {
    if names != [] {
      PickDistinct(cards, names[..|names| - 1], budget);
    }
  }

  lemma {:induction false} PickGrows(cards: map<string, Item>, names: seq<string>, n: nat, budget: int)
    requires n <= |names|
    ensures Pick(cards, names[..n], budget) <= Pick(cards, names, budget)
  {
    if n < |names| {
      assert names[..|names| - 1][..n] == names[..n];
      PickGrows(cards, names[..|names| - 1], n, budget);
    } else {
      assert names[..n] == names;
    }
  }

  /** Maximality: a known card that was tried and not picked does not fit in what is left, in
      whatever order the names came. */
  lemma PickMaximal(cards: map<string, Item>, names: seq<string>, k: nat, budget: int)
    requires k < |names| && names[k] in cards && forall n :: n in cards ==> cards[n].name == n
    ensures Named(Pick(cards, names, budget), names[k])
         || Total(Pick(cards, names, budget)) + Cost(cards[names[k]]) > budget
  {
    var picked, before := Pick(cards, names, budget), Pick(cards, names[..k], budget);
    PickGrows(cards, names, k, budget);
    PickGrows(cards, names, k + 1, budget);
    assert names[..k + 1][..k] == names[..k];
    assert before == picked[..|before|];
    TotalPrefix(picked, |before|);
    if Named(before, names[k]) {
      var i :| 0 <= i < |before| && before[i].name == names[k];
      assert picked[i].name == names[k];
    } else if FitsIn(before, cards[names[k]], budget) {
      var after := Pick(cards, names[..k + 1], budget);
      assert after[|before|] == cards[names[k]];
      assert picked[|before|].name == names[k];
    }
  }

  /** The load-bearing cards: writing and editing are left out only when they do not fit. */
  lemma WriteAndEditWhenTheyFit(skills: seq<Item>, lastFailed: string, recent: seq<string>, predicted: seq<string>,
                                budget: int, name: string)
    requires name in {"ws_write", "ws_edit"} && name in ByName(skills)
    ensures var picked := Pick(ByName(skills), Tries(lastFailed, recent, predicted), budget);
            Named(picked, name) || Total(picked) + Cost(ByName(skills)[name]) > budget
  {
    var names := Tries(lastFailed, recent, predicted);
    var k := if name == "ws_write" then |names| - 2 else |names| - 1;
    assert names[k] == name;
    PickMaximal(ByName(skills), names, k, budget);
  }

  // ---- the order of the names ----------------------------------------------

  /** Every known card that was tried, once, in the order first tried. */
  function Known(cards: map<string, Item>, names: seq<string>): seq<Item> {
    if names == [] then []
    else
      var before := Known(cards, names[..|names| - 1]);
      var name := names[|names| - 1];
      if name !in cards || Named(before, name) then before else before + [cards[name]]
  }

  ghost predicate DistinctNames(items: seq<Item>) {
    forall i, j :: 0 <= i < j < |items| ==> items[i].name != items[j].name
  }

  lemma {:induction false} KnownExactly(cards: map<string, Item>, names: seq<string>)
    requires forall n :: n in cards ==> cards[n].name == n
    ensures DistinctNames(Known(cards, names))
    ensures forall e :: e in Known(cards, names) <==> e.name in names && e.name in cards && e == cards[e.name]
  {
    if names != [] {
      KnownExactly(cards, names[..|names| - 1]);
      forall e ensures e in Known(cards, names) <==> e.name in names && e.name in cards && e == cards[e.name] {
        var before := Known(cards, names[..|names| - 1]);
        if Named(before, names[|names| - 1]) {
          var i :| 0 <= i < |before| && before[i].name == names[|names| - 1];
          assert before[i] in before;
        }
        assert names == names[..|names| - 1] + [names[|names| - 1]];
      }
    }
  }

  lemma {:induction false} KnownGrows(cards: map<string, Item>, names: seq<string>)
    ensures names != [] ==> Total(Known(cards, names[..|names| - 1])) <= Total(Known(cards, names))
  {
    if names != [] {
      var before := Known(cards, names[..|names| - 1]);
      assert Known(cards, names)[..|before|] == before;
      TotalPrefix(Known(cards, names), |before|);
    }
  }

  /** With room for everything, everything known is picked. */
  lemma {:induction false} RoomyPick(cards: map<string, Item>, names: seq<string>, budget: int)
    requires Total(Known(cards, names)) <= budget
    ensures Pick(cards, names, budget) == Known(cards, names)
  {
    if names != [] {
      var front, name := names[..|names| - 1], names[|names| - 1];
      KnownGrows(cards, names);
      RoomyPick(cards, front, budget);
      if name in cards {
        TotalSnoc(Known(cards, front), cards[name]);
      }
    }
  }

  lemma {:induction false} DistinctCount(items: seq<Item>, e: Item)
    requires DistinctNames(items)
    ensures multiset(items)[e] == if e in items then 1 else 0
  {
    if items != [] {
      DistinctCount(items[..|items| - 1], e);
      assert items == items[..|items| - 1] + [items[|items| - 1]];
    }
  }

  lemma DistinctSame(a: seq<Item>, b: seq<Item>)
    requires DistinctNames(a) && DistinctNames(b) && forall e :: e in a <==> e in b
    ensures multiset(a) == multiset(b)
  {
    forall e ensures multiset(a)[e] == multiset(b)[e] {
      DistinctCount(a, e);
      DistinctCount(b, e);
    }
  }

  lemma {:induction false} TotalWithout(items: seq<Item>, i: nat)
    requires i < |items|
    ensures Total(items) == Total(items[..i] + items[i + 1..]) + Cost(items[i])
  {
    if i == |items| - 1 {
      assert items[..i] + items[i + 1..] == items[..|items| - 1];
    } else {
      var front := items[..|items| - 1];
      TotalWithout(front, i);
      var rest := items[..i] + items[i + 1..];
      assert rest[..|rest| - 1] == front[..i] + front[i + 1..];
    }
  }

  lemma MultisetWithout(items: seq<Item>, i: nat)
    requires i < |items|
    ensures multiset(items[..i] + items[i + 1..]) == multiset(items) - multiset{items[i]}
  {
    assert items == items[..i] + ([items[i]] + items[i + 1..]);
  }

  lemma {:induction false} TotalOfMultiset(a: seq<Item>, b: seq<Item>)
    requires multiset(a) == multiset(b)
    ensures Total(a) == Total(b)
  {
    if a == [] {
      assert |multiset(b)| == 0;
    } else {
      var e := a[|a| - 1];
      assert e in multiset(b);
      var i :| 0 <= i < |b| && b[i] == e;
      TotalWithout(b, i);
      assert a == a[..|a| - 1] + [e];
      MultisetWithout(b, i);
      TotalOfMultiset(a[..|a| - 1], b[..i] + b[i + 1..]);
    }
  }

  /** When everything tried fits, the same names in any order, as a map feeds them, pick the
      same cards. */
  lemma OrderFreeWhenRoomy(cards: map<string, Item>, a: seq<string>, b: seq<string>, budget: int)
    requires (forall n :: n in cards ==> cards[n].name == n) && (forall n :: n in a <==> n in b)
    requires Total(Known(cards, a)) <= budget
    ensures multiset(Pick(cards, a, budget)) == multiset(Pick(cards, b, budget))
  {
    KnownExactly(cards, a);
    KnownExactly(cards, b);
    DistinctSame(Known(cards, a), Known(cards, b));
    TotalOfMultiset(Known(cards, a), Known(cards, b));
    RoomyPick(cards, a, budget);
    RoomyPick(cards, b, budget);
  }

  /** When it does not, the order decides: two cards that fit one at a time. */
  lemma OrderMattersWhenTight(x: Item, y: Item, budget: int)
    requires x.name != y.name && Cost(x) <= budget && Cost(y) <= budget && Cost(x) + Cost(y) > budget
    ensures var cards := map[x.name := x, y.name := y];
            Pick(cards, [x.name, y.name], budget) == [x] && Pick(cards, [y.name, x.name], budget) == [y]
  {
    var cards := map[x.name := x, y.name := y];
    TotalSnoc([], x);
    TotalSnoc([], y);
    assert [] + [x] == [x] && [] + [y] == [y];
    PickSnoc(cards, [], x.name, budget);
    PickSnoc(cards, [], y.name, budget);
    PickSnoc(cards, [x.name], y.name, budget);
    PickSnoc(cards, [y.name], x.name, budget);
    assert [] + [x.name] == [x.name] && [] + [y.name] == [y.name];
    assert [x.name] + [y.name] == [x.name, y.name] && [y.name] + [x.name] == [y.name, x.name];
  }

  // ---- whose turn comes first ----------------------------------------------

  /** A name's first turn decides: its card is in the selection if it was there already or still fitted
      into what the names before it had left. */
  lemma TurnDecides(cards: map<string, Item>, names: seq<string>, k: nat, budget: int)
    requires k < |names| && names[k] in cards && forall n :: n in cards ==> cards[n].name == n
    ensures var before := Pick(cards, names[..k], budget);
            Named(Pick(cards, names, budget), names[k])
            <==> Named(before, names[k]) || Total(before) + Cost(cards[names[k]]) <= budget
  {
    var picked, before := Pick(cards, names, budget), Pick(cards, names[..k], budget);
    PickGrows(cards, names, k, budget);
    PickGrows(cards, names, k + 1, budget);
    assert names[..k + 1][..k] == names[..k];
    if Named(before, names[k]) {
      var i :| 0 <= i < |before| && before[i].name == names[k];
      assert picked[i].name == names[k];
    } else if FitsIn(before, cards[names[k]], budget) {
      assert Pick(cards, names[..k + 1], budget)[|before|] == cards[names[k]];
      assert picked[|before|].name == names[k];
    } else {
      MissedForGood(cards, names, k, budget);
    }
  }

  /** What did not fit at its turn never comes in later, under the same name. */
  lemma {:induction false} MissedForGood(cards: map<string, Item>, names: seq<string>, k: nat, budget: int)
    requires k <= |names| && (k < |names| ==> names[k] in cards) && forall n :: n in cards ==> cards[n].name == n
    ensures k < |names| && !Named(Pick(cards, names[..k], budget), names[k])
            && !FitsIn(Pick(cards, names[..k], budget), cards[names[k]], budget)
            ==> !Named(Pick(cards, names, budget), names[k])
  {
    if k < |names| - 1 && !Named(Pick(cards, names[..k], budget), names[k])
       && !FitsIn(Pick(cards, names[..k], budget), cards[names[k]], budget) {
      var front := names[..|names| - 1];
      assert front[..k] == names[..k];
      MissedForGood(cards, front, k, budget);
      var picked := Pick(cards, front, budget);
      PickGrows(cards, front, k, budget);
      assert picked[..|Pick(cards, names[..k], budget)|] == Pick(cards, names[..k], budget);
      TotalPrefix(picked, |Pick(cards, names[..k], budget)|);
    }
  }

  /** A card has its turn after those of `before` and is picked exactly if there is still room. */
  ghost predicate HasTurnAfter(cards: map<string, Item>, before: seq<string>, name: string, budget: int,
                               selected: seq<Item>)
  {
    name in cards ==>
      var earlier := Pick(cards, before, budget);
      Named(selected, name) <==> Named(earlier, name) || Total(earlier) + Cost(cards[name]) <= budget
  }

  lemma TurnAt(cards: map<string, Item>, names: seq<string>, before: seq<string>, name: string, budget: int)
    requires before + [name] <= names && forall n :: n in cards ==> cards[n].name == n
    ensures HasTurnAfter(cards, before, name, budget, Pick(cards, names, budget))
  {
    var k := |before|;
    assert names[..k] == before && names[k] == name by {
      assert (before + [name])[..k] == before && (before + [name])[k] == name;
    }
    if name in cards {
      TurnDecides(cards, names, k, budget);
    }
  }

  /** Recovery before everything, then recency in its order, then intent in its order, then writing, then
      editing: each card gets what the ones before it left. */
  lemma TurnsInOrder(skills: seq<Item>, lastFailed: string, recent: seq<string>, predicted: seq<string>, budget: int)
    ensures var cards := ByName(skills);
            var selected := Pick(cards, Tries(lastFailed, recent, predicted), budget);
            var first := if lastFailed == "" then [] else [lastFailed];
            && (lastFailed != "" ==> HasTurnAfter(cards, [], lastFailed, budget, selected))
            && (forall i :: 0 <= i < |recent| ==>
                  HasTurnAfter(cards, first + recent[..i], recent[i], budget, selected))
            && (forall i :: 0 <= i < |predicted| ==>
                  HasTurnAfter(cards, first + recent + predicted[..i], predicted[i], budget, selected))
            && HasTurnAfter(cards, first + recent + predicted, "ws_write", budget, selected)
            && HasTurnAfter(cards, first + recent + predicted + ["ws_write"], "ws_edit", budget, selected)
  {
    var cards, names := ByName(skills), Tries(lastFailed, recent, predicted);
    var first := if lastFailed == "" then [] else [lastFailed];
    if lastFailed != "" {
      assert [] + [lastFailed] <= names;
      TurnAt(cards, names, [], lastFailed, budget);
    }
    forall i | 0 <= i < |recent|
      ensures HasTurnAfter(cards, first + recent[..i], recent[i], budget, Pick(cards, names, budget))
    {
      assert first + recent[..i] + [recent[i]] <= names;
      TurnAt(cards, names, first + recent[..i], recent[i], budget);
    }
    forall i | 0 <= i < |predicted|
      ensures HasTurnAfter(cards, first + recent + predicted[..i], predicted[i], budget, Pick(cards, names, budget))
    {
      assert first + recent + predicted[..i] + [predicted[i]] <= names;
      TurnAt(cards, names, first + recent + predicted[..i], predicted[i], budget);
    }
    assert first + recent + predicted + ["ws_write"] <= names;
    TurnAt(cards, names, first + recent + predicted, "ws_write", budget);
    assert first + recent + predicted + ["ws_write"] + ["ws_edit"] <= names;
    TurnAt(cards, names, first + recent + predicted + ["ws_write"], "ws_edit", budget);
  }

  /** Place k holds the last card of a name. */
  ghost predicate LastCard(skills: seq<Item>, name: string, k: nat) {
    k < |skills| && skills[k].name == name && forall j :: k < j < |skills| ==> skills[j].name != name
  }

  /** A card of each name: the last one listed. */
  lemma {:induction false} ByNameIs(skills: seq<Item>, name: string)
    ensures name in ByName(skills) <==> exists k: nat :: LastCard(skills, name, k)
    ensures forall k: nat :: LastCard(skills, name, k) ==> name in ByName(skills) && ByName(skills)[name] == skills[k]
  {
    if skills != [] {
      var front, last := skills[..|skills| - 1], |skills| - 1;
      ByNameIs(front, name);
      if skills[last].name == name {
        assert LastCard(skills, name, last);
        assert forall k: nat :: LastCard(skills, name, k) ==> k == last;
      } else {
        assert forall k: nat :: LastCard(skills, name, k) <==> LastCard(front, name, k);
      }
    }
  }

  /** An entry takes part with its own score, and from a score of 2 on. */
  lemma {:induction false} QualifyingIff(entries: seq<Item>, score: Item -> real, s: Scored)
    ensures s in Qualifying(entries, score) <==> s.entry in entries && s.score == score(s.entry) && s.score >= 2.0
  {
    if entries != [] {
      QualifyingIff(entries[..|entries| - 1], score, s);
      assert entries == entries[..|entries| - 1] + [entries[|entries| - 1]];
    }
  }

  /** What a card costs: what it says, or a hundred tokens. */
  lemma TotalOfOne(e: Item)
    ensures Total([e]) == if e.tokenCost > 0 then e.tokenCost else 100
  {
    assert [e][..0] == [];
  }
}

/** The two randomised helpers of src/MemoryGame.jsx: drawing distinct
    catalog ids (`getRandomPokemonIds`) and reshuffling the cards
    (`shuffleArray`). `Math.random` is replaced by an oracle sequence that
    the caller supplies. */
module Deck {
  import opened Wrappers

  /** Highest catalog id the game draws from. */
  const MAX_POKEDEX: nat := 649

  predicate Distinct<T(==)>(s: seq<T>)
  {
    forall i, j :: 0 <= i < j < |s| ==> s[i] != s[j]
  }

  predicate InRange(s: seq<int>, max: int)
  {
    forall i :: 0 <= i < |s| ==> 1 <= s[i] <= max
  }

  /** The largest id a draw can produce: `max` itself, except that a random
      number times 0 rounds down to 0, so with `max = 0` every draw is 1. */
  function Top(max: nat): (t: nat)
    ensures t >= 1 && t >= max
    ensures max > 0 ==> t == max
  {
    if max == 0 then 1 else max
  }

  /** Every roll is a possible value of a random number in [0, 1) times
      `max`, rounded down (0 when `max` is 0). */
  predicate ValidRolls(rolls: seq<nat>, max: nat)
  {
    forall i :: 0 <= i < |rolls| ==> rolls[i] < Top(max)
  }

  /** The draw loop as a function: starting from the ids held so far, each
      roll `r` draws the id `r + 1`; a drawn id already held leaves the set
      as it is, and the loop stops as soon as `count` ids are held. `None`
      means the rolls ran out first. */
  function Fill(count: nat, max: nat, ids: seq<int>, rolls: seq<nat>): (r: Option<seq<int>>)
    requires Distinct(ids) && InRange(ids, Top(max)) && |ids| <= count
    requires ValidRolls(rolls, max)
    ensures r.Some? ==> |r.value| == count && Distinct(r.value) && InRange(r.value, Top(max))
    ensures r.Some? ==> r.value[..|ids|] == ids
    decreases |rolls|
  {
    if |ids| >= count then Some(ids)
    else if rolls == [] then None
    else
      var id := rolls[0] + 1;
      var ids' := if id in ids then ids else ids + [id];
      assert ids'[..|ids|] == ids;
      var r := Fill(count, max, ids', rolls[1..]);
      assert r.Some? ==> r.value[..|ids|] == r.value[..|ids'|][..|ids|];
      r
  }

  /** `getRandomPokemonIds(count, max)`: grows a set of ids drawn from
      [1, max] (only 1 when `max` is 0) until it holds `count` of them and returns them in the order
      they were first drawn. */
  method GetRandomPokemonIds(count: nat, max: nat, rolls: seq<nat>) returns (r: Option<seq<int>>)
    requires ValidRolls(rolls, max)
    ensures r == Fill(count, max, [], rolls)
    ensures r.Some? ==> |r.value| == count && Distinct(r.value) && InRange(r.value, Top(max))
  {
    var ids: seq<int> := [];
    var i := 0;
    while |ids| < count && i < |rolls|
      invariant 0 <= i <= |rolls|
      invariant Distinct(ids) && InRange(ids, Top(max)) && |ids| <= count
      invariant Fill(count, max, ids, rolls[i..]) == Fill(count, max, [], rolls)
    {
      assert rolls[i..][1..] == rolls[i + 1..];
      var id := rolls[i] + 1;
      if id !in ids {
        ids := ids + [id];
      }
      i := i + 1;
    }
    if |ids| == count {
      r := Some(ids);
    } else {
      r := None;
    }
  }

  function Elements(s: seq<int>): set<int>
  {
    set i | 0 <= i < |s| :: s[i]
  }

  /** The ids the rolls would draw. */
  function Drawn(rolls: seq<nat>): set<int>
  {
    set i | 0 <= i < |rolls| :: rolls[i] + 1
  }

  lemma {:induction false} DistinctCard(s: seq<int>)
    requires Distinct(s)
    ensures |Elements(s)| == |s|
  {
    if s != [] {
      var t := s[..|s| - 1];
      DistinctCard(t);
      assert Elements(s) == Elements(t) + {s[|s| - 1]};
      assert s[|s| - 1] !in Elements(t);
    }
  }

  lemma DrawnCons(rolls: seq<nat>)
    requires rolls != []
    ensures Drawn(rolls) == {rolls[0] + 1} + Drawn(rolls[1..])
  {
  }

  /** Adding a drawn id to the held ones, as the loop body does. */
  lemma ElementsAdd(ids: seq<int>, id: int)
    ensures Elements(if id in ids then ids else ids + [id]) == Elements(ids) + {id}
  {
    if id in ids {
      var k :| 0 <= k < |ids| && ids[k] == id;
    } else {
      var ids' := ids + [id];
      forall x | x in Elements(ids') ensures x in Elements(ids) + {id} {
        var k :| 0 <= k < |ids'| && ids'[k] == x;
      }
      forall x | x in Elements(ids) ensures x in Elements(ids') {
        var k :| 0 <= k < |ids| && ids[k] == x;
        assert ids'[k] == x;
      }
      assert ids'[|ids|] == id;
    }
  }

  /** The draw fills up exactly when the rolls, together with the ids already
      held, name at least `count` different ids. */
  lemma {:induction false} FillSucceedsIff(count: nat, max: nat, ids: seq<int>, rolls: seq<nat>)
    requires Distinct(ids) && InRange(ids, Top(max)) && |ids| <= count
    requires ValidRolls(rolls, max)
    ensures Fill(count, max, ids, rolls).Some? <==> count <= |Elements(ids) + Drawn(rolls)|
    decreases |rolls|
  {
    DistinctCard(ids);
    if |ids| >= count {
      SubsetCard(Elements(ids), Elements(ids) + Drawn(rolls));
    } else if rolls == [] {
      assert Elements(ids) + Drawn(rolls) == Elements(ids);
    } else {
      var ids' := if rolls[0] + 1 in ids then ids else ids + [rolls[0] + 1];
      FillStep(count, max, ids, rolls);
      FillSucceedsIff(count, max, ids', rolls[1..]);
    }
  }

  /** Adding a drawn id in range keeps the held ids distinct and in range. */
  lemma AddIdKeeps(ids: seq<int>, id: int, bound: int)
    requires Distinct(ids) && InRange(ids, bound) && 1 <= id <= bound
    ensures var ids' := if id in ids then ids else ids + [id];
            && Distinct(ids') && InRange(ids', bound) && |ids'| <= |ids| + 1
            && Elements(ids') == Elements(ids) + {id}
  {
    ElementsAdd(ids, id);
  }

  /** One turn of the draw loop: the set of ids named so far is unchanged. */
  lemma FillStep(count: nat, max: nat, ids: seq<int>, rolls: seq<nat>)
    requires Distinct(ids) && InRange(ids, Top(max)) && |ids| < count
    requires ValidRolls(rolls, max) && rolls != []
    ensures var ids' := if rolls[0] + 1 in ids then ids else ids + [rolls[0] + 1];
            && Distinct(ids') && InRange(ids', Top(max)) && |ids'| <= count
            && Fill(count, max, ids, rolls) == Fill(count, max, ids', rolls[1..])
            && Elements(ids') + Drawn(rolls[1..]) == Elements(ids) + Drawn(rolls)
  {
    var id := rolls[0] + 1;
    var ids' := if id in ids then ids else ids + [id];
    assert 1 <= id <= Top(max);
    AddIdKeeps(ids, id, Top(max));
    DrawnCons(rolls);
    UnionStep(Elements(ids), Elements(ids'), Drawn(rolls), Drawn(rolls[1..]), id);
  }

  /** Moving one id from the rolls to the held set leaves their union as it is. */
  lemma UnionStep(held: set<int>, held': set<int>, drawn: set<int>, drawn': set<int>, id: int)
    requires held' == held + {id} && drawn == {id} + drawn'
    ensures held' + drawn' == held + drawn
  {
  }

  /** The ids 1, 2, ..., max. */
  function Upto(max: nat): (s: seq<int>)
    ensures |s| == max && Distinct(s) && InRange(s, max)
    ensures forall i :: 0 <= i < max ==> s[i] == i + 1
  {
    seq(max, i => i + 1)
  }

  lemma SubsetCard(a: set<int>, b: set<int>)
    requires a <= b
    ensures |a| <= |b|
  {
    assert b == a + (b - a);
    assert a * (b - a) == {};
  }

  /** A draw can only fill up when `count` is at most the number of ids it
      can produce: `max`, or 1 when `max` is 0. */
  lemma DrawNeedsCountAtMostMax(count: nat, max: nat, rolls: seq<nat>)
    requires ValidRolls(rolls, max)
    requires Fill(count, max, [], rolls).Some?
    ensures count <= Top(max)
    ensures max > 0 ==> count <= max
  {
    var ids := Fill(count, max, [], rolls).value;
    var all := Upto(Top(max));
    DistinctCard(ids);
    DistinctCard(all);
    assert Elements(ids) <= Elements(all) by {
      forall x | x in Elements(ids) ensures x in Elements(all) {
        assert all[x - 1] == x;
      }
    }
    SubsetCard(Elements(ids), Elements(all));
  }

  /** The rolls 0, 1, ..., count - 1 fill the draw whenever `count` is at
      most the number of ids it can produce, so every such draw can succeed. */
  lemma DrawCanSucceed(count: nat, max: nat)
    requires count <= Top(max)
    ensures var rolls := seq(count, i => i);
            ValidRolls(rolls, max) && Fill(count, max, [], rolls).Some?
  {
    var rolls: seq<nat> := seq(count, i => i);
    FillSucceedsIff(count, max, [], rolls);
    assert Elements([]) == {};
    assert Drawn(rolls) == Elements(Upto(count)) by {
      forall x | x in Elements(Upto(count)) ensures x in Drawn(rolls) {
        assert x == rolls[x - 1] + 1;
      }
      forall x | x in Drawn(rolls) ensures x in Elements(Upto(count)) {
        var k :| 0 <= k < count && x == rolls[k] + 1;
        assert Upto(count)[k] == x;
      }
    }
    DistinctCard(Upto(count));
  }

  /** With `max = 0` every draw is the id 1, so asking for one id fills
      with [1] while asking for two can never fill. */
  lemma DrawWithZeroMax(rolls: seq<nat>)
    requires ValidRolls(rolls, 0) && rolls != []
    ensures Fill(1, 0, [], rolls) == Some([1])
    ensures Fill(2, 0, [], rolls).None?
  {
    assert rolls[0] == 0;
    if Fill(2, 0, [], rolls).Some? {
      DrawNeedsCountAtMostMax(2, 0, rolls);
    }
  }

  /** `arr` without its element at index `k`. */
  function RemoveAt<T>(arr: seq<T>, k: nat): (rest: seq<T>)
    requires k < |arr|
    ensures |rest| == |arr| - 1
  {
    arr[..k] + arr[k + 1..]
  }

  lemma RemoveAtMultiset<T>(arr: seq<T>, k: nat)
    requires k < |arr|
    ensures multiset(RemoveAt(arr, k)) == multiset(arr) - multiset{arr[k]}
  {
    assert arr == arr[..k] + [arr[k]] + arr[k + 1..];
  }

  /** `shuffleArray(arr)` returns a reordered copy of `arr`; `arr` itself, a
      value here, is untouched. The comparator sort's order is left to the
      oracle: `picks[j]` chooses which of the remaining elements comes next
      (one out of range chooses the first, as do missing picks). */
  function ShuffleArray<T>(arr: seq<T>, picks: seq<nat>): (r: seq<T>)
    ensures |r| == |arr|
    decreases |arr|
  {
    if arr == [] then []
    else
      var pick := if picks == [] then 0 else picks[0];
      var k := if pick < |arr| then pick else 0;
      [arr[k]] + ShuffleArray(RemoveAt(arr, k), if picks == [] then [] else picks[1..])
  }

  /** The shuffle returns a permutation: the same elements, each as often. */
  lemma {:induction false} ShufflePermutes<T>(arr: seq<T>, picks: seq<nat>)
    ensures multiset(ShuffleArray(arr, picks)) == multiset(arr)
    decreases |arr|
  {
    if arr != [] {
      var pick := if picks == [] then 0 else picks[0];
      var k := if pick < |arr| then pick else 0;
      var rest, picks' := RemoveAt(arr, k), if picks == [] then [] else picks[1..];
      var tail := ShuffleArray(rest, picks');
      assert ShuffleArray(arr, picks) == [arr[k]] + tail;
      ShufflePermutes(rest, picks');
      RemoveAtMultiset(arr, k);
      assert arr[k] in multiset(arr);
      calc {
        multiset(ShuffleArray(arr, picks));
        multiset{arr[k]} + multiset(tail);
        multiset{arr[k]} + (multiset(arr) - multiset{arr[k]});
        multiset(arr);
      }
    }
  }

  /** A pick `k` below the length puts `arr[k]` first. */
  lemma ShuffleFirstPick<T>(arr: seq<T>, k: nat, picks: seq<nat>)
    requires k < |arr|
    ensures ShuffleArray(arr, [k] + picks) == [arr[k]] + ShuffleArray(RemoveAt(arr, k), picks)
  {
  }

  /** Every permutation of `arr` is the result of some oracle, so the model
      admits exactly the orders a shuffle may produce. */
  lemma {:induction false} ShuffleReachesEvery<T>(arr: seq<T>, p: seq<T>) returns (picks: seq<nat>)
    requires multiset(p) == multiset(arr)
    ensures ShuffleArray(arr, picks) == p
    decreases |arr|
  {
    if p == [] {
      picks := [];
    } else {
      assert p[0] in multiset(arr);
      var k: nat :| k < |arr| && arr[k] == p[0];
      var rest := RemoveAt(arr, k);
      RemoveAtMultiset(arr, k);
      assert p == [p[0]] + p[1..];
      assert multiset(p[1..]) == multiset(rest) by {
        assert multiset(p) == multiset{p[0]} + multiset(p[1..]);
      }
      var sub := ShuffleReachesEvery(rest, p[1..]);
      ShuffleFirstPick(arr, k, sub);
      picks := [k] + sub;
    }
  }
}

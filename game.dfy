/** The click state machine of the `MemoryGame` component
    (src/MemoryGame.jsx): the state `pokemonCards`, `clickedIds`, `score`,
    `highScore` and `loading`, the click handler `handleCardClick`, and the
    point where a card load settles. `Step` is the handler as a pure
    transition on a `Round`; `MemoryGame` is the component with its fields
    updated in place, proved to follow `Step`; the lemmas state what holds
    across any sequence of events. */
module Game {
  import opened Wrappers
  import opened Cards
  import opened Deck

  /** Number of cards dealt per round; clicking all of them once wins. */
  const NUM_CARDS: nat := 12

  /** The draw that starts each load: `NUM_CARDS` ids out of the first
      `MAX_POKEDEX` catalog entries. */
  method DrawRoundIds(rolls: seq<nat>) returns (r: Option<seq<int>>)
    requires ValidRolls(rolls, MAX_POKEDEX)
    ensures r == Fill(NUM_CARDS, MAX_POKEDEX, [], rolls)
    ensures r.Some? ==> |r.value| == NUM_CARDS && Distinct(r.value) && InRange(r.value, MAX_POKEDEX)
  {
    r := GetRandomPokemonIds(NUM_CARDS, MAX_POKEDEX, rolls);
  }

  /** The component's draw can always fill: twelve ids fit in 649. */
  lemma RoundDrawCanFill()
    ensures var rolls := seq(NUM_CARDS, i => i);
            ValidRolls(rolls, MAX_POKEDEX) && Fill(NUM_CARDS, MAX_POKEDEX, [], rolls).Some?
  {
    DrawCanSucceed(NUM_CARDS, MAX_POKEDEX);
  }

  /** A snapshot of the component state. */
  datatype Round = Round(cards: seq<Card>, clickedIds: seq<int>, score: int, highScore: int, loading: bool)

  /** What a click did: clicked a card twice, scored, or scored the last card. */
  datatype Outcome = Repeat | Scored | Won

  datatype Transition = Transition(next: Round, outcome: Outcome)

  /** What can happen to the component: a click on a tile (with the oracle
      for the reshuffle it may cause) or the settling of the card load that
      was in flight (`None` when a request or its parsing failed). */
  datatype Event = Click(id: int, picks: seq<nat>) | Settled(fetched: Option<seq<RawPokemon>>)

  function CardIds(cards: seq<Card>): set<int>
  {
    set c | c in cards :: c.id
  }

  /** The state on mount: no cards yet and the first load in flight. */
  const Initial: Round := Round([], [], 0, 0, true)

  /** What holds in every reachable state. */
  predicate Inv(r: Round)
  {
    && r.score == |r.clickedIds|
    && Distinct(r.clickedIds)
    && 0 <= r.score < NUM_CARDS
    && r.score <= r.highScore <= NUM_CARDS
    && (forall x :: x in r.clickedIds ==> x in CardIds(r.cards))
    && (r.loading ==> r.clickedIds == [])
  }

  /** `handleCardClick(id)`. A repeat click clears the round and starts a
      reload, keeping the high score. A new click records the id, adds one to
      the score and raises the high score to it if it is higher; if that
      makes `NUM_CARDS` the round is cleared and a reload starts (the
      recorded id is dropped again), otherwise the cards are reshuffled. */
  function Step(r: Round, id: int, picks: seq<nat>): (t: Transition)
    ensures id in r.clickedIds ==>
      && t.outcome == Repeat
      && t.next == r.(clickedIds := [], score := 0, loading := true)
    ensures id !in r.clickedIds ==> t.next.highScore == Max(r.highScore, r.score + 1)
    ensures id !in r.clickedIds && r.score + 1 == NUM_CARDS ==>
      && t.outcome == Won
      && t.next.clickedIds == [] && t.next.score == 0 && t.next.loading
      && t.next.cards == r.cards && t.next.highScore >= NUM_CARDS
    ensures id !in r.clickedIds && r.score + 1 != NUM_CARDS ==>
      && t.outcome == Scored
      && t.next.clickedIds == r.clickedIds + [id] && t.next.score == r.score + 1
      && multiset(t.next.cards) == multiset(r.cards) && t.next.loading == r.loading
    ensures t.next.highScore >= r.highScore
  {
    if id in r.clickedIds then
      Transition(r.(clickedIds := [], score := 0, loading := true), Repeat)
    else
      var newScore := r.score + 1;
      var highScore := if newScore > r.highScore then newScore else r.highScore;
      if newScore == NUM_CARDS then
        Transition(r.(clickedIds := [], score := 0, highScore := highScore, loading := true), Won)
      else
        ShufflePermutes(r.cards, picks);
        Transition(r.(cards := ShuffleArray(r.cards, picks), clickedIds := r.clickedIds + [id],
                      score := newScore, highScore := highScore), Scored)
  }

  /** The end of `fetchRandomPokemon`: on success the fetched records replace
      the cards; on failure the cards stay; either way loading ends. */
  function Load(r: Round, fetched: Option<seq<RawPokemon>>): (r': Round)
    ensures !r'.loading
    ensures r'.clickedIds == r.clickedIds && r'.score == r.score && r'.highScore == r.highScore
    ensures fetched.Some? ==> |r'.cards| == |fetched.value|
    ensures fetched.Some? ==> forall i :: 0 <= i < |fetched.value| ==> r'.cards[i] == ToCard(fetched.value[i])
    ensures fetched.None? ==> r'.cards == r.cards
  {
    match fetched
    case Some(results) => r.(cards := MapPokemon(results), loading := false)
    case None => r.(loading := false)
  }

  /** Whether a click reaches the handler: tiles are only drawn when no load
      is in flight, and a click can only land on a drawn tile. */
  predicate Clickable(r: Round, id: int)
  {
    !r.loading && id in CardIds(r.cards)
  }

  /** One event applied to the state. Events that cannot happen in the
      component (a click with no tile under it, a settling with no load in
      flight) leave the state unchanged. */
  function Apply(r: Round, e: Event): Round
  {
    match e
    case Click(id, picks) => if Clickable(r, id) then Step(r, id, picks).next else r
    case Settled(fetched) => if r.loading then Load(r, fetched) else r
  }

  /** A sequence of events applied in order. */
  function Run(r: Round, es: seq<Event>): Round
    decreases |es|
  {
    if es == [] then r else Apply(Run(r, es[..|es| - 1]), es[|es| - 1])
  }

  /** The score an event reaches: one more than before for a click on a card
      not clicked yet in the round; nothing for any other event. */
  function ReachedBy(r: Round, e: Event): seq<int>
  {
    match e
    case Click(id, _) => if Clickable(r, id) && id !in r.clickedIds then [r.score + 1] else []
    case Settled(_) => []
  }

  /** The scores reached along a run, in order. */
  function Reached(r: Round, es: seq<Event>): seq<int>
    decreases |es|
  {
    if es == [] then [] else Reached(r, es[..|es| - 1]) + ReachedBy(Run(r, es[..|es| - 1]), es[|es| - 1])
  }

  /** The largest of `m` and the elements of `s`. */
  function Peak(m: int, s: seq<int>): (p: int)
    ensures p >= m
    ensures forall i :: 0 <= i < |s| ==> s[i] <= p
    ensures p == m || p in s
    decreases |s|
  {
    if s == [] then m
    else
      var s' := s[..|s| - 1];
      assert s == s' + [s[|s| - 1]];
      Max(Peak(m, s'), s[|s| - 1])
  }

  lemma PeakAppend(m: int, s: seq<int>, t: seq<int>)
    requires |t| <= 1
    ensures Peak(m, s + t) == if t == [] then Peak(m, s) else Max(Peak(m, s), t[0])
  {
    if t == [] {
      assert s + t == s;
    } else {
      assert (s + t)[..|s + t| - 1] == s;
    }
  }

  /** A reshuffle keeps the set of displayed card ids. */
  lemma PermutationKeepsIds(a: seq<Card>, b: seq<Card>)
    requires multiset(a) == multiset(b)
    ensures CardIds(a) == CardIds(b)
  {
    forall x | x in CardIds(a) ensures x in CardIds(b) {
      var c :| c in a && c.id == x;
      assert c in multiset(b);
    }
    forall x | x in CardIds(b) ensures x in CardIds(a) {
      var c :| c in b && c.id == x;
      assert c in multiset(a);
    }
  }

  /** A click on a displayed card keeps the invariant. */
  lemma StepKeepsInv(r: Round, id: int, picks: seq<nat>)
    requires Inv(r) && Clickable(r, id)
    ensures Inv(Step(r, id, picks).next)
  {
    var t := Step(r, id, picks);
    if id !in r.clickedIds && r.score + 1 != NUM_CARDS {
      PermutationKeepsIds(r.cards, t.next.cards);
      var s := t.next.clickedIds;
      assert forall i :: 0 <= i < |s| - 1 ==> s[i] == r.clickedIds[i];
    }
  }

  lemma ApplyKeepsInv(r: Round, e: Event)
    requires Inv(r)
    ensures Inv(Apply(r, e))
  {
    if e.Click? && Clickable(r, e.id) {
      StepKeepsInv(r, e.id, e.picks);
    }
  }

  /** The invariant holds after any sequence of events from any state that
      satisfies it, in particular from the initial state. */
  lemma {:induction false} RunKeepsInv(r: Round, es: seq<Event>)
    requires Inv(r)
    ensures Inv(Run(r, es))
    decreases |es|
  {
    if es != [] {
      RunKeepsInv(r, es[..|es| - 1]);
      ApplyKeepsInv(Run(r, es[..|es| - 1]), es[|es| - 1]);
    }
  }

  lemma InitialInv()
    ensures Inv(Initial)
  {
  }

  /** The high score is always the largest score reached so far: at least
      every score the run reached, and either its starting value or one of
      those scores. */
  lemma {:induction false} HighScoreIsPeak(r: Round, es: seq<Event>)
    ensures Run(r, es).highScore == Peak(r.highScore, Reached(r, es))
    decreases |es|
  {
    if es != [] {
      var init, e := es[..|es| - 1], es[|es| - 1];
      HighScoreIsPeak(r, init);
      PeakAppend(r.highScore, Reached(r, init), ReachedBy(Run(r, init), e));
    }
  }

  /** The high score never goes down along a run: it is at least as high
      after the whole run as after any prefix of it. */
  lemma {:induction false} HighScoreMonotone(r: Round, es: seq<Event>, k: nat)
    requires k <= |es|
    ensures Run(r, es[..k]).highScore <= Run(r, es).highScore
    decreases |es| - k
  {
    if k < |es| {
      var init := es[..|es| - 1];
      assert es[..k] == init[..k];
      HighScoreMonotone(r, init, k);
      var e := es[|es| - 1];
      if e.Click? && Clickable(Run(r, init), e.id) {
        assert Run(r, es) == Step(Run(r, init), e.id, e.picks).next;
      }
    } else {
      assert es[..k] == es;
    }
  }

  lemma RunPrefix(r: Round, es: seq<Event>, k: nat)
    requires 0 < k <= |es|
    ensures Run(r, es[..k]) == Apply(Run(r, es[..k - 1]), es[k - 1])
  {
    assert es[..k][..k - 1] == es[..k - 1];
  }

  /** A click on a displayed card not clicked yet, below the winning score. */
  lemma ScoredClick(r: Round, e: Event)
    requires e.Click? && Clickable(r, e.id) && e.id !in r.clickedIds && r.score + 1 < NUM_CARDS
    ensures var s := Apply(r, e);
      && s.clickedIds == r.clickedIds + [e.id] && s.score == r.score + 1
      && multiset(s.cards) == multiset(r.cards) && s.loading == r.loading
      && s.highScore == Max(r.highScore, r.score + 1)
  {
  }

  /** The first `k < NUM_CARDS` clicks on `k` different displayed cards of a
      fresh round are all scored: the clicked ids are those of the clicks in
      order, the score is `k`, and the cards are only reordered. */
  lemma {:induction false} DistinctClicksScore(r: Round, es: seq<Event>, k: nat)
    requires Inv(r) && !r.loading && r.clickedIds == []
    requires k < NUM_CARDS && k <= |es|
    requires forall i :: 0 <= i < |es| ==> es[i].Click? && es[i].id in CardIds(r.cards)
    requires forall i, j :: 0 <= i < j < |es| ==> es[i].id != es[j].id
    ensures var s := Run(r, es[..k]);
      && |s.clickedIds| == k == s.score
      && (forall i :: 0 <= i < k ==> s.clickedIds[i] == es[i].id)
      && multiset(s.cards) == multiset(r.cards)
      && !s.loading
      && s.highScore == Max(r.highScore, k)
    decreases k
  {
    if k > 0 {
      DistinctClicksScore(r, es, k - 1);
      var prev := Run(r, es[..k - 1]);
      var e := es[k - 1];
      RunPrefix(r, es, k);
      assert e.id !in prev.clickedIds by {
        forall i | 0 <= i < |prev.clickedIds| ensures prev.clickedIds[i] != e.id {
          assert prev.clickedIds[i] == es[i].id;
        }
      }
      PermutationKeepsIds(prev.cards, r.cards);
      ScoredClick(prev, e);
      var s := Run(r, es[..k]);
      forall i | 0 <= i < k ensures s.clickedIds[i] == es[i].id {
        if i < k - 1 {
          assert s.clickedIds[i] == prev.clickedIds[i];
        }
      }
    } else {
      assert es[..0] == [];
    }
  }

  /** Clicking each of `NUM_CARDS` displayed cards exactly once wins the
      round: the last click clears the round, starts a reload and leaves the
      high score at `NUM_CARDS`. */
  lemma ClickingEachCardOnceWins(r: Round, es: seq<Event>)
    requires Inv(r) && !r.loading && r.clickedIds == []
    requires |es| == NUM_CARDS
    requires forall i :: 0 <= i < |es| ==> es[i].Click? && es[i].id in CardIds(r.cards)
    requires forall i, j :: 0 <= i < j < |es| ==> es[i].id != es[j].id
    ensures Run(r, es).clickedIds == [] && Run(r, es).score == 0 && Run(r, es).loading
    ensures Run(r, es).highScore == NUM_CARDS
  {
    DistinctClicksScore(r, es, NUM_CARDS - 1);
    var prev := Run(r, es[..NUM_CARDS - 1]);
    var e := es[NUM_CARDS - 1];
    assert e.id !in prev.clickedIds by {
      forall i | 0 <= i < |prev.clickedIds| ensures prev.clickedIds[i] != e.id {
        assert prev.clickedIds[i] == es[i].id;
      }
    }
    PermutationKeepsIds(prev.cards, r.cards);
    assert es[..NUM_CARDS] == es;
    assert Run(r, es) == Step(prev, e.id, e.picks).next;
  }

  /** The component. Its fields are the state hooks of `MemoryGame`; the
      methods update them in place as the handlers do. */
  class MemoryGame {
    var pokemonCards: seq<Card>
    var clickedIds: seq<int>
    var score: int
    var highScore: int
    var loading: bool

    function State(): Round
      reads this
    {
      Round(pokemonCards, clickedIds, score, highScore, loading)
    }

    ghost predicate Valid()
      reads this
    {
      Inv(State())
    }

    /** Mounting: empty state, the first load in flight. */
    constructor ()
      ensures Valid() && State() == Initial
    {
      pokemonCards := [];
      clickedIds := [];
      score := 0;
      highScore := 0;
      loading := true;
    }

    /** `handleCardClick(id)` on a displayed card; `reload` tells whether it
        started a new card load. */
    method HandleCardClick(id: int, picks: seq<nat>) returns (reload: bool)
      requires Valid() && Clickable(State(), id)
      modifies this
      ensures Valid()
      ensures State() == Step(old(State()), id, picks).next
      ensures reload == loading
      ensures reload <==> id in old(clickedIds) || old(score) + 1 == NUM_CARDS
      ensures id in old(clickedIds) ==>
        clickedIds == [] && score == 0 && highScore == old(highScore) && pokemonCards == old(pokemonCards)
      ensures id !in old(clickedIds) ==> highScore == Max(old(highScore), old(score) + 1)
      ensures id !in old(clickedIds) && old(score) + 1 < NUM_CARDS ==>
        && clickedIds == old(clickedIds) + [id] && score == old(score) + 1
        && multiset(pokemonCards) == multiset(old(pokemonCards))
      ensures id !in old(clickedIds) && old(score) + 1 == NUM_CARDS ==>
        clickedIds == [] && score == 0 && highScore >= NUM_CARDS
    {
      ghost var t := Step(State(), id, picks);
      StepKeepsInv(State(), id, picks);
      if id in clickedIds {
        clickedIds := [];
        score := 0;
        loading := true;
        reload := true;
        assert State() == t.next;
      } else {
        var newScore := score + 1;
        clickedIds := clickedIds + [id];
        score := newScore;
        if newScore > highScore {
          highScore := newScore;
        }
        if newScore == NUM_CARDS {
          clickedIds := [];
          score := 0;
          loading := true;
          reload := true;
          assert State() == t.next;
        } else {
          pokemonCards := ShuffleArray(pokemonCards, picks);
          reload := false;
          assert State() == t.next;
        }
      }
    }

    /** The in-flight load settles: `fetched` holds the records on success
        and is `None` when a request or its parsing failed. */
    method FetchSettled(fetched: Option<seq<RawPokemon>>)
      requires Valid() && loading
      modifies this
      ensures Valid()
      ensures State() == Load(old(State()), fetched)
      ensures !loading && clickedIds == old(clickedIds) && score == old(score) && highScore == old(highScore)
      ensures fetched.None? ==> pokemonCards == old(pokemonCards)
      ensures fetched.Some? ==> pokemonCards == MapPokemon(fetched.value)
    {
      if fetched.Some? {
        pokemonCards := MapPokemon(fetched.value);
      }
      loading := false;
    }
  }
}

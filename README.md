# Pokémon memory card game — verified model of the game-state core

The game (`src/MemoryGame.jsx`) deals twelve random Pokémon cards drawn
from the first 649 catalog entries. The player clicks cards one at a time,
and every click on a card not clicked before in the round scores a point.
A repeat click loses: the round is cleared and new cards are loaded.
Clicking all twelve cards once wins: the round is also cleared and new
cards are loaded. Between clicks the cards are reshuffled. A high score
persists across rounds within the session.

This project models that core in Dafny:

- `wrappers.dfy` — `Option` (the component's `false` / `null` sentinels) and `Max`.
- `cards.dfy` (module `Cards`) — a fetched catalog record mapped to a
  card (capitalised name, primary type defaulting to `"normal"`, optional
  secondary type), the tile's type label, and the colour lookup in
  `typeColors` with its `"#AAA"` fallback.
- `deck.dfy` (module `Deck`) — `getRandomPokemonIds`, a loop growing a
  set of distinct ids in [1, max], and `shuffleArray`. `Math.random` is
  replaced by an oracle sequence the caller supplies.
- `game.dfy` (module `Game`) — the component state `pokemonCards`,
  `clickedIds`, `score`, `highScore` and `loading`. `Step` is the click
  handler as a pure transition on a `Round` snapshot, and `Load` is the
  end of a card load. `Apply`/`Run` replay any sequence of events. The
  class `MemoryGame` holds the state as fields: `HandleCardClick` updates
  them in place and is proved to follow `Step`, and `FetchSettled` is
  proved to follow `Load`. Lemmas state what holds across every event
  sequence: `score == |clickedIds|`, the clicked ids are distinct cards on
  the table, and `score < NUM_CARDS`. The high score never decreases and
  always equals the largest score reached. Clicking each of the twelve
  cards once wins.

Three details of the code shape the model:

- The clicked ids are an ordered list, extended by appending.
- A reshuffle reorders all cards, the clicked ones included.
- A failed load clears `loading` in its `finally` clause and leaves the
  previous cards on the table (`Load` with `None`).

## Model

| member | source | states |
|---|---|---|
| `Cards.Capitalize` | src/MemoryGame.jsx:59-61 | same length as the species name; the first character is upper-cased and the rest kept; the empty name stays empty; the result never starts with a lower-case letter |
| `Cards.CapitalizeIdempotent` | src/MemoryGame.jsx:59-61 | capitalising an already capitalised name changes nothing |
| `Cards.PrimaryType` | src/MemoryGame.jsx:62 | never empty; the first type's name when there is a non-empty one, "normal" when the list is empty or the name is empty |
| `Cards.SecondaryType` | src/MemoryGame.jsx:63-65 | present exactly when a second type entry exists, and then that entry's name (even an empty one) |
| `Cards.ToCard` | src/MemoryGame.jsx:59-72 | a card keeps the record's id and sprite; its name is the capitalised species name, its type1 the primary type and its type2 the secondary type as specified above; so the name has the species name's length and no lower-case initial, type1 is non-empty, and type2 is present exactly when the record lists two types |
| `Cards.MapPokemon` | src/MemoryGame.jsx:58-73 | one card per fetched record, in the batch's order, each carrying its record's id |
| `Cards.TypeLabel` | src/MemoryGame.jsx:154-156 | the label starts with type1; without type2 it is exactly type1; with type2 it continues with "/" and then type2 |
| `Cards.LabelRoundTrip` | src/MemoryGame.jsx:154-156 | reading a label back at its first "/" gives the two types again whenever type1 has no "/" |
| `Cards.CardColor` | src/MemoryGame.jsx:137 | a listed type gets its table colour; the result is "#AAA" exactly for types outside the table |
| `Cards.ColorIdentifiesType` | src/MemoryGame.jsx:6-25 | no two listed types share a colour |
| `Cards.UntypedCardIsNormalColored` | src/MemoryGame.jsx:62 | a record without types is drawn in the colour of "normal" |
| `Deck.Fill` | src/MemoryGame.jsx:28-31 | when the draw fills, it holds exactly `count` distinct ids in [1, max] (in [1, 1] when max is 0), extending the ids held before |
| `Deck.GetRandomPokemonIds` | src/MemoryGame.jsx:27-33 | the loop returns what `Fill` specifies: on success exactly `count` pairwise distinct ids, each in [1, max] (each 1 when max is 0) |
| `Deck.FillSucceedsIff` | src/MemoryGame.jsx:28-31 | the draw fills exactly when the ids already held and the ids the rolls name are at least `count` different values |
| `Deck.DrawNeedsCountAtMostMax` | src/MemoryGame.jsx:27-33 | a draw can only fill when `count <= max`, or `count <= 1` when max is 0 |
| `Deck.DrawWithZeroMax` | src/MemoryGame.jsx:30 | with max 0 every draw is 1: one id fills with [1], two ids never fill |
| `Deck.DrawCanSucceed` | src/MemoryGame.jsx:27-33 | for every `count <= max` (`count <= 1` when max is 0) some valid sequence of random values fills the draw |
| `Game.DrawRoundIds` | src/MemoryGame.jsx:48 | the component's draw of `NUM_CARDS` ids from the default `MAX_POKEDEX`: on success 12 distinct ids in [1, 649] |
| `Game.RoundDrawCanFill` | src/MemoryGame.jsx:48 | some valid sequence of random values fills the component's draw of 12 ids out of 649 |
| `Deck.ShuffleArray` | src/MemoryGame.jsx:35-37 | the result is a new sequence of the input's length; the input is a value and is not changed |
| `Deck.ShufflePermutes` | src/MemoryGame.jsx:35-37 | the result holds the same elements as the input, each as often (a permutation) |
| `Deck.ShuffleReachesEvery` | src/MemoryGame.jsx:35-37 | every permutation of the input is produced by some sequence of random choices |
| `Game.Step` | src/MemoryGame.jsx:87-111 | repeat click: ids cleared, score 0, reload started, high score and cards kept. New click: high score becomes max(high score, score + 1). Reaching `NUM_CARDS`: win, ids cleared, score 0, reload started, cards kept, high score at least `NUM_CARDS`. Otherwise: id appended, score + 1, cards a permutation of the old ones, no reload |
| `Game.Load` | src/MemoryGame.jsx:75-80 | loading ends in every case; on success the cards are the mapped records, on failure the cards are unchanged; ids and scores untouched |
| `Game.PermutationKeepsIds` | src/MemoryGame.jsx:108 | reshuffled cards show the same set of card ids |
| `Game.StepKeepsInv` | src/MemoryGame.jsx:87-111 | a click on a displayed card keeps `score == \|clickedIds\|`, distinct clicked ids that are displayed card ids, `score < NUM_CARDS`, `score <= highScore <= NUM_CARDS` and no clicked ids while loading |
| `Game.ApplyKeepsInv` | src/MemoryGame.jsx:75-111 | every event, click or finished load, keeps that invariant |
| `Game.RunKeepsInv` | src/MemoryGame.jsx:40-111 | the invariant holds after any sequence of events |
| `Game.InitialInv` | src/MemoryGame.jsx:40-44 | the state on mount satisfies the invariant |
| `Game.HighScoreIsPeak` | src/MemoryGame.jsx:95-100 | after any run the high score equals the largest of its starting value and all the scores reached |
| `Game.HighScoreMonotone` | src/MemoryGame.jsx:98-100 | the high score after a run is at least the high score after any prefix of it |
| `Game.DistinctClicksScore` | src/MemoryGame.jsx:93-108 | in a fresh round, k < `NUM_CARDS` clicks on different displayed cards give score k, the clicked ids in click order, reordered cards, no reload, and high score max(old, k) |
| `Game.ClickingEachCardOnceWins` | src/MemoryGame.jsx:101-105 | clicking `NUM_CARDS` different displayed cards in a fresh round ends in a cleared round with a reload started and high score `NUM_CARDS` |
| `Game.MemoryGame.constructor` | src/MemoryGame.jsx:40-44 | on mount there are no cards, no clicked ids, score and high score are 0, and a load is in flight |
| `Game.MemoryGame.HandleCardClick` | src/MemoryGame.jsx:87-111 | the fields after a click equal `Step` of the fields before, and the invariant is kept. A reload is requested exactly on a repeat click or a win. The repeat, new-click, win and high-score cases are spelt out on the fields |
| `Game.MemoryGame.FetchSettled` | src/MemoryGame.jsx:75-80 | the fields after a load settles equal `Load` of the fields before: loading ends, cards are replaced only on success, and the invariant is kept |

## Left out

- Network I/O (`fetch`, `Promise.all`, JSON parsing, src/MemoryGame.jsx:51-57) is not modelled. A finished load is an input to `FetchSettled` / `Load`: the fetched records on success, `None` on any failure. The model does not tie the fetched records' ids to the drawn ids, and it does not model the order of the requests.
- `Math.random` is replaced by oracle sequences. The statistical quality of the draw and of the comparator shuffle is not modelled.
- Deck.GetRandomPokemonIds: the model reads a finite sequence of random values and returns `None` if they run out before `count` distinct ids are drawn. The source keeps drawing, and ends with probability 1 when `count <= max`.
- Deck.ShuffleArray: the engine's sort algorithm under an inconsistent comparator is not modelled. The model allows any permutation, and `ShuffleReachesEvery` shows that it allows exactly those.
- Cards.Capitalize: `toUpperCase` is modelled for the ASCII letters only. Other characters are kept as they are, including characters whose upper case differs or is longer (such as "ß").
- Cards.CardColor: a JavaScript object lookup would also find inherited properties (a type named "constructor" would get a function). The model only looks up the 18 listed types.
- Cards.PrimaryType: only the empty string is treated as a falsy type name. A null name is not modelled, because names are strings.
- Overlapping loads are not modelled. The model has at most one load in flight, and a load can only settle while `loading` is set. The race in which a stale load overwrites newer cards is therefore absent. Clicks cannot start a second load, because tiles are only drawn while `loading` is false. Loads overlap only when the mount effect (src/MemoryGame.jsx:83-85) runs twice, which React does in development under the `StrictMode` wrapper (src/main.jsx:7-9).
- Game.MemoryGame.HandleCardClick: it requires a click on a displayed card while no load is in flight, because only rendered tiles can be clicked. `Apply` ignores any other click.
- React specifics are not modelled: `useState` batching, the `useEffect` that starts the first load, JSX rendering and styling, `alert("You win!")` (shown only as the `Won` outcome) and `console.error`.
- src/main.jsx only mounts the component and is not part of this model.

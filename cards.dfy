/** Mapping of a fetched catalog record to a card (src/MemoryGame.jsx, the
    `results.map` inside `fetchRandomPokemon`) and the two display helpers the
    card tiles use: the type label and the background colour lookup. */
module Cards {
  import opened Wrappers

  /** The fields of one catalog record that the game reads: `id`,
      `species.name`, the names `types[i].type.name` in catalog order, and
      `sprites.front_default` (which the catalog may give as null). */
  datatype RawPokemon = RawPokemon(id: int, speciesName: string, typeNames: seq<string>, frontDefault: Option<string>)

  /** A card as the component stores it; `type2` is `None` where the
      component stores `false`. */
  datatype Card = Card(id: int, name: string, image: Option<string>, type1: string, type2: Option<string>)

  predicate IsLower(c: char) { 'a' <= c <= 'z' }

  predicate IsUpper(c: char) { 'A' <= c <= 'Z' }

  /** `toUpperCase` on one character, for the ASCII letters. */
  function ToUpper(c: char): (u: char)
    ensures IsLower(c) ==> IsUpper(u) && u as int == c as int - 32
    ensures !IsLower(c) ==> u == c
  {
    if IsLower(c) then (c as int - 32) as char else c
  }

  /** The displayed name: the species name with its first character
      upper-cased and the rest kept; the empty name stays empty. */
  function Capitalize(s: string): (r: string)
    ensures |r| == |s|
    ensures |s| > 0 ==> r[0] == ToUpper(s[0])
    ensures forall i :: 1 <= i < |s| ==> r[i] == s[i]
    ensures |r| > 0 ==> !IsLower(r[0])
  {
    if s == [] then [] else [ToUpper(s[0])] + s[1..]
  }

  /** Capitalising a name that is already capitalised changes nothing. */
  lemma CapitalizeIdempotent(s: string)
    ensures Capitalize(Capitalize(s)) == Capitalize(s)
  {
  }

  /** The primary type: the first type's name, or "normal" when there is no
      first entry or its name is the empty string (which JavaScript treats as
      false). */
  function PrimaryType(typeNames: seq<string>): (t: string)
    ensures t != ""
    ensures |typeNames| > 0 && typeNames[0] != "" ==> t == typeNames[0]
    ensures (|typeNames| == 0 || typeNames[0] == "") ==> t == "normal"
  {
    if |typeNames| > 0 && typeNames[0] != "" then typeNames[0] else "normal"
  }

  /** The secondary type: the second type's name whenever a second entry
      exists (even an empty name), else absent (the component's `false`). */
  function SecondaryType(typeNames: seq<string>): (t: Option<string>)
    ensures t.Some? <==> |typeNames| >= 2
    ensures t.Some? ==> t.value == typeNames[1]
  {
    if |typeNames| >= 2 then Some(typeNames[1]) else None
  }

  /** One fetched record mapped to a card. */
  function ToCard(p: RawPokemon): (c: Card)
    ensures c.id == p.id && c.image == p.frontDefault
    ensures c.name == Capitalize(p.speciesName)
    ensures c.type1 == PrimaryType(p.typeNames) && c.type2 == SecondaryType(p.typeNames)
    ensures |c.name| == |p.speciesName| && (|c.name| > 0 ==> !IsLower(c.name[0]))
    ensures c.type1 != ""
    ensures c.type2.Some? <==> |p.typeNames| >= 2
  {
    Card(p.id, Capitalize(p.speciesName), p.frontDefault, PrimaryType(p.typeNames), SecondaryType(p.typeNames))
  }

  /** The whole fetched batch mapped to cards, in the order of the batch. */
  function MapPokemon(results: seq<RawPokemon>): (cards: seq<Card>)
    ensures |cards| == |results|
    ensures forall i :: 0 <= i < |results| ==> cards[i] == ToCard(results[i])
    ensures forall i :: 0 <= i < |results| ==> cards[i].id == results[i].id
  {
    seq(|results|, i requires 0 <= i < |results| => ToCard(results[i]))
  }

  /** The tile's type text: "type1/type2" when a second type is present,
      otherwise "type1". */
  function TypeLabel(type1: string, type2: Option<string>): (text: string)
    ensures |text| >= |type1| && text[..|type1|] == type1
    ensures type2.None? ==> |text| == |type1|
    ensures type2.Some? ==> |text| == |type1| + 1 + |type2.value|
    ensures type2.Some? ==> text[|type1|] == '/' && text[|type1| + 1..] == type2.value
  {
    match type2
    case None => type1
    case Some(t2) => type1 + "/" + t2
  }

  /** The first index of `c` in `s`. */
  function IndexOf(s: string, c: char): (i: nat)
    requires c in s
    ensures i < |s| && s[i] == c && c !in s[..i]
  {
    if s[0] == c then 0 else 1 + IndexOf(s[1..], c)
  }

  /** Reads a label back: the text before the first '/' is the primary type,
      the text after it (if there is a '/') the secondary type. */
  function ParseLabel(text: string): (string, Option<string>)
  {
    if '/' in text then
      var i := IndexOf(text, '/');
      (text[..i], Some(text[i + 1..]))
    else
      (text, None)
  }

  /** A text determines the types it shows, as long as the primary type
      contains no '/' (no catalog type name does). */
  lemma LabelRoundTrip(type1: string, type2: Option<string>)
    requires '/' !in type1
    ensures ParseLabel(TypeLabel(type1, type2)) == (type1, type2)
  {
  }

  /** The colour shown for a type outside the table. */
  const Fallback: string := "#AAA"

  /** `typeColors`: the background colour of each of the 18 catalog types. */
  const TypeColors: map<string, string> := map[
    "normal" := "#A8A77A",
    "fire" := "#EE8130",
    "water" := "#6390F0",
    "electric" := "#F7D02C",
    "grass" := "#7AC74C",
    "ice" := "#96D9D6",
    "fighting" := "#C22E28",
    "poison" := "#A33EA1",
    "ground" := "#E2BF65",
    "flying" := "#A98FF3",
    "psychic" := "#F95587",
    "bug" := "#A6B91A",
    "rock" := "#B6A136",
    "ghost" := "#735797",
    "dragon" := "#6F35FC",
    "dark" := "#705746",
    "steel" := "#B7B7CE",
    "fairy" := "#D685AD"
  ]

  /** The tile's background: the table's colour for a listed type and the
      fallback for every other; the fallback is not a table colour, so it
      shows exactly the unlisted types. */
  function CardColor(type1: string): (color: string)
    ensures type1 in TypeColors ==> color == TypeColors[type1]
    ensures color == Fallback <==> type1 !in TypeColors
  {
    if type1 in TypeColors then TypeColors[type1] else Fallback
  }

  /** A card whose record lists no type is drawn in the colour of "normal". */
  lemma UntypedCardIsNormalColored(p: RawPokemon)
    requires p.typeNames == []
    ensures CardColor(ToCard(p).type1) == TypeColors["normal"]
  {
  }

  /** Different listed types get different colours, so a tile's colour
      identifies its primary type. */
  lemma ColorIdentifiesType(t: string, u: string)
    requires t in TypeColors && u in TypeColors
    requires CardColor(t) == CardColor(u)
    ensures t == u
  {
  }
}

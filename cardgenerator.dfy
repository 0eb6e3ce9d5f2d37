/**
 * The deck generator. The time-seeded random source is replaced by an
 * oracle: the sequence of values its five calls of Intn(4) return.
 */
module CardGenerator {

  /** The fixed catalog of card names. */
  const Characters: seq<string> := [
    "Cat card \U{1F63C}",
    "Defuse card \U{1F645}\U{200D}\U{2642}\U{FE0F}",
    "Shuffle card \U{1F500} ",
    "Exploding kitten card \U{1F4A3}"
  ]

  const DeckSize: nat := 5

  /** The catalog has four distinct, non-empty names. */
  lemma CatalogShape()
    ensures |Characters| == 4
    ensures forall i :: 0 <= i < |Characters| ==> Characters[i] != ""
    ensures forall i, j :: 0 <= i < j < |Characters| ==> Characters[i] != Characters[j]
  {
  }

  /** What Intn(4) can return, five times over. */
  predicate ValidDraws(draws: seq<int>)
  {
    |draws| == DeckSize && forall i :: 0 <= i < |draws| ==> 0 <= draws[i] < |Characters|
  }

  /** The deck the draws select: position i holds the catalog entry at draws[i]. */
  function DeckFor(draws: seq<int>): (deck: seq<string>)
    requires ValidDraws(draws)
    ensures |deck| == DeckSize
    ensures forall i :: 0 <= i < |deck| ==> deck[i] in Characters && deck[i] != ""
  {
    seq(DeckSize, i requires 0 <= i < DeckSize => Characters[draws[i]])
  }

  /**
   * GenerateRandomCards: fills a fresh five-slot array, slot i with the
   * catalog entry at the i-th draw.
   */
  method GenerateRandomCards(draws: seq<int>) returns (deck: seq<string>)
    requires ValidDraws(draws)
    ensures |deck| == DeckSize
    ensures forall i :: 0 <= i < DeckSize ==> deck[i] == Characters[draws[i]]
    ensures deck == DeckFor(draws)
  {
    var randomDeck := new string[DeckSize];
    for i := 0 to DeckSize
      invariant forall j :: 0 <= j < i ==> randomDeck[j] == Characters[draws[j]]
    {
      var index := draws[i];
      randomDeck[i] := Characters[index];
    }
    deck := randomDeck[..];
  }

  /** The index of a catalog entry. */
  function IndexOf(name: string): (i: nat)
    requires name in Characters
    ensures i < |Characters| && Characters[i] == name
  {
    if name == Characters[0] then 0
    else if name == Characters[1] then 1
    else if name == Characters[2] then 2
    else 3
  }

  /** Every five-card deck over the catalog is produced by some draws: no deck is out of reach. */
  lemma EveryDeckReachable(deck: seq<string>)
    requires |deck| == DeckSize
    requires forall i :: 0 <= i < |deck| ==> deck[i] in Characters
    ensures exists draws :: ValidDraws(draws) && DeckFor(draws) == deck
  {
    var draws := seq(DeckSize, i requires 0 <= i < DeckSize => IndexOf(deck[i]) as int);
    assert ValidDraws(draws);
    assert DeckFor(draws) == deck;
  }
}

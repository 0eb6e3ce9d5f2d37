/**
 * The serialized form of a card list as it sits in the "gameCards" field of
 * a player record. The backend uses JSON; this module stands in for it with a
 * small self-delimiting text format that keeps the two facts the backend
 * depends on: an array element is either a bare string or a card object,
 * and the empty array is the text "[]". Text that is not a well-formed list
 * does not decode.
 *
 * Layout: '[' item* ']', where an item is 's' STR (a string element) or
 * 'o' STR STR (an object with a name and a type), and STR is n copies of '#',
 * then '.', then the n characters of the string.
 */
module CardJson {
  import opened Wrappers

  /** One element of a JSON array. */
  datatype Item = Text(text: string) | Object(name: string, cardType: string)

  function EncodeString(s: string): string
  {
    seq(|s|, _ => '#') + "." + s
  }

  function EncodeItem(item: Item): string
  {
    match item
    case Text(s) => "s" + EncodeString(s)
    case Object(n, t) => "o" + EncodeString(n) + EncodeString(t)
  }

  function EncodeItems(items: seq<Item>): string
  {
    if items == [] then "" else EncodeItem(items[0]) + EncodeItems(items[1..])
  }

  /** json.Marshal of an array. */
  function Encode(items: seq<Item>): (t: string)
    ensures items == [] ==> t == "[]"
  {
    "[" + EncodeItems(items) + "]"
  }

  /** The number of leading '#' characters of t. */
  function Hashes(t: string): (n: nat)
    ensures n <= |t|
    ensures forall i :: 0 <= i < n ==> t[i] == '#'
    ensures n < |t| ==> t[n] != '#'
  {
    if t != [] && t[0] == '#' then 1 + Hashes(t[1..]) else 0
  }

  /** Reads one STR from the front of t and returns it with what follows. */
  function DecodeString(t: string): (r: Option<(string, string)>)
    ensures r.Some? ==> |r.value.1| < |t|
  {
    var n := Hashes(t);
    if n < |t| && t[n] == '.' && 2 * n + 1 <= |t| then
      Some((t[n + 1..2 * n + 1], t[2 * n + 1..]))
    else None
  }

  /** Reads one item from the front of t and returns it with what follows. */
  function DecodeItem(t: string): (r: Option<(Item, string)>)
    ensures r.Some? ==> |r.value.1| < |t|
  {
    if t == [] then None
    else if t[0] == 's' then
      match DecodeString(t[1..])
      case None => None
      case Some((s, rest)) => Some((Text(s), rest))
    else if t[0] == 'o' then
      match DecodeString(t[1..])
      case None => None
      case Some((n, rest)) =>
        match DecodeString(rest)
        case None => None
        case Some((ty, rest')) => Some((Object(n, ty), rest'))
    else None
  }

  function DecodeItems(t: string): Option<seq<Item>>
    decreases |t|
  {
    if t == [] then Some([])
    else match DecodeItem(t)
      case None => None
      case Some((item, rest)) =>
        match DecodeItems(rest)
        case None => None
        case Some(items) => Some([item] + items)
  }

  /** json.Unmarshal of an array; None for text that is not one. */
  function Decode(t: string): (r: Option<seq<Item>>)
    ensures t == "" ==> r == None
  {
    if |t| >= 2 && t[0] == '[' && t[|t| - 1] == ']' then DecodeItems(t[1..|t| - 1]) else None
  }

  lemma {:induction false} HashesOfEncoding(n: nat, rest: string)
    requires rest == [] || rest[0] != '#'
    ensures Hashes(seq(n, _ => '#') + rest) == n
  {
    if n > 0 {
      var t := seq(n, _ => '#') + rest;
      assert t[1..] == seq(n - 1, _ => '#') + rest;
      HashesOfEncoding(n - 1, rest);
    }
  }

  lemma DecodeEncodeString(s: string, rest: string)
    ensures DecodeString(EncodeString(s) + rest) == Some((s, rest))
  {
    var t := EncodeString(s) + rest;
    assert t == seq(|s|, _ => '#') + ("." + s + rest);
    HashesOfEncoding(|s|, "." + s + rest);
    assert t[|s| + 1..2 * |s| + 1] == s;
    assert t[2 * |s| + 1..] == rest;
  }

  lemma DecodeEncodeItem(item: Item, rest: string)
    ensures DecodeItem(EncodeItem(item) + rest) == Some((item, rest))
  {
    match item
    case Text(s) =>
      var t := "s" + (EncodeString(s) + rest);
      assert EncodeItem(item) + rest == t;
      assert t[1..] == EncodeString(s) + rest;
      DecodeEncodeString(s, rest);
    case Object(n, ty) =>
      var tail := EncodeString(ty) + rest;
      var t := "o" + (EncodeString(n) + tail);
      assert EncodeItem(item) + rest == t;
      assert t[1..] == EncodeString(n) + tail;
      DecodeEncodeString(n, tail);
      DecodeEncodeString(ty, rest);
  }

  lemma {:induction false} DecodeEncodeItems(items: seq<Item>)
    ensures DecodeItems(EncodeItems(items)) == Some(items)
  {
    if items != [] {
      var t := EncodeItems(items);
      DecodeEncodeItem(items[0], EncodeItems(items[1..]));
      DecodeEncodeItems(items[1..]);
      assert [items[0]] + items[1..] == items;
    }
  }

  /** A stored card list decodes to exactly the list that was encoded, in order. */
  lemma DecodeEncode(items: seq<Item>)
    ensures Decode(Encode(items)) == Some(items)
  {
    var t := Encode(items);
    assert t[1..|t| - 1] == EncodeItems(items);
    DecodeEncodeItems(items);
  }
}

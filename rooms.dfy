/**
 * The room resolver: the canonical room name of a conversation between two
 * user ids, and a decoder that recovers the pair from the name.
 */
module Rooms {
  import opened Wrappers
  import opened Decimal

  function Min(a: int, b: int): int { if a <= b then a else b }

  function Max(a: int, b: int): int { if a <= b then b else a }

  /** The room shared by two users: "room_<smaller id>_<larger id>". */
  function GetRoom(user1: int, user2: int): string
  {
    "room_" + IntToDecimal(Min(user1, user2)) + "_" + IntToDecimal(Max(user1, user2))
  }

  /** Position of the first occurrence of c in s, if any. */
  function IndexOf(s: string, c: char): (r: Option<nat>)
    ensures r.Some? ==> r.value < |s| && s[r.value] == c && c !in s[..r.value]
    ensures r.None? ==> c !in s
  {
    if s == [] then None
    else if s[0] == c then Some(0)
    else match IndexOf(s[1..], c)
      case None => None
      case Some(k) => assert s[..k + 1] == [s[0]] + s[1..][..k]; Some(k + 1)
  }

  /** Decodes a room name back into the pair of ids it was built from. */
  function ParseRoom(room: string): Option<(int, int)>
  {
    if |room| < 5 || room[..5] != "room_" then None
    else
      var rest := room[5..];
      match IndexOf(rest, '_')
      case None => None
      case Some(k) =>
        match (ParseInt(rest[..k]), ParseInt(rest[k + 1..]))
        case (Some(lo), Some(hi)) => Some((lo, hi))
        case _ => None
  }

  /** The order of the two users does not matter. */
  lemma GetRoomCommutative(a: int, b: int)
    ensures GetRoom(a, b) == GetRoom(b, a)
  {
  }

  /** A room name decodes to the smaller and the larger id of its pair. */
  lemma ParseGetRoom(a: int, b: int)
    ensures ParseRoom(GetRoom(a, b)) == Some((Min(a, b), Max(a, b)))
  {
    var lo, hi := IntToDecimal(Min(a, b)), IntToDecimal(Max(a, b));
    var room := GetRoom(a, b);
    assert room[..5] == "room_";
    var rest := room[5..];
    assert rest == lo + "_" + hi;
    var k := |lo|;
    assert rest[k] == '_';
    assert rest[..k] == lo;
    assert IndexOf(rest, '_') == Some(k);
    assert rest[k + 1..] == hi;
    ParseIntToDecimal(Min(a, b));
    ParseIntToDecimal(Max(a, b));
  }

  /** Two pairs share a room exactly when they are the same unordered pair. */
  lemma GetRoomInjective(a: int, b: int, c: int, d: int)
    ensures GetRoom(a, b) == GetRoom(c, d) <==> (a == c && b == d) || (a == d && b == c)
  {
    if GetRoom(a, b) == GetRoom(c, d) {
      ParseGetRoom(a, b);
      ParseGetRoom(c, d);
    }
  }
}

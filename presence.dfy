/**
 * The presence registry: the process-wide dictionary from the userId query
 * argument of a connection to its session id. A Python dict keeps its keys in
 * insertion order, and disconnect removes the FIRST key (in that order) whose
 * session id matches, so the registry is modelled as an ordered list of
 * entries with distinct users.
 */
module Presence {
  import opened Wrappers

  /** The userId query argument of a connection (a string, as the request gives it). */
  type UserKey = string
  /** A Socket.IO session id. */
  type Sid = string

  datatype Entry = Entry(user: UserKey, sid: Sid)

  /** No user appears twice: the entries are the items of a dictionary. */
  predicate DistinctUsers(es: seq<Entry>)
  {
    forall i, j :: 0 <= i < j < |es| ==> es[i].user != es[j].user
  }

  /** Every key was stored under a non-empty userId. */
  predicate NonEmptyUsers(es: seq<Entry>)
  {
    forall i :: 0 <= i < |es| ==> es[i].user != ""
  }

  /** The dictionary read `d.get(k)`. */
  function Lookup(es: seq<Entry>, k: UserKey): Option<Sid>
  {
    if es == [] then None
    else if es[0].user == k then Some(es[0].sid)
    else Lookup(es[1..], k)
  }

  /** Position of the entry for user k, if any. */
  function UserIndex(es: seq<Entry>, k: UserKey): (r: Option<nat>)
    ensures r.Some? ==>
      && r.value < |es| && es[r.value].user == k
      && forall j :: 0 <= j < r.value ==> es[j].user != k
    ensures r.None? ==> forall j :: 0 <= j < |es| ==> es[j].user != k
  {
    if es == [] then None
    else if es[0].user == k then Some(0)
    else match UserIndex(es[1..], k)
      case None => None
      case Some(i) => Some(i + 1)
  }

  /**
   * The assignment `d[k] = v`: an existing key keeps its position and gets
   * the new value; a new key is added at the end.
   */
  function Put(es: seq<Entry>, k: UserKey, v: Sid): (r: seq<Entry>)
    ensures UserIndex(es, k).Some? ==> r == es[UserIndex(es, k).value := Entry(k, v)]
    ensures UserIndex(es, k).None? ==> r == es + [Entry(k, v)]
  {
    if es == [] then [Entry(k, v)]
    else if es[0].user == k then [Entry(k, v)] + es[1..]
    else
      var t := Put(es[1..], k, v);
      match UserIndex(es[1..], k)
      case Some(i) =>
        assert [es[0]] + es[1..][i := Entry(k, v)] == es[i + 1 := Entry(k, v)];
        [es[0]] + t
      case None =>
        assert [es[0]] + (es[1..] + [Entry(k, v)]) == es + [Entry(k, v)];
        [es[0]] + t
  }

  /**
   * The statement `del d[k]`. Python raises KeyError for an absent key; the
   * model returns the entries unchanged instead, a case handle_disconnect
   * never reaches because it deletes only a key its scan has just found.
   */
  function RemoveUser(es: seq<Entry>, k: UserKey): seq<Entry>
  {
    if es == [] then []
    else if es[0].user == k then es[1..]
    else [es[0]] + RemoveUser(es[1..], k)
  }

  /** `del` of a present key removes exactly the entry at the key's position. */
  lemma {:induction false} RemoveUserShape(es: seq<Entry>, k: UserKey)
    ensures UserIndex(es, k).Some? ==>
      var i := UserIndex(es, k).value; RemoveUser(es, k) == es[..i] + es[i + 1..]
    ensures UserIndex(es, k).None? ==> RemoveUser(es, k) == es
  {
    if es != [] && es[0].user != k {
      RemoveUserShape(es[1..], k);
      var t := RemoveUser(es[1..], k);
      match UserIndex(es[1..], k)
      case Some(i) =>
        assert UserIndex(es, k) == Some(i + 1);
        assert es[..i + 1] == [es[0]] + es[1..][..i];
        assert es[i + 2..] == es[1..][i + 1..];
      case None =>
        assert [es[0]] + es[1..] == es;
    }
  }

  /** Position of the first entry, in dictionary order, whose session id is sid. */
  function FirstSidIndex(es: seq<Entry>, sid: Sid): (r: Option<nat>)
    ensures r.Some? ==>
      && r.value < |es| && es[r.value].sid == sid
      && forall j :: 0 <= j < r.value ==> es[j].sid != sid
    ensures r.None? ==> forall j :: 0 <= j < |es| ==> es[j].sid != sid
  {
    if es == [] then None
    else if es[0].sid == sid then Some(0)
    else match FirstSidIndex(es[1..], sid)
      case None => None
      case Some(i) => Some(i + 1)
  }

  /**
   * The scan of handle_disconnect: walk the items in order and stop at the
   * first whose session id is sid, returning its user.
   */
  method ScanForSid(es: seq<Entry>, sid: Sid) returns (userId: Option<UserKey>)
    ensures userId.None? <==> FirstSidIndex(es, sid).None?
    ensures userId.Some? ==> userId.value == es[FirstSidIndex(es, sid).value].user
  {
    userId := None;
    var i := 0;
    while i < |es|
      invariant 0 <= i <= |es|
      invariant forall j :: 0 <= j < i ==> es[j].sid != sid
    {
      if es[i].sid == sid {
        userId := Some(es[i].user);
        return;
      }
      i := i + 1;
    }
  }

  /** The registry after a disconnect of sid, as handle_disconnect leaves it. */
  function AfterDisconnect(es: seq<Entry>, sid: Sid): seq<Entry>
  {
    match FirstSidIndex(es, sid)
    case Some(i) => if es[i].user != "" then RemoveUser(es, es[i].user) else es
    case None => es
  }

  /** Overwrite semantics: the new user maps to the new sid, every other user is untouched. */
  lemma {:induction false} PutLookup(es: seq<Entry>, k: UserKey, v: Sid, q: UserKey)
    ensures Lookup(Put(es, k, v), q) == if q == k then Some(v) else Lookup(es, q)
  {
    if es != [] && es[0].user != k {
      assert Put(es, k, v) == [es[0]] + Put(es[1..], k, v);
      PutLookup(es[1..], k, v, q);
    }
  }

  /** Assignment keeps the keys distinct and non-empty when the new key is non-empty. */
  lemma PutKeepsKeys(es: seq<Entry>, k: UserKey, v: Sid)
    requires DistinctUsers(es) && NonEmptyUsers(es) && k != ""
    ensures DistinctUsers(Put(es, k, v)) && NonEmptyUsers(Put(es, k, v))
    ensures |Put(es, k, v)| == if Lookup(es, k).Some? then |es| else |es| + 1
  {
    LookupIndex(es, k);
  }

  /** Lookup finds a value exactly when the key has a position. */
  lemma {:induction false} LookupIndex(es: seq<Entry>, k: UserKey)
    ensures Lookup(es, k).Some? <==> UserIndex(es, k).Some?
    ensures Lookup(es, k).Some? ==> Lookup(es, k).value == es[UserIndex(es, k).value].sid
  {
    if es != [] && es[0].user != k {
      LookupIndex(es[1..], k);
    }
  }

  /** Deleting a key of a dictionary makes it absent and leaves every other key as it was. */
  lemma {:induction false} RemoveUserLookup(es: seq<Entry>, k: UserKey, q: UserKey)
    requires DistinctUsers(es)
    ensures Lookup(RemoveUser(es, k), q) == if q == k then None else Lookup(es, q)
  {
    if es != [] {
      assert DistinctUsers(es[1..]);
      if es[0].user == k {
        if q == k {
          LookupIndex(es[1..], k);
        }
      } else {
        assert RemoveUser(es, k) == [es[0]] + RemoveUser(es[1..], k);
        RemoveUserLookup(es[1..], k, q);
      }
    }
  }

  /** Dropping one entry keeps the remaining keys distinct and non-empty. */
  lemma DropKeepsKeys(es: seq<Entry>, i: nat)
    requires DistinctUsers(es) && NonEmptyUsers(es) && i < |es|
    ensures DistinctUsers(es[..i] + es[i + 1..]) && NonEmptyUsers(es[..i] + es[i + 1..])
  {
    var r := es[..i] + es[i + 1..];
    assert forall x :: 0 <= x < |r| ==> r[x] == es[if x < i then x else x + 1];
  }

  /** Deleting a key of a dictionary keeps the other keys distinct and non-empty. */
  lemma RemoveUserKeepsKeys(es: seq<Entry>, k: UserKey)
    requires DistinctUsers(es) && NonEmptyUsers(es)
    ensures DistinctUsers(RemoveUser(es, k)) && NonEmptyUsers(RemoveUser(es, k))
  {
    RemoveUserShape(es, k);
    match UserIndex(es, k)
    case None =>
    case Some(i) => DropKeepsKeys(es, i);
  }

  /**
   * Disconnect removes at most one entry: when some entry carries sid, the
   * first such entry is removed and nothing else changes; otherwise the
   * registry is unchanged.
   */
  lemma DisconnectEffect(es: seq<Entry>, sid: Sid)
    requires DistinctUsers(es) && NonEmptyUsers(es)
    ensures FirstSidIndex(es, sid).None? ==> AfterDisconnect(es, sid) == es
    ensures FirstSidIndex(es, sid).Some? ==>
      var i := FirstSidIndex(es, sid).value;
      && AfterDisconnect(es, sid) == es[..i] + es[i + 1..]
      && Lookup(AfterDisconnect(es, sid), es[i].user) == None
      && forall q :: q != es[i].user ==> Lookup(AfterDisconnect(es, sid), q) == Lookup(es, q)
    ensures DistinctUsers(AfterDisconnect(es, sid)) && NonEmptyUsers(AfterDisconnect(es, sid))
  {
    match FirstSidIndex(es, sid)
    case None =>
    case Some(i) =>
      var k := es[i].user;
      assert UserIndex(es, k) == Some(i);
      RemoveUserShape(es, k);
      forall q ensures Lookup(RemoveUser(es, k), q) == if q == k then None else Lookup(es, q) {
        RemoveUserLookup(es, k, q);
      }
      RemoveUserKeepsKeys(es, k);
  }

  /** An entry whose session id no earlier entry carries is the first match. */
  lemma FirstSidIndexAt(es: seq<Entry>, sid: Sid, i: nat)
    requires i < |es| && es[i].sid == sid
    requires forall j :: 0 <= j < i ==> es[j].sid != sid
    ensures FirstSidIndex(es, sid) == Some(i)
  {
    var f := FirstSidIndex(es, sid);
    assert f.Some?;
    assert !(f.value < i);
  }

  /** An entry holding user k with no earlier entry for k is the position of k. */
  lemma UserIndexAt(es: seq<Entry>, k: UserKey, i: nat)
    requires i < |es| && es[i].user == k
    requires forall j :: 0 <= j < i ==> es[j].user != k
    ensures UserIndex(es, k) == Some(i)
  {
    var f := UserIndex(es, k);
    assert f.Some?;
    assert !(f.value < i);
  }

  /**
   * A connection that registers user u under a session id nobody else holds
   * and then disconnects leaves the registry as deleting u would: the other
   * users keep their entries and positions.
   */
  lemma ConnectThenDisconnect(es: seq<Entry>, u: UserKey, sid: Sid)
    requires DistinctUsers(es) && NonEmptyUsers(es) && u != ""
    requires forall j :: 0 <= j < |es| ==> es[j].sid != sid
    ensures AfterDisconnect(Put(es, u, sid), sid) == RemoveUser(es, u)
  {
    match UserIndex(es, u)
    case Some(i) => ReconnectThenDisconnect(es, u, sid, i);
    case None => NewConnectThenDisconnect(es, u, sid);
  }

  lemma ReconnectThenDisconnect(es: seq<Entry>, u: UserKey, sid: Sid, i: nat)
    requires u != "" && UserIndex(es, u) == Some(i)
    requires forall j :: 0 <= j < |es| ==> es[j].sid != sid
    ensures AfterDisconnect(Put(es, u, sid), sid) == RemoveUser(es, u)
  {
    var es' := es[i := Entry(u, sid)];
    assert Put(es, u, sid) == es';
    FirstSidIndexAt(es', sid, i);
    UserIndexAt(es', u, i);
    RemoveUserShape(es', u);
    RemoveUserShape(es, u);
    assert es'[..i] + es'[i + 1..] == es[..i] + es[i + 1..];
  }

  lemma NewConnectThenDisconnect(es: seq<Entry>, u: UserKey, sid: Sid)
    requires u != "" && UserIndex(es, u).None?
    requires forall j :: 0 <= j < |es| ==> es[j].sid != sid
    ensures AfterDisconnect(Put(es, u, sid), sid) == RemoveUser(es, u)
  {
    var es' := es + [Entry(u, sid)];
    assert Put(es, u, sid) == es';
    FirstSidIndexAt(es', sid, |es|);
    UserIndexAt(es', u, |es|);
    RemoveUserShape(es', u);
    RemoveUserShape(es, u);
    assert es'[..|es|] + es'[|es| + 1..] == es;
  }
}

/**
 * The history query: every message exchanged between two users, in either
 * direction, ordered by timestamp. SQL leaves the order of rows with equal
 * timestamps open; this model orders them by id, which is insertion order.
 */
module History {
  import opened Store

  /** The query filter: the message went from u1 to u2 or from u2 to u1. */
  predicate Between(m: Message, u1: int, u2: int)
  {
    (m.senderId == u1 && m.receiverId == u2) || (m.senderId == u2 && m.receiverId == u1)
  }

  /** The rows that pass the filter, in log order. */
  function Filter(log: seq<Message>, u1: int, u2: int): (r: seq<Message>)
    ensures forall m :: m in r <==> m in log && Between(m, u1, u2)
    ensures forall m :: multiset(r)[m] == if Between(m, u1, u2) then multiset(log)[m] else 0
  {
    if log == [] then []
    else
      var rest := Filter(log[..|log| - 1], u1, u2);
      var m := log[|log| - 1];
      assert log == log[..|log| - 1] + [m];
      assert multiset(log) == multiset(log[..|log| - 1]) + multiset{m};
      if Between(m, u1, u2) then rest + [m] else rest
  }

  /** The order of the result: by timestamp, then by id. */
  predicate Precedes(a: Message, b: Message)
  {
    a.timestamp < b.timestamp || (a.timestamp == b.timestamp && a.id <= b.id)
  }

  predicate Sorted(s: seq<Message>)
  {
    forall i, j :: 0 <= i < j < |s| ==> Precedes(s[i], s[j])
  }

  function Insert(m: Message, s: seq<Message>): (r: seq<Message>)
    requires Sorted(s)
    ensures Sorted(r)
    ensures multiset(r) == multiset(s) + multiset{m}
  {
    if s == [] then [m]
    else if Precedes(m, s[0]) then [m] + s
    else
      var t := Insert(m, s[1..]);
      assert s == [s[0]] + s[1..];
      assert forall k :: 0 <= k < |t| ==> Precedes(s[0], t[k]) by {
        forall k | 0 <= k < |t| ensures Precedes(s[0], t[k]) {
          assert t[k] in multiset(t);
          if t[k] != m {
            assert t[k] in multiset(s[1..]);
            var j :| 0 <= j < |s[1..]| && s[1..][j] == t[k];
            assert s[j + 1] == t[k];
          }
        }
      }
      [s[0]] + t
  }

  function Sort(s: seq<Message>): (r: seq<Message>)
    ensures Sorted(r)
    ensures multiset(r) == multiset(s)
  {
    if s == [] then []
    else
      assert s == [s[0]] + s[1..];
      Insert(s[0], Sort(s[1..]))
  }

  /** The result of GET /messages/<user1>/<user2>. */
  function GetMessages(log: seq<Message>, user1: int, user2: int): seq<Message>
  {
    Sort(Filter(log, user1, user2))
  }

  /**
   * The history holds each message between the two users as often as the log
   * does, nothing else, and in ascending timestamp order.
   */
  lemma HistoryContents(log: seq<Message>, u1: int, u2: int)
    ensures var h := GetMessages(log, u1, u2);
      && (forall m :: multiset(h)[m] == if Between(m, u1, u2) then multiset(log)[m] else 0)
      && (forall m :: m in h <==> m in log && Between(m, u1, u2))
      && forall i, j :: 0 <= i < j < |h| ==> h[i].timestamp <= h[j].timestamp
  {
    var h := GetMessages(log, u1, u2);
    forall m ensures m in h <==> m in Filter(log, u1, u2) {
      assert m in h <==> m in multiset(h);
    }
  }

  /** Asking for (u1, u2) and for (u2, u1) gives the same history. */
  lemma {:induction false} FilterSymmetric(log: seq<Message>, u1: int, u2: int)
    ensures Filter(log, u1, u2) == Filter(log, u2, u1)
  {
    if log != [] {
      FilterSymmetric(log[..|log| - 1], u1, u2);
    }
  }

  lemma HistorySymmetric(log: seq<Message>, u1: int, u2: int)
    ensures GetMessages(log, u1, u2) == GetMessages(log, u2, u1)
  {
    FilterSymmetric(log, u1, u2);
  }

  /** Filtering a log with one more row adds that row at the end when it passes. */
  lemma FilterAppend(log: seq<Message>, m: Message, u1: int, u2: int)
    ensures Filter(log + [m], u1, u2) == Filter(log, u1, u2) + (if Between(m, u1, u2) then [m] else [])
  {
    assert (log + [m])[..|log|] == log;
  }

  /**
   * After a row with a fresh id is stored for sender and receiver, their
   * history holds it exactly once.
   */
  lemma HistoryAfterAppend(log: seq<Message>, m: Message)
    requires forall k :: 0 <= k < |log| ==> log[k].id != m.id
    ensures multiset(GetMessages(log + [m], m.senderId, m.receiverId))[m] == 1
  {
    var u1, u2 := m.senderId, m.receiverId;
    FilterAppend(log, m, u1, u2);
    assert m !in Filter(log, u1, u2);
  }
}

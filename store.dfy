/**
 * The message table: an append-only log of Message rows whose integer
 * primary key is assigned by the database as one more than the largest key
 * in the table (1 for the first row).
 */
module Store {

  /** A server clock reading; only its order matters. */
  type Timestamp = int

  /** A row of the message table. */
  datatype Message = Message(id: nat, senderId: int, receiverId: int, body: string, timestamp: Timestamp)

  /** Largest id in the log, 0 for an empty log. */
  function MaxId(log: seq<Message>): (r: nat)
    ensures forall k :: 0 <= k < |log| ==> log[k].id <= r
    ensures log == [] ==> r == 0
    ensures log != [] ==> exists k :: 0 <= k < |log| && log[k].id == r
  {
    if log == [] then 0
    else
      var m := MaxId(log[..|log| - 1]);
      if log[|log| - 1].id > m then log[|log| - 1].id else m
  }

  /** The primary key the next inserted row receives. */
  function NextId(log: seq<Message>): (r: nat)
    ensures r >= 1
    ensures forall k :: 0 <= k < |log| ==> log[k].id < r
  {
    MaxId(log) + 1
  }

  /** Ids grow along the log, so no two rows share an id. */
  predicate IdsIncreasing(log: seq<Message>)
  {
    forall i, j :: 0 <= i < j < |log| ==> log[i].id < log[j].id
  }

  /** The row stored for a message: a fresh id and the server's clock reading. */
  function NewRow(log: seq<Message>, senderId: int, receiverId: int, body: string, now: Timestamp): Message
  {
    Message(NextId(log), senderId, receiverId, body, now)
  }

  /**
   * Inserting a row keeps ids increasing, the new row's id differs from every
   * earlier id, and the earlier rows are unchanged.
   */
  lemma AppendKeepsIdsIncreasing(log: seq<Message>, senderId: int, receiverId: int, body: string, now: Timestamp)
    requires IdsIncreasing(log)
    ensures var log' := log + [NewRow(log, senderId, receiverId, body, now)];
      && IdsIncreasing(log')
      && log'[..|log|] == log
      && forall m :: m in log ==> m.id != log'[|log|].id
  {
    var log' := log + [NewRow(log, senderId, receiverId, body, now)];
    assert log'[..|log|] == log;
  }
}

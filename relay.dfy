/**
 * The Socket.IO event handlers of the relay, over the server's three pieces
 * of mutable state: the presence registry, the message table and the stream
 * of emitted events.
 */
module Relay {
  import opened Wrappers
  import opened Decimal
  import opened Rooms
  import opened Whitespace
  import opened Presence
  import opened Store
  import History

  /** Where an event goes: every connection in a room, or one session. */
  datatype Target = ToRoom(room: string) | ToSid(sid: Sid)

  /** The server-to-client events, named after their Socket.IO event names. */
  datatype Payload =
    | Connected(message: string)
    | System(message: string, timestamp: Timestamp)
    | JoinedRoom(room: string, message: string, timestamp: Timestamp)
    | ReceiveMessage(senderId: int, receiverId: int, message: string, timestamp: Timestamp, messageId: nat)
    | MessageSent(message: string, timestamp: Timestamp, messageId: nat)
    | Error(message: string)

  datatype Event = Event(to: Target, payload: Payload)

  class ChatServer {
    /** The connected_users dictionary, in insertion order. */
    var connectedUsers: seq<Entry>
    /** The message table, in insertion order. */
    var messages: seq<Message>
    /** Every event emitted so far, in order. */
    var outbox: seq<Event>

    ghost predicate Valid()
      reads this
    {
      && DistinctUsers(connectedUsers)
      && NonEmptyUsers(connectedUsers)
      && IdsIncreasing(messages)
    }

    /**
     * A server process starting up: the registry is empty and nothing has
     * been emitted, while the message table holds whatever rows the database
     * file already contains.
     */
    constructor (log: seq<Message>)
      requires IdsIncreasing(log)
      ensures Valid()
      ensures connectedUsers == [] && messages == log && outbox == []
    {
      connectedUsers := [];
      messages := log;
      outbox := [];
    }

    /**
     * A connection arrives with an optional userId query argument. A non-empty
     * userId is (re)bound to this session and the session is greeted; without
     * one nothing happens.
     */
    method HandleConnect(sid: Sid, userId: Option<UserKey>)
      requires Valid()
      modifies this
      ensures Valid()
      ensures messages == old(messages)
      ensures userId.Some? && userId.value != "" ==>
        && connectedUsers == Put(old(connectedUsers), userId.value, sid)
        && (forall q :: Lookup(connectedUsers, q) ==
              if q == userId.value then Some(sid) else Lookup(old(connectedUsers), q))
        && outbox == old(outbox) + [Event(ToSid(sid), Connected("Connected to chat server"))]
      ensures userId.None? || userId.value == "" ==>
        connectedUsers == old(connectedUsers) && outbox == old(outbox)
    {
      if userId.Some? && userId.value != "" {
        var u := userId.value;
        PutKeepsKeys(connectedUsers, u, sid);
        forall q ensures Lookup(Put(connectedUsers, u, sid), q) ==
          if q == u then Some(sid) else Lookup(connectedUsers, q)
        {
          PutLookup(connectedUsers, u, sid, q);
        }
        connectedUsers := Put(connectedUsers, u, sid);
        outbox := outbox + [Event(ToSid(sid), Connected("Connected to chat server"))];
      }
    }

    /**
     * A connection closes: the first registered user bound to this session,
     * if any, is removed. Nothing is emitted.
     */
    method HandleDisconnect(sid: Sid)
      requires Valid()
      modifies this
      ensures Valid()
      ensures connectedUsers == AfterDisconnect(old(connectedUsers), sid)
      ensures messages == old(messages) && outbox == old(outbox)
    {
      DisconnectEffect(connectedUsers, sid);
      var userId := ScanForSid(connectedUsers, sid);
      if userId.Some? && userId.value != "" {
        connectedUsers := RemoveUser(connectedUsers, userId.value);
      }
    }

    /**
     * A join request. When both ids parse and a username is given, a notice
     * goes to the pair's room and a confirmation naming the room goes to the
     * requesting session; otherwise that session gets an error and nothing
     * else happens. The two clock readings are taken for the two payloads.
     */
    method HandleJoin(sid: Sid, senderId: Option<int>, receiverId: Option<int>,
                      senderUsername: Option<string>, noticeTime: Timestamp, confirmTime: Timestamp)
      requires Valid()
      modifies this
      ensures Valid()
      ensures connectedUsers == old(connectedUsers) && messages == old(messages)
      ensures senderId.None? || receiverId.None? || senderUsername.None? ==>
        outbox == old(outbox) + [Event(ToSid(sid), Error("Failed to join room"))]
      ensures senderId.Some? && receiverId.Some? && senderUsername.Some? ==>
        var room := GetRoom(senderId.value, receiverId.value);
        outbox == old(outbox) + [
          Event(ToRoom(room), System(senderUsername.value + " joined the chat", noticeTime)),
          Event(ToSid(sid), JoinedRoom(room, "You joined chat with user " + IntToDecimal(receiverId.value), confirmTime))]
    {
      if senderId.None? || receiverId.None? || senderUsername.None? {
        outbox := outbox + [Event(ToSid(sid), Error("Failed to join room"))];
        return;
      }
      var room := GetRoom(senderId.value, receiverId.value);
      outbox := outbox + [Event(ToRoom(room), System(senderUsername.value + " joined the chat", noticeTime))];
      outbox := outbox + [Event(ToSid(sid), JoinedRoom(room, "You joined chat with user " + IntToDecimal(receiverId.value), confirmTime))];
    }

    /**
     * A message submission. Unparsable fields give a generic error; a body
     * that is all whitespace gives an "empty" error; in both cases nothing is
     * stored. Otherwise exactly one row with a fresh id, the trimmed body and
     * the clock reading `now` is stored, the room receives it and the sender
     * gets an acknowledgement with the same id and timestamp.
     */
    method HandleSendMessage(sid: Sid, senderId: Option<int>, receiverId: Option<int>,
                             message: Option<string>, now: Timestamp)
      requires Valid()
      modifies this
      ensures Valid()
      ensures connectedUsers == old(connectedUsers)
      ensures senderId.None? || receiverId.None? || message.None? ==>
        && messages == old(messages)
        && outbox == old(outbox) + [Event(ToSid(sid), Error("Failed to send message"))]
      ensures senderId.Some? && receiverId.Some? && message.Some? && AllSpace(message.value) ==>
        && messages == old(messages)
        && outbox == old(outbox) + [Event(ToSid(sid), Error("Message cannot be empty"))]
      ensures senderId.Some? && receiverId.Some? && message.Some? && !AllSpace(message.value) ==>
        var s, r, text := senderId.value, receiverId.value, Strip(message.value);
        var id := NextId(old(messages));
        && text != ""
        && (forall k :: 0 <= k < |old(messages)| ==> old(messages)[k].id != id)
        && messages == old(messages) + [Message(id, s, r, text, now)]
        && outbox == old(outbox) + [
             Event(ToRoom(GetRoom(s, r)), ReceiveMessage(s, r, text, now, id)),
             Event(ToSid(sid), MessageSent("Message delivered", now, id))]
        && multiset(GetMessages(s, r))[Message(id, s, r, text, now)] == 1
    {
      if senderId.None? || receiverId.None? || message.None? {
        outbox := outbox + [Event(ToSid(sid), Error("Failed to send message"))];
        return;
      }
      var s, r := senderId.value, receiverId.value;
      var text := Strip(message.value);
      StripEmptyIffAllSpace(message.value);
      if text == "" {
        outbox := outbox + [Event(ToSid(sid), Error("Message cannot be empty"))];
        return;
      }
      var row := NewRow(messages, s, r, text, now);
      AppendKeepsIdsIncreasing(messages, s, r, text, now);
      History.HistoryAfterAppend(messages, row);
      messages := messages + [row];
      var room := GetRoom(s, r);
      outbox := outbox + [Event(ToRoom(room), ReceiveMessage(s, r, text, now, row.id))];
      outbox := outbox + [Event(ToSid(sid), MessageSent("Message delivered", now, row.id))];
    }

    /** GET /messages/<user1>/<user2> over the current message table. */
    function GetMessages(user1: int, user2: int): seq<Message>
      reads this
    {
      History.GetMessages(messages, user1, user2)
    }
  }

  /** The padded text " hi " is stored as "hi". */
  lemma PaddedHi()
    ensures !AllSpace(" hi ") && Strip(" hi ") == "hi"
  {
    assert !IsSpace(" hi "[1]);
    assert LeadingSpace(" hi "[1..]) == 0;
    assert LeadingSpace(" hi ") == 1;
    assert TrailingSpace("hi "[..2]) == 0;
    assert TrailingSpace("hi ") == 1;
  }

  /** A table holding one row between users 1 and 2 has that row as their history. */
  lemma OneRowHistory(row: Message)
    requires row.senderId == 1 && row.receiverId == 2
    ensures History.GetMessages([row], 1, 2) == [row]
  {
    assert History.Filter([row][..0], 1, 2) == [];
    assert History.Filter([row], 1, 2) == [row];
    assert History.Sort([row][1..]) == [];
  }

  /** The events of two connects and two joins by users 1 (Alice) and 2 (Bob). */
  function JoinedEvents(): seq<Event>
  {
    [ Event(ToSid("sid-a"), Connected("Connected to chat server")),
      Event(ToSid("sid-b"), Connected("Connected to chat server")),
      Event(ToRoom("room_1_2"), System("Alice joined the chat", 10)),
      Event(ToSid("sid-a"), JoinedRoom("room_1_2", "You joined chat with user 2", 11)),
      Event(ToRoom("room_1_2"), System("Bob joined the chat", 12)),
      Event(ToSid("sid-b"), JoinedRoom("room_1_2", "You joined chat with user 1", 13)) ]
  }

  /**
   * Users 1 and 2 connect on sessions "sid-a" and "sid-b" and each joins the
   * conversation with the other: both notices go to the same room.
   */
  method ConnectAndJoin() returns (server: ChatServer)
    ensures fresh(server) && server.Valid()
    ensures server.messages == [] && server.outbox == JoinedEvents()
  {
    assert IntToDecimal(1) == "1" && IntToDecimal(2) == "2";
    assert GetRoom(1, 2) == "room_1_2" && GetRoom(2, 1) == "room_1_2";
    assert "Alice" + " joined the chat" == "Alice joined the chat";
    assert "Bob" + " joined the chat" == "Bob joined the chat";
    assert "You joined chat with user " + IntToDecimal(2) == "You joined chat with user 2";
    assert "You joined chat with user " + IntToDecimal(1) == "You joined chat with user 1";
    server := new ChatServer([]);
    server.HandleConnect("sid-a", Some("1"));
    server.HandleConnect("sid-b", Some("2"));
    server.HandleJoin("sid-a", Some(1), Some(2), Some("Alice"), 10, 11);
    server.HandleJoin("sid-b", Some(2), Some(1), Some("Bob"), 12, 13);
  }

  /**
   * Two users connect, each joins the conversation with the other, and the
   * first sends a padded "hi". Both the room broadcast and the sender's
   * acknowledgement carry id 1, and the pair's history is that one message.
   */
  method TwoUserConversation() returns (events: seq<Event>, history: seq<Message>)
    ensures events == JoinedEvents() + [
      Event(ToRoom("room_1_2"), ReceiveMessage(1, 2, "hi", 20, 1)),
      Event(ToSid("sid-a"), MessageSent("Message delivered", 20, 1))]
    ensures history == [Message(1, 1, 2, "hi", 20)]
  {
    assert IntToDecimal(1) == "1" && IntToDecimal(2) == "2";
    assert GetRoom(1, 2) == "room_1_2";
    PaddedHi();
    var server := ConnectAndJoin();
    assert NextId([]) == 1;
    server.HandleSendMessage("sid-a", Some(1), Some(2), Some(" hi "), 20);
    var row := Message(1, 1, 2, "hi", 20);
    assert server.messages == [row];
    OneRowHistory(row);
    events := server.outbox;
    history := server.GetMessages(1, 2);
  }
}

# Direct-messaging relay: a Dafny model

This project models the core of a small real-time chat server written in
Python with Flask, Flask-SocketIO and SQLAlchemy (`main.py`). Clients connect
over Socket.IO, optionally passing a `userId`. The server:

- keeps a process-wide dictionary `connected_users` from that userId to the
  connection's session id;
- puts each pair of users in a canonical room `room_<min>_<max>`;
- validates and stores each message in a SQL table with an autoincrement id
  and a server timestamp;
- broadcasts each stored message to the pair's room and acknowledges it to
  the sender;
- serves the ordered history of a pair's conversation over HTTP.

Modules, one per component of `main.py`:

- `Wrappers`: `Option`, for request fields that are missing or do not parse.
- `Decimal`: Python's decimal rendering of an integer (`str(int)`, as used by
  the f-strings) and a parser that reads it back.
- `Rooms`: `get_room`, and a decoder that recovers the pair from a room name.
- `Whitespace`: Python's `str.strip()` with no argument, over the
  characters `str.isspace()` accepts.
- `Presence`: the `connected_users` dictionary. It is an ordered list of
  (userId, sid) entries with distinct userIds, because a Python dict keeps
  insertion order and disconnect removes the *first* key whose value
  matches. The module covers assignment, `del`, and the scan that
  disconnect performs (a `while` loop with invariants).
- `Store`: the `Message` row, and the primary key the database assigns (one
  more than the largest id in the table).
- `History`: the `/messages/<user1>/<user2>` query. It filters the table to
  the pair, in either direction, and sorts by timestamp.
- `Relay`: the class `ChatServer`. Its fields are the three pieces of mutable
  state the handlers touch: the registry, the message table, and the list of
  emitted events. Its methods `HandleConnect`, `HandleDisconnect`,
  `HandleJoin` and `HandleSendMessage` are the four Socket.IO handlers. Each
  method states the complete new state. The object invariant `Valid()`
  requires distinct, non-empty registry keys and ids that increase along
  the table. Two scenario methods, `ConnectAndJoin` and
  `TwoUserConversation`, run the handlers in sequence for two users. They
  show what the emitted events and the stored history are at the end.

Some of the inputs are modelled as parameters:

- The session id `request.sid` is a parameter.
- The clock readings `datetime.now(...)` are `Timestamp` parameters. They are
  opaque ordered values and are not assumed to be monotonic.
- The parsed request fields are parameters. `int(data[...])` becomes an
  `Option<int>`, where `None` stands for a missing key or a failed
  conversion. The message text and the username become `Option<string>`.
- An `emit` call appends an `Event` (a target plus a payload) to `outbox`.

Behaviour of the code that the model keeps as written:

- Message length: the column is declared `String(500)`, but SQLite does not
  enforce the length, so no bound is modelled.
- Join validation: `sender_username` is only required to be present (a
  `KeyError` otherwise). It is not otherwise validated.
- Send validation: the empty-message check runs only after both ids and the
  message field have been read. So a request with a bad id and an empty
  message gets "Failed to send message", not "Message cannot be empty".

Choices the model makes where the code leaves something open:

- Tie order in the history: the query orders by timestamp only, and SQL
  leaves the order of equal timestamps open. The model orders ties by id,
  which is insertion order. `History.HistorySymmetric` states equality of
  the two result sequences under this choice.

## Model

| member | source | states |
|---|---|---|
| `Decimal.NatToDecimal` | main.py:48 | the rendering of a natural number is a non-empty string of digits with no leading zero |
| `Decimal.ParseIntToDecimal` | main.py:48 | every rendering of an integer (with a minus sign when negative) reads back as that integer |
| `Rooms.GetRoomCommutative` | main.py:47-48 | `get_room(a, b) == get_room(b, a)` |
| `Rooms.ParseGetRoom` | main.py:48 | the name `room_<min>_<max>` decodes back to `(min(a,b), max(a,b))` |
| `Rooms.GetRoomInjective` | main.py:47-48 | two pairs get the same room name if and only if they are the same unordered pair |
| `Whitespace.LeadingSpace` | main.py:109 | counts the whitespace run at the front: every counted character is whitespace and the next one is not |
| `Whitespace.TrailingSpace` | main.py:109 | counts the whitespace run at the back: every counted character is whitespace and the one before it is not |
| `Whitespace.Strip` | main.py:109 | `strip()` returns the slice of the text between its leading and trailing whitespace runs, and the result neither starts nor ends with whitespace |
| `Whitespace.StripEmptyIffAllSpace` | main.py:109-111 | the stripped message is empty exactly when the text is all whitespace |
| `Whitespace.StripIdempotent` | main.py:109 | stripping an already stripped text changes nothing |
| `Presence.UserIndex` | main.py:60 | the position of a key in the dictionary is its first occurrence, or the key is absent |
| `Presence.Put` | main.py:60 | `connected_users[user_id] = sid` overwrites an existing key in place (same position) or appends a new key at the end |
| `Presence.PutLookup` | main.py:58-60 | after the assignment the user maps to the new sid and every other user maps to what it did before |
| `Presence.PutKeepsKeys` | main.py:59-60 | the assignment keeps keys distinct and non-empty, and grows the dictionary only for a new user |
| `Presence.LookupIndex` | main.py:60 | a key has a value exactly when it has a position, and the value is the sid stored there |
| `Presence.RemoveUserShape` | main.py:72 | `del connected_users[user_id]` on a present key (the only case the handler reaches) removes exactly the entry at that key's position |
| `Presence.RemoveUserLookup` | main.py:72 | after `del`, the key is absent and every other key keeps its value |
| `Presence.RemoveUserKeepsKeys` | main.py:72 | `del` keeps keys distinct and non-empty |
| `Presence.FirstSidIndex` | main.py:67-70 | the first entry in dictionary order whose sid matches, or the fact that none does |
| `Presence.ScanForSid` | main.py:66-70 | the `for ... break` loop returns the user of the first entry whose sid matches, and returns nothing when no entry matches |
| `Presence.DisconnectEffect` | main.py:64-72 | disconnect removes at most one entry, the first whose sid matches; all other entries are unchanged; with no match the registry is unchanged; keys stay distinct |
| `Presence.ConnectThenDisconnect` | main.py:56-72 | a connect under a sid nobody else holds, followed by the disconnect of that sid, leaves the registry as deleting the user would |
| `Store.MaxId` | main.py:34 | the largest id in the table (0 when it is empty), bounding every id |
| `Store.NextId` | main.py:34 | the id of a newly inserted row is greater than every id already in the table |
| `Store.AppendKeepsIdsIncreasing` | main.py:116-122 | inserting a row keeps ids strictly increasing; the new id differs from every existing id; earlier rows are unchanged |
| `History.Filter` | main.py:158-160 | keeps exactly the rows sent from u1 to u2 or from u2 to u1, each as many times as the log holds it |
| `History.Insert` | main.py:161 | inserting into an ordered list keeps it ordered and adds exactly the one row |
| `History.Sort` | main.py:161 | `order_by(timestamp.asc())` returns a permutation of its input, ordered by timestamp (ties by id) |
| `History.HistoryContents` | main.py:155-172 | the history holds every row of the pair as many times as the log does and no other row, and timestamps ascend |
| `History.FilterSymmetric` | main.py:158-160 | the filter for (u1, u2) and for (u2, u1) selects the same rows |
| `History.HistorySymmetric` | main.py:155-161 | the history for (u1, u2) equals the history for (u2, u1) |
| `History.HistoryAfterAppend` | main.py:116-122 | after a row with a fresh id is stored, the sender/receiver history contains it exactly once |
| `Relay.ChatServer.constructor` | main.py:15-51 | a starting server has an empty registry and no events, and its message table is whatever the database file already holds (ids increasing) |
| `Relay.ChatServer.HandleConnect` | main.py:56-62 | with a non-empty userId the user is bound to the sid (overwrite, others unchanged) and one `connected` event goes to the sid; otherwise nothing changes and nothing is emitted |
| `Relay.ChatServer.HandleDisconnect` | main.py:64-73 | the registry becomes the one `DisconnectEffect` describes; the table and the events are unchanged |
| `Relay.ChatServer.HandleJoin` | main.py:75-102 | a failed parse emits only an `error` to the sid; otherwise a `system` notice goes to `get_room(sender, receiver)` and then a `joined_room` event carrying that room name goes to the sid; registry and table unchanged |
| `Relay.ChatServer.HandleSendMessage` | main.py:104-150 | a failed parse, or a body that is all whitespace, emits only an `error` and stores nothing; otherwise exactly one row is appended (fresh id, sender, receiver, trimmed non-empty body, `now`). Then `receive_message` with that id and timestamp goes to the pair's room, and `message_sent` with the same id and timestamp goes to the sid; afterwards the pair's history holds the new row exactly once |
| `Relay.ConnectAndJoin` | main.py:56-102 | on a server started with an empty table, two users connect and each joins the conversation with the other: two `connected` acks, then per join a `system` notice to the shared room `room_1_2` and a private `joined_room`; nothing stored |
| `Relay.TwoUserConversation` | main.py:56-175 | continuing that scenario, user 1 sends `" hi "`: the room gets `receive_message` with body `"hi"` and id 1, user 1's sid gets `message_sent` with the same id and timestamp, and the history of (1, 2) is exactly that row |

## Left out

- Flask application setup, CORS, JWT configuration, the `User` table, table creation and process start-up: these are configuration with no logic.
- Room membership (`join_room`) and the delivery of emitted events. These are Socket.IO library behaviour. The model records the target of each event (a room name or a sid), not which connections receive it, so properties about which participants receive a broadcast are not stated.
- Parsing of request fields: Python's `int()` conversion grammar is not modelled. Each id arrives already parsed, as `Option<int>`.
- SQLAlchemy session internals (`add`, `commit`, `refresh`) and storage failures. The model assumes every insert and query succeeds, so the storage `except` branches (the "Failed to fetch messages" response and a send failing after validation) are not modelled.
- Clock reading and ISO-8601 formatting of timestamps. Timestamps are opaque integers passed in as parameters.
- Concurrency between handlers: each handler runs to completion, one at a time.
- The `/health` endpoint, console printing and logging.
- Message bodies are not bounded in length (see above).
- Presence.RemoveUser: Python's `del` raises `KeyError` for an absent key; the model returns the entries unchanged instead. `handle_disconnect` deletes only a key its scan has just found, so that case never arises from the handlers.

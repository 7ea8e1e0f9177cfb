# Chat hub server core, modelled in Dafny

This project models the server side of a small LAN chat hub written for Node.js. It covers two pieces.

- **The participant directory** (`UserManager`, backend/users.js). It is a table from user id to a presence record (id, name, color, picture, join time). Keys keep JavaScript `Map` insertion order. A round-robin counter hands out colors from a fixed ten-color palette.
- **The WebSocket dispatcher** (backend/server.js). It holds the shared state:
  - three bounded histories: messages (100), statuses (50, with a 24-hour time-to-live sweep) and reels (30);
  - the group-voice room (a `Map` from user id to member);
  - the live sessions, each bound to the user id and name it joined with.

  For every inbound event the dispatcher updates the state and writes frames to sessions. A frame is written in one of four ways: to everyone (optionally except the sender), to the sender and one recipient, relayed to one recipient, or as a reply to the sender alone.

Each source file becomes a Dafny module or class, in the same imperative form as the source.

- `Users.UserManager` is a class with fields `users: map<string, User>`, `order: seq<string>` (the `Map`'s key order) and `colorIndex: nat`. Its methods update them in place.
- `Hub.Hub` is a class with the histories, the room, its key order and the sessions as fields. It has one method per event kind. Each returns the frames it writes, in order, as a `seq<Send<Payload>>`.
- `Hub.Hub.Handle` is the `message` switch. `Hub.Hub.OnClose` is the `close` handler.
- `FanOut` and `CleanupExpiredStatuses` are the source's loops. Each is proved against a specification function: `Fanout.Deliver` for the fan-out and `History.Sweep` for the sweep.

Support modules:
- `JsValues`: truthiness, `a || b`, `trim`, and decimal clock stamps. `Or(v, d)` is `v || d` for an optional string and `OrNull(v)` is `v || null`: a null, undefined or empty `v` gives the fallback, any other string gives itself.
- `Seqs`: no-duplicates and subsequences.
- `InsertionOrder`: `Map` key order.
- `Records`: the history entries.
- `History`: the capped append, the sweep, `findIndex` and the owner-only delete.
- `Fanout`: sessions, sends and audiences.

Conventions of the model:
- Sessions are numbered by their position in `clients` (`Fanout.Indexed`). Closing a session marks it not open. A frame goes to a session only while it is open (`Fanout.AllOpen`).
- The connection's `userId`/`username` variables and `ws.userId` are one field pair per session. `join` binds both together (backend/server.js:61-65). `updateProfile` rebinds only the name, to the updated record's name (backend/server.js:289, `Hub.Hub.Rename`). Nothing else changes them.
- Every handler takes the clock as `now` (milliseconds). Ids are generated as `prefix + Date.now()`. Handlers that create ids take that clock reading as decimal text (`stamp`). `JsValues.StampedId` and `JsValues.StampedIdsCollideIffSameMillisecond` state what such an id is and that two ids from the same millisecond collide. Nothing here claims that ids are unique.

## Model

| member | source | states |
|---|---|---|
| JsValues.TrimStart | backend/server.js:206 | the leading part of `trim`: drops only whitespace, and what remains starts with non-whitespace |
| JsValues.TrimEnd | backend/server.js:206 | the trailing part of `trim`: drops only whitespace, and what remains ends with non-whitespace |
| JsValues.Trim | backend/server.js:206 | `trim` keeps the slice of the input that starts after the leading whitespace, with whitespace on neither end of it and only whitespace around it |
| JsValues.TrimEmptyIff | backend/server.js:206-207 | a trimmed status text is empty exactly when the input is all whitespace |
| JsValues.Decimal | backend/server.js:107 | the string form of a `Date.now()` reading is one or more decimal digits with no leading zero |
| JsValues.ParseDecimalOfDecimal | backend/server.js:107 | the decimal stamp of a clock reading determines the reading (reads back to it) |
| JsValues.StampedId | backend/server.js:210 | a generated id starts with its kind prefix and has a stamp after it |
| JsValues.StampedIdsCollideIffSameMillisecond | backend/server.js:245 | two ids of one kind are equal exactly when they were stamped in the same millisecond |
| Hub.ChatIdsCollideIffSameMillisecond | backend/server.js:107-182 | a chat entry stamped with a reading is that reading's stamped id of its kind, and two entries of one kind collide exactly in the same millisecond |
| Hub.PostIdsCollideIffSameMillisecond | backend/server.js:210-245 | the `status_` and `reel_` ids built from a reading are stamped ids, equal exactly for equal readings |
| Seqs.RemoveAtIsSubsequence | backend/server.js:233 | `splice(idx, 1)` leaves the other entries in their order |
| InsertionOrder.TracksKeys | backend/users.js:4 | a key list that tracks a `Map` lists exactly its keys |
| InsertionOrder.TracksHas | backend/server.js:290 | `map.has(k)` is membership in the tracked key order |
| InsertionOrder.WithKey | backend/users.js:15 | `map.set(k, v)` keeps the existing key order, appending `k` only when new |
| InsertionOrder.WithKeyKeys | backend/users.js:15 | after `set`, the keys are the old keys plus `k`, still each once |
| InsertionOrder.WithoutKey | backend/users.js:26 | `map.delete(k)` leaves a key order containing only old keys, unchanged when `k` was absent |
| InsertionOrder.WithoutKeyKeys | backend/users.js:26 | `delete` removes exactly `k`, keeps the rest in order and each once, and shortens the order by one exactly when `k` was present |
| InsertionOrder.ValuesOf | backend/users.js:48 | `Array.from(map.values())` lists the value of each key in key order |
| InsertionOrder.TracksWithKey | backend/users.js:15 | `set` keeps the key order a faithful tracking of the map |
| InsertionOrder.TracksWithoutKey | backend/users.js:26 | `delete` keeps the key order a faithful tracking of the map |
| Users.ColorFor | backend/users.js:13 | the color for the n-th addition is a palette entry |
| Users.ColorsCycleEvenly | backend/users.js:13-14 | ten consecutive additions get ten distinct colors, and the eleventh repeats the first; the color depends only on the counter |
| Users.Merge | backend/users.js:37-41 | an update keeps id, color and join time, replaces the name only by a truthy name, and replaces the picture only when given (null included) |
| Users.UserManager.constructor | backend/users.js:3-10 | an empty table with the counter at 0 |
| Users.UserManager.AddUser | backend/users.js:12-23 | the record stored and returned has the given id and name, the palette color for the counter, the picture or null, and the clock; the counter rises by exactly 1; any old record under the id is overwritten in place; the count rises only for a new id |
| Users.UserManager.RemoveUser | backend/users.js:25-27 | returns whether the id was present; exactly that record is removed and the key order keeps the rest |
| Users.UserManager.GetUser | backend/users.js:29-31 | a record exactly when the id is present, filed under its own id |
| Users.UserManager.UpdateUser | backend/users.js:33-45 | an absent id yields null and changes nothing; a present one is replaced by the merged record, which is returned; key order and counter unchanged |
| Users.UserManager.GetAllUsers | backend/users.js:47-49 | the records in key insertion order, one per key |
| Users.UserManager.AllUsersListsEachOnce | backend/users.js:47-49 | the listing holds a record with an id exactly when the table has the id, and no id twice |
| Users.UserManager.GetUserCount | backend/users.js:51-53 | the count is the table size and the length of the listing |
| History.Capped | backend/server.js:117-120 | push then shift past capacity: below capacity the entry is appended; at capacity the oldest entry is dropped and the entry appended; the new entry is last and the length stays within capacity |
| History.AppendAllKeepsNewest | backend/server.js:153-156 | any run of capped appends leaves exactly the newest `cap` entries of all appended, oldest first |
| History.LiveIffRecent | backend/server.js:33-34 | a status survives the sweep exactly when its creation time is nonzero and less than 24 hours before `now` |
| History.ExpiryIsPermanent | backend/server.js:34 | a status expired at some time stays expired at every later time |
| History.Sweep | backend/server.js:30-38 | the sweep never lengthens the status history |
| History.SweepKeepsExactlyLive | backend/server.js:30-38 | the sweep keeps exactly the statuses that are not expired, each as often as before, in their order |
| History.SweepKeepsLive | backend/server.js:30-38 | a history with nothing expired is unchanged by the sweep |
| History.SweepIdempotent | backend/server.js:30-38 | a second sweep at the same time removes nothing |
| History.FindIndex | backend/server.js:231 | `findIndex` yields the first position holding the id, or -1 exactly when none does |
| History.DeleteOwned | backend/server.js:231-233 | a delete happens exactly when `findIndex` finds the id and that post is the requester's; it splices out exactly that position, one entry shorter; when no post with the id is the requester's, nothing is removed |
| History.DeleteOwnedKeepsOrder | backend/server.js:267-269 | what an owner-only delete leaves keeps its order |
| Fanout.IndexedUpdate | backend/server.js:65 | rebinding one session in place keeps session numbering |
| Fanout.Reply | backend/server.js:70-90 | `ws.send` frames go to the sender's session alone, in order |
| Fanout.ReplyAllOpen | backend/server.js:70 | replies to an open session go only to open sessions |
| Fanout.AllOpenAppend | backend/server.js:310-322 | frames of successive sends all go to open sessions |
| Fanout.Receives | backend/server.js:43 | a send loop writes only to open sessions, and `broadcast` without an exception writes to every open one |
| Fanout.Deliver | backend/server.js:41-47 | a fan-out writes no more frames than there are sessions (`DeliverOrdered`: at most one per session) |
| Fanout.DeliverSends | backend/server.js:42-46 | every frame of a fan-out carries its payload to an open session the audience admits |
| Fanout.DeliverCovers | backend/server.js:42-46 | every open session the audience admits gets a frame |
| Fanout.DeliverOrdered | backend/server.js:42 | the frames of one fan-out go out in session order, at most one per session |
| Fanout.DeliverReachesExactly | backend/server.js:41-47 | a fan-out writes the payload once to each open admitted session, to nothing else, in session order |
| Fanout.ReachedIff | backend/server.js:43 | a session gets a frame exactly when it is open and admitted |
| Fanout.DeliverToNobody | backend/server.js:350-354 | with no open admitted session, a fan-out writes nothing |
| Hub.NeedsJoin | backend/server.js:104-383 | the events ignored while the connection has no user id are exactly all but `join`, the signaling relays, `typing` and unhandled frames |
| Hub.ChatBodyOf | backend/server.js:105-180 | a message always has a body, its own text; a file or voice event has one exactly when its payload is truthy; a file carries the event's data and the name `filename || 'file'`, a voice clip the event's audio, all non-empty |
| Hub.NewChatEntry | backend/server.js:106-114 | the entry carries the sender's id and name, the body and the clock, an id starting with its kind prefix, and the recipient id when truthy, else "all" |
| Hub.ChatAudience | backend/server.js:122-134 | an entry for "all" goes to everyone with no exception; any other entry goes to the sessions of both sender and recipient |
| Hub.ChatRecipients | backend/server.js:122-134 | a chat entry reaches exactly the open sessions if sent to "all", else exactly the open sessions bound to the sender or the recipient |
| Hub.RelayToAbsentRecipient | backend/server.js:364-370 | a relay to a user with no open session writes nothing |
| Hub.PictureOf | backend/server.js:213 | `getUser(id)?.profilePic \|\| null` is a picture exactly when the user exists and has a truthy one, and then it is that picture |
| Hub.ProfileName | backend/server.js:280 | the new name is the trimmed requested name when that is not blank, else the current name or "Anonymous"; it is never empty |
| Hub.ProfileUpdate | backend/server.js:279-286 | an update happens exactly when the session has joined and its user has a record; it keeps id, color and join time, takes a non-empty new name, and takes the given picture or else keeps the old one (null when falsy) |
| Hub.Renamed | backend/server.js:290-292 | renaming keeps the room's member ids, renames only a present member, leaves every other member as it was, and leaves the room unchanged for a non-member |
| Hub.RoomEnter | backend/server.js:305 | adding a member keeps the room a faithful `Map` keyed by member id |
| Hub.RoomLeave | backend/server.js:328 | removing a member keeps the room a faithful `Map` keyed by member id |
| Hub.RoomRename | backend/server.js:291 | renaming a member keeps the room a faithful `Map` keyed by member id |
| InsertionOrder.WithoutAppendedKey | backend/server.js:305-308 | deleting a key that was set only once, as the last one, restores the key order from before it was set |
| Hub.OthersThan | backend/server.js:308 | the filter never lengthens the member list |
| Hub.OthersThanValues | backend/server.js:308 | filtering out one id from the listed members lists the other keys' members in key order |
| Hub.JoinReplyIsPriorMembership | backend/server.js:305-309 | the `groupVoiceState` reply is the room before the join, in joining order, without the joiner |
| Hub.Hub.constructor | backend/server.js:20-28 | empty directory, histories and room, with no sessions |
| Hub.Hub.Connect | backend/server.js:50-52 | a new session is open, unbound and numbered next |
| Hub.Hub.CleanupExpiredStatuses | backend/server.js:30-38 | the backward splice loop leaves exactly the sweep of the old history |
| Hub.Hub.FanOut | backend/server.js:41-47 | the send loop writes exactly the fan-out of the payload to its audience, only to open sessions |
| Hub.Hub.Enter | backend/server.js:60-66 | `join` sweeps, binds the session to the id (given or generated) and name (given or Anonymous), and files the user's record |
| Hub.Hub.OnJoin | backend/server.js:59-102 | the joiner alone gets history, statuses, reels and the user list, in that order, then every open session gets `userJoined`; the state changes are those of Enter, and messages, reels and the room are unchanged |
| Hub.Hub.RecordChat | backend/server.js:185-188 | the message history is the capped append of the entry |
| Hub.Hub.RecordStatus | backend/server.js:219-222 | the status history is the capped append of the post |
| Hub.Hub.RecordReel | backend/server.js:256-259 | the reel history is the capped append of the reel |
| Hub.Hub.OnChat | backend/server.js:104-201 | an unjoined session, or a file or voice frame without payload, changes nothing and sends nothing; otherwise the entry is appended with the cap and goes to everyone for "all", else to sender and recipient |
| Hub.Hub.OnStatus | backend/server.js:203-226 | an unjoined session changes nothing; otherwise the history is swept, a blank text stops there, and a non-blank one is posted with the cap and sent to everyone |
| Hub.Hub.PublishStatus | backend/server.js:209-224 | the post carries the stamped id, the sender, the directory's picture or null, the trimmed text and the clock; it is appended with the cap and sent to everyone |
| Hub.Hub.OnDeleteStatus | backend/server.js:228-240 | for a joined session with an id: sweep, then an owner-only delete; `statusDeleted` goes to everyone exactly when something was removed |
| Hub.Hub.OnReel | backend/server.js:242-263 | without a joined sender or video nothing happens; otherwise the reel is appended with the cap and sent to everyone |
| Hub.Hub.OnDeleteReel | backend/server.js:265-276 | owner-only delete without a sweep; `reelDeleted` goes to everyone exactly when something was removed |
| Hub.Hub.ApplyProfile | backend/server.js:279-292 | the state change is exactly `ProfileUpdate`: none for an unjoined or unknown user; otherwise the record is replaced by the update, the session takes the new name and a room member is renamed; key order and counter unchanged |
| Hub.Hub.Rename | backend/server.js:289-292 | the session's name and the room entry take the new name, keeping the invariants |
| Hub.Hub.OnUpdateProfile | backend/server.js:278-301 | the changes of ApplyProfile, then `userUpdated` with the new user list to everyone when the update happened |
| Hub.Hub.OnGroupVoiceJoin | backend/server.js:303-324 | a joined user enters the room; the reply lists the other members; `groupVoiceJoin` goes to everyone but the sender, then `groupVoiceInvite` to everyone |
| Hub.Hub.OnGroupVoiceLeave | backend/server.js:326-335 | a member leaves the room and everyone but the sender is told; a non-member's leave does nothing |
| Hub.Hub.LeaveRoom | backend/server.js:391-392 | removes exactly that id from the room and tells whether it was there |
| Hub.Hub.Depart | backend/server.js:390-399 | a closing user leaves the room and the directory; the color counter is unchanged |
| Hub.Hub.OnGroupVoiceSignal | backend/server.js:337-356 | no recipient, nothing sent; otherwise the sender-stamped relay goes only to the open sessions bound to the recipient, none if there are none |
| Hub.Hub.OnCallSignal | backend/server.js:358-371 | the frame itself goes only to the open sessions bound to the recipient, none if there are none |
| Hub.Hub.OnTyping | backend/server.js:373-379 | `userTyping`, with the sender's possibly null id and name, goes to every open session, joined or not |
| Hub.Hub.OnStateless | backend/server.js:337-383 | relays go only to the open sessions bound to the recipient (none without one), `typing` goes to every open session, unknown or malformed frames send nothing; no state changes |
| Hub.Hub.OnHistoryEvent | backend/server.js:104-276 | message, file, voice, status, reel and the deletions each make exactly their own history change and sends, leave the other two histories, the room, the sessions and the directory unchanged; an unjoined session changes nothing and sends nothing |
| Hub.Hub.OnPresenceEvent | backend/server.js:278-335 | a profile update changes only the record, the session's name and a room entry (histories, room order, directory order and counter kept); a room join or leave changes only the room (histories, sessions and directory kept); other sessions and the session's binding are untouched |
| Hub.Hub.Handle | backend/server.js:54-387 | each event kind makes exactly the state change and sends of its case (join, chat, status, deletions, reel, profile, room, relays, typing) and leaves every other part of the state as it was; frames go only to open sessions; unjoined content events, unknown and malformed frames change nothing; other sessions are untouched |
| Hub.Hub.OnClose | backend/server.js:389-408 | the session closes; a bound user leaves the room (announced to everyone left when a member) and the directory, then `userLeft` with the new list goes to everyone left |

## Left out

- Express, static files, CORS, the JSON middleware and the REST endpoints (backend/server.js:10-17, 416-448): thin read-only snapshots of the same state.
- Port binding, the LAN address scan and start-up logging (backend/server.js:451-472): environment and I/O.
- `JSON.parse`/`JSON.stringify` and the try/catch: inbound frames are the `Hub.Event` datatype, with `Malformed` for a frame that does not parse. Outbound frames are the `Hub.Payload` datatype.
- Console logging and the `ws` `error` handler: diagnostics only.
- Clock reads: the clock is the `now` parameter. One reading serves the sweep and the timestamps of a handler, where the source reads the clock separately for each.
- Generated ids: an id is the kind prefix followed by `stamp`, the decimal text of the millisecond reading. `stamp` is passed in rather than computed from `now`, because the source reads the clock separately for the id. `JsValues.StampedId` is that id for a numeric reading.
- Timestamps are millisecond numbers, not `Date` objects. A status whose creation time reads as 0 (a missing or unparsable date) is treated as expired, like `!createdAt`.
- Media payloads (file data, voice clips, videos), SDP offers, answers and candidates: opaque strings relayed verbatim. A call-signaling frame is relayed as its kind, recipient and an opaque body.
- The localized text of the `groupVoiceInvite` message (backend/server.js:321): it depends only on the member's name, which the payload carries.
- Non-string JSON values in string fields: every optional field is a string or missing/null.
- Hub.Hub.OnClose: the directory record is removed before the `groupVoiceLeave` frames are written, where the source writes them first. Those frames do not read the directory, so what every session receives is the same.
- Socket internals and `readyState`: reduced to `open`. Node runs each handler to completion, so events are applied one at a time.

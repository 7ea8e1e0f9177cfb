/** The WebSocket dispatcher of the chat server: the shared state (directory,
    three bounded histories, group-voice room, live sessions) and one handler
    per inbound event kind, each returning the frames it writes, in order. */
module Hub {
  import opened JsValues
  import opened Seqs
  import opened InsertionOrder
  import opened Users
  import opened Records
  import opened History
  import opened Fanout

  datatype CallSignalKind = Offer | Answer | Candidate | End
  datatype GroupSignalKind = GroupVoiceOffer | GroupVoiceAnswer | GroupVoiceCandidate

  /** An inbound frame after JSON parsing, by its `type` field. Optional fields
      are None when missing or null; a frame that does not parse is Malformed
      and a frame of any other type is Unknown. */
  datatype Event =
    | Join(userId: Option<string>, username: Option<string>, profilePic: Option<string>)
    | Message(text: Option<string>, recipientId: Option<string>)
    | File(filename: Option<string>, fileData: Option<string>, recipientId: Option<string>)
    | Voice(voiceData: Option<string>, recipientId: Option<string>)
    | PostStatus(text: Option<string>)
    | DeleteStatus(statusId: Option<string>)
    | PostReel(caption: Option<string>, filename: Option<string>, videoData: Option<string>)
    | DeleteReel(reelId: Option<string>)
    | UpdateProfile(username: Option<string>, picture: PicField)
    | GroupVoiceJoin
    | GroupVoiceLeave
    | GroupVoiceSignal(groupKind: GroupSignalKind, recipientId: Option<string>,
                       offer: Option<string>, answer: Option<string>, candidate: Option<string>)
    | CallSignal(callKind: CallSignalKind, recipientId: Option<string>, body: string)
    | Typing
    | Unknown(typeName: string)
    | Malformed

  /** An outbound frame. */
  datatype Payload =
    | HistoryReplay(messages: seq<ChatEntry>)
    | StatusReplay(statuses: seq<Status>)
    | ReelReplay(reels: seq<Reel>)
    | UserList(users: seq<User>)
    | UserJoined(user: User, users: seq<User>)
    | ChatPosted(entry: ChatEntry)
    | StatusPosted(status: Status)
    | StatusDeleted(statusId: string)
    | ReelPosted(reel: Reel)
    | ReelDeleted(reelId: string)
    | UserUpdated(user: User, users: seq<User>)
    | UserTyping(typingId: Option<string>, typingName: Option<string>)
    | UserLeft(leftId: string, leftName: Option<string>, users: seq<User>)
    | GroupVoiceState(members: seq<VoiceMember>)
    | GroupVoiceJoined(member: VoiceMember)
    | GroupVoiceInvite(member: VoiceMember)
    | GroupVoiceLeft(member: VoiceMember)
    | GroupVoiceRelay(groupKind: GroupSignalKind, recipientId: string, senderId: Option<string>,
                      senderName: string, offer: Option<string>, answer: Option<string>, candidate: Option<string>)
    | CallRelay(callKind: CallSignalKind, callRecipient: Option<string>, body: string)

  /** The events ignored while the connection has no user id; `join`, the
      signaling relays, `typing` and unhandled frames are served regardless. */
  predicate NeedsJoin(ev: Event)
    ensures !NeedsJoin(ev) <==>
      ev.Join? || ev.GroupVoiceSignal? || ev.CallSignal? || ev.Typing? || ev.Unknown? || ev.Malformed?
  {
    ev.Message? || ev.File? || ev.Voice? || ev.PostStatus? || ev.DeleteStatus? || ev.PostReel?
    || ev.DeleteReel? || ev.UpdateProfile? || ev.GroupVoiceJoin? || ev.GroupVoiceLeave?
  }

  /** The body of a message, file or voice event, or None when a file or voice
      event lacks its payload. */
  function ChatBodyOf(ev: Event): (r: Option<ChatBody>)
    requires ev.Message? || ev.File? || ev.Voice?
    ensures r.Some? <==> ev.Message? || (ev.File? && Truthy(ev.fileData)) || (ev.Voice? && Truthy(ev.voiceData))
    ensures r.Some? ==> (r.value.Text? <==> ev.Message?) && (r.value.Attachment? <==> ev.File?)
    ensures r.Some? && r.value.Attachment? ==> r.value.filename != "" && r.value.fileData != ""
    ensures r.Some? && r.value.VoiceClip? ==> r.value.voiceData != ""
    ensures ev.Message? ==> r == Some(Text(ev.text))
    ensures r.Some? && r.value.Attachment? ==>
      r.value.fileData == ev.fileData.value
      && r.value.filename == (if Truthy(ev.filename) then ev.filename.value else "file")
    ensures r.Some? && r.value.VoiceClip? ==> r.value.voiceData == ev.voiceData.value
  {
    if ev.Message? then Some(Text(ev.text))
    else if ev.File? then
      (if Truthy(ev.fileData) then Some(Attachment(Or(ev.filename, "file"), ev.fileData.value)) else None)
    else
      (if Truthy(ev.voiceData) then Some(VoiceClip(ev.voiceData.value)) else None)
  }

  /** The history entry a message, file or voice event creates. */
  function NewChatEntry(userId: string, username: string, body: ChatBody, recipientId: Option<string>, now: nat, stamp: string): (e: ChatEntry)
    ensures e.userId == userId && e.username == username && e.body == body && e.timestamp == now
    ensures e.recipientId != "" && (Truthy(recipientId) ==> e.recipientId == recipientId.value)
    ensures !Truthy(recipientId) ==> e.recipientId == "all"
    ensures |ChatIdPrefix(body)| <= |e.id| && e.id[..|ChatIdPrefix(body)|] == ChatIdPrefix(body)
  {
    ChatEntry(ChatIdPrefix(body) + stamp, userId, username, body, Or(recipientId, "all"), now)
  }

  /** With the clock reading `t` as its stamp, a chat entry's id is the
      stamped id of its kind, so two entries of one kind collide exactly when
      they were made in the same millisecond. */
  lemma ChatIdsCollideIffSameMillisecond(u1: string, n1: string, b1: ChatBody, r1: Option<string>, now1: nat, t1: nat,
                                         u2: string, n2: string, b2: ChatBody, r2: Option<string>, now2: nat, t2: nat)
    requires ChatIdPrefix(b1) == ChatIdPrefix(b2)
    ensures NewChatEntry(u1, n1, b1, r1, now1, Decimal(t1)).id == StampedId(ChatIdPrefix(b1), t1)
    ensures NewChatEntry(u1, n1, b1, r1, now1, Decimal(t1)).id == NewChatEntry(u2, n2, b2, r2, now2, Decimal(t2)).id
            <==> t1 == t2
  {
    StampedIdsCollideIffSameMillisecond(ChatIdPrefix(b1), t1, t2);
  }

  /** The status and reel ids that `StatusStep` and `ReelStep` build from a
      decimal stamp are stamped ids, and collide exactly on equal readings. */
  lemma PostIdsCollideIffSameMillisecond(t1: nat, t2: nat)
    ensures "status_" + Decimal(t1) == StampedId("status_", t1)
    ensures "reel_" + Decimal(t1) == StampedId("reel_", t1)
    ensures "status_" + Decimal(t1) == "status_" + Decimal(t2) <==> t1 == t2
    ensures "reel_" + Decimal(t1) == "reel_" + Decimal(t2) <==> t1 == t2
  {
    StampedIdsCollideIffSameMillisecond("status_", t1, t2);
    StampedIdsCollideIffSameMillisecond("reel_", t1, t2);
  }

  /** "all" goes to every open session, sender included; anything else goes
      to the sessions of the sender and of the recipient. */
  function ChatAudience(e: ChatEntry): (r: Audience)
    ensures r.Everyone? <==> e.recipientId == "all"
    ensures r.Everyone? ==> r.except.None?
    ensures r.BoundTo? ==> e.userId in r.ids && e.recipientId in r.ids
  {
    if e.recipientId == "all" then Everyone(None) else BoundTo({e.recipientId, e.userId})
  }

  /** The sessions a chat entry reaches. */
  lemma ChatRecipients(clients: seq<Client>, e: ChatEntry, i: nat)
    requires Indexed(clients) && i < |clients|
    ensures Reached(Deliver(clients, ChatPosted(e), ChatAudience(e)), i) <==>
      clients[i].open &&
      (e.recipientId == "all" || clients[i].userId == Some(e.recipientId) || clients[i].userId == Some(e.userId))
  {
    ReachedIff(clients, ChatPosted(e), ChatAudience(e), i);
  }

  /** A relay addressed to a user with no open session writes nothing. */
  lemma RelayToAbsentRecipient(clients: seq<Client>, p: Payload, r: string)
    ensures (forall i :: 0 <= i < |clients| ==> !clients[i].open || clients[i].userId != Some(r)) ==>
      Deliver(clients, p, BoundTo({r})) == []
  {
    if forall i :: 0 <= i < |clients| ==> !clients[i].open || clients[i].userId != Some(r) {
      DeliverToNobody(clients, p, BoundTo({r}));
    }
  }

  /** The frames an event that needs no join writes: a signaling relay goes
      only to the open sessions bound to its recipient (nowhere without a
      recipient), `typing` goes to every open session, and any other frame
      writes nothing. */
  function StatelessSends(clients: seq<Client>, s: nat, ev: Event): seq<Send<Payload>>
    requires s < |clients| && !ev.Join? && !NeedsJoin(ev)
  {
    match ev
    case GroupVoiceSignal(kind, recipientId, offer, answer, candidate) =>
      if Truthy(recipientId) then
        Deliver(clients, GroupVoiceRelay(kind, recipientId.value, clients[s].userId, Or(clients[s].username, "Anonymous"),
                                         offer, answer, candidate), BoundTo({recipientId.value}))
      else []
    case CallSignal(kind, recipientId, body) =>
      if Truthy(recipientId) then Deliver(clients, CallRelay(kind, recipientId, body), BoundTo({recipientId.value})) else []
    case Typing => Deliver(clients, UserTyping(clients[s].userId, clients[s].username), Everyone(None))
    case Unknown(_) | Malformed => []
  }

  /** `getUser(userId)?.profilePic || null`. */
  function PictureOf(u: Option<User>): (r: Option<string>)
    ensures r.Some? <==> u.Some? && Truthy(u.value.profilePic)
    ensures r.Some? ==> r == u.value.profilePic
  {
    if u.Some? then OrNull(u.value.profilePic) else None
  }

  /** `(data.username || '').trim() || username || 'Anonymous'`. */
  function ProfileName(requested: Option<string>, current: Option<string>): (name: string)
    ensures name != ""
    ensures Trim(Or(requested, "")) != "" ==> name == Trim(Or(requested, ""))
    ensures Trim(Or(requested, "")) == "" ==> name == Or(current, "Anonymous")
  {
    var t := Trim(Or(requested, ""));
    if t != "" then t else Or(current, "Anonymous")
  }

  /** The record `updateProfile` files under the user id of session `c` when
      the new name is `name`, or None when the session has not joined or its
      user has no record: a non-empty name replaces the old one, and the
      picture is the given one or else the kept one (null when falsy). */
  function ProfileUpdate(c: Client, users: map<string, User>, name: string, picture: PicField): (r: Option<User>)
    ensures r.Some? <==> Truthy(c.userId) && c.userId.value in users
    ensures r.Some? ==>
      var existing := users[c.userId.value];
      && r.value.id == existing.id && r.value.color == existing.color && r.value.joinedAt == existing.joinedAt
      && r.value.username == (if name != "" then name else existing.username)
      && r.value.profilePic == (if picture.Given? then picture.pic else OrNull(existing.profilePic))
  {
    if !Truthy(c.userId) || c.userId.value !in users then None
    else
      var existing := users[c.userId.value];
      var nextPic := if picture.Absent? then OrNull(existing.profilePic) else picture.pic;
      Some(Merge(existing, Some(name), Given(nextPic)))
  }

  /** The room after member `id` is renamed; a non-member leaves it as it was. */
  function Renamed(voice: map<string, VoiceMember>, id: string, name: string): (r: map<string, VoiceMember>)
    ensures r.Keys == voice.Keys
    ensures id in voice ==> r[id] == VoiceMember(id, name)
    ensures forall k :: k in voice && k != id ==> r[k] == voice[k]
    ensures id !in voice ==> r == voice
  {
    if id in voice then voice[id := VoiceMember(id, name)] else voice
  }

  /** The group-voice room is a JavaScript `Map` from member id to member,
      listed in `order`. */
  ghost predicate RoomValid(order: seq<string>, voice: map<string, VoiceMember>) {
    Tracks(order, voice) && forall id :: id in voice ==> voice[id].id == id
  }

  lemma RoomEnter(order: seq<string>, voice: map<string, VoiceMember>, m: VoiceMember)
    requires RoomValid(order, voice)
    ensures RoomValid(WithKey(order, m.id), voice[m.id := m])
  {
    TracksWithKey(order, voice, m.id, m);
  }

  lemma RoomLeave(order: seq<string>, voice: map<string, VoiceMember>, id: string)
    requires RoomValid(order, voice)
    ensures RoomValid(WithoutKey(order, id), voice - {id})
  {
    TracksWithoutKey(order, voice, id);
  }

  lemma RoomRename(order: seq<string>, voice: map<string, VoiceMember>, id: string, name: string)
    requires RoomValid(order, voice)
    ensures RoomValid(order, Renamed(voice, id, name))
  {
  }

  /** `members.filter(u => u.id !== id)`. */
  function OthersThan(members: seq<VoiceMember>, id: string): (r: seq<VoiceMember>)
    ensures |r| <= |members|
  {
    if members == [] then []
    else if members[0].id == id then OthersThan(members[1..], id)
    else [members[0]] + OthersThan(members[1..], id)
  }

  lemma {:induction false} OthersThanValues(ks: seq<string>, m: map<string, VoiceMember>, id: string)
    requires forall k :: k in ks ==> k in m && m[k].id == k
    ensures OthersThan(ValuesOf(ks, m), id) == ValuesOf(WithoutKey(ks, id), m)
  {
    if ks != [] {
      OthersThanValues(ks[1..], m, id);
      assert ValuesOf(ks, m)[1..] == ValuesOf(ks[1..], m);
    }
  }

  /** The room listing a `groupVoiceJoin` replies with is the membership before
      the join, in joining order, without the joiner. */
  lemma JoinReplyIsPriorMembership(order: seq<string>, voice: map<string, VoiceMember>, m: VoiceMember)
    requires RoomValid(order, voice)
    ensures OthersThan(ValuesOf(WithKey(order, m.id), voice[m.id := m]), m.id)
         == ValuesOf(WithoutKey(order, m.id), voice)
  {
    var order', voice' := WithKey(order, m.id), voice[m.id := m];
    WithKeyKeys(order, m.id);
    OthersThanValues(order', voice', m.id);
    if m.id !in order {
      WithoutAppendedKey(order, m.id);
    }
    var ks := WithoutKey(order, m.id);
    assert WithoutKey(order', m.id) == ks;
    WithoutKeyKeys(order, m.id);
    ValuesOfOtherKey(ks, voice, m.id, m);
  }

  class Hub {
    const directory: UserManager
    var messages: seq<ChatEntry>
    var statuses: seq<Status>
    var reels: seq<Reel>
    var voice: map<string, VoiceMember>
    var voiceOrder: seq<string>
    var clients: seq<Client>

    /** The histories are within capacity, the group-voice room is a JS `Map`
        keyed by member id, and sessions are numbered by position. */
    ghost predicate Valid()
      reads this, directory
    {
      && directory.Valid()
      && |messages| <= MAX_HISTORY
      && |statuses| <= MAX_STATUS_HISTORY
      && |reels| <= MAX_REEL_HISTORY
      && RoomValid(voiceOrder, voice)
      && Indexed(clients)
    }

    constructor ()
      ensures Valid() && fresh(directory)
      ensures messages == [] && statuses == [] && reels == []
      ensures voice == map[] && voiceOrder == [] && clients == []
      ensures directory.users == map[] && directory.colorIndex == 0
    {
      directory := new UserManager();
      messages, statuses, reels := [], [], [];
      voice, voiceOrder := map[], [];
      clients := [];
    }

    /** A new connection: an open session bound to no user yet. */
    method Connect() returns (sid: nat)
      requires Valid()
      modifies this`clients
      ensures Valid()
      ensures sid == old(|clients|) && clients == old(clients) + [Client(sid, None, None, true)]
    {
      sid := |clients|;
      clients := clients + [Client(sid, None, None, true)];
    }

    /** `cleanupExpiredStatuses`: walks the statuses from the back, splicing
        out each expired one. */
    method CleanupExpiredStatuses(now: nat)
      modifies this`statuses
      ensures statuses == Sweep(old(statuses), now)
    {
      ghost var h0 := statuses;
      var i := |statuses|;
      while i > 0
        invariant 0 <= i <= |h0|
        invariant statuses == h0[..i] + Sweep(h0[i..], now)
      {
        i := i - 1;
        SweepStepBack(h0, i, now);
        if Expired(statuses[i], now) {
          statuses := statuses[..i] + statuses[i + 1..];
        }
      }
      assert h0[0..] == h0;
    }

    /** One send loop over the sessions (`broadcast`, the directed-message
        loop and the relay loops). */
    method FanOut(p: Payload, a: Audience) returns (sends: seq<Send<Payload>>)
      requires Indexed(clients)
      ensures sends == Deliver(clients, p, a)
      ensures AllOpen(clients, sends)
    {
      sends := [];
      var i := 0;
      while i < |clients|
        invariant 0 <= i <= |clients|
        invariant sends == Deliver(clients[..i], p, a)
      {
        assert clients[..i + 1][..i] == clients[..i];
        if Receives(clients[i], a) {
          sends := sends + [Send(clients[i].sid, p)];
        }
        i := i + 1;
      }
      assert clients[..|clients|] == clients;
      DeliverReachesExactly(clients, p, a);
    }

    /** The state changes of `join`: sweep the statuses, bind the session to
        the user id and name, and file the user under that id. */
    method Enter(s: nat, userId: Option<string>, username: Option<string>, profilePic: Option<string>, now: nat, stamp: string)
      returns (u: User)
      requires Valid() && s < |clients| && clients[s].open
      modifies this`statuses, this`clients, directory
      ensures Valid()
      ensures statuses == Sweep(old(statuses), now)
      ensures
        var id := Or(userId, "user_" + stamp);
        var name := Or(username, "Anonymous");
        && u == User(id, name, ColorFor(old(directory.colorIndex)), OrNull(profilePic), now)
        && clients == old(clients)[s := old(clients[s]).(userId := Some(id), username := Some(name))]
        && directory.users == old(directory.users)[id := u]
        && directory.order == WithKey(old(directory.order), id)
        && directory.colorIndex == old(directory.colorIndex) + 1
    {
      CleanupExpiredStatuses(now);
      var id := Or(userId, "user_" + stamp);
      var name := Or(username, "Anonymous");
      var picture := OrNull(profilePic);
      IndexedUpdate(clients, s, clients[s].(userId := Some(id), username := Some(name)));
      clients := clients[s := clients[s].(userId := Some(id), username := Some(name))];
      u := directory.AddUser(id, name, picture, now);
    }

    /** A history event leaves the room, the sessions and the directory as
        they were. */
    twostate predicate OnlyHistoryChanged()
      reads this, directory
    {
      voice == old(voice) && voiceOrder == old(voiceOrder) && clients == old(clients) && unchanged(directory)
    }

    /** A room event leaves the histories, the sessions and the directory as
        they were. */
    twostate predicate OnlyRoomChanged()
      reads this, directory
    {
      && messages == old(messages) && statuses == old(statuses) && reels == old(reels)
      && clients == old(clients) && unchanged(directory)
    }

    /** What `join` does: the sweep, the session binding, the record filed, the
        four replies to the joiner and the `userJoined` broadcast. */
    twostate predicate Joined(s: nat, userId: Option<string>, username: Option<string>, profilePic: Option<string>, now: nat, stamp: string, sends: seq<Send<Payload>>)
      requires s < old(|clients|) && s < |clients| && Valid()
      reads this, directory
    {
      var id := Or(userId, "user_" + stamp);
      var name := Or(username, "Anonymous");
      var u := User(id, name, ColorFor(old(directory.colorIndex)), OrNull(profilePic), now);
      && statuses == Sweep(old(statuses), now)
      && messages == old(messages) && reels == old(reels)
      && voice == old(voice) && voiceOrder == old(voiceOrder)
      && clients[s] == old(clients[s]).(userId := Some(id), username := Some(name))
      && directory.users == old(directory.users)[id := u]
      && directory.order == WithKey(old(directory.order), id)
      && directory.colorIndex == old(directory.colorIndex) + 1
      && sends == Reply(s, [HistoryReplay(messages), StatusReplay(statuses),
                            ReelReplay(reels), UserList(directory.GetAllUsers())])
                  + Deliver(clients, UserJoined(u, directory.GetAllUsers()), Everyone(None))
    }

    /** What `message`, `file` and `voice` do. */
    twostate predicate ChatStep(s: nat, ev: Event, now: nat, stamp: string, sends: seq<Send<Payload>>)
      requires s < |clients| && (ev.Message? || ev.File? || ev.Voice?)
      reads this, directory
    {
      var c := clients[s];
      var body := ChatBodyOf(ev);
      && OnlyHistoryChanged()
      && statuses == old(statuses) && reels == old(reels)
      && if Truthy(c.userId) && Truthy(c.username) && body.Some? then
        var e := NewChatEntry(c.userId.value, c.username.value, body.value, ev.recipientId, now, stamp);
        messages == Capped(old(messages), e, MAX_HISTORY) && sends == Deliver(clients, ChatPosted(e), ChatAudience(e))
      else
        messages == old(messages) && sends == []
    }

    /** What `status` does. */
    twostate predicate StatusStep(s: nat, text: Option<string>, now: nat, stamp: string, sends: seq<Send<Payload>>)
      requires s < |clients| && Valid()
      reads this, directory
    {
      var c := clients[s];
      && OnlyHistoryChanged()
      && messages == old(messages) && reels == old(reels)
      && if !(Truthy(c.userId) && Truthy(c.username)) then
        statuses == old(statuses) && sends == []
      else
        var swept := Sweep(old(statuses), now);
        var t := Trim(Or(text, ""));
        if t == "" then
          statuses == swept && sends == []
        else
          var post := Post("status_" + stamp, c.userId.value, c.username.value,
                           PictureOf(directory.GetUser(c.userId.value)), t, now);
          statuses == Capped(swept, post, MAX_STATUS_HISTORY)
          && sends == Deliver(clients, StatusPosted(post), Everyone(None))
    }

    /** What `deleteStatus` does. */
    twostate predicate DeleteStatusStep(s: nat, statusId: Option<string>, now: nat, sends: seq<Send<Payload>>)
      requires s < |clients|
      reads this, directory
    {
      var c := clients[s];
      && OnlyHistoryChanged()
      && messages == old(messages) && reels == old(reels)
      && if !(Truthy(c.userId) && Truthy(statusId)) then
        statuses == old(statuses) && sends == []
      else
        var swept := Sweep(old(statuses), now);
        match DeleteOwned(swept, statusId.value, c.userId.value)
        case None => statuses == swept && sends == []
        case Some(rest) =>
          statuses == rest && sends == Deliver(clients, StatusDeleted(statusId.value), Everyone(None))
    }

    /** What `reel` does. */
    twostate predicate ReelStep(s: nat, caption: Option<string>, filename: Option<string>, videoData: Option<string>, now: nat, stamp: string, sends: seq<Send<Payload>>)
      requires s < |clients| && Valid()
      reads this, directory
    {
      var c := clients[s];
      && OnlyHistoryChanged()
      && messages == old(messages) && statuses == old(statuses)
      && if Truthy(c.userId) && Truthy(c.username) && Truthy(videoData) then
        var post := Post("reel_" + stamp, c.userId.value, c.username.value,
                         PictureOf(directory.GetUser(c.userId.value)),
                         ReelMedia(Trim(Or(caption, "")), Or(filename, "video"), videoData.value), now);
        reels == Capped(old(reels), post, MAX_REEL_HISTORY)
        && sends == Deliver(clients, ReelPosted(post), Everyone(None))
      else
        reels == old(reels) && sends == []
    }

    /** What `deleteReel` does. */
    twostate predicate DeleteReelStep(s: nat, reelId: Option<string>, sends: seq<Send<Payload>>)
      requires s < |clients|
      reads this, directory
    {
      var c := clients[s];
      && OnlyHistoryChanged()
      && messages == old(messages) && statuses == old(statuses)
      && if !(Truthy(c.userId) && Truthy(reelId)) then
        reels == old(reels) && sends == []
      else
        match DeleteOwned(old(reels), reelId.value, c.userId.value)
        case None => reels == old(reels) && sends == []
        case Some(rest) =>
          reels == rest && sends == Deliver(clients, ReelDeleted(reelId.value), Everyone(None))
    }

    /** What `updateProfile` does. */
    twostate predicate ProfileStep(s: nat, username: Option<string>, picture: PicField, sends: seq<Send<Payload>>)
      requires s < old(|clients|) && s < |clients| && Valid()
      reads this, directory
    {
      var c := old(clients)[s];
      var updated := ProfileUpdate(c, old(directory.users), ProfileName(username, c.username), picture);
      && messages == old(messages) && statuses == old(statuses) && reels == old(reels)
      && voiceOrder == old(voiceOrder)
      && directory.order == old(directory.order) && directory.colorIndex == old(directory.colorIndex)
      && if updated.None? then
        clients[s] == c && voice == old(voice) && directory.users == old(directory.users) && sends == []
      else
        var u := updated.value;
        && directory.users == old(directory.users)[u.id := u]
        && clients[s] == c.(username := Some(u.username))
        && voice == Renamed(old(voice), u.id, u.username)
        && sends == Deliver(clients, UserUpdated(u, directory.GetAllUsers()), Everyone(None))
    }

    /** What `groupVoiceJoin` does. */
    twostate predicate VoiceJoinStep(s: nat, sends: seq<Send<Payload>>)
      requires s < |clients| && Valid()
      reads this, directory
    {
      var c := clients[s];
      && OnlyRoomChanged()
      && if !Truthy(c.userId) then
        voice == old(voice) && voiceOrder == old(voiceOrder) && sends == []
      else
        var m := VoiceMember(c.userId.value, Or(c.username, "Anonymous"));
        && voice == old(voice)[m.id := m]
        && voiceOrder == WithKey(old(voiceOrder), m.id)
        && sends == Reply(s, [GroupVoiceState(OthersThan(ValuesOf(voiceOrder, voice), m.id))])
                    + Deliver(clients, GroupVoiceJoined(m), Everyone(Some(s)))
                    + Deliver(clients, GroupVoiceInvite(m), Everyone(None))
    }

    /** What `groupVoiceLeave` does. */
    twostate predicate VoiceLeaveStep(s: nat, sends: seq<Send<Payload>>)
      requires s < |clients|
      reads this, directory
    {
      var c := clients[s];
      && OnlyRoomChanged()
      && if Truthy(c.userId) && c.userId.value in old(voice) then
        var m := VoiceMember(c.userId.value, Or(c.username, "Anonymous"));
        && voice == old(voice) - {m.id}
        && voiceOrder == WithoutKey(old(voiceOrder), m.id)
        && sends == Deliver(clients, GroupVoiceLeft(m), Everyone(Some(s)))
      else
        voice == old(voice) && voiceOrder == old(voiceOrder) && sends == []
    }

    /** `join`: sweep the statuses, bind the session, file the user, replay the
        histories and the user list to the joiner alone, then announce the
        join to every open session, the joiner included. */
    method OnJoin(s: nat, userId: Option<string>, username: Option<string>, profilePic: Option<string>, now: nat, stamp: string)
      returns (sends: seq<Send<Payload>>)
      requires Valid() && s < |clients| && clients[s].open
      modifies this`statuses, this`clients, directory
      ensures Valid() && AllOpen(clients, sends)
      ensures |clients| == old(|clients|) && forall i :: 0 <= i < |clients| && i != s ==> clients[i] == old(clients[i])
      ensures Joined(s, userId, username, profilePic, now, stamp, sends)
    {
      var u := Enter(s, userId, username, profilePic, now, stamp);
      var users := directory.GetAllUsers();
      var replayed := [HistoryReplay(messages), StatusReplay(statuses), ReelReplay(reels), UserList(users)];
      var replies := Reply(s, replayed);
      ReplyAllOpen(clients, s, replayed);
      var joined := FanOut(UserJoined(u, users), Everyone(None));
      AllOpenAppend(clients, replies, joined);
      sends := replies + joined;
    }

    /** `messageHistory.push` followed by `shift` once past capacity. */
    method RecordChat(e: ChatEntry)
      modifies this`messages
      ensures messages == Capped(old(messages), e, MAX_HISTORY)
    {
      ghost var before := messages;
      messages := messages + [e];
      if |messages| > MAX_HISTORY {
        messages := messages[1..];
      }
      assert messages == Capped(before, e, MAX_HISTORY);
    }

    /** `statusHistory.push` followed by `shift` once past capacity. */
    method RecordStatus(post: Status)
      modifies this`statuses
      ensures statuses == Capped(old(statuses), post, MAX_STATUS_HISTORY)
    {
      ghost var before := statuses;
      statuses := statuses + [post];
      if |statuses| > MAX_STATUS_HISTORY {
        statuses := statuses[1..];
      }
      assert statuses == Capped(before, post, MAX_STATUS_HISTORY);
    }

    /** `reelHistory.push` followed by `shift` once past capacity. */
    method RecordReel(post: Reel)
      modifies this`reels
      ensures reels == Capped(old(reels), post, MAX_REEL_HISTORY)
    {
      ghost var before := reels;
      reels := reels + [post];
      if |reels| > MAX_REEL_HISTORY {
        reels := reels[1..];
      }
      assert reels == Capped(before, post, MAX_REEL_HISTORY);
    }

    /** `message`, `file` and `voice`: a joined sender's entry goes to the
        message history and to everyone, or only to the sessions of sender
        and recipient. */
    method OnChat(s: nat, ev: Event, now: nat, stamp: string) returns (sends: seq<Send<Payload>>)
      requires Valid() && s < |clients| && clients[s].open
      requires ev.Message? || ev.File? || ev.Voice?
      modifies this`messages
      ensures Valid() && AllOpen(clients, sends)
      ensures !Truthy(clients[s].userId) ==> sends == [] && unchanged(this)
      ensures ChatStep(s, ev, now, stamp, sends)
    {
      sends := [];
      var c := clients[s];
      var body := ChatBodyOf(ev);
      if !(Truthy(c.userId) && Truthy(c.username) && body.Some?) {
        return;
      }
      var e := NewChatEntry(c.userId.value, c.username.value, body.value, ev.recipientId, now, stamp);
      RecordChat(e);
      if e.recipientId == "all" {
        sends := FanOut(ChatPosted(e), Everyone(None));
      } else {
        sends := FanOut(ChatPosted(e), BoundTo({e.recipientId, c.userId.value}));
      }
    }

    /** `status`: sweep, then post the trimmed text unless it is blank. */
    method OnStatus(s: nat, text: Option<string>, now: nat, stamp: string) returns (sends: seq<Send<Payload>>)
      requires Valid() && s < |clients| && clients[s].open
      modifies this`statuses
      ensures Valid() && AllOpen(clients, sends)
      ensures !Truthy(clients[s].userId) ==> sends == [] && unchanged(this)
      ensures StatusStep(s, text, now, stamp, sends)
    {
      sends := [];
      var c := clients[s];
      if !(Truthy(c.userId) && Truthy(c.username)) {
        return;
      }
      CleanupExpiredStatuses(now);
      var t := Trim(Or(text, ""));
      if t == "" {
        return;
      }
      sends := PublishStatus(s, t, now, stamp);
    }

    /** The posting half of `status`: file the post with the cap and send it
        to everyone. */
    method PublishStatus(s: nat, t: string, now: nat, stamp: string) returns (sends: seq<Send<Payload>>)
      requires Valid() && s < |clients| && Truthy(clients[s].userId) && Truthy(clients[s].username)
      modifies this`statuses
      ensures Valid() && AllOpen(clients, sends)
      ensures
        var c := clients[s];
        var post := Post("status_" + stamp, c.userId.value, c.username.value,
                         PictureOf(directory.GetUser(c.userId.value)), t, now);
        statuses == Capped(old(statuses), post, MAX_STATUS_HISTORY)
        && sends == Deliver(clients, StatusPosted(post), Everyone(None))
    {
      var c := clients[s];
      var post := Post("status_" + stamp, c.userId.value, c.username.value,
                       PictureOf(directory.GetUser(c.userId.value)), t, now);
      RecordStatus(post);
      sends := FanOut(StatusPosted(post), Everyone(None));
    }

    /** `deleteStatus`: sweep, then remove the status only for its owner. */
    method OnDeleteStatus(s: nat, statusId: Option<string>, now: nat) returns (sends: seq<Send<Payload>>)
      requires Valid() && s < |clients| && clients[s].open
      modifies this`statuses
      ensures Valid() && AllOpen(clients, sends)
      ensures !Truthy(clients[s].userId) ==> sends == [] && unchanged(this)
      ensures DeleteStatusStep(s, statusId, now, sends)
    {
      sends := [];
      var c := clients[s];
      if !(Truthy(c.userId) && Truthy(statusId)) {
        return;
      }
      CleanupExpiredStatuses(now);
      var idx := FindIndex(statuses, statusId.value);
      if idx != -1 && statuses[idx].userId == c.userId.value {
        var removed := statuses[idx];
        statuses := statuses[..idx] + statuses[idx + 1..];
        sends := FanOut(StatusDeleted(removed.id), Everyone(None));
      }
    }

    /** `reel`: a joined sender's video goes to the reel history and to everyone. */
    method OnReel(s: nat, caption: Option<string>, filename: Option<string>, videoData: Option<string>, now: nat, stamp: string)
      returns (sends: seq<Send<Payload>>)
      requires Valid() && s < |clients| && clients[s].open
      modifies this`reels
      ensures Valid() && AllOpen(clients, sends)
      ensures !Truthy(clients[s].userId) ==> sends == [] && unchanged(this)
      ensures ReelStep(s, caption, filename, videoData, now, stamp, sends)
    {
      sends := [];
      var c := clients[s];
      if !(Truthy(c.userId) && Truthy(c.username) && Truthy(videoData)) {
        return;
      }
      var post := Post("reel_" + stamp, c.userId.value, c.username.value,
                       PictureOf(directory.GetUser(c.userId.value)),
                       ReelMedia(Trim(Or(caption, "")), Or(filename, "video"), videoData.value), now);
      RecordReel(post);
      sends := FanOut(ReelPosted(post), Everyone(None));
    }

    /** `deleteReel`: remove the reel only for its owner (no sweep here). */
    method OnDeleteReel(s: nat, reelId: Option<string>) returns (sends: seq<Send<Payload>>)
      requires Valid() && s < |clients| && clients[s].open
      modifies this`reels
      ensures Valid() && AllOpen(clients, sends)
      ensures !Truthy(clients[s].userId) ==> sends == [] && unchanged(this)
      ensures DeleteReelStep(s, reelId, sends)
    {
      sends := [];
      var c := clients[s];
      if !(Truthy(c.userId) && Truthy(reelId)) {
        return;
      }
      var idx := FindIndex(reels, reelId.value);
      if idx != -1 && reels[idx].userId == c.userId.value {
        var removed := reels[idx];
        reels := reels[..idx] + reels[idx + 1..];
        sends := FanOut(ReelDeleted(removed.id), Everyone(None));
      }
    }

    /** The state changes of `updateProfile` once the new name is known:
        merge it and the picture into the directory record, then refresh the
        session's name and the room entry. None when the session has not
        joined or its user has no record. */
    method ApplyProfile(s: nat, name: string, picture: PicField) returns (updated: Option<User>)
      requires Valid() && s < |clients| && clients[s].open
      modifies this`clients, this`voice, directory
      ensures Valid()
      ensures !Truthy(old(clients)[s].userId) ==> updated.None? && unchanged(this, directory)
      ensures directory.order == old(directory.order) && directory.colorIndex == old(directory.colorIndex)
      ensures updated == ProfileUpdate(old(clients)[s], old(directory.users), name, picture)
      ensures updated.None? ==> clients == old(clients) && voice == old(voice) && directory.users == old(directory.users)
      ensures updated.Some? ==>
        var u := updated.value;
        && directory.users == old(directory.users)[u.id := u]
        && clients == old(clients)[s := old(clients)[s].(username := Some(u.username))]
        && voice == Renamed(old(voice), u.id, u.username)
    {
      var c := clients[s];
      if !Truthy(c.userId) {
        return None;
      }
      var id := c.userId.value;
      var nextPic := if picture.Absent? then PictureOf(directory.GetUser(id)) else picture.pic;
      updated := directory.UpdateUser(id, Some(name), Given(nextPic));
      if updated.None? {
        return;
      }
      Rename(s, id, updated.value.username);
    }

    /** The session's name and the user's room entry take the new name. */
    method Rename(s: nat, id: string, name: string)
      requires s < |clients| && Indexed(clients) && RoomValid(voiceOrder, voice)
      modifies this`clients, this`voice
      ensures Indexed(clients) && RoomValid(voiceOrder, voice)
      ensures clients == old(clients)[s := old(clients[s]).(username := Some(name))]
      ensures voice == Renamed(old(voice), id, name)
    {
      IndexedUpdate(clients, s, clients[s].(username := Some(name)));
      clients := clients[s := clients[s].(username := Some(name))];
      RoomRename(voiceOrder, voice, id, name);
      voice := Renamed(voice, id, name);
    }

    /** `updateProfile`: merge the new name and picture into the directory
        record, refresh the session's name and the room entry, announce it. */
    method OnUpdateProfile(s: nat, username: Option<string>, picture: PicField) returns (sends: seq<Send<Payload>>)
      requires Valid() && s < |clients| && clients[s].open
      modifies this`clients, this`voice, directory
      ensures Valid() && AllOpen(clients, sends)
      ensures !Truthy(old(clients)[s].userId) ==> sends == [] && unchanged(this, directory)
      ensures directory.order == old(directory.order) && directory.colorIndex == old(directory.colorIndex)
      ensures |clients| == old(|clients|) && forall i :: 0 <= i < |clients| && i != s ==> clients[i] == old(clients[i])
      ensures ProfileStep(s, username, picture, sends)
    {
      sends := [];
      var name := ProfileName(username, clients[s].username);
      var updated := ApplyProfile(s, name, picture);
      if updated.Some? {
        sends := FanOut(UserUpdated(updated.value, directory.GetAllUsers()), Everyone(None));
      }
    }

    /** `groupVoiceJoin`: enter the room, reply with the other members, tell
        everyone else about the join and invite everyone. */
    method OnGroupVoiceJoin(s: nat) returns (sends: seq<Send<Payload>>)
      requires Valid() && s < |clients| && clients[s].open
      modifies this`voice, this`voiceOrder
      ensures Valid() && AllOpen(clients, sends)
      ensures !Truthy(clients[s].userId) ==> sends == [] && unchanged(this)
      ensures VoiceJoinStep(s, sends)
    {
      sends := [];
      var c := clients[s];
      if !Truthy(c.userId) {
        return;
      }
      var m := VoiceMember(c.userId.value, Or(c.username, "Anonymous"));
      RoomEnter(voiceOrder, voice, m);
      voice := voice[m.id := m];
      voiceOrder := WithKey(voiceOrder, m.id);
      var reply := Reply(s, [GroupVoiceState(OthersThan(ValuesOf(voiceOrder, voice), m.id))]);
      ReplyAllOpen(clients, s, [GroupVoiceState(OthersThan(ValuesOf(voiceOrder, voice), m.id))]);
      var joined := FanOut(GroupVoiceJoined(m), Everyone(Some(s)));
      var invited := FanOut(GroupVoiceInvite(m), Everyone(None));
      AllOpenAppend(clients, reply, joined);
      AllOpenAppend(clients, reply + joined, invited);
      sends := reply + joined + invited;
    }

    /** `groupVoiceLeave`: a member leaves the room and everyone else is told;
        a non-member's leave does nothing. */
    method OnGroupVoiceLeave(s: nat) returns (sends: seq<Send<Payload>>)
      requires Valid() && s < |clients| && clients[s].open
      modifies this`voice, this`voiceOrder
      ensures Valid() && AllOpen(clients, sends)
      ensures !Truthy(clients[s].userId) ==> sends == [] && unchanged(this)
      ensures VoiceLeaveStep(s, sends)
    {
      sends := [];
      var c := clients[s];
      if !(Truthy(c.userId) && c.userId.value in voice) {
        return;
      }
      var m := VoiceMember(c.userId.value, Or(c.username, "Anonymous"));
      var _ := LeaveRoom(m.id);
      sends := FanOut(GroupVoiceLeft(m), Everyone(Some(s)));
    }

    /** `groupVoiceUsers.delete(id)`: tells whether `id` was in the room. */
    method LeaveRoom(id: string) returns (wasMember: bool)
      requires RoomValid(voiceOrder, voice)
      modifies this`voice, this`voiceOrder
      ensures RoomValid(voiceOrder, voice)
      ensures wasMember == (id in old(voice))
      ensures voice == old(voice) - {id}
      ensures voiceOrder == WithoutKey(old(voiceOrder), id)
    {
      wasMember := id in voice;
      TracksHas(voiceOrder, voice, id);
      RoomLeave(voiceOrder, voice, id);
      voice := voice - {id};
      voiceOrder := WithoutKey(voiceOrder, id);
    }

    /** The state changes of `close` for a bound user: leave the room (telling
        whether they were in it), then drop the directory record. */
    method Depart(id: string) returns (wasMember: bool)
      requires Valid()
      modifies this`voice, this`voiceOrder, directory
      ensures Valid()
      ensures wasMember == (id in old(voice))
      ensures voice == old(voice) - {id}
      ensures voiceOrder == WithoutKey(old(voiceOrder), id)
      ensures directory.users == old(directory.users) - {id}
      ensures directory.order == WithoutKey(old(directory.order), id)
      ensures directory.colorIndex == old(directory.colorIndex)
    {
      // the histories and sessions lie outside LeaveRoom's frame
      ghost var kept := (messages, statuses, reels, clients);
      wasMember := LeaveRoom(id);
      assert kept == (messages, statuses, reels, clients);
      var _ := directory.RemoveUser(id);
    }

    /** `groupVoiceOffer`/`Answer`/`Candidate`: relayed, with the sender's id
        and name attached, to the sessions bound to the recipient only; no
        join is required. */
    method OnGroupVoiceSignal(s: nat, kind: GroupSignalKind, recipientId: Option<string>,
                              offer: Option<string>, answer: Option<string>, candidate: Option<string>)
      returns (sends: seq<Send<Payload>>)
      requires Valid() && s < |clients|
      ensures AllOpen(clients, sends)
      ensures !Truthy(recipientId) ==> sends == []
      ensures Truthy(recipientId) ==>
        sends == Deliver(clients, GroupVoiceRelay(kind, recipientId.value, clients[s].userId,
                         Or(clients[s].username, "Anonymous"), offer, answer, candidate), BoundTo({recipientId.value}))
      ensures (forall i :: 0 <= i < |clients| ==> !clients[i].open || clients[i].userId != recipientId) ==> sends == []
    {
      sends := [];
      if Truthy(recipientId) {
        var p := GroupVoiceRelay(kind, recipientId.value, clients[s].userId,
                                 Or(clients[s].username, "Anonymous"), offer, answer, candidate);
        sends := FanOut(p, BoundTo({recipientId.value}));
        RelayToAbsentRecipient(clients, p, recipientId.value);
      }
    }

    /** `offer`/`answer`/`candidate`/`end`: the frame itself is relayed to the
        sessions bound to the recipient only; no join is required. */
    method OnCallSignal(kind: CallSignalKind, recipientId: Option<string>, body: string)
      returns (sends: seq<Send<Payload>>)
      requires Valid()
      ensures AllOpen(clients, sends)
      ensures !Truthy(recipientId) ==> sends == []
      ensures Truthy(recipientId) ==>
        sends == Deliver(clients, CallRelay(kind, recipientId, body), BoundTo({recipientId.value}))
      ensures (forall i :: 0 <= i < |clients| ==> !clients[i].open || clients[i].userId != recipientId) ==> sends == []
    {
      sends := [];
      if Truthy(recipientId) {
        var p := CallRelay(kind, recipientId, body);
        sends := FanOut(p, BoundTo({recipientId.value}));
        RelayToAbsentRecipient(clients, p, recipientId.value);
      }
    }

    /** `typing`: announced to every open session, joined or not. */
    method OnTyping(s: nat) returns (sends: seq<Send<Payload>>)
      requires Valid() && s < |clients|
      ensures AllOpen(clients, sends)
      ensures sends == Deliver(clients, UserTyping(clients[s].userId, clients[s].username), Everyone(None))
    {
      sends := FanOut(UserTyping(clients[s].userId, clients[s].username), Everyone(None));
    }

    /** The events a connection may send before it has joined: the signaling
        relays and `typing` write frames and change no state; a frame of an
        unknown type, or one that does not parse, is dropped. */
    method OnStateless(s: nat, ev: Event) returns (sends: seq<Send<Payload>>)
      requires Valid() && s < |clients| && clients[s].open
      requires !ev.Join? && !NeedsJoin(ev)
      ensures AllOpen(clients, sends)
      ensures ev.Malformed? || ev.Unknown? ==> sends == []
      ensures ev.Typing? ==> sends == Deliver(clients, UserTyping(clients[s].userId, clients[s].username), Everyone(None))
      ensures sends == StatelessSends(clients, s, ev)
    {
      match ev
      case GroupVoiceSignal(kind, recipientId, offer, answer, candidate) =>
        sends := OnGroupVoiceSignal(s, kind, recipientId, offer, answer, candidate);
      case CallSignal(kind, recipientId, body) =>
        sends := OnCallSignal(kind, recipientId, body);
      case Typing =>
        sends := OnTyping(s);
      case Unknown(_) | Malformed =>
        sends := [];
    }

    /** The joined-only events that write to the histories: message, file,
        voice, status, reel and their deletions. */
    method OnHistoryEvent(s: nat, ev: Event, now: nat, stamp: string) returns (sends: seq<Send<Payload>>)
      requires Valid() && s < |clients| && clients[s].open
      requires ev.Message? || ev.File? || ev.Voice? || ev.PostStatus? || ev.DeleteStatus? || ev.PostReel? || ev.DeleteReel?
      modifies this`messages, this`statuses, this`reels
      ensures Valid() && AllOpen(clients, sends)
      ensures !Truthy(clients[s].userId) ==> sends == [] && unchanged(this)
      ensures ev.Message? || ev.File? || ev.Voice? ==> ChatStep(s, ev, now, stamp, sends)
      ensures ev.PostStatus? ==> StatusStep(s, ev.text, now, stamp, sends)
      ensures ev.DeleteStatus? ==> DeleteStatusStep(s, ev.statusId, now, sends)
      ensures ev.PostReel? ==> ReelStep(s, ev.caption, ev.filename, ev.videoData, now, stamp, sends)
      ensures ev.DeleteReel? ==> DeleteReelStep(s, ev.reelId, sends)
    {
      match ev
      case Message(_, _) | File(_, _, _) | Voice(_, _) =>
        sends := OnChat(s, ev, now, stamp);
      case PostStatus(text) =>
        sends := OnStatus(s, text, now, stamp);
      case DeleteStatus(statusId) =>
        sends := OnDeleteStatus(s, statusId, now);
      case PostReel(caption, filename, videoData) =>
        sends := OnReel(s, caption, filename, videoData, now, stamp);
      case DeleteReel(reelId) =>
        sends := OnDeleteReel(s, reelId);
    }

    /** The joined-only events about the user and the group voice room:
        profile updates, joining and leaving the room. */
    method OnPresenceEvent(s: nat, ev: Event) returns (sends: seq<Send<Payload>>)
      requires Valid() && s < |clients| && clients[s].open
      requires ev.UpdateProfile? || ev.GroupVoiceJoin? || ev.GroupVoiceLeave?
      modifies this`clients, this`voice, this`voiceOrder, directory
      ensures Valid() && AllOpen(clients, sends)
      ensures |clients| == old(|clients|) && clients[s].open && clients[s].userId == old(clients[s].userId)
      ensures forall i :: 0 <= i < |clients| && i != s ==> clients[i] == old(clients[i])
      ensures !Truthy(old(clients[s].userId)) ==> sends == [] && unchanged(this, directory)
      ensures ev.UpdateProfile? ==> ProfileStep(s, ev.username, ev.picture, sends)
      ensures ev.GroupVoiceJoin? ==> VoiceJoinStep(s, sends)
      ensures ev.GroupVoiceLeave? ==> VoiceLeaveStep(s, sends)
    {
      match ev
      case UpdateProfile(username, picture) =>
        sends := OnUpdateProfile(s, username, picture);
      case GroupVoiceJoin =>
        sends := OnGroupVoiceJoin(s);
      case GroupVoiceLeave =>
        sends := OnGroupVoiceLeave(s);
    }

    /** The `message` handler of one connection: one parsed frame from open
        session `s` at clock reading `now`. Generated ids end in `stamp`, the
        millisecond reading taken when the id is built, written in decimal
        (`StampedId` is that id for a reading given as a number). */
    method Handle(s: nat, ev: Event, now: nat, stamp: string) returns (sends: seq<Send<Payload>>)
      requires Valid() && s < |clients| && clients[s].open
      modifies this, directory
      ensures Valid() && AllOpen(clients, sends)
      ensures |clients| == old(|clients|) && clients[s].open
      ensures forall i :: 0 <= i < |clients| && i != s ==> clients[i] == old(clients[i])
      ensures !ev.Join? ==> clients[s].userId == old(clients[s].userId)
      ensures NeedsJoin(ev) && !Truthy(old(clients[s].userId)) ==> sends == [] && unchanged(this, directory)
      ensures ev.Join? ==> Joined(s, ev.userId, ev.username, ev.profilePic, now, stamp, sends)
      ensures ev.Message? || ev.File? || ev.Voice? ==> ChatStep(s, ev, now, stamp, sends)
      ensures ev.PostStatus? ==> StatusStep(s, ev.text, now, stamp, sends)
      ensures ev.DeleteStatus? ==> DeleteStatusStep(s, ev.statusId, now, sends)
      ensures ev.PostReel? ==> ReelStep(s, ev.caption, ev.filename, ev.videoData, now, stamp, sends)
      ensures ev.DeleteReel? ==> DeleteReelStep(s, ev.reelId, sends)
      ensures ev.UpdateProfile? ==> ProfileStep(s, ev.username, ev.picture, sends)
      ensures ev.GroupVoiceJoin? ==> VoiceJoinStep(s, sends)
      ensures ev.GroupVoiceLeave? ==> VoiceLeaveStep(s, sends)
      ensures !ev.Join? && !NeedsJoin(ev) ==> sends == StatelessSends(clients, s, ev) && unchanged(this, directory)
    {
      if ev.Join? {
        sends := OnJoin(s, ev.userId, ev.username, ev.profilePic, now, stamp);
      } else if ev.UpdateProfile? || ev.GroupVoiceJoin? || ev.GroupVoiceLeave? {
        sends := OnPresenceEvent(s, ev);
      } else if NeedsJoin(ev) {
        sends := OnHistoryEvent(s, ev, now, stamp);
      } else {
        sends := OnStateless(s, ev);
      }
    }

    /** `close`: the session stops being open; a bound user leaves the room
        (announced to everyone left) and the directory, then `userLeft` goes
        to everyone left. */
    method OnClose(s: nat) returns (sends: seq<Send<Payload>>)
      requires Valid() && s < |clients| && clients[s].open
      modifies this`clients, this`voice, this`voiceOrder, directory
      ensures Valid()
      ensures AllOpen(clients, sends)
      ensures clients == old(clients)[s := old(clients)[s].(open := false)]
      ensures directory.colorIndex == old(directory.colorIndex)
      ensures
        var c := old(clients)[s];
        if !Truthy(c.userId) then
          && voice == old(voice) && voiceOrder == old(voiceOrder)
          && directory.users == old(directory.users) && directory.order == old(directory.order)
          && sends == []
        else
          var id := c.userId.value;
          && voice == old(voice) - {id}
          && voiceOrder == WithoutKey(old(voiceOrder), id)
          && directory.users == old(directory.users) - {id}
          && directory.order == WithoutKey(old(directory.order), id)
          && sends == (if id in old(voice) then Deliver(clients, GroupVoiceLeft(VoiceMember(id, Or(c.username, "Anonymous"))), Everyone(None)) else [])
                      + Deliver(clients, UserLeft(id, c.username, directory.GetAllUsers()), Everyone(None))
    {
      sends := [];
      var c := clients[s];
      IndexedUpdate(clients, s, c.(open := false));
      clients := clients[s := c.(open := false)];
      if !Truthy(c.userId) {
        return;
      }
      var id := c.userId.value;
      var wasMember := Depart(id);
      if wasMember {
        sends := FanOut(GroupVoiceLeft(VoiceMember(id, Or(c.username, "Anonymous"))), Everyone(None));
      }
      var left := FanOut(UserLeft(id, c.username, directory.GetAllUsers()), Everyone(None));
      AllOpenAppend(clients, sends, left);
      sends := sends + left;
    }
  }
}

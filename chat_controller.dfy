/**
 * The chat controller (server/controllers/chatController.js): listing a
 * user's conversations, reading a page of messages (which marks them read
 * and clears the reader's counter), sending a text, voice or system
 * message (which bumps every other participant's counter), the total
 * unread count and starting a conversation. Every route is open to any
 * signed-in user.
 */
module ChatController {
  import opened Common
  import opened Sorting
  import opened UserModel
  import opened ChatModel
  import opened Store

  // ------------------------------------------------------------ membership

  /** `Conversation.find({ participants: user })`, in natural order. */
  function Mine(convs: map<Id, Conversation>, n: nat, user: Id): (r: seq<(Id, Conversation)>)
    ensures forall e :: e in r <==> e.0 in convs && e.0 < n && convs[e.0] == e.1 && user in e.1.participants
  {
    Filter(Entries(convs, n), (e: (Id, Conversation)) => user in e.1.participants)
  }

  // -------------------------------------------------------- conversations

  /** A later `lastMessageAt` first; a conversation without one sorts last. */
  predicate RecentFirst(a: (Id, Conversation, nat), b: (Id, Conversation, nat))
  {
    b.1.lastMessageAt.None? || (a.1.lastMessageAt.Some? && a.1.lastMessageAt.value >= b.1.lastMessageAt.value)
  }

  /** Each conversation with the caller's own unread count beside it. */
  function WithUnread(s: seq<(Id, Conversation)>, user: Id): (r: seq<(Id, Conversation, nat)>)
    ensures |r| == |s|
    ensures forall i :: 0 <= i < |s| ==> r[i] == (s[i].0, s[i].1, UnreadOf(s[i].1, user))
  {
    if s == [] then [] else [(s[0].0, s[0].1, UnreadOf(s[0].1, user))] + WithUnread(s[1..], user)
  }

  /**
   * `getConversations`: the caller's conversations, most recent message
   * first, each carrying the caller's unread count (0 without an entry).
   */
  function GetConversations(convs: map<Id, Conversation>, n: nat, caller: Actor): (r: seq<(Id, Conversation, nat)>)
    ensures forall e :: e in r <==>
      e.0 in convs && e.0 < n && convs[e.0] == e.1 && caller.id in e.1.participants && e.2 == UnreadOf(e.1, caller.id)
    ensures SortedBy(r, RecentFirst)
  {
    var w := WithUnread(Mine(convs, n, caller.id), caller.id);
    WithUnreadMembers(Mine(convs, n, caller.id), caller.id);
    SortBySorted(w, RecentFirst);
    assert forall e :: e in SortBy(w, RecentFirst) <==> e in w by {
      forall e ensures e in SortBy(w, RecentFirst) <==> e in w { SortByMembers(w, RecentFirst, e); }
    }
    SortBy(w, RecentFirst)
  }

  lemma WithUnreadMembers(s: seq<(Id, Conversation)>, user: Id)
    ensures forall e :: e in WithUnread(s, user) <==> (e.0, e.1) in s && e.2 == UnreadOf(e.1, user)
  {
    var w := WithUnread(s, user);
    forall e: (Id, Conversation, nat) | e in w ensures (e.0, e.1) in s && e.2 == UnreadOf(e.1, user) {
      var i :| 0 <= i < |w| && w[i] == e;
      assert s[i] == (e.0, e.1);
    }
    forall e: (Id, Conversation, nat) | (e.0, e.1) in s && e.2 == UnreadOf(e.1, user) ensures e in w {
      var i :| 0 <= i < |s| && s[i] == (e.0, e.1);
      assert w[i] == e;
    }
  }

  // -------------------------------------------------------------- reading

  /** Newest message first. */
  predicate NewerFirst(a: (Id, Message), b: (Id, Message))
  {
    a.1.createdAt >= b.1.createdAt
  }

  /** Oldest message first: the order a page is returned in. */
  predicate OlderFirst(a: (Id, Message), b: (Id, Message))
  {
    a.1.createdAt <= b.1.createdAt
  }

  /** `Message.find({ conversation })` sorted by `createdAt` descending. */
  function Newest(msgs: map<Id, Message>, n: nat, conv: Id): (r: seq<(Id, Message)>)
    ensures forall e :: e in r <==> e.0 in msgs && e.0 < n && msgs[e.0] == e.1 && e.1.conversation == conv
    ensures SortedBy(r, NewerFirst)
  {
    var s: seq<(Id, Message)> := Filter(Entries(msgs, n), (e: (Id, Message)) => e.1.conversation == conv);
    SortBySorted(s, NewerFirst);
    assert forall e :: e in SortBy(s, NewerFirst) <==> e in s by {
      forall e ensures e in SortBy(s, NewerFirst) <==> e in s { SortByMembers(s, NewerFirst, e); }
    }
    SortBy(s, NewerFirst)
  }

  /** The page size: `limit`, 50 by default. */
  function PageSize(limit: Option<nat>): nat
  {
    Pick(limit, 50)
  }

  /** `(page - 1) * limit` with page 1 by default; negative for page 0 or below. */
  function SkipOf(page: Option<int>, limit: Option<nat>): int
  {
    (Pick(page, 1) - 1) * PageSize(limit)
  }

  /** `.skip(k).limit(l)`, where a limit of 0 means no limit. */
  function Window<T>(s: seq<T>, skip: nat, limit: nat): (r: seq<T>)
    ensures limit > 0 ==> |r| <= limit
    ensures forall i :: 0 <= i < |r| ==> skip + i < |s| && r[i] == s[skip + i]
    ensures |r| == if limit == 0 || |s| < skip + limit then (if |s| < skip then 0 else |s| - skip) else limit
  {
    if limit == 0 then Drop(s, skip) else Take(Drop(s, skip), limit)
  }

  /**
   * The page `getMessages` returns: thrown away with a server error when the
   * skip is negative, otherwise the window of the newest-first list, put
   * back into chronological order.
   */
  function Page(msgs: map<Id, Message>, n: nat, conv: Id, page: Option<int>, limit: Option<nat>): (r: Result<seq<(Id, Message)>>)
    ensures r.Err? <==> SkipOf(page, limit) < 0
    ensures r.Err? ==> r.error == InternalError
    ensures r.Ok? ==> SortedBy(r.value, OlderFirst)
    ensures r.Ok? ==> forall e :: e in r.value ==> e.0 in msgs && e.0 < n && msgs[e.0] == e.1 && e.1.conversation == conv
    ensures r.Ok? && PageSize(limit) > 0 ==> |r.value| <= PageSize(limit)
  {
    var skip := SkipOf(page, limit);
    if skip < 0 then Err(InternalError)
    else
      ReversedWindow(Newest(msgs, n, conv), skip, PageSize(limit));
      Ok(Reverse(Window(Newest(msgs, n, conv), skip, PageSize(limit))))
  }

  /** A window of a newest-first list, reversed, is oldest-first and drawn from the list. */
  lemma ReversedWindow(s: seq<(Id, Message)>, skip: nat, limit: nat)
    requires SortedBy(s, NewerFirst)
    ensures SortedBy(Reverse(Window(s, skip, limit)), OlderFirst)
    ensures forall e :: e in Reverse(Window(s, skip, limit)) ==> e in s
  {
    var w := Window(s, skip, limit);
    assert SortedBy(w, NewerFirst) by {
      forall i, j | 0 <= i < j < |w| ensures NewerFirst(w[i], w[j]) {
        assert w[i] == s[skip + i] && w[j] == s[skip + j];
      }
    }
    assert forall e :: e in w ==> e in s by {
      forall e | e in w ensures e in s {
        var i :| 0 <= i < |w| && w[i] == e;
        assert s[skip + i] == e;
      }
    }
    ReversedNewest(w);
  }

  /** Reversing a newest-first list gives an oldest-first list of the same messages. */
  lemma ReversedNewest(w: seq<(Id, Message)>)
    requires SortedBy(w, NewerFirst)
    ensures SortedBy(Reverse(w), OlderFirst)
    ensures forall e :: e in Reverse(w) ==> e in w
  {
    var r := Reverse(w);
    forall e | e in r ensures e in w {
      var i :| 0 <= i < |r| && r[i] == e;
      assert w[|w| - 1 - i] == e;
    }
    forall i, j | 0 <= i < j < |r| ensures OlderFirst(r[i], r[j]) {
      assert r[i] == w[|w| - 1 - i] && r[j] == w[|w| - 1 - j];
    }
  }

  /** A page that is served is the reversed window at its skip. */
  lemma PageIs(msgs: map<Id, Message>, n: nat, conv: Id, page: Option<int>, limit: Option<nat>)
    requires SkipOf(page, limit) >= 0
    ensures Page(msgs, n, conv, page, limit) == Ok(Reverse(Window(Newest(msgs, n, conv), SkipOf(page, limit), PageSize(limit))))
  {
  }

  /** Where an element of a reversed window sits in the list it was cut from. */
  lemma WindowIndex<T>(s: seq<T>, skip: nat, limit: nat, e: T) returns (k: nat)
    requires e in Reverse(Window(s, skip, limit))
    ensures skip <= k < |s| && s[k] == e
    ensures limit > 0 ==> k < skip + limit
  {
    var w := Window(s, skip, limit);
    var i :| 0 <= i < |w| && Reverse(w)[i] == e;
    k := skip + |w| - 1 - i;
  }

  /** Page `p` (from 1) skips `(p - 1) * limit` messages, so later pages skip further. */
  lemma SkipsApart(p: nat, q: nat, limit: nat)
    requires 1 <= p < q
    ensures 0 <= SkipOf(Some(p), Some(limit))
    ensures SkipOf(Some(p), Some(limit)) + limit <= SkipOf(Some(q), Some(limit))
  {
    MulGap(p - 1, q - 1, limit);
  }

  lemma MulGap(a: int, b: int, l: int)
    requires a < b && l >= 0
    ensures a * l + l <= b * l
  {
    var d := b - a - 1;
    assert d * l >= 0;
    assert b * l == (a + 1 + d) * l;
  }

  lemma FloorBounds(i: nat, limit: nat)
    requires limit > 0
    ensures 0 <= SkipOf(Some(i / limit + 1), Some(limit)) <= i < SkipOf(Some(i / limit + 1), Some(limit)) + limit
  {
    assert SkipOf(Some(i / limit + 1), Some(limit)) == i / limit * limit;
    assert i / limit >= 0;
  }

  /** Message `i` (from the newest) of the newest-first list is on page `i / limit + 1`. */
  lemma PageHolds(msgs: map<Id, Message>, n: nat, conv: Id, limit: nat, i: nat)
    requires limit > 0 && i < |Newest(msgs, n, conv)|
    ensures Page(msgs, n, conv, Some(i / limit + 1), Some(limit)).Ok?
    ensures Newest(msgs, n, conv)[i] in Page(msgs, n, conv, Some(i / limit + 1), Some(limit)).value
  {
    var s := Newest(msgs, n, conv);
    var page := Some(i / limit + 1);
    FloorBounds(i, limit);
    var skip := SkipOf(page, Some(limit));
    PageIs(msgs, n, conv, page, Some(limit));
    var w := Window(s, skip, limit);
    var j := i - skip;
    assert w[j] == s[i];
    assert Reverse(w)[|w| - 1 - j] == s[i];
  }

  /** Earlier pages hold newer messages: nothing on page `q` is newer than anything on page `p < q`. */
  lemma EarlierPagesNewer(msgs: map<Id, Message>, n: nat, conv: Id, limit: nat, p: nat, q: nat, a: (Id, Message), b: (Id, Message))
    requires limit > 0 && 1 <= p < q
    requires Page(msgs, n, conv, Some(p), Some(limit)).Ok? && a in Page(msgs, n, conv, Some(p), Some(limit)).value
    requires Page(msgs, n, conv, Some(q), Some(limit)).Ok? && b in Page(msgs, n, conv, Some(q), Some(limit)).value
    ensures a.1.createdAt >= b.1.createdAt
  {
    var s := Newest(msgs, n, conv);
    SkipsApart(p, q, limit);
    var sp := SkipOf(Some(p), Some(limit));
    var sq := SkipOf(Some(q), Some(limit));
    PageIs(msgs, n, conv, Some(p), Some(limit));
    PageIs(msgs, n, conv, Some(q), Some(limit));
    var x := WindowIndex(s, sp, limit, a);
    var y := WindowIndex(s, sq, limit, b);
    assert x < y;
  }

  /** Not yet seen by `reader`: a message of `conv` someone else sent, without `reader` in `readBy`. */
  predicate Unseen(m: Message, conv: Id, reader: Id)
  {
    m.conversation == conv && m.sender != reader && reader !in m.readBy
  }

  /** `updateMany(..., { $addToSet: { readBy: reader } })` over the unseen messages of `conv`. */
  function MarkRead(msgs: map<Id, Message>, conv: Id, reader: Id): (r: map<Id, Message>)
    ensures r.Keys == msgs.Keys
    ensures forall k :: k in r ==> !Unseen(r[k], conv, reader)
    ensures forall k :: k in r && !Unseen(msgs[k], conv, reader) ==> r[k] == msgs[k]
    ensures forall k :: k in r && Unseen(msgs[k], conv, reader) ==> r[k] == msgs[k].(readBy := msgs[k].readBy + [reader])
  {
    map k | k in msgs :: if Unseen(msgs[k], conv, reader) then msgs[k].(readBy := msgs[k].readBy + [reader]) else msgs[k]
  }

  /** Marking again changes nothing, and nobody else's read state moves. */
  lemma MarkReadIdempotent(msgs: map<Id, Message>, conv: Id, reader: Id)
    ensures MarkRead(MarkRead(msgs, conv, reader), conv, reader) == MarkRead(msgs, conv, reader)
    ensures forall k, q :: k in msgs && q != reader ==> (q in MarkRead(msgs, conv, reader)[k].readBy <==> q in msgs[k].readBy)
  {
    var once := MarkRead(msgs, conv, reader);
    assert forall k :: k in once ==> MarkRead(once, conv, reader)[k] == once[k];
  }

  /**
   * `getMessages`: 404 for an unknown conversation, 403 for a caller who is
   * not a participant, 500 for a negative skip. Otherwise the page is read
   * first; then every unseen message of the conversation is marked read by
   * the caller and the caller's counter is set to 0.
   */
  method GetMessages(db: Db, caller: Actor, id: Id, page: Option<int>, limit: Option<nat>) returns (r: Result<seq<(Id, Message)>>)
    requires db.Valid()
    modifies db`messages, db`conversations
    ensures db.Valid()
    ensures id !in old(db.conversations) ==> r == Err(NotFound)
    ensures id in old(db.conversations) && caller.id !in old(db.conversations)[id].participants ==> r == Err(Forbidden)
    ensures id in old(db.conversations) && caller.id in old(db.conversations)[id].participants ==>
      r == Page(old(db.messages), old(db.nextId), id, page, limit)
    ensures r.Err? ==> db.messages == old(db.messages) && db.conversations == old(db.conversations)
    ensures r.Ok? ==> db.messages == MarkRead(old(db.messages), id, caller.id)
    ensures r.Ok? ==>
      db.conversations == old(db.conversations)[id := old(db.conversations)[id].(unreadCount := old(db.conversations)[id].unreadCount[caller.id := 0])]
  {
    if id !in db.conversations {
      return Err(NotFound);
    }
    var c := db.conversations[id];
    if caller.id !in c.participants {
      return Err(Forbidden);
    }
    r := Page(db.messages, db.nextId, id, page, limit);
    if r.Ok? {
      db.SetMessages(MarkRead(db.messages, id, caller.id));
      db.PutConversation(id, c.(unreadCount := c.unreadCount[caller.id := 0]));
    }
  }

  /** Reading clears the reader's counter and no one else's. */
  lemma ReadResetsOnlyReader(c: Conversation, reader: Id, p: Id)
    ensures UnreadOf(c.(unreadCount := c.unreadCount[reader := 0]), reader) == 0
    ensures p != reader ==> UnreadOf(c.(unreadCount := c.unreadCount[reader := 0]), p) == UnreadOf(c, p)
  {
  }

  // -------------------------------------------------------------- sending

  /** The body of `POST /conversations/:id/messages`; an empty string is absent. */
  datatype SendBody = SendBody(
    content: Option<string>,
    messageType: Option<MessageType>,
    audioData: Option<string>,
    audioDuration: Option<int>)

  /** The fallback text stored with a voice message. */
  const VoiceText: string := "🎤 Voice message"

  /**
   * The message to store, or 400: a text message (the default) needs
   * content that is not blank and keeps it trimmed; a voice message needs
   * audio data and takes duration 0 when none is given; a system message
   * carries neither.
   */
  function Compose(conv: Id, sender: Id, body: SendBody, now: int): (r: Result<Message>)
    ensures r.Err? <==>
      (Pick(body.messageType, Text) == Text && (body.content.None? || IsBlank(body.content.value))) ||
      (Pick(body.messageType, Text) == Audio && (body.audioData.None? || body.audioData.value == ""))
    ensures r.Err? ==> r.error == BadRequest
    ensures r.Ok? ==> r.value.conversation == conv && r.value.sender == sender && r.value.readBy == [sender]
    ensures r.Ok? ==> r.value.messageType == Pick(body.messageType, Text) && r.value.createdAt == now
    ensures r.Ok? && r.value.messageType == Text ==>
      r.value.content.Some? && r.value.content.value == Trim(body.content.value) &&
      r.value.content.value != "" && Trim(r.value.content.value) == r.value.content.value &&
      r.value.audioData.None? && r.value.audioDuration.None?
    ensures r.Ok? && r.value.messageType == Audio ==>
      r.value.content == Some(VoiceText) && r.value.audioData == body.audioData &&
      r.value.audioDuration == Some(if body.audioDuration.Some? then body.audioDuration.value else 0)
    ensures r.Ok? && r.value.messageType == System ==>
      r.value.content.None? && r.value.audioData.None? && r.value.audioDuration.None?
  {
    var kind := Pick(body.messageType, Text);
    if kind == Text && (body.content.None? || IsBlank(body.content.value)) then Err(BadRequest)
    else if kind == Audio && (body.audioData.None? || body.audioData.value == "") then Err(BadRequest)
    else
      var base := Message(conv, sender, None, [sender], kind, None, None, now);
      match kind
      case Text =>
        TrimIdempotent(body.content.value);
        Ok(base.(content := Some(Trim(body.content.value))))
      case Audio =>
        Ok(base.(content := Some(VoiceText), audioData := body.audioData, audioDuration := Some(Pick(body.audioDuration, 0))))
      case System => Ok(base)
  }

  /** How often `x` occurs in `s`. */
  function Occ(s: seq<Id>, x: Id): nat
  {
    if s == [] then 0 else Occ(s[..|s| - 1], x) + (if s[|s| - 1] == x then 1 else 0)
  }

  predicate Distinct(s: seq<Id>)
  {
    forall i, j :: 0 <= i < j < |s| ==> s[i] != s[j]
  }

  /** In a list without repeats, a participant occurs once and anybody else never. */
  lemma {:induction false} OccOfDistinct(s: seq<Id>, x: Id)
    requires Distinct(s)
    ensures Occ(s, x) == if x in s then 1 else 0
  {
    if s != [] {
      var t := s[..|s| - 1];
      assert Distinct(t);
      OccOfDistinct(t, x);
      assert s == t + [s[|s| - 1]];
      if s[|s| - 1] == x {
        assert x !in t;
      }
    }
  }

  /** `after` is `before` with every occurrence of someone other than the sender counted once more. */
  ghost predicate Bumped(before: map<Id, nat>, after: map<Id, nat>, participants: seq<Id>, sender: Id)
  {
    forall p :: CountOf(after, p) == CountOf(before, p) + (if p == sender then 0 else Occ(participants, p))
  }

  /** The `forEach` over the participants raising every one but the sender's counter. */
  method RaiseUnread(unread: map<Id, nat>, participants: seq<Id>, sender: Id) returns (r: map<Id, nat>)
    ensures Bumped(unread, r, participants, sender)
  {
    r := unread;
    var i := 0;
    while i < |participants|
      invariant 0 <= i <= |participants|
      invariant Bumped(unread, r, participants[..i], sender)
    {
      var q := participants[i];
      assert participants[..i + 1][..i] == participants[..i];
      if q != sender {
        r := r[q := CountOf(r, q) + 1];
      }
      i := i + 1;
    }
    assert participants[..i] == participants;
  }

  /** With no repeated participant, sending adds exactly 1 for each other participant and nothing else. */
  lemma SendRaisesOthersByOne(before: map<Id, nat>, after: map<Id, nat>, participants: seq<Id>, sender: Id, p: Id)
    requires Distinct(participants) && Bumped(before, after, participants, sender)
    ensures p != sender && p in participants ==> CountOf(after, p) == CountOf(before, p) + 1
    ensures p == sender || p !in participants ==> CountOf(after, p) == CountOf(before, p)
  {
    OccOfDistinct(participants, p);
  }

  /**
   * `sendMessage`: the body is checked first (400), then the conversation
   * (404) and the caller's membership (403). The message is stored under a
   * fresh id; the conversation records it as its last message at `now` and
   * every other participant's counter is raised.
   */
  method SendMessage(db: Db, caller: Actor, id: Id, body: SendBody, now: int) returns (r: Result<Id>)
    requires db.Valid()
    modifies db`messages, db`conversations, db`nextId
    ensures db.Valid()
    ensures Compose(id, caller.id, body, now).Err? ==> r == Err(BadRequest)
    ensures Compose(id, caller.id, body, now).Ok? && id !in old(db.conversations) ==> r == Err(NotFound)
    ensures Compose(id, caller.id, body, now).Ok? && id in old(db.conversations) && caller.id !in old(db.conversations)[id].participants ==>
      r == Err(Forbidden)
    ensures r.Err? ==> db.messages == old(db.messages) && db.conversations == old(db.conversations) && db.nextId == old(db.nextId)
    ensures r.Ok? ==> id in old(db.conversations) && caller.id in old(db.conversations)[id].participants
    ensures r.Ok? ==> r.value == old(db.nextId) && db.nextId == r.value + 1 && r.value !in old(db.messages)
    ensures r.Ok? ==> db.messages == old(db.messages)[r.value := Compose(id, caller.id, body, now).value]
    ensures r.Ok? ==> db.conversations.Keys == old(db.conversations).Keys
    ensures r.Ok? ==> forall k :: k in old(db.conversations) && k != id ==> db.conversations[k] == old(db.conversations)[k]
    ensures r.Ok? ==>
      db.conversations[id].participants == old(db.conversations)[id].participants &&
      db.conversations[id].lastMessage == Some(r.value) && db.conversations[id].lastMessageAt == Some(now) &&
      Bumped(old(db.conversations)[id].unreadCount, db.conversations[id].unreadCount, old(db.conversations)[id].participants, caller.id)
  {
    var m := Compose(id, caller.id, body, now);
    if m.Err? {
      return Err(BadRequest);
    }
    if id !in db.conversations {
      return Err(NotFound);
    }
    var c := db.conversations[id];
    if caller.id !in c.participants {
      return Err(Forbidden);
    }
    var mid := db.AddMessage(m.value);
    var unread := RaiseUnread(c.unreadCount, c.participants, caller.id);
    db.PutConversation(id, c.(lastMessage := Some(mid), lastMessageAt := Some(now), unreadCount := unread));
    r := Ok(mid);
  }

  // --------------------------------------------------------- unread total

  /** The sum of `user`'s counters over `s`. */
  function TotalUnread(s: seq<(Id, Conversation)>, user: Id): nat
  {
    if s == [] then 0 else TotalUnread(s[..|s| - 1], user) + UnreadOf(s[|s| - 1].1, user)
  }

  /** The total is 0 exactly when no conversation has anything unread for the user. */
  lemma {:induction false} NoUnreadIffAllRead(s: seq<(Id, Conversation)>, user: Id)
    ensures TotalUnread(s, user) == 0 <==> forall e :: e in s ==> UnreadOf(e.1, user) == 0
  {
    if s != [] {
      var t := s[..|s| - 1];
      NoUnreadIffAllRead(t, user);
      assert s == t + [s[|s| - 1]];
      assert forall e :: e in s <==> e in t || e == s[|s| - 1];
    }
  }

  /** `getUnreadCount`: the caller's counters summed over their conversations. */
  method GetUnreadCount(db: Db, caller: Actor) returns (total: nat)
    ensures total == TotalUnread(Mine(db.conversations, db.nextId, caller.id), caller.id)
  {
    var convs := Mine(db.conversations, db.nextId, caller.id);
    total := 0;
    var i := 0;
    while i < |convs|
      invariant 0 <= i <= |convs|
      invariant total == TotalUnread(convs[..i], caller.id)
    {
      assert convs[..i + 1][..i] == convs[..i];
      total := total + UnreadOf(convs[i].1, caller.id);
      i := i + 1;
    }
    assert convs[..i] == convs;
  }

  // --------------------------------------------------------- starting one

  /** Both users take part. */
  predicate Between(c: Conversation, a: Id, b: Id)
  {
    a in c.participants && b in c.participants
  }

  /** `Conversation.findBetweenUsers`: the first stored conversation both users take part in. */
  function FindBetween(convs: map<Id, Conversation>, n: nat, a: Id, b: Id): (r: Option<Id>)
    ensures r.Some? ==> r.value in convs && r.value < n && Between(convs[r.value], a, b)
    ensures r.None? <==> forall k :: k in convs && k < n ==> !Between(convs[k], a, b)
  {
    var s: seq<(Id, Conversation)> := Filter(Entries(convs, n), (e: (Id, Conversation)) => Between(e.1, a, b));
    if s == [] then
      assert forall k :: k in convs && k < n ==> !Between(convs[k], a, b) by {
        forall k | k in convs && k < n ensures !Between(convs[k], a, b) {
          assert (k, convs[k]) in Entries(convs, n);
        }
      }
      None
    else
      assert s[0] in s;
      Some(s[0].0)
  }

  /**
   * `startConversation`: 400 without a recipient or with oneself, 404 for
   * an unknown user; otherwise the existing conversation between the two,
   * or a new one with just the two of them and no counters.
   */
  method StartConversation(db: Db, caller: Actor, recipient: Option<Id>) returns (r: Result<Id>)
    requires db.Valid()
    modifies db`conversations, db`nextId
    ensures db.Valid()
    ensures recipient.None? || recipient == Some(caller.id) ==> r == Err(BadRequest)
    ensures recipient.Some? && recipient.value != caller.id && recipient.value !in old(db.users) ==> r == Err(NotFound)
    ensures r.Err? ==> db.conversations == old(db.conversations) && db.nextId == old(db.nextId)
    ensures r.Ok? ==> recipient.Some? && recipient.value != caller.id && recipient.value in db.users
    ensures r.Ok? && FindBetween(old(db.conversations), old(db.nextId), caller.id, recipient.value).Some? ==>
      r.value == FindBetween(old(db.conversations), old(db.nextId), caller.id, recipient.value).value &&
      db.conversations == old(db.conversations) && db.nextId == old(db.nextId)
    ensures r.Ok? && FindBetween(old(db.conversations), old(db.nextId), caller.id, recipient.value).None? ==>
      r.value == old(db.nextId) && db.nextId == r.value + 1 &&
      db.conversations == old(db.conversations)[r.value := Conversation([caller.id, recipient.value], None, None, map[])]
    ensures r.Ok? ==> r.value in db.conversations && Between(db.conversations[r.value], caller.id, recipient.value)
  {
    if recipient.None? || recipient.value == caller.id {
      return Err(BadRequest);
    }
    var other := recipient.value;
    if other !in db.users {
      return Err(NotFound);
    }
    var found := FindBetween(db.conversations, db.nextId, caller.id, other);
    if found.Some? {
      return Ok(found.value);
    }
    var cid := db.AddConversation(Conversation([caller.id, other], None, None, map[]));
    r := Ok(cid);
  }
}

/**
 * The chat page (client/src/pages/chat/ChatPage.jsx): the duration label
 * of voice messages, the conversation list when a conversation is started,
 * the unread badge, which messages are the user's own, the text composer
 * and the voice recorder. Recording, the microphone and the interval timer
 * are events; request outcomes are inputs.
 */
module ChatPage {
  import opened Common
  import ApiClient
  import ChatModel
  import ChatController

  /** `formatDuration`: minutes, a colon, and the seconds on two digits. */
  function FormatDuration(seconds: nat): (r: string)
    ensures |r| >= 4 && r[|r| - 3] == ':'
  {
    NatToString(seconds / 60) + ":" + Pad2(seconds % 60)
  }

  /** The number of seconds an "m:ss" label reads as. */
  function ReadDuration(shown: string): nat
    requires |shown| >= 4
    requires forall i :: 0 <= i < |shown| && i != |shown| - 3 ==> IsDigit(shown[i])
  {
    DigitsValue(shown[..|shown| - 3]) * 60 + DigitsValue(shown[|shown| - 2..])
  }

  /** The label loses nothing: reading it gives the duration back. */
  lemma DurationRoundTrip(seconds: nat)
    ensures var r := FormatDuration(seconds);
      (forall i :: 0 <= i < |r| && i != |r| - 3 ==> IsDigit(r[i])) && ReadDuration(r) == seconds
  {
    var m, p := NatToString(seconds / 60), Pad2(seconds % 60);
    var r := FormatDuration(seconds);
    assert r[..|r| - 3] == m;
    assert r[|r| - 2..] == p;
    NatToStringRoundTrip(seconds / 60);
    Pad2RoundTrip(seconds % 60);
  }

  lemma DurationExamples()
    ensures FormatDuration(0) == "0:00"
    ensures FormatDuration(65) == "1:05"
  {
    assert NatToString(0) == "0" && NatToString(1) == "1";
  }

  /** The duration a voice message shows: "0:00" unless the duration is positive. */
  function DurationLabel(duration: int): (r: string)
    ensures duration <= 0 ==> r == "0:00"
    ensures duration > 0 ==> r == FormatDuration(duration)
  {
    DurationExamples();
    if duration > 0 then FormatDuration(duration) else "0:00"
  }

  /**
   * The `unreadCount` field of a conversation as the list receives it:
   * `getConversations` replaces the counters by the caller's own count, a
   * number; `startConversation` sends the conversation document, whose
   * counters arrive as an object keyed by user id.
   */
  datatype UnreadField = CountNumber(n: int) | CountObject(counts: map<string, int>) | NoCounts

  /** A conversation of the list. */
  datatype Conversation = Conversation(id: string, unreadCount: UnreadField)

  /** `handleStartConversation`: the conversation comes first and any other copy of it goes. */
  function StartConversation(conversations: seq<Conversation>, c: Conversation): (r: seq<Conversation>)
    ensures |r| >= 1 && r[0] == c
    ensures forall i :: 1 <= i < |r| ==> r[i].id != c.id
    ensures forall x :: x in r[1..] <==> x in conversations && x.id != c.id
    ensures IsSubsequence(r[1..], conversations)
  {
    var rest := Filter(conversations, (x: Conversation) => x.id != c.id);
    assert ([c] + rest)[1..] == rest;
    assert forall i :: 1 <= i < |[c] + rest| ==> ([c] + rest)[i] in rest;
    [c] + rest
  }

  /** Every conversation with another id keeps all its copies: the reorder drops only copies of the started one. */
  lemma StartKeepsOthers(conversations: seq<Conversation>, c: Conversation, x: Conversation)
    requires x.id != c.id
    ensures multiset(StartConversation(conversations, c))[x] == multiset(conversations)[x]
  {
    var rest := Filter(conversations, (y: Conversation) => y.id != c.id);
    FilterMultiset(conversations, (y: Conversation) => y.id != c.id);
    assert StartConversation(conversations, c) == [c] + rest;
    assert multiset([c] + rest) == multiset([c]) + multiset(rest);
  }

  predicate DistinctIds(s: seq<Conversation>)
  {
    forall i, j :: 0 <= i < j < |s| ==> s[i].id != s[j].id
  }

  /** Starting a conversation keeps the list free of repeated conversations. */
  lemma StartKeepsIdsDistinct(conversations: seq<Conversation>, c: Conversation)
    requires DistinctIds(conversations)
    ensures DistinctIds(StartConversation(conversations, c))
  {
    var r := StartConversation(conversations, c);
    var rest := r[1..];
    forall i, j | 0 <= i < j < |r| ensures r[i].id != r[j].id {
      if i > 0 {
        assert IsSubsequence(rest, conversations);
        SubsequenceKeepsDistinct(rest, conversations, i - 1, j - 1);
      }
    }
  }

  /** Two elements of a subsequence come from two different places of the list. */
  lemma {:induction false} SubsequenceKeepsDistinct(r: seq<Conversation>, s: seq<Conversation>, i: nat, j: nat)
    requires IsSubsequence(r, s) && DistinctIds(s) && i < j < |r|
    ensures r[i].id != r[j].id
    decreases |s|
  {
    assert s != [];
    var t := s[1..];
    assert DistinctIds(t) by {
      forall a, b | 0 <= a < b < |t| ensures t[a].id != t[b].id {
        assert t[a] == s[a + 1] && t[b] == s[b + 1];
      }
    }
    if r[0] == s[0] {
      if i == 0 {
        assert r[j] == r[1..][j - 1];
        SubsequenceMember(r[1..], t, j - 1);
        var k :| 0 <= k < |t| && t[k] == r[j];
        assert s[k + 1] == r[j];
      } else {
        SubsequenceKeepsDistinct(r[1..], t, i - 1, j - 1);
      }
    } else {
      SubsequenceKeepsDistinct(r, t, i, j);
    }
  }

  lemma {:induction false} SubsequenceMember(r: seq<Conversation>, s: seq<Conversation>, i: nat)
    requires IsSubsequence(r, s) && i < |r|
    ensures exists k :: 0 <= k < |s| && s[k] == r[i]
    decreases |s|
  {
    assert s != [];
    if r[0] == s[0] {
      if i > 0 {
        SubsequenceMember(r[1..], s[1..], i - 1);
        var k :| 0 <= k < |s[1..]| && s[1..][k] == r[1..][i - 1];
        assert s[k + 1] == r[i];
      }
    } else {
      SubsequenceMember(r, s[1..], i);
      var k :| 0 <= k < |s[1..]| && s[1..][k] == r[i];
      assert s[k + 1] == r[i];
    }
  }

  /** `String(x)` of a value that may be undefined. */
  function JsString(x: Option<string>): string
  {
    if x.Some? then x.value else "undefined"
  }

  /** The object's entry for the user, 0 when it has none. */
  function Entry(counts: map<string, int>, userId: Option<string>): int
  {
    if JsString(userId) in counts then counts[JsString(userId)] else 0
  }

  /**
   * The count as the list reads it: `get` is a method of neither a number
   * nor a parsed object, and a number has no property named by a user id,
   * so only an object's entry is ever found.
   */
  function UnreadAsWritten(c: Conversation, userId: Option<string>): (n: int)
    ensures !c.unreadCount.CountObject? ==> n == 0
    ensures c.unreadCount.CountObject? ==> n == Entry(c.unreadCount.counts, userId)
  {
    match c.unreadCount
    case CountNumber(_) => 0
    case CountObject(counts) => Entry(counts, userId)
    case NoCounts => 0
  }

  /**
   * A conversation fetched from the list endpoint never shows the badge,
   * whatever the server counted: with three unread messages reported, the
   * list reads 0.
   */
  lemma ListedCountIgnoredAsWritten(id: string, n: int, userId: Option<string>)
    ensures UnreadAsWritten(Conversation(id, CountNumber(n)), userId) == 0
    ensures UnreadAsWritten(Conversation("c1", CountNumber(3)), Some("u1")) == 0 && Unread(Conversation("c1", CountNumber(3)), Some("u1")) == 3
  {
  }

  /** The count the list should read: the number itself when the server sent the caller's count, the user's entry of an object. */
  function Unread(c: Conversation, userId: Option<string>): (r: int)
    ensures c.unreadCount.CountNumber? ==> r == c.unreadCount.n
    ensures !c.unreadCount.CountNumber? ==> r == UnreadAsWritten(c, userId)
  {
    match c.unreadCount
    case CountNumber(k) => k
    case CountObject(counts) => Entry(counts, userId)
    case NoCounts => 0
  }

  /**
   * The unread badge is drawn only for a positive count, as the list reads
   * it: never for a count the server sent as a number, and for an object
   * exactly when the user's entry is positive.
   */
  predicate ShowsBadge(c: Conversation, userId: Option<string>)
    ensures !c.unreadCount.CountObject? ==> !ShowsBadge(c, userId)
    ensures c.unreadCount.CountObject? ==> (ShowsBadge(c, userId) <==> Entry(c.unreadCount.counts, userId) > 0)
  {
    UnreadAsWritten(c, userId) > 0
  }

  /** The badge as intended: drawn for a positive count read the corrected way. */
  predicate ShowsBadgeCorrected(c: Conversation, userId: Option<string>)
    ensures !c.unreadCount.CountNumber? ==> (ShowsBadgeCorrected(c, userId) <==> ShowsBadge(c, userId))
  {
    Unread(c, userId) > 0
  }

  /**
   * With the corrected reading, an entry of `getConversations` shows the
   * badge exactly when the server counted unread messages for the caller,
   * and the badge shows that count; as written it never shows.
   */
  lemma ListedBadgeIsServerCount(e: (Id, ChatModel.Conversation, nat), id: string, userId: string)
    ensures Unread(Conversation(id, CountNumber(e.2)), Some(userId)) == e.2
    ensures ShowsBadgeCorrected(Conversation(id, CountNumber(e.2)), Some(userId)) <==> e.2 > 0
    ensures !ShowsBadge(Conversation(id, CountNumber(e.2)), Some(userId))
  {
  }

  /** A message's sender: populated with the user's document, a bare id, or absent. */
  datatype SenderRef = PopulatedSender(id: string) | RawSender(raw: string) | NoSender

  /** `String(msg.sender?._id || msg.sender)`: an empty populated id falls back to the object itself. */
  function SenderText(s: SenderRef): string
  {
    match s
    case PopulatedSender(id) => if id != "" then id else "[object Object]"
    case RawSender(raw) => raw
    case NoSender => "undefined"
  }

  /** `isSent`: the sender and the signed-in user compare equal as strings. */
  predicate IsSent(sender: SenderRef, userId: Option<string>)
    ensures sender.PopulatedSender? && sender.id != "" ==> (IsSent(sender, userId) <==> sender.id == JsString(userId))
    ensures sender.RawSender? ==> (IsSent(sender, userId) <==> sender.raw == JsString(userId))
    ensures sender == NoSender && userId.None? ==> IsSent(sender, userId)
  {
    SenderText(sender) == JsString(userId)
  }

  /** For real ids, a message is the user's own exactly when the sender's id is the user's, populated or not. */
  lemma IsSentByIds(id: string, userId: string)
    requires id != "" && userId != ""
    ensures IsSent(PopulatedSender(id), Some(userId)) <==> id == userId
    ensures IsSent(RawSender(id), Some(userId)) <==> id == userId
  {
  }

  // ------------------------------------------------------------- requests

  /** `chatAPI.sendMessage(id, { content: messageToSend })`, as the page calls it: the object lands inside `content`. */
  function TextRequestAsWritten(conversationId: string, text: string): (r: ApiClient.Request)
    ensures r.body.Keys == {"content"} && r.body["content"] == ApiClient.JObject(map["content" := ApiClient.JString(text)])
  {
    ApiClient.SendMessage(conversationId, ApiClient.JObject(map["content" := ApiClient.JString(text)]))
  }

  /** The voice message as the page sends it: its three fields land inside `content` as well. */
  function VoiceRequestAsWritten(conversationId: string, audioData: string, duration: nat): (r: ApiClient.Request)
    ensures r.body.Keys == {"content"} && r.body["content"].JObject?
  {
    ApiClient.SendMessage(conversationId, ApiClient.JObject(map["messageType" := ApiClient.JString("audio"),
      "audioData" := ApiClient.JString(audioData), "audioDuration" := ApiClient.JNumber(duration)]))
  }

  /** `chatAPI.sendMessage(id, messageToSend)`: the text itself under `content`. */
  function TextRequest(conversationId: string, text: string): (r: ApiClient.Request)
    ensures r.verb == "POST" && r.body == map["content" := ApiClient.JString(text)]
  {
    ApiClient.SendMessage(conversationId, ApiClient.JString(text))
  }

  /** A voice message whose fields are the body's own. */
  function VoiceRequest(conversationId: string, audioData: string, duration: nat): (r: ApiClient.Request)
    ensures r.verb == "POST" && r.path == ApiClient.SendMessage(conversationId, ApiClient.JString("")).path
    ensures r.body == map["messageType" := ApiClient.JString("audio"), "audioData" := ApiClient.JString(audioData),
                          "audioDuration" := ApiClient.JNumber(duration)]
  {
    ApiClient.Request("POST", ApiClient.SendMessage(conversationId, ApiClient.JString("")).path,
      map["messageType" := ApiClient.JString("audio"), "audioData" := ApiClient.JString(audioData),
          "audioDuration" := ApiClient.JNumber(duration)])
  }

  /** A string field of a body, absent when missing or not a string. */
  function StringField(body: map<string, ApiClient.Json>, name: string): Option<string>
  {
    if name in body && body[name].JString? then Some(body[name].s) else None
  }

  /**
   * How the server's `sendMessage` reads a body: the message type defaults
   * to text (an unknown one is refused by the schema, a 500); for a text
   * message, a `content` that is an object or a non-zero number has no
   * `trim` and the handler throws (a 500), and a zero counts as missing.
   */
  function ServerReads(body: map<string, ApiClient.Json>): (r: Result<ChatController.SendBody>)
    ensures r.Err? ==> r.error == InternalError
  {
    var typeName := StringField(body, "messageType");
    var kind := if typeName == Some("audio") then ChatModel.Audio
                else if typeName == Some("system") then ChatModel.System else ChatModel.Text;
    var duration := if "audioDuration" in body && body["audioDuration"].JNumber? then Some(body["audioDuration"].n) else None;
    if "messageType" in body && !(typeName.Some? && typeName.value in {"text", "audio", "system"}) then Err(InternalError)
    else if kind == ChatModel.Text && "content" in body && !body["content"].JString? && body["content"] != ApiClient.JNumber(0) then
      Err(InternalError)
    else Ok(ChatController.SendBody(StringField(body, "content"),
                                    if "messageType" in body then Some(kind) else None,
                                    StringField(body, "audioData"), duration))
  }

  /** As the page calls it, every text message fails on the server with a 500, whatever the text. */
  lemma TextSendFailsAsWritten(conversationId: string, text: string)
    ensures ServerReads(TextRequestAsWritten(conversationId, text).body) == Err(InternalError)
  {
    var b := TextRequestAsWritten(conversationId, text).body;
    assert b.Keys == {"content"};
    assert "messageType" !in b;
  }

  /** Every voice message fails the same way: the server sees a text message whose content is an object. */
  lemma VoiceSendFailsAsWritten(conversationId: string, audioData: string, duration: nat)
    ensures ServerReads(VoiceRequestAsWritten(conversationId, audioData, duration).body) == Err(InternalError)
  {
    var b := VoiceRequestAsWritten(conversationId, audioData, duration).body;
    assert "messageType" !in b;
  }

  /** Sent as its own value, a text that is not blank is stored trimmed. */
  lemma TextSendAccepted(conversationId: string, text: string, conv: Id, sender: Id, now: int)
    requires !IsBlank(text)
    ensures ServerReads(TextRequest(conversationId, Trim(text)).body) == Ok(ChatController.SendBody(Some(Trim(text)), None, None, None))
    ensures ChatController.Compose(conv, sender, ChatController.SendBody(Some(Trim(text)), None, None, None), now).Ok?
    ensures ChatController.Compose(conv, sender, ChatController.SendBody(Some(Trim(text)), None, None, None), now).value.content == Some(Trim(text))
  {
    var t := Trim(text);
    TrimIdempotent(text);
    TextBodyRead(t);
    var body := ChatController.SendBody(Some(t), None, None, None);
    assert Pick(body.messageType, ChatModel.Text) == ChatModel.Text;
    ComposeText(conv, sender, body, now);
  }

  /** A text message with content that is not blank is stored with its content trimmed. */
  lemma ComposeText(conv: Id, sender: Id, body: ChatController.SendBody, now: int)
    requires Pick(body.messageType, ChatModel.Text) == ChatModel.Text && body.content.Some? && !IsBlank(body.content.value)
    ensures ChatController.Compose(conv, sender, body, now).Ok?
    ensures ChatController.Compose(conv, sender, body, now).value.content == Some(Trim(body.content.value))
  {
  }

  /** The server reads a body holding only a string `content` as a text message with that content. */
  lemma TextBodyRead(t: string)
    ensures ServerReads(map["content" := ApiClient.JString(t)]) == Ok(ChatController.SendBody(Some(t), None, None, None))
  {
    var b := map["content" := ApiClient.JString(t)];
    assert "messageType" !in b && "audioData" !in b && "audioDuration" !in b;
  }

  /** Sent with its fields in the body, a recording is stored as a voice message with its duration. */
  lemma VoiceSendAccepted(conversationId: string, audioData: string, duration: nat, conv: Id, sender: Id, now: int)
    requires audioData != ""
    ensures var read := ServerReads(VoiceRequest(conversationId, audioData, duration).body);
      read.Ok? && ChatController.Compose(conv, sender, read.value, now).Ok? &&
      ChatController.Compose(conv, sender, read.value, now).value.messageType == ChatModel.Audio &&
      ChatController.Compose(conv, sender, read.value, now).value.audioDuration == Some(duration as int)
  {
    var b := VoiceRequest(conversationId, audioData, duration).body;
    assert StringField(b, "messageType") == Some("audio");
    assert StringField(b, "audioData") == Some(audioData);
    assert "content" !in b;
  }

  // ------------------------------------------------------------- composer and recorder

  /** The send button does nothing for a blank draft, without an open conversation, or while a send is under way. */
  predicate Refused(trimmed: string, conversation: Option<string>, sending: bool)
  {
    |trimmed| == 0 || conversation.None? || sending
  }

  /** The message box and its send button. */
  class Composer {
    var draft: string
    var sending: bool
    /** The text of the send under way, restored if it fails. */
    var inFlight: string

    constructor()
      ensures draft == "" && !sending
    {
      draft := "";
      sending := false;
      inFlight := "";
    }

    /**
     * `handleSendMessage`: a blank draft, no open conversation or a send
     * under way sends nothing; otherwise the trimmed draft is sent, wrapped
     * in an object as the page passes it, and the box is emptied.
     */
    method Send(conversation: Option<string>) returns (request: Option<ApiClient.Request>)
      modifies this`draft, this`sending, this`inFlight
      ensures Refused(Trim(old(draft)), conversation, old(sending)) ==>
        request.None? && draft == old(draft) && sending == old(sending) && inFlight == old(inFlight)
      ensures !Refused(Trim(old(draft)), conversation, old(sending)) ==>
        request == Some(TextRequestAsWritten(conversation.value, Trim(old(draft)))) &&
        sending && draft == "" && inFlight == Trim(old(draft))
    {
      var messageToSend := Trim(draft);
      if Refused(messageToSend, conversation, sending) {
        return None;
      }
      sending := true;
      draft := "";
      inFlight := messageToSend;
      request := Some(TextRequestAsWritten(conversation.value, messageToSend));
    }

    /** `handleSendMessage` as intended: the trimmed draft is the body's own `content`. */
    method SendCorrected(conversation: Option<string>) returns (request: Option<ApiClient.Request>)
      modifies this`draft, this`sending, this`inFlight
      ensures Refused(Trim(old(draft)), conversation, old(sending)) ==>
        request.None? && draft == old(draft) && sending == old(sending) && inFlight == old(inFlight)
      ensures !Refused(Trim(old(draft)), conversation, old(sending)) ==>
        request == Some(TextRequest(conversation.value, Trim(old(draft)))) &&
        request.value.body == map["content" := ApiClient.JString(Trim(old(draft)))] &&
        sending && draft == "" && inFlight == Trim(old(draft))
    {
      var messageToSend := Trim(draft);
      if Refused(messageToSend, conversation, sending) {
        return None;
      }
      sending := true;
      draft := "";
      inFlight := messageToSend;
      request := Some(TextRequest(conversation.value, messageToSend));
    }

    /**
     * `sendVoiceMessageWithDuration`: nothing without an open conversation;
     * otherwise the send button is locked and the recording is sent, its
     * fields wrapped under `content` as the page passes them. Unlike a text
     * send, a send under way does not stop it.
     */
    method SendVoice(conversation: Option<string>, audioData: string, duration: nat) returns (request: Option<ApiClient.Request>)
      modifies this`sending
      ensures conversation.None? ==> request.None? && sending == old(sending)
      ensures conversation.Some? ==>
        request == Some(VoiceRequestAsWritten(conversation.value, audioData, duration)) && sending
    {
      if conversation.None? {
        return None;
      }
      sending := true;
      request := Some(VoiceRequestAsWritten(conversation.value, audioData, duration));
    }

    /**
     * The voice send's outcome as written: only a success reaches
     * `setSendingMessage(false)`. A failure is thrown inside the reader's
     * `onloadend` callback, which the surrounding `try` does not cover, so
     * the button stays locked.
     */
    method VoiceSettled(ok: bool)
      modifies this`sending
      ensures ok ==> !sending
      ensures !ok ==> sending == old(sending)
    {
      if ok {
        sending := false;
      }
    }

    /** The voice send's outcome as intended: either way the button is free again. */
    method VoiceSettledCorrected(ok: bool)
      modifies this`sending
      ensures !sending
    {
      sending := false;
    }

    /** The send's outcome: a failure puts the text back in the box; either way the button is free again. */
    method Settle(ok: bool)
      modifies this`draft, this`sending
      ensures !sending
      ensures !ok ==> draft == inFlight
      ensures ok ==> draft == old(draft)
    {
      if !ok {
        draft := inFlight;
      }
      sending := false;
    }
  }

  /**
   * As written, one failed voice message locks the composer: a text typed
   * afterwards is not sent.
   */
  method VoiceFailureBlocksText() returns (request: Option<ApiClient.Request>)
    ensures request.None?
  {
    var composer := new Composer();
    var voice := composer.SendVoice(Some("c1"), "data", 3);
    composer.VoiceSettled(false);
    composer.draft := "bonjour";
    request := composer.Send(Some("c1"));
  }

  /** With the corrected outcome the same text is sent after a failed voice message. */
  method VoiceFailureThenTextCorrected() returns (request: Option<ApiClient.Request>)
    ensures request == Some(TextRequest("c1", "bonjour"))
  {
    var composer := new Composer();
    var voice := composer.SendVoice(Some("c1"), "data", 3);
    composer.VoiceSettledCorrected(false);
    composer.draft := "bonjour";
    assert !IsSpace("bonjour"[0]);
    assert Trim("bonjour") == "bonjour" by {
      assert TrimStart("bonjour") == "bonjour";
      assert TrimEnd("bonjour") == "bonjour";
    }
    request := composer.SendCorrected(Some("c1"));
  }

  /** The voice recorder: the seconds counted by the interval and the audio chunks received. */
  class Recorder {
    var recording: bool
    var duration: nat
    var chunks: seq<nat>
    var cancelled: bool

    constructor()
      ensures !recording && duration == 0 && chunks == [] && !cancelled
    {
      recording := false;
      duration := 0;
      chunks := [];
      cancelled := false;
    }

    /** `startRecording`, once the microphone is granted. */
    method Start()
      modifies this
      ensures recording && duration == 0 && chunks == [] && !cancelled
    {
      cancelled := false;
      duration := 0;
      chunks := [];
      recording := true;
    }

    /** One second of the interval, which runs only while recording. */
    method Tick()
      modifies this`duration
      ensures recording ==> duration == old(duration) + 1
      ensures !recording ==> duration == old(duration)
    {
      if recording {
        duration := duration + 1;
      }
    }

    /** `ondataavailable`: a non-empty chunk is kept unless the recording was cancelled. */
    method Data(size: nat)
      modifies this`chunks
      ensures size > 0 && !cancelled ==> chunks == old(chunks) + [size]
      ensures !(size > 0 && !cancelled) ==> chunks == old(chunks)
    {
      if size > 0 && !cancelled {
        chunks := chunks + [size];
      }
    }

    /** `cancelRecording`: the chunks are discarded and the duration goes back to 0. */
    method Cancel()
      modifies this
      ensures old(recording) ==> cancelled && chunks == [] && duration == 0 && !recording
      ensures !old(recording) ==> cancelled == old(cancelled) && chunks == old(chunks) && duration == old(duration) && !recording
    {
      if recording {
        cancelled := true;
        chunks := [];
        duration := 0;
        recording := false;
      }
    }

    /**
     * `stopRecording` and the recorder's `onstop`. Stopping clears the cancel
     * flag, and `MediaRecorder.stop` delivers the data not yet handed over,
     * `flush` bytes of it, through `ondataavailable` before `onstop` runs; a
     * recording with audio is then sent with the seconds counted.
     */
    method Stop(flush: nat) returns (voice: Option<nat>)
      modifies this`recording, this`cancelled, this`chunks
      ensures !recording
      ensures old(recording) ==> !cancelled && chunks == old(chunks) + (if flush > 0 then [flush] else [])
      ensures !old(recording) ==> cancelled == old(cancelled) && chunks == old(chunks)
      ensures voice.Some? <==> old(recording) && chunks != []
      ensures voice.Some? ==> voice.value == duration
    {
      if !recording {
        return None;
      }
      cancelled := false;
      recording := false;
      Data(flush);
      voice := if chunks != [] then Some(duration) else None;
    }

    /** A voice message the server accepted: the counter goes back to 0. */
    method VoiceSent()
      modifies this`duration
      ensures duration == 0
    {
      duration := 0;
    }
  }

  /**
   * A recording stopped before the first one-second timeslice has no chunk
   * yet; the flush on stop supplies one, so it is sent, with 0 seconds.
   */
  method ShortRecordingIsSent(flush: nat) returns (voice: Option<nat>)
    requires flush > 0
    ensures voice == Some(0)
  {
    var r := new Recorder();
    r.Start();
    voice := r.Stop(flush);
  }
}

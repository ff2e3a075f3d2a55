/**
 Envelopes as the server sees them: their types, their identifiers and the form in which a client's
 envelope is routed (mess/client.go:40-73, 120-133, 509-651, mess/hub.go:470-501 and mess/db.go:1600-1608).
 */
module Envelopes {
  import opened Wrappers
  import opened Text

  const MAX_MESSAGE_SIZE := 128 * 1024

  datatype Envelope = Envelope(kind: string, msgId: string, targetMsgId: string, recipient: string, groupId: string,
                               sender: string, data: string)

  /** What a routed message carries: the JSON form of an envelope, or bytes that are no such form. */
  datatype Payload = Json(envelope: Envelope) | Raw(bytes: string)

  datatype Message = Message(kind: string, sender: string, recipient: string, payload: Payload)

  predicate IsBase64Char(c: char) {
    'A' <= c <= 'Z' || 'a' <= c <= 'z' || '0' <= c <= '9' || c == '+' || c == '/'
  }

  function WithoutNewlines(s: string): string {
    if s == "" then ""
    else if s[0] == '\n' || s[0] == '\r' then WithoutNewlines(s[1..])
    else [s[0]] + WithoutNewlines(s[1..])
  }

  /** Standard base64 of exactly 32 bytes; the decoder skips line breaks. */
  predicate IsValidPublicKey(value: string) {
    var text := WithoutNewlines(value);
    && |text| == 44
    && (forall i :: 0 <= i < 43 ==> IsBase64Char(text[i]))
    && text[43] == '='
  }

  predicate IsIdChar(c: char) {
    'a' <= c <= 'z' || 'A' <= c <= 'Z' || '0' <= c <= '9' || c in {'-', '_', ':', '.'}
  }

  predicate IsValidMessageId(id: string) {
    && 1 <= |id| <= 128
    && forall i :: 0 <= i < |id| ==> IsIdChar(id[i])
  }

  lemma ValidIdIsTrimmed(id: string)
    requires IsValidMessageId(id)
    ensures Trim(id) == id
  {
    TrimKeeps(id);
  }

  /** The identifier column of a stored payload. */
  function MessageIdOf(payload: Payload): string {
    match payload
    case Json(e) => e.msgId
    case Raw(_) => ""
  }

  predicate IsGroupRouted(kind: string) {
    kind in ["group_message", "group_edit", "group_delete", "group_reaction"]
  }

  predicate IsChannelRouted(kind: string) {
    kind in ["channel_message", "channel_edit", "channel_delete", "channel_reaction", "channel_pin"]
  }

  predicate IsRouted(kind: string) {
    || IsGroupRouted(kind)
    || IsChannelRouted(kind)
    || kind in ["message", "dummy", "session_reset", "session_repair", "self_sync", "group_sender_key", "typing",
                "delivery_receipt", "read_receipt", "edit", "delete", "reaction", "reply", "pin", "unpin",
                "attachment", "forward", "call_offer", "call_answer", "call_reject", "call_end", "ice_candidate",
                "wipe_all"]
  }

  predicate NeedsMessageId(kind: string) {
    || IsGroupRouted(kind)
    || IsChannelRouted(kind)
    || kind in ["message", "dummy", "session_repair", "group_sender_key", "delivery_receipt", "read_receipt", "edit",
                "delete", "reaction", "reply", "pin", "unpin", "attachment", "forward"]
  }

  predicate NeedsTarget(kind: string) {
    kind in ["edit", "delete", "reaction", "reply", "pin", "unpin", "group_edit", "group_delete", "group_reaction",
             "channel_edit", "channel_delete", "channel_reaction"]
  }

  predicate NeedsData(kind: string) {
    kind in ["message", "dummy", "edit", "reply", "attachment", "forward", "session_repair", "group_message",
             "group_edit", "group_sender_key", "channel_message", "channel_edit"]
  }

  predicate PersistsOffline(kind: string) {
    kind !in ["typing", "dummy", "delivery_receipt", "read_receipt", "call_offer", "call_answer", "call_reject",
              "call_end", "ice_candidate", "session_reset"]
  }

  /** A session reset is kept for later only if it carries an identifier. */
  predicate MessagePersistsOffline(m: Message) {
    if m.kind != "session_reset" then PersistsOffline(m.kind)
    else m.payload.Json? && IsValidMessageId(m.payload.envelope.msgId)
  }

  predicate HasDirectHistory(kind: string) {
    kind in ["message", "offline_message", "edit", "delete", "reaction", "reply", "pin", "unpin", "attachment",
             "forward"]
  }

  /** The envelope that is routed for a signed-in client, if its envelope is acceptable. */
  function Normalized(e: Envelope, key: string): Option<Payload> {
    if !IsRouted(e.kind) || !IsValidPublicKey(key) then None
    else if (IsGroupRouted(e.kind) || IsChannelRouted(e.kind)) && e.groupId == "" then None
    else if !IsGroupRouted(e.kind) && !IsChannelRouted(e.kind) && !IsValidPublicKey(e.recipient) then None
    else if NeedsMessageId(e.kind) && !IsValidMessageId(e.msgId) then None
    else if NeedsTarget(e.kind) && !IsValidMessageId(e.targetMsgId) then None
    else if NeedsData(e.kind) && e.data == "" then None
    else if Utf8Len(e.data) > MAX_MESSAGE_SIZE then None
    else Some(Json(e.(sender := key)))
  }

  lemma {:induction false} NewlinesAside(s: string, c: char)
    requires c in WithoutNewlines(s)
    ensures c in s
  {
    if s[0] != '\n' && s[0] != '\r' {
      assert WithoutNewlines(s) == [s[0]] + WithoutNewlines(s[1..]);
      if c != s[0] {
        NewlinesAside(s[1..], c);
      }
    } else {
      NewlinesAside(s[1..], c);
    }
  }

  /** A key is not blank, even after trimming. */
  lemma ValidKeyIsNotBlank(key: string)
    requires IsValidPublicKey(key)
    ensures Trim(key) != ""
  {
    assert '=' in WithoutNewlines(key);
    NewlinesAside(key, '=');
    TrimDropsWhitespace(key, '=');
  }

  // ----- what is routed, kind by kind and in numbers -----

  lemma MessageIdExactlyWhen(id: string)
    ensures IsValidMessageId(id) <==> IsPlain(id, 128, "-_:.")
  {
    hide IsLetterOrDigit;
    forall i | 0 <= i < |id|
      ensures IsIdChar(id[i]) <==> IsLetterOrDigit(id[i]) || id[i] in "-_:."
    {
      LettersAndDigits(id[i]);
    }
  }

  /** Line breaks aside, 43 characters of the base64 alphabet and a padding sign. */
  ghost predicate IsKey(key: string) {
    exists body :: |body| == 43 && IsPlain(body, 43, "+/") && WithoutNewlines(key) == body + "="
  }

  lemma KeyExactlyWhen(key: string)
    ensures IsValidPublicKey(key) <==> IsKey(key)
  {
    hide WithoutNewlines;
    hide IsLetterOrDigit;
    var text := WithoutNewlines(key);
    if IsValidPublicKey(key) {
      var body := text[..43];
      forall i | 0 <= i < 43
        ensures IsLetterOrDigit(body[i]) || body[i] in "+/"
      {
        LettersAndDigits(body[i]);
      }
      assert text == body + "=";
    }
    if IsKey(key) {
      var body :| |body| == 43 && IsPlain(body, 43, "+/") && WithoutNewlines(key) == body + "=";
      forall i | 0 <= i < 43
        ensures IsBase64Char(text[i])
      {
        LettersAndDigits(body[i]);
      }
    }
  }

  /** Exactly the line breaks are left out, and the rest keeps its order. */
  lemma {:induction false} WithoutNewlinesOf(a: string, c: char, b: string)
    ensures WithoutNewlines(a + [c] + b) ==
              WithoutNewlines(a) + (if c == '\n' || c == '\r' then "" else [c]) + WithoutNewlines(b)
  {
    if a == "" {
      assert (a + [c] + b)[1..] == b;
    } else {
      assert (a + [c] + b)[1..] == a[1..] + [c] + b;
      WithoutNewlinesOf(a[1..], c, b);
    }
  }

  ghost predicate IsRoomKind(kind: string) {
    kind in ["group_message", "group_edit", "group_delete", "group_reaction", "channel_message", "channel_edit",
             "channel_delete", "channel_reaction", "channel_pin"]
  }

  /** The kinds that are recorded in the history of two accounts. */
  ghost predicate IsRecordedKind(kind: string) {
    kind in ["message", "edit", "delete", "reaction", "reply", "pin", "unpin", "attachment", "forward"]
  }

  /** The kinds that are of no use later. */
  ghost predicate IsTransientKind(kind: string) {
    kind in ["typing", "dummy", "delivery_receipt", "read_receipt", "call_offer", "call_answer", "call_reject",
             "call_end", "ice_candidate"]
  }

  /** What an envelope of a kind must carry besides its address. */
  datatype Needs = Needs(id: bool, target: bool, data: bool)

  function NeedsOf(kind: string): Option<Needs> {
    if kind in ["message", "attachment", "forward", "dummy", "session_repair", "group_sender_key", "group_message",
                "channel_message"] then Some(Needs(true, false, true))
    else if kind in ["edit", "reply", "group_edit", "channel_edit"] then Some(Needs(true, true, true))
    else if kind in ["delete", "reaction", "pin", "unpin", "group_delete", "group_reaction", "channel_delete",
                     "channel_reaction"] then Some(Needs(true, true, false))
    else if kind in ["delivery_receipt", "read_receipt", "channel_pin"] then Some(Needs(true, false, false))
    else if kind in ["session_reset", "self_sync", "typing", "call_offer", "call_answer", "call_reject", "call_end",
                     "ice_candidate", "wipe_all"] then Some(Needs(false, false, false))
    else None
  }

  lemma RoutedKindsAre(kind: string)
    ensures IsRouted(kind) <==> NeedsOf(kind).Some?
  {
  }

  lemma NeedsAre(kind: string)
    requires NeedsOf(kind).Some?
    ensures NeedsOf(kind).value.id == NeedsMessageId(kind)
    ensures NeedsOf(kind).value.target == NeedsTarget(kind)
    ensures NeedsOf(kind).value.data == NeedsData(kind)
  {
  }

  lemma KindsAre(kind: string)
    ensures IsGroupRouted(kind) || IsChannelRouted(kind) <==> IsRoomKind(kind)
    ensures !PersistsOffline(kind) <==> IsTransientKind(kind) || kind == "session_reset"
    ensures HasDirectHistory(kind) <==> IsRecordedKind(kind) || kind == "offline_message"
  {
  }

  /** The envelope has an address and everything its kind needs. */
  ghost predicate IsComplete(e: Envelope) {
    && NeedsOf(e.kind).Some?
    && (if IsRoomKind(e.kind) then e.groupId != "" else IsKey(e.recipient))
    && (NeedsOf(e.kind).value.id ==> IsPlain(e.msgId, 128, "-_:."))
    && (NeedsOf(e.kind).value.target ==> IsPlain(e.targetMsgId, 128, "-_:."))
    && (NeedsOf(e.kind).value.data ==> e.data != "")
    && Utf8Len(e.data) <= 131_072
  }

  /** A client's envelope is routed, under the client's own key, exactly when it is complete. */
  lemma RoutedExactlyWhen(e: Envelope, key: string)
    ensures Normalized(e, key) == if IsKey(key) && IsComplete(e) then Some(Json(e.(sender := key))) else None
  {
    hide IsValidPublicKey;
    hide IsKey;
    hide IsValidMessageId;
    hide IsPlain;
    hide IsRouted;
    hide NeedsOf;
    hide NeedsMessageId;
    hide NeedsTarget;
    hide NeedsData;
    hide IsRoomKind;
    hide IsGroupRouted;
    hide IsChannelRouted;
    hide Utf8Len;
    KeyExactlyWhen(key);
    KeyExactlyWhen(e.recipient);
    MessageIdExactlyWhen(e.msgId);
    MessageIdExactlyWhen(e.targetMsgId);
    RoutedKindsAre(e.kind);
    if NeedsOf(e.kind).Some? {
      NeedsAre(e.kind);
    }
    KindsAre(e.kind);
  }

  // ----- keys with blank ends -----

  lemma {:induction false} NewlineAtEnd(s: string)
    ensures WithoutNewlines(s + "\n") == WithoutNewlines(s)
  {
    if s == "" {
      assert WithoutNewlines("\n") == WithoutNewlines("");
    } else {
      assert (s + "\n")[1..] == s[1..] + "\n";
      NewlineAtEnd(s[1..]);
    }
  }

  /** A valid key followed by a line break is a valid key too, and trimming changes it. */
  lemma ValidKeysMayHaveBlankEnds(key: string)
    requires IsValidPublicKey(key)
    ensures IsValidPublicKey(key + "\n") && Trim(key + "\n") != key + "\n"
  {
    NewlineAtEnd(key);
    TrimEndStops(TrimStart(key + "\n"));
    assert IsWhitespace((key + "\n")[|key|]);
  }

  /** A key made of one base64 character. */
  function SampleKey(c: char): string {
    seq(43, _ => c) + "="
  }

  lemma {:induction false} NoNewlines(s: string)
    requires forall i :: 0 <= i < |s| ==> s[i] != '\n' && s[i] != '\r'
    ensures WithoutNewlines(s) == s
  {
    if s != "" {
      NoNewlines(s[1..]);
    }
  }

  lemma SampleKeyIsValid(c: char)
    requires IsBase64Char(c)
    ensures IsValidPublicKey(SampleKey(c)) && Trim(SampleKey(c)) == SampleKey(c)
  {
    NoNewlines(SampleKey(c));
    TrimKeeps(SampleKey(c));
  }
}

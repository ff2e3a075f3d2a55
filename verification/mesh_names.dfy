/**
 Topics, identifiers and envelopes of the gossip mesh (clients/core/src/mesh.rs:10-123 and 388-466).
 */
module MeshNames {
  import opened Wrappers
  import opened Text

  const PROTOCOL_VERSION: nat := 1
  const TOPIC_PREFIX := "messk/v1"
  const DEFAULT_HOP_LIMIT: nat := 3
  const MAX_HOP_LIMIT: nat := 8
  const MAX_CIPHERTEXT_LEN: nat := 1024 * 1024

  datatype ThreadKind = Direct | Group | Channel

  datatype MeshError =
    | InvalidThreadId
    | InvalidTopic
    | InvalidMessageId
    | InvalidCiphertext
    | InvalidHopLimit
    | UnsupportedVersion
    | Expired
    | UnknownNode

  datatype Envelope = Envelope(v: nat, topic: string, msgId: string, ciphertext: string, hopLimit: nat, expiresAt: nat)

  function AsWire(kind: ThreadKind): string {
    match kind
    case Direct => "direct"
    case Group => "group"
    case Channel => "channel"
  }

  predicate IsIdChar(c: char) {
    'a' <= c <= 'z' || 'A' <= c <= 'Z' || '0' <= c <= '9' || c in {'_', '-', '.'}
  }

  predicate AllIdChars(s: string) {
    forall i :: 0 <= i < |s| ==> IsIdChar(s[i])
  }

  function NormalizeTopicSegment(value: string): Option<string> {
    var v := Trim(value);
    if v == "" || Utf8Len(v) > 160 then None
    else if AllIdChars(v) then Some(ToAsciiLower(v)) else None
  }

  function NormalizeMessageId(value: string): Option<string> {
    var v := Trim(value);
    if v == "" || Utf8Len(v) > 128 then None
    else if forall i :: 0 <= i < |v| ==> IsIdChar(v[i]) || v[i] == ':' then Some(v) else None
  }

  function NormalizeNodeId(value: string): Option<string> {
    var v := Trim(value);
    if v == "" || Utf8Len(v) > 128 then None
    else if AllIdChars(v) then Some(ToAsciiLower(v)) else None
  }

  function MeshTopic(kind: ThreadKind, threadId: string): Option<string> {
    match NormalizeTopicSegment(threadId)
    case None => None
    case Some(id) => Some(TOPIC_PREFIX + "/" + AsWire(kind) + "/" + id)
  }

  /** The text before the first '/' and the text after it. */
  function SplitSlash(s: string): Option<(string, string)> {
    if s == "" then None
    else if s[0] == '/' then Some(("", s[1..]))
    else match SplitSlash(s[1..])
         case None => None
         case Some(parts) => Some(([s[0]] + parts.0, parts.1))
  }

  predicate IsValidTopic(topic: string) {
    var prefix := TOPIC_PREFIX + "/";
    && prefix <= topic
    && var parts := SplitSlash(topic[|prefix|..]);
       && parts.Some?
       && '/' !in parts.value.1
       && parts.value.0 in {"direct", "group", "channel"}
       && NormalizeTopicSegment(parts.value.1).Some?
  }

  function Validate(e: Envelope, now: nat): Option<MeshError> {
    if e.v != PROTOCOL_VERSION then Some(UnsupportedVersion)
    else if !IsValidTopic(e.topic) then Some(InvalidTopic)
    else if NormalizeMessageId(e.msgId) != Some(e.msgId) then Some(InvalidMessageId)
    else if Trim(e.ciphertext) == "" || Utf8Len(e.ciphertext) > MAX_CIPHERTEXT_LEN then Some(InvalidCiphertext)
    else if e.hopLimit > MAX_HOP_LIMIT then Some(InvalidHopLimit)
    else if e.expiresAt <= now then Some(Expired)
    else None
  }

  function NextHop(e: Envelope): Option<Envelope> {
    if e.hopLimit == 0 then None else Some(e.(hopLimit := e.hopLimit - 1))
  }

  function DedupeKey(topic: string, msgId: string): string {
    topic + ":" + msgId
  }

  // ----- what the names guarantee -----

  lemma {:induction false} SplitSlashJoins(s: string)
    ensures var parts := SplitSlash(s);
            if parts.Some? then s == parts.value.0 + "/" + parts.value.1 && '/' !in parts.value.0 else '/' !in s
  {
    if s != "" && s[0] != '/' {
      SplitSlashJoins(s[1..]);
    }
  }

  lemma {:induction false} SplitSlashOf(before: string, after: string)
    requires '/' !in before
    ensures SplitSlash(before + "/" + after) == Some((before, after))
  {
    var s := before + "/" + after;
    if before == "" {
      assert s == "/" + after;
    } else {
      assert s[1..] == before[1..] + "/" + after;
      SplitSlashOf(before[1..], after);
      assert [s[0]] + before[1..] == before;
    }
  }

  /** Normalizing lowercases accepted text and accepts its own result. */
  lemma NormalizeIsIdempotent(value: string)
    requires NormalizeTopicSegment(value).Some?
    ensures var id := NormalizeTopicSegment(value).value;
            NormalizeTopicSegment(id) == Some(id) && AllIdChars(id)
  {
    var v := Trim(value);
    var id := ToAsciiLower(v);
    TrimKeeps(id);
    AsciiUtf8Len(v);
    AsciiUtf8Len(id);
    assert ToAsciiLower(id) == id;
  }

  lemma AfterPrefix(prefix: string, rest: string)
    ensures prefix <= prefix + rest && (prefix + rest)[|prefix|..] == rest
  {
  }

  lemma WireHasNoSlash(kind: ThreadKind)
    ensures '/' !in AsWire(kind) && AsWire(kind) in {"direct", "group", "channel"}
  {
  }

  lemma BuiltTopicSplits(kind: ThreadKind, id: string)
    requires NormalizeTopicSegment(id).Some? && '/' !in id
    ensures IsValidTopic(TOPIC_PREFIX + "/" + AsWire(kind) + "/" + id)
  {
    hide NormalizeTopicSegment;
    WireHasNoSlash(kind);
    hide AsWire;
    var prefix, wire := TOPIC_PREFIX + "/", AsWire(kind);
    AfterPrefix(prefix, wire + "/" + id);
    SplitSlashOf(wire, id);
    assert prefix + wire + "/" + id == prefix + (wire + "/" + id);
  }

  /** Every topic built for a thread is a topic the mesh accepts. */
  lemma ThreadTopicIsValid(kind: ThreadKind, threadId: string)
    ensures MeshTopic(kind, threadId).Some? <==> NormalizeTopicSegment(threadId).Some?
    ensures MeshTopic(kind, threadId).Some? ==> IsValidTopic(MeshTopic(kind, threadId).value)
  {
    if NormalizeTopicSegment(threadId).Some? {
      NormalizeIsIdempotent(threadId);
      BuiltTopicSplits(kind, NormalizeTopicSegment(threadId).value);
    }
    hide IsValidTopic;
    hide NormalizeTopicSegment;
  }

  /** No accepted topic contains a colon. */
  lemma TopicHasNoColon(topic: string)
    requires IsValidTopic(topic)
    ensures ':' !in topic
  {
    var prefix := TOPIC_PREFIX + "/";
    var rest := topic[|prefix|..];
    SplitSlashJoins(rest);
    var parts := SplitSlash(rest).value;
    if ':' in parts.1 {
      TrimDropsWhitespace(parts.1, ':');
      assert false;
    }
    assert topic == prefix + rest;
  }

  /** On accepted envelopes, a dedupe key belongs to one topic and one message id. */
  lemma DedupeKeyInjective(topic: string, msgId: string, topic': string, msgId': string)
    requires IsValidTopic(topic) && IsValidTopic(topic')
    requires DedupeKey(topic, msgId) == DedupeKey(topic', msgId')
    ensures topic == topic' && msgId == msgId'
  {
    TopicHasNoColon(topic);
    TopicHasNoColon(topic');
    var key := DedupeKey(topic, msgId);
    assert key[|topic|] == ':' && key[|topic'|] == ':';
    assert forall i :: 0 <= i < |topic| ==> key[i] == topic[i] != ':';
    assert forall i :: 0 <= i < |topic'| ==> key[i] == topic'[i] != ':';
    assert |topic| == |topic'|;
    assert topic == key[..|topic|] && topic' == key[..|topic'|];
    assert msgId == key[|topic| + 1..] && msgId' == key[|topic'| + 1..];
  }

  // ----- what is accepted, in letters and numbers -----

  lemma PlainIsAsciiAndTrimmed(s: string, most: nat, marks: string)
    requires IsPlain(s, most, marks) && marks in ["_-.", "_-.:"]
    ensures Trim(s) == s && Utf8Len(s) == |s|
  {
    hide IsLetterOrDigit;
    forall i | 0 <= i < |s|
      ensures s[i] < '\U{80}' && !IsWhitespace(s[i])
    {
      LettersAndDigits(s[i]);
    }
    TrimKeeps(s);
    AsciiUtf8Len(s);
  }

  /** A message id is its own normal form exactly when it has 1 to 128 of the allowed characters. */
  lemma MessageIdExactlyWhen(id: string)
    ensures NormalizeMessageId(id) == Some(id) <==> IsPlain(id, 128, "_-.:")
  {
    hide IsLetterOrDigit;
    hide Utf8Len;
    hide Trim;
    forall i | 0 <= i < |id|
      ensures IsIdChar(id[i]) || id[i] == ':' <==> IsLetterOrDigit(id[i]) || id[i] in "_-.:"
    {
      LettersAndDigits(id[i]);
    }
    if IsPlain(id, 128, "_-.:") {
      PlainIsAsciiAndTrimmed(id, 128, "_-.:");
    } else if NormalizeMessageId(id) == Some(id) {
      forall i | 0 <= i < |id|
        ensures id[i] < '\U{80}'
      {
        LettersAndDigits(id[i]);
      }
      AsciiUtf8Len(id);
    }
  }

  /** A thread or node id is accepted exactly when its trimmed form has 1 to so many of the allowed characters. */
  lemma SegmentExactlyWhen(value: string)
    ensures NormalizeTopicSegment(value).Some? <==> IsPlain(Trim(value), 160, "_-.")
    ensures NormalizeNodeId(value) ==
              if IsPlain(Trim(value), 128, "_-.") then Some(ToAsciiLower(Trim(value))) else None
  {
    hide IsLetterOrDigit;
    hide Utf8Len;
    hide Trim;
    hide ToAsciiLower;
    var v := Trim(value);
    forall i | 0 <= i < |v|
      ensures IsIdChar(v[i]) <==> IsLetterOrDigit(v[i]) || v[i] in "_-."
      ensures IsIdChar(v[i]) ==> v[i] < '\U{80}'
    {
      LettersAndDigits(v[i]);
    }
    if AllIdChars(v) {
      AsciiUtf8Len(v);
    }
  }

  /** The topics the mesh accepts: the prefix, one of three thread kinds, and a thread id. */
  ghost predicate IsTopic(topic: string) {
    exists kind, id :: kind in ["direct", "group", "channel"] && IsPlain(Trim(id), 160, "_-.") && '/' !in id
                       && topic == "messk/v1/" + kind + "/" + id
  }

  lemma ValidTopicIsTopic(topic: string)
    requires IsValidTopic(topic)
    ensures IsTopic(topic)
  {
    hide NormalizeTopicSegment;
    hide IsPlain;
    var rest := topic[|TOPIC_PREFIX + "/"|..];
    var parts := SplitSlash(rest).value;
    SplitSlashJoins(rest);
    SegmentExactlyWhen(parts.1);
    assert topic == "messk/v1/" + (parts.0 + "/" + parts.1);
    assert topic == "messk/v1/" + parts.0 + "/" + parts.1;
  }

  lemma TopicIsValidTopic(kind: string, id: string)
    requires kind in ["direct", "group", "channel"] && IsPlain(Trim(id), 160, "_-.") && '/' !in id
    ensures IsValidTopic("messk/v1/" + kind + "/" + id)
  {
    hide NormalizeTopicSegment;
    hide IsPlain;
    hide Trim;
    SegmentExactlyWhen(id);
    assert '/' !in kind;
    SplitSlashOf(kind, id);
    AfterPrefix("messk/v1/", kind + "/" + id);
    assert "messk/v1/" + kind + "/" + id == "messk/v1/" + (kind + "/" + id);
    hide SplitSlash;
  }

  lemma TopicExactlyWhen(topic: string)
    ensures IsValidTopic(topic) <==> IsTopic(topic)
  {
    hide IsValidTopic;
    hide IsPlain;
    if IsValidTopic(topic) {
      ValidTopicIsTopic(topic);
    }
    if IsTopic(topic) {
      var kind, id :| kind in ["direct", "group", "channel"] && IsPlain(Trim(id), 160, "_-.") && '/' !in id
                      && topic == "messk/v1/" + kind + "/" + id;
      TopicIsValidTopic(kind, id);
    }
  }

  /** What may be published at this time. */
  ghost predicate IsSendable(e: Envelope, now: nat) {
    && e.v == 1
    && IsTopic(e.topic)
    && IsPlain(e.msgId, 128, "_-.:")
    && (exists i :: 0 <= i < |e.ciphertext| && !IsWhitespace(e.ciphertext[i]))
    && Utf8Len(e.ciphertext) <= 1_048_576
    && e.hopLimit <= 8
    && e.expiresAt > now
  }

  lemma ValidExactlyWhen(e: Envelope, now: nat)
    ensures Validate(e, now) == None <==> IsSendable(e, now)
  {
    hide IsValidTopic;
    hide IsTopic;
    hide IsPlain;
    hide NormalizeMessageId;
    hide Utf8Len;
    hide Trim;
    hide IsWhitespace;
    TopicExactlyWhen(e.topic);
    MessageIdExactlyWhen(e.msgId);
    BlankExactlyWhen(e.ciphertext);
  }

  /** A new envelope for a thread, under the default hop limit. */
  function NewEnvelope(kind: ThreadKind, threadId: string, msgId: string, ciphertext: string, expiresAt: nat)
    : Result<Envelope, MeshError>
  {
    match MeshTopic(kind, threadId)
    case None => Failure(InvalidThreadId)
    case Some(topic) =>
      match NormalizeMessageId(msgId)
      case None => Failure(InvalidMessageId)
      case Some(id) =>
        if Trim(ciphertext) == "" || Utf8Len(ciphertext) > MAX_CIPHERTEXT_LEN then Failure(InvalidCiphertext)
        else Success(Envelope(PROTOCOL_VERSION, topic, id, ciphertext, DEFAULT_HOP_LIMIT, expiresAt))
  }

  function KindName(kind: ThreadKind): string {
    if kind.Direct? then "direct" else if kind.Group? then "group" else "channel"
  }

  lemma TopicNames(kind: ThreadKind, threadId: string)
    requires MeshTopic(kind, threadId).Some?
    ensures MeshTopic(kind, threadId).value == "messk/v1/" + KindName(kind) + "/" + ToAsciiLower(Trim(threadId))
  {
    hide Trim;
    hide ToAsciiLower;
    hide Utf8Len;
    hide AllIdChars;
  }

  /** Every new envelope may be published until it expires, and reaches three links far. */
  lemma NewEnvelopesAreSendable(kind: ThreadKind, threadId: string, msgId: string, ciphertext: string, expiresAt: nat,
                                now: nat)
    ensures var r := NewEnvelope(kind, threadId, msgId, ciphertext, expiresAt);
            && (r.Success? <==>
                  && IsPlain(Trim(threadId), 160, "_-.")
                  && IsPlain(Trim(msgId), 128, "_-.:")
                  && Trim(ciphertext) != "" && Utf8Len(ciphertext) <= 1_048_576)
            && (r.Success? ==>
                  && r.value.topic == "messk/v1/" + KindName(kind) + "/" + ToAsciiLower(Trim(threadId))
                  && r.value.hopLimit == 3
                  && r.value.msgId == Trim(msgId) && r.value.ciphertext == ciphertext
                  && (IsSendable(r.value, now) <==> now < expiresAt))
  {
    hide IsTopic;
    hide IsPlain;
    hide Utf8Len;
    hide Trim;
    hide IsWhitespace;
    hide IsValidTopic;
    hide MeshTopic;
    hide NormalizeMessageId;
    hide NormalizeTopicSegment;
    ThreadTopicIsValid(kind, threadId);
    SegmentExactlyWhen(threadId);
    TrimmedIdIsNormal(msgId);
    MessageIdExactlyWhen(Trim(msgId));
    BlankExactlyWhen(ciphertext);
    if MeshTopic(kind, threadId).Some? {
      TopicNames(kind, threadId);
      TopicExactlyWhen(MeshTopic(kind, threadId).value);
    }
  }

  lemma TrimmedIdIsNormal(msgId: string)
    ensures NormalizeMessageId(msgId) == NormalizeMessageId(Trim(msgId))
    ensures NormalizeMessageId(msgId).Some? ==> NormalizeMessageId(msgId).value == Trim(msgId)
  {
    hide Trim;
    TrimTwice(msgId);
  }
}

/**
 The client's message table and the attachment index derived from message texts
 (clients/windows/src/storage.rs:678-850, 1289-1364 and 1406-1408; clients/core/src/payload.rs:136-215 and 254-270).
 */
module Attachments {
  import opened Wrappers
  import opened Text

  const TWO_63 := 0x8000_0000_0000_0000
  const TWO_64 := 0x1_0000_0000_0000_0000

  // ----- texts and their parse -----

  datatype Value = Str(text: string) | Int(number: int) | Float(value: real) | Other

  /** A message text: an object in JSON form, or anything else. */
  datatype MessageText = Object(fields: map<string, Value>) | NoObject(raw: string)

  const DELETED_TEXT := Object(map["type" := Str("deleted"), "text" := Str("Message deleted")])

  function AsStr(fields: map<string, Value>, key: string): Option<string> {
    if key in fields && fields[key].Str? then Some(fields[key].text) else None
  }

  /** An unsigned 64-bit number; a larger literal is not read as an integer. */
  function AsU64(fields: map<string, Value>, key: string): Option<nat> {
    if key in fields && fields[key].Int? && 0 <= fields[key].number < TWO_64 then Some(fields[key].number) else None
  }

  function AsReal(fields: map<string, Value>, key: string): Option<real> {
    if key !in fields then None
    else
      match fields[key]
      case Int(n) => Some(n as real)
      case Float(r) => Some(r)
      case _ => None
  }

  function OrElse<T>(o: Option<T>, default_: T): T {
    match o case Some(v) => v case None => default_
  }

  /** The first of the keys with a non-blank string. */
  function FirstString(fields: map<string, Value>, keys: seq<string>): Option<string> {
    if keys == [] then None
    else
      var s := AsStr(fields, keys[0]);
      if s.Some? && Trim(s.value) != "" then Some(Trim(s.value)) else FirstString(fields, keys[1..])
  }

  /** Round half away from zero and convert with saturation, after dropping negative values. */
  function RoundedU64(r: real): nat {
    var n := ((if r < 0.0 then 0.0 else r) + 0.5).Floor;
    if n >= TWO_64 then TWO_64 - 1 else n
  }

  datatype Voice = Voice(url: string, key: string, duration: nat, mime: string, size: nat)

  datatype File = File(url: string, key: string, name: string, size: nat, mime: string)

  const VOICE_TYPES := ["voice", "audio", "voice_message"]
  const FILE_TYPES := ["file", "attachment", "image", "video", "document", "voice", "audio", "voice_message"]
  const URL_KEYS := ["url", "download_url"]
  const SECRET_KEYS := ["key", "secret_key"]
  const NAME_KEYS := ["name", "filename", "file_name", "title"]
  const MIME_KEYS := ["mime", "mimeType", "mime_type", "content_type"]

  function TypeOf(fields: map<string, Value>): string {
    ToAsciiLower(OrElse(AsStr(fields, "type"), ""))
  }

  function DefaultTitle(kind: string): string {
    if kind == "image" then "Image"
    else if kind == "video" then "Video"
    else if kind == "document" then "Document"
    else if kind in VOICE_TYPES then "voice.webm"
    else "Attachment"
  }

  function VoiceOf(t: MessageText): Option<Voice> {
    if t.NoObject? || TypeOf(t.fields) !in VOICE_TYPES then None
    else
      var url, key := FirstString(t.fields, URL_KEYS), FirstString(t.fields, SECRET_KEYS);
      if url.None? || key.None? then None
      else Some(Voice(url.value, key.value, RoundedU64(OrElse(AsReal(t.fields, "duration"), 0.0)),
                      OrElse(FirstString(t.fields, MIME_KEYS), "audio/webm"), OrElse(AsU64(t.fields, "size"), 0)))
  }

  function FileOf(t: MessageText): Option<File> {
    if t.NoObject? || TypeOf(t.fields) !in FILE_TYPES then None
    else
      var url, key := FirstString(t.fields, URL_KEYS), FirstString(t.fields, SECRET_KEYS);
      if url.None? || key.None? then None
      else Some(File(url.value, key.value, OrElse(FirstString(t.fields, NAME_KEYS), DefaultTitle(TypeOf(t.fields))),
                     OrElse(AsU64(t.fields, "size"), 0),
                     OrElse(FirstString(t.fields, MIME_KEYS), "application/octet-stream")))
  }

  // ----- the two tables -----

  datatype Key = Key(account: string, msgId: string)

  datatype Message = Message(peer: string, sender: string, text: MessageText, direction: string, status: string,
                             createdAt: int, updatedAt: int)

  /** What a row says about the attachment; numbers are signed 64-bit columns. */
  datatype Details = Details(kind: string, url: string, name: string, mime: string, size: int, duration: Option<int>)

  datatype Row = Row(details: Details, createdAt: int)

  datatype Store = Store(messages: map<Key, Message>, attachments: map<Key, Row>)

  /** The cast to a signed 64-bit integer. */
  function AsI64(n: nat): int
    requires n < TWO_64
  {
    if n < TWO_63 then n else n - TWO_64
  }

  /** What the index should hold for a text: a voice message first, else a file. */
  function DetailsOf(t: MessageText): Option<Details> {
    match VoiceOf(t)
    case Some(v) => Some(Details("voice", v.url, "voice.webm", v.mime, AsI64(v.size), Some(AsI64(v.duration))))
    case None =>
      match FileOf(t)
      case Some(f) => Some(Details("file", f.url, f.name, f.mime, AsI64(f.size), None))
      case None => None
  }

  function Synced(attachments: map<Key, Row>, key: Key, text: MessageText, createdAt: int): map<Key, Row> {
    match DetailsOf(text)
    case Some(d) => attachments[key := Row(d, if key in attachments then attachments[key].createdAt else createdAt)]
    case None => attachments - {key}
  }

  datatype Op =
    | Upsert(key: Key, message: Message, now: int)
    | SetStatus(key: Key, status: string, now: int)
    | Edit(key: Key, text: MessageText, now: int)
    | SoftDelete(key: Key, now: int)
    | Delete(key: Key)

  function Applied(s: Store, op: Op): Store {
    match op
    case Upsert(key, m, now) =>
      var createdAt := if key in s.messages then s.messages[key].createdAt else m.createdAt;
      Store(s.messages[key := m.(createdAt := createdAt, updatedAt := now)],
            Synced(s.attachments, key, m.text, m.createdAt))
    case SetStatus(key, status, now) =>
      if key in s.messages then s.(messages := s.messages[key := s.messages[key].(status := status, updatedAt := now)])
      else s
    case Edit(key, text, now) =>
      if key in s.messages then
        Store(s.messages[key := s.messages[key].(text := text, updatedAt := now)],
              Synced(s.attachments, key, text, now))
      else s
    case SoftDelete(key, now) =>
      Store(if key in s.messages then
              s.messages[key := s.messages[key].(text := DELETED_TEXT, status := "deleted", updatedAt := now)]
            else s.messages,
            s.attachments - {key})
    case Delete(key) => Store(s.messages - {key}, s.attachments - {key})
  }

  /** What a reader of the index is given. */
  datatype Metadata = Metadata(msgId: string, kind: string, url: string, name: string, mime: string, size: nat,
                               duration: Option<nat>)

  function NotNegative(n: int): nat {
    if n < 0 then 0 else n
  }

  function LoadedFrom(s: Store, key: Key): Option<Metadata> {
    if key !in s.attachments then None
    else
      var d := s.attachments[key].details;
      Some(Metadata(key.msgId, d.kind, d.url, d.name, d.mime, NotNegative(d.size),
                    if d.duration.Some? then Some(NotNegative(d.duration.value)) else None))
  }

  class AppStore {
    var messages: map<Key, Message>
    var attachments: map<Key, Row>

    constructor ()
      ensures State() == Store(map[], map[])
    {
      messages, attachments := map[], map[];
    }

    ghost function State(): Store
      reads this
    {
      Store(messages, attachments)
    }

    method UpsertMessage(key: Key, message: Message, now: int)
      modifies this
      ensures State() == Applied(old(State()), Upsert(key, message, now))
    {
      if key in messages {
        messages := messages[key := message.(createdAt := messages[key].createdAt, updatedAt := now)];
      } else {
        messages := messages[key := message.(updatedAt := now)];
      }
      SyncAttachmentMetadata(key, message.text, message.createdAt);
    }

    method UpdateMessageStatus(key: Key, status: string, now: int)
      modifies this
      ensures State() == Applied(old(State()), SetStatus(key, status, now))
    {
      if key in messages {
        messages := messages[key := messages[key].(status := status, updatedAt := now)];
      }
    }

    method UpdateMessageText(key: Key, text: MessageText, now: int)
      modifies this
      ensures State() == Applied(old(State()), Edit(key, text, now))
    {
      if key in messages {
        messages := messages[key := messages[key].(text := text, updatedAt := now)];
        SyncAttachmentMetadata(key, text, now);
      }
    }

    method SoftDeleteMessage(key: Key, now: int)
      modifies this
      ensures State() == Applied(old(State()), SoftDelete(key, now))
    {
      if key in messages {
        messages := messages[key := messages[key].(text := DELETED_TEXT, status := "deleted", updatedAt := now)];
      }
      attachments := attachments - {key};
    }

    method DeleteMessage(key: Key)
      modifies this
      ensures State() == Applied(old(State()), Delete(key))
    {
      attachments := attachments - {key};
      messages := messages - {key};
    }

    method SyncAttachmentMetadata(key: Key, text: MessageText, createdAt: int)
      modifies this`attachments
      ensures attachments == Synced(old(attachments), key, text, createdAt)
    {
      hide FileOf;
      hide VoiceOf;
      var created := if key in attachments then attachments[key].createdAt else createdAt;
      var voice := VoiceOf(text);
      if voice.Some? {
        var v := voice.value;
        VoiceNumbersFit(text);
        attachments := attachments[key := Row(Details("voice", v.url, "voice.webm", v.mime, AsI64(v.size),
                                                      Some(AsI64(v.duration))), created)];
        return;
      }
      var file := FileOf(text);
      if file.Some? {
        var f := file.value;
        FileNumbersFit(text);
        attachments := attachments[key := Row(Details("file", f.url, f.name, f.mime, AsI64(f.size), None), created)];
        return;
      }
      attachments := attachments - {key};
    }

    method LoadAttachmentMetadata(key: Key) returns (metadata: Option<Metadata>)
      ensures metadata == LoadedFrom(State(), key)
    {
      if key !in attachments {
        return None;
      }
      var d := attachments[key].details;
      var duration: Option<nat> := None;
      if d.duration.Some? {
        duration := Some(NotNegative(d.duration.value));
      }
      metadata := Some(Metadata(key.msgId, d.kind, d.url, d.name, d.mime, NotNegative(d.size), duration));
    }
  }

  lemma VoiceNumbersFit(t: MessageText)
    requires VoiceOf(t).Some?
    ensures VoiceOf(t).value.size < TWO_64 && VoiceOf(t).value.duration < TWO_64
  {
  }

  lemma FileNumbersFit(t: MessageText)
    requires FileOf(t).Some?
    ensures FileOf(t).value.size < TWO_64
  {
  }

  // ----- what a text parses to -----

  /** The first usable key decides: earlier ones are absent, no string, or blank. */
  lemma {:induction false} FirstStringIsFirst(fields: map<string, Value>, keys: seq<string>)
    ensures match FirstString(fields, keys)
            case Some(v) =>
              exists i :: && 0 <= i < |keys| && AsStr(fields, keys[i]).Some?
                          && Trim(AsStr(fields, keys[i]).value) == v != ""
                          && forall j :: 0 <= j < i ==> !IsUsable(fields, keys[j])
            case None => forall j :: 0 <= j < |keys| ==> !IsUsable(fields, keys[j])
  {
    hide Trim;
    if keys != [] && !IsUsable(fields, keys[0]) {
      FirstStringIsFirst(fields, keys[1..]);
      var rest := keys[1..];
      assert forall j :: 0 < j < |keys| ==> keys[j] == rest[j - 1];
      if FirstString(fields, rest).Some? {
        var v := FirstString(fields, rest).value;
        var i :| && 0 <= i < |rest| && AsStr(fields, rest[i]).Some? && Trim(AsStr(fields, rest[i]).value) == v != ""
                 && forall j :: 0 <= j < i ==> !IsUsable(fields, rest[j]);
        assert keys[i + 1] == rest[i];
      }
    }
  }

  predicate IsUsable(fields: map<string, Value>, key: string) {
    AsStr(fields, key).Some? && Trim(AsStr(fields, key).value) != ""
  }

  /** A text is indexed exactly when it names an attachment type, an address and a key; voice types are never files. */
  lemma IndexedExactlyWhen(t: MessageText)
    ensures DetailsOf(t).Some? <==>
              && t.Object?
              && TypeOf(t.fields) in ["file", "attachment", "image", "video", "document", "voice", "audio",
                                      "voice_message"]
              && FirstString(t.fields, ["url", "download_url"]).Some?
              && FirstString(t.fields, ["key", "secret_key"]).Some?
    ensures DetailsOf(t).Some? ==>
              if TypeOf(t.fields) in ["voice", "audio", "voice_message"] then IsVoiceEntry(t.fields, DetailsOf(t).value)
              else IsFileEntry(t.fields, DetailsOf(t).value)
  {
    hide FirstString;
    hide RoundedU64;
    hide TypeOf;
    hide AsReal;
    if t.Object? {
      VoiceTypesAreFileTypes(TypeOf(t.fields));
    }
  }

  /** The first of the keys with a usable string, or something else. */
  function Named(fields: map<string, Value>, keys: seq<string>, otherwise: string): string {
    if FirstString(fields, keys).Some? then FirstString(fields, keys).value else otherwise
  }

  /** The number under "size", as a signed 64-bit column has it; zero if there is none. */
  function SizeIn(fields: map<string, Value>): int {
    if "size" !in fields || !fields["size"].Int? then 0
    else
      var n := fields["size"].number;
      if 0 <= n < 0x8000_0000_0000_0000 then n
      else if 0 <= n < 0x1_0000_0000_0000_0000 then n - 0x1_0000_0000_0000_0000 else 0
  }

  ghost predicate IsVoiceEntry(fields: map<string, Value>, d: Details) {
    && d.kind == "voice" && d.name == "voice.webm" && d.size == SizeIn(fields)
    && Some(d.url) == FirstString(fields, ["url", "download_url"])
    && d.mime == Named(fields, ["mime", "mimeType", "mime_type", "content_type"], "audio/webm")
    && d.duration == Some(AsI64(RoundedU64(if AsReal(fields, "duration").Some? then AsReal(fields, "duration").value
                                           else 0.0)))
  }

  ghost predicate IsFileEntry(fields: map<string, Value>, d: Details) {
    && d.kind == "file" && d.duration == None && d.size == SizeIn(fields)
    && Some(d.url) == FirstString(fields, ["url", "download_url"])
    && d.mime == Named(fields, ["mime", "mimeType", "mime_type", "content_type"], "application/octet-stream")
    && d.name == Named(fields, ["name", "filename", "file_name", "title"],
                       match TypeOf(fields)
                       case "image" => "Image"
                       case "video" => "Video"
                       case "document" => "Document"
                       case _ => "Attachment")
  }

  /** A duration is rounded to the nearest whole number, half upwards, between zero and the largest 64-bit number. */
  lemma RoundedIsNearest(r: real)
    ensures var n := RoundedU64(r);
            if r < 0.0 then n == 0
            else if r + 0.5 < 18_446_744_073_709_551_616.0 then n as real - 0.5 <= r < n as real + 0.5
            else n == 18_446_744_073_709_551_615
  {
  }

  /** A duration is a whole number or a fraction; any other value is none. */
  lemma DurationIsNumber(fields: map<string, Value>)
    ensures match AsReal(fields, "duration")
            case Some(r) =>
              && "duration" in fields
              && (fields["duration"] == Float(r) || (fields["duration"].Int? && fields["duration"].number as real == r))
            case None => "duration" in fields ==> fields["duration"].Str? || fields["duration"].Other?
  {
  }

  lemma VoiceTypesAreFileTypes(kind: string)
    ensures kind in VOICE_TYPES ==> kind in FILE_TYPES
  {
  }

  lemma NoFileTypeHasSevenLetters(kind: string)
    requires |kind| == 7
    ensures kind !in FILE_TYPES
  {
  }

  lemma DeletedIsNotIndexed()
    ensures DetailsOf(DELETED_TEXT) == None
  {
    hide FirstString;
    hide DetailsOf;
    IndexedExactlyWhen(DELETED_TEXT);
    NoFileTypeHasSevenLetters(TypeOf(DELETED_TEXT.fields));
  }

  // ----- the index follows the texts -----

  /** A row exists exactly for the messages whose text is indexed, and says what the text says. */
  ghost predicate Indexed(s: Store) {
    && (forall key :: key in s.attachments ==> key in s.messages)
    && (forall key :: key in s.messages ==>
          (if key in s.attachments then Some(s.attachments[key].details) else None) == DetailsOf(s.messages[key].text))
  }

  lemma OpKeepsIndexed(s: Store, op: Op)
    requires Indexed(s)
    ensures Indexed(Applied(s, op))
  {
    hide DetailsOf;
    DeletedIsNotIndexed();
  }

  function After(s: Store, ops: seq<Op>): Store
    decreases |ops|
  {
    if ops == [] then s else After(Applied(s, ops[0]), ops[1..])
  }

  lemma {:induction false} AlwaysIndexedFrom(s: Store, ops: seq<Op>)
    requires Indexed(s)
    ensures Indexed(After(s, ops))
    decreases |ops|
  {
    hide Indexed;
    hide Applied;
    if ops != [] {
      OpKeepsIndexed(s, ops[0]);
      AlwaysIndexedFrom(Applied(s, ops[0]), ops[1..]);
    }
  }

  /**
   After any sequence of whole operations, what is loaded for a message is what its current text parses to.
   Sizes and durations from 2^63 on are stored as negative numbers and come back as zero; all others exactly.
   */
  lemma LoadsWhatTheTextSays(ops: seq<Op>, key: Key)
    ensures var s := After(Store(map[], map[]), ops);
            var text := if key in s.messages then s.messages[key].text else NoObject("");
            match LoadedFrom(s, key)
            case None => VoiceOf(text).None? && FileOf(text).None?
            case Some(m) =>
              if VoiceOf(text).Some? then
                var v := VoiceOf(text).value;
                m == Metadata(key.msgId, "voice", v.url, "voice.webm", v.mime, if v.size < TWO_63 then v.size else 0,
                              Some(if v.duration < TWO_63 then v.duration else 0))
              else
                && FileOf(text).Some?
                && var f := FileOf(text).value;
                   m == Metadata(key.msgId, "file", f.url, f.name, f.mime, if f.size < TWO_63 then f.size else 0, None)
  {
    hide VoiceOf;
    hide FileOf;
    hide Applied;
    var s := After(Store(map[], map[]), ops);
    AlwaysIndexedFrom(Store(map[], map[]), ops);
    var text := if key in s.messages then s.messages[key].text else NoObject("");
    if key !in s.messages {
      NothingInPlainText("");
    }
    if VoiceOf(text).Some? {
      VoiceNumbersFit(text);
    }
    if FileOf(text).Some? {
      FileNumbersFit(text);
    }
  }

  lemma NothingInPlainText(raw: string)
    ensures VoiceOf(NoObject(raw)).None? && FileOf(NoObject(raw)).None?
  {
  }

  /** Until it is deleted for good a message keeps its creation time, through resends, edits and soft deletion. */
  lemma {:induction false} CreationTimeStays(s: Store, ops: seq<Op>, key: Key)
    requires forall i :: 0 <= i < |ops| ==> ops[i] != Delete(key)
    requires key in s.messages
    ensures key in After(s, ops).messages && After(s, ops).messages[key].createdAt == s.messages[key].createdAt
    decreases |ops|
  {
    hide DetailsOf;
    if ops != [] {
      CreationTimeStays(Applied(s, ops[0]), ops[1..], key);
    }
  }

  // ----- the store by the list of operations alone -----

  /** The message under a key, by the operations on that key. */
  function MessageAfter(ops: seq<Op>, key: Key): Option<Message> {
    if ops == [] then None
    else
      var before, op := MessageAfter(ops[..|ops| - 1], key), ops[|ops| - 1];
      if op.key != key then before
      else if op.Upsert? then
        Some(op.message.(createdAt := if before.Some? then before.value.createdAt else op.message.createdAt,
                         updatedAt := op.now))
      else if op.Delete? || before.None? then None
      else
        var m := before.value.(updatedAt := op.now);
        if op.SetStatus? then Some(m.(status := op.status))
        else if op.Edit? then Some(m.(text := op.text))
        else Some(m.(text := Object(map["type" := Str("deleted"), "text" := Str("Message deleted")]),
                     status := "deleted"))
  }

  /** Since when the message has been indexed without a break, by the clock of the text that made it so. */
  function IndexedSince(ops: seq<Op>, key: Key): Option<int> {
    if ops == [] then None
    else
      var before, op := ops[..|ops| - 1], ops[|ops| - 1];
      var m := MessageAfter(ops, key);
      if op.key != key then IndexedSince(before, key)
      else if m.None? || DetailsOf(m.value.text).None? then None
      else if op.SetStatus? || IndexedSince(before, key).Some? then IndexedSince(before, key)
      else Some(if op.Upsert? then op.message.createdAt else op.now)
  }

  ghost predicate Reflects(s: Store, ops: seq<Op>, key: Key) {
    && MessageAfter(ops, key) == (if key in s.messages then Some(s.messages[key]) else None)
    && IndexedSince(ops, key) == (if key in s.attachments then Some(s.attachments[key].createdAt) else None)
  }

  lemma OneMoreOp(s: Store, ops: seq<Op>, op: Op)
    ensures After(s, ops + [op]) == Applied(After(s, ops), op)
    ensures (ops + [op])[..|ops|] == ops
    decreases |ops|
  {
    hide Applied;
    if ops == [] {
      assert [op][1..] == [];
    } else {
      assert (ops + [op])[1..] == ops[1..] + [op];
      OneMoreOp(Applied(s, ops[0]), ops[1..], op);
    }
  }

  lemma OpReflects(s: Store, ops: seq<Op>, op: Op, key: Key)
    requires Indexed(s) && Reflects(s, ops, key)
    ensures Reflects(Applied(s, op), ops + [op], key)
  {
    hide DetailsOf;
    assert (ops + [op])[..|ops|] == ops;
    DeletedIsNotIndexed();
  }

  lemma NothingIndexed()
    ensures Indexed(Store(map[], map[]))
  {
  }

  /** After any operations each message, and the age of its index row, is what the operations on its key say. */
  lemma {:induction false} StoreIsItsHistory(ops: seq<Op>, key: Key)
    ensures Reflects(After(Store(map[], map[]), ops), ops, key)
    decreases |ops|
  {
    hide Applied;
    hide Indexed;
    hide DetailsOf;
    if ops != [] {
      var before, op := ops[..|ops| - 1], ops[|ops| - 1];
      assert before + [op] == ops;
      StoreIsItsHistory(before, key);
      NothingIndexed();
      AlwaysIndexedFrom(Store(map[], map[]), before);
      OneMoreOp(Store(map[], map[]), before, op);
      OpReflects(After(Store(map[], map[]), before), before, op, key);
    }
  }

}

/** Size hiding: padding to bucket sizes (clients/core/src/metadata.rs:3-128 and 208-213). */
module Padding {
  import opened Wrappers
  import opened Text

  const MAX_PADDED_PAYLOAD_LEN := 1024 * 1024

  /** The largest length a 64-bit machine word can hold. */
  const USIZE_MAX := 0xFFFF_FFFF_FFFF_FFFF

  datatype Profile = Disabled | Interactive | Balanced | HighPrivacy

  datatype Plan = Plan(profile: Profile, originalLen: nat, paddedLen: nat, overheadLen: nat)

  datatype MetadataError = PayloadTooLarge

  function Buckets(p: Profile): seq<nat> {
    match p
    case Disabled => []
    case Interactive => [256, 1024, 4096, 16 * 1024]
    case Balanced => [2 * 1024, 16 * 1024, 64 * 1024]
    case HighPrivacy => [16 * 1024, 64 * 1024, 256 * 1024]
  }

  function RoundUp(value: nat, block: nat): nat {
    if value == 0 || block == 0 then value
    else
      var product := (value + block - 1) / block * block;
      if product > USIZE_MAX then USIZE_MAX else product
  }

  function TargetLen(p: Profile, len: nat): nat {
    if p == Disabled then len else TargetAmong(Buckets(p), len)
  }

  function TargetAmong(buckets: seq<nat>, len: nat): nat
    requires buckets != []
    decreases |buckets|
  {
    if len <= buckets[0] then buckets[0]
    else if |buckets| == 1 then RoundUp(len, buckets[0])
    else TargetAmong(buckets[1..], len)
  }

  method FindTargetLen(p: Profile, len: nat) returns (target: nat)
    ensures target == TargetLen(p, len)
  {
    if p == Disabled {
      return len;
    }
    var buckets := Buckets(p);
    for i := 0 to |buckets|
      invariant i < |buckets| ==> TargetAmong(buckets[i..], len) == TargetLen(p, len)
      invariant i == |buckets| ==> RoundUp(len, buckets[|buckets| - 1]) == TargetLen(p, len)
    {
      if len <= buckets[i] {
        return buckets[i];
      }
      assert i + 1 < |buckets| ==> buckets[i..][1..] == buckets[i + 1..];
    }
    target := RoundUp(len, buckets[|buckets| - 1]);
  }

  // ----- what the target is -----

  /** The sizes a profile shows to the network. */
  predicate IsSize(p: Profile, n: nat) {
    p == Disabled || n in Buckets(p) || n == USIZE_MAX || (n > LastBucket(p) && n % LastBucket(p) == 0)
  }

  function LastBucket(p: Profile): nat
    requires p != Disabled
    ensures LastBucket(p) > 0
  {
    var b := Buckets(p);
    b[|b| - 1]
  }

  lemma RoundUpIsLeastMultiple(value: nat, block: nat, n: nat)
    requires 0 < block < value <= USIZE_MAX
    ensures var r := RoundUp(value, block);
            && value <= r <= USIZE_MAX
            && (r == USIZE_MAX || (r > block && r % block == 0))
            && (value <= n <= USIZE_MAX && n % block == 0 ==> r <= n)
  {
    var q := (value + block - 1) / block;
    var product := q * block;
    assert value + block - 1 == product + (value + block - 1) % block;
    QuotientIsUnique(product, block, q, 0);
    assert (q - 1) * block == product - block;
    if value <= n && n % block == 0 {
      var k := n / block;
      assert n == k * block;
      if k < q {
        FewerBlocks(k, q - 1, block);
      } else {
        FewerBlocks(q, k, block);
      }
    }
  }

  lemma QuotientIsUnique(m: nat, block: nat, q: nat, r: nat)
    requires m == q * block + r && r < block
    ensures m / block == q && m % block == r
  {
    var q' := m / block;
    assert m == q' * block + m % block;
    assert (q + 1) * block == q * block + block && (q' + 1) * block == q' * block + block;
    if q < q' {
      FewerBlocks(q + 1, q', block);
    } else if q' < q {
      FewerBlocks(q' + 1, q, block);
    }
  }

  lemma FewerBlocks(a: nat, b: nat, block: nat)
    requires a <= b
    ensures a * block <= b * block
  {
  }

  /** The target is the least of the profile's sizes that holds the payload. */
  lemma TargetIsLeastSize(p: Profile, len: nat, n: nat)
    requires len <= USIZE_MAX && len <= n <= USIZE_MAX && IsSize(p, n)
    ensures IsSize(p, TargetLen(p, len)) && len <= TargetLen(p, len) <= n
  {
    if p != Disabled && len > LastBucket(p) {
      RoundUpIsLeastMultiple(len, LastBucket(p), n);
    }
  }

  /** The sizes in numbers: a few buckets, then the multiples of the last one up to the largest word. */
  lemma SizesAre(p: Profile, n: nat)
    ensures IsSize(p, n) <==>
              match p
              case Disabled => true
              case Interactive => n in [256, 1_024, 4_096, 16_384] || (n > 16_384 && n % 16_384 == 0) || n == USIZE_MAX
              case Balanced => n in [2_048, 16_384, 65_536] || (n > 65_536 && n % 65_536 == 0) || n == USIZE_MAX
              case HighPrivacy => n in [16_384, 65_536, 262_144] || (n > 262_144 && n % 262_144 == 0) || n == USIZE_MAX
  {
  }

  /** Padding never shrinks, is monotone, and padding a padded length changes nothing. */
  lemma TargetIsClosure(p: Profile, a: nat, b: nat)
    requires a <= b <= USIZE_MAX
    ensures a <= TargetLen(p, a) <= TargetLen(p, b) <= USIZE_MAX
    ensures TargetLen(p, TargetLen(p, a)) == TargetLen(p, a)
  {
    TargetIsLeastSize(p, b, USIZE_MAX);
    TargetIsLeastSize(p, a, USIZE_MAX);
    TargetIsLeastSize(p, a, TargetLen(p, b));
    TargetIsLeastSize(p, TargetLen(p, a), TargetLen(p, a));
  }

  /** Under every profile the target stays within the limit exactly when the payload does. */
  lemma TargetFitsExactlyWhen(p: Profile, len: nat)
    requires len <= USIZE_MAX
    ensures TargetLen(p, len) <= MAX_PADDED_PAYLOAD_LEN <==> len <= 1_048_576
  {
    TargetIsLeastSize(p, len, USIZE_MAX);
    if len <= MAX_PADDED_PAYLOAD_LEN {
      assert IsSize(p, MAX_PADDED_PAYLOAD_LEN);
      TargetIsLeastSize(p, len, MAX_PADDED_PAYLOAD_LEN);
    }
  }

  // ----- bytes -----

  function PlanFor(p: Profile, len: nat): Plan {
    var padded := TargetLen(p, len);
    Plan(p, len, padded, if padded < len then 0 else padded - len)
  }

  /** Bytes are kept, filler follows up to the target, and only payloads over the limit are refused. */
  method PadPayloadWithByte(payload: seq<bv8>, p: Profile, filler: bv8)
    returns (r: Result<(seq<bv8>, Plan), MetadataError>)
    requires |payload| <= USIZE_MAX
    ensures r.Success? <==> |payload| <= 1_048_576
    ensures r.Success? ==>
              var (padded, plan) := r.value;
              && |payload| <= |padded| == TargetLen(p, |payload|) == plan.paddedLen
              && padded[..|payload|] == payload
              && (forall i :: |payload| <= i < |padded| ==> padded[i] == filler)
              && plan == Plan(p, |payload|, |padded|, |padded| - |payload|)
  {
    TargetFitsExactlyWhen(p, |payload|);
    TargetIsClosure(p, |payload|, |payload|);
    var target := FindTargetLen(p, |payload|);
    if target > MAX_PADDED_PAYLOAD_LEN {
      return Failure(PayloadTooLarge);
    }
    r := Success((payload + seq(target - |payload|, _ => filler), PlanFor(p, |payload|)));
  }

  // ----- JSON envelopes -----

  /** One member of a printed object: its key, and its value in printed form. */
  datatype Entry = Entry(key: string, value: string)

  /** A JSON value: an object, as its members in key order, or anything else in printed form. */
  datatype Json = Object(entries: seq<Entry>) | Other(printed: string)

  const HEX := "0123456789abcdef"

  function EscapedChar(c: char): string {
    if c == '"' then "\\\""
    else if c == '\\' then "\\\\"
    else if c == '\U{8}' then "\\b"
    else if c == '\U{C}' then "\\f"
    else if c == '\n' then "\\n"
    else if c == '\r' then "\\r"
    else if c == '\t' then "\\t"
    else if c < ' ' then "\\u00" + [HEX[c as int / 16], HEX[c as int % 16]]
    else [c]
  }

  function Escaped(s: string): string {
    if s == "" then "" else EscapedChar(s[0]) + Escaped(s[1..])
  }

  function Quoted(s: string): string {
    "\"" + Escaped(s) + "\""
  }

  function Joined(entries: seq<Entry>): string {
    if entries == [] then ""
    else Quoted(entries[0].key) + ":" + entries[0].value + (if |entries| == 1 then "" else ",") + Joined(entries[1..])
  }

  function Printed(j: Json): string {
    match j
    case Object(entries) => "{" + Joined(entries) + "}"
    case Other(printed) => printed
  }

  /** Insert into a map kept in key order, replacing the member with the same key. */
  function Inserted(entries: seq<Entry>, e: Entry): seq<Entry> {
    if entries == [] then [e]
    else if entries[0].key == e.key then [e] + entries[1..]
    else if Precedes(e.key, entries[0].key) then [e] + entries
    else [entries[0]] + Inserted(entries[1..], e)
  }

  function Zeros(n: nat): string {
    seq(n, _ => '0')
  }

  function Shortfall(p: Profile, len: nat): nat {
    if TargetLen(p, len) < len then 0 else TargetLen(p, len) - len
  }

  function WithPadding(entries: seq<Entry>, padding: string): seq<Entry> {
    Inserted(entries, Entry("padding", Quoted(padding)))
  }

  function PaddedJson(envelope: Json, p: Profile): Result<(string, Plan), MetadataError> {
    var base := Printed(envelope);
    var baseLen := Utf8Len(base);
    if p == Disabled then Success((base, PlanFor(p, baseLen)))
    else if envelope.Other? then
      if TargetLen(p, baseLen) > MAX_PADDED_PAYLOAD_LEN then Failure(PayloadTooLarge)
      else Success((base, PlanFor(p, baseLen)))
    else
      var empty := Utf8Len(Printed(Object(WithPadding(envelope.entries, ""))));
      var target := TargetLen(p, empty);
      if target > MAX_PADDED_PAYLOAD_LEN then Failure(PayloadTooLarge)
      else
        var zeros := Zeros(Shortfall(p, empty));
        var padded := Printed(Object(Inserted(WithPadding(envelope.entries, ""), Entry("padding", Quoted(zeros)))));
        var len := Utf8Len(padded);
        Success((padded, Plan(p, baseLen, len, if len < baseLen then 0 else len - baseLen)))
  }

  // ----- what padding does to an object -----

  function Lookup(entries: seq<Entry>, key: string): Option<string> {
    if entries == [] then None
    else if entries[0].key == key then Some(entries[0].value)
    else Lookup(entries[1..], key)
  }

  ghost predicate InOrder(entries: seq<Entry>) {
    forall i, j :: 0 <= i < j < |entries| ==> Precedes(entries[i].key, entries[j].key)
  }

  lemma {:induction false} InsertedLookup(entries: seq<Entry>, e: Entry, key: string)
    ensures Lookup(Inserted(entries, e), key) == if key == e.key then Some(e.value) else Lookup(entries, key)
  {
    hide Precedes;
    if entries != [] {
      InsertedLookup(entries[1..], e, key);
    }
  }

  lemma {:induction false} InsertedAgain(entries: seq<Entry>, e: Entry, e': Entry)
    requires e.key == e'.key
    ensures Inserted(Inserted(entries, e), e') == Inserted(entries, e')
  {
    hide Precedes;
    if entries != [] {
      InsertedAgain(entries[1..], e, e');
    }
  }

  lemma {:induction false} InsertedElements(entries: seq<Entry>, e: Entry)
    ensures forall x :: x in Inserted(entries, e) ==> x == e || x in entries
  {
    hide Precedes;
    if entries != [] {
      InsertedElements(entries[1..], e);
    }
  }

  /** Insertion keeps the members in key order. */
  lemma {:induction false} InsertedInOrder(entries: seq<Entry>, e: Entry)
    requires InOrder(entries)
    ensures InOrder(Inserted(entries, e))
  {
    hide Precedes;
    if entries == [] {
    } else if entries[0].key == e.key {
    } else if Precedes(e.key, entries[0].key) {
      forall i | 0 <= i < |entries|
        ensures Precedes(e.key, entries[i].key)
      {
        if i > 0 {
          PrecedesIsTransitive(e.key, entries[0].key, entries[i].key);
        }
      }
    } else {
      PrecedesIsTotal(e.key, entries[0].key);
      InsertedInOrder(entries[1..], e);
      InsertedElements(entries[1..], e);
      var rest := Inserted(entries[1..], e);
      forall i | 0 <= i < |rest|
        ensures Precedes(entries[0].key, rest[i].key)
      {
        assert rest[i] == e || rest[i] in entries[1..];
      }
    }
  }

  lemma {:induction false} JoinedHead(e: Entry, rest: seq<Entry>)
    ensures Utf8Len(Joined([e] + rest))
         == Utf8Len(Quoted(e.key)) + 1 + Utf8Len(e.value) + (if rest == [] then 0 else 1) + Utf8Len(Joined(rest))
  {
    hide Quoted;
    var all := [e] + rest;
    assert all[1..] == rest;
    var comma := if rest == [] then "" else ",";
    assert Joined(all) == Quoted(e.key) + ":" + e.value + comma + Joined(rest);
    Utf8LenOfBoth(Quoted(e.key) + ":" + e.value + comma, Joined(rest));
    Utf8LenOfBoth(Quoted(e.key) + ":" + e.value, comma);
    Utf8LenOfBoth(Quoted(e.key) + ":", e.value);
    Utf8LenOfBoth(Quoted(e.key), ":");
    AsciiUtf8Len(":");
    AsciiUtf8Len(comma);
  }

  /** Exchanging the inserted value changes the printed length by the difference of the values. */
  lemma {:induction false} InsertedLength(entries: seq<Entry>, e: Entry, e': Entry)
    requires e.key == e'.key
    ensures Utf8Len(Joined(Inserted(entries, e))) + Utf8Len(e'.value)
         == Utf8Len(Joined(Inserted(entries, e'))) + Utf8Len(e.value)
    ensures |Inserted(entries, e)| == |Inserted(entries, e')| > 0
  {
    hide Precedes;
    hide Joined;
    hide Quoted;
    hide Utf8Len;
    if entries == [] {
      JoinedHead(e, []);
      JoinedHead(e', []);
      assert [e] + [] == [e] && [e'] + [] == [e'];
    } else if entries[0].key == e.key {
      JoinedHead(e, entries[1..]);
      JoinedHead(e', entries[1..]);
    } else if Precedes(e.key, entries[0].key) {
      JoinedHead(e, entries);
      JoinedHead(e', entries);
    } else {
      InsertedLength(entries[1..], e, e');
      JoinedHead(entries[0], Inserted(entries[1..], e));
      JoinedHead(entries[0], Inserted(entries[1..], e'));
    }
  }

  lemma {:induction false} ZerosEscape(n: nat)
    ensures Escaped(Zeros(n)) == Zeros(n)
  {
    if n > 0 {
      assert Zeros(n)[1..] == Zeros(n - 1);
      ZerosEscape(n - 1);
      assert EscapedChar('0') == "0";
      assert "0" + Zeros(n - 1) == Zeros(n);
    }
  }

  lemma ZerosQuotedLength(n: nat)
    ensures Utf8Len(Quoted(Zeros(n))) == n + 2
  {
    ZerosEscape(n);
    var text := Quoted(Zeros(n));
    assert text == "\"" + Zeros(n) + "\"";
    AsciiUtf8Len(text);
  }

  lemma PaddedLength(entries: seq<Entry>, n: nat)
    ensures Utf8Len(Printed(Object(WithPadding(entries, Zeros(n)))))
         == Utf8Len(Printed(Object(WithPadding(entries, "")))) + n
  {
    hide Quoted;
    hide Inserted;
    hide Joined;
    hide Utf8Len;
    assert Zeros(0) == "";
    ZerosQuotedLength(n);
    ZerosQuotedLength(0);
    InsertedLength(entries, Entry("padding", Quoted("")), Entry("padding", Quoted(Zeros(n))));
    BracedLength(Joined(WithPadding(entries, Zeros(n))));
    BracedLength(Joined(WithPadding(entries, "")));
  }

  lemma BracedLength(s: string)
    ensures Utf8Len("{" + s + "}") == Utf8Len(s) + 2
  {
    Utf8LenOfBoth("{" + s, "}");
    Utf8LenOfBoth("{", s);
    AsciiUtf8Len("{");
    AsciiUtf8Len("}");
  }

  /**
   A padded object is the same object with the "padding" member set to zeros; its length is exactly the target
   for the object with empty padding; and it is refused exactly when that length is over the limit.
   */
  lemma PaddedJsonIsExact(entries: seq<Entry>, p: Profile)
    requires p != Disabled && Utf8Len(Printed(Object(WithPadding(entries, "")))) <= USIZE_MAX
    ensures var empty := Utf8Len(Printed(Object(WithPadding(entries, ""))));
            var r := PaddedJson(Object(entries), p);
            && (r.Success? <==> empty <= 1_048_576)
            && (r.Success? ==>
                  var (text, plan) := r.value;
                  && text == Printed(Object(WithPadding(entries, Zeros(Shortfall(p, empty)))))
                  && Utf8Len(text) == TargetLen(p, empty) == plan.paddedLen
                  && plan.originalLen == Utf8Len(Printed(Object(entries)))
                  && plan.profile == p
                  && plan.overheadLen == (if plan.originalLen <= plan.paddedLen then plan.paddedLen - plan.originalLen
                                          else 0))
  {
    hide TargetLen;
    hide Printed;
    hide Inserted;
    hide Utf8Len;
    hide Quoted;
    var empty := Utf8Len(Printed(Object(WithPadding(entries, ""))));
    TargetIsClosure(p, empty, empty);
    TargetFitsExactlyWhen(p, empty);
    InsertedAgain(entries, Entry("padding", Quoted("")), Entry("padding", Quoted(Zeros(Shortfall(p, empty)))));
    PaddedLength(entries, Shortfall(p, empty));
  }

  /** Every member but "padding" keeps its value, and the members stay in key order. */
  lemma OtherMembersKept(entries: seq<Entry>, padding: string, key: string)
    requires InOrder(entries)
    ensures InOrder(WithPadding(entries, padding))
    ensures Lookup(WithPadding(entries, padding), key)
         == if key == "padding" then Some(Quoted(padding)) else Lookup(entries, key)
  {
    InsertedInOrder(entries, Entry("padding", Quoted(padding)));
    InsertedLookup(entries, Entry("padding", Quoted(padding)), key);
  }

  /** Under any profile but Disabled, an accepted object's length is one of the profile's sizes. */
  lemma PaddedJsonShowsOnlySizes(entries: seq<Entry>, p: Profile)
    requires p != Disabled && Utf8Len(Printed(Object(WithPadding(entries, "")))) <= USIZE_MAX
    requires PaddedJson(Object(entries), p).Success?
    ensures IsSize(p, Utf8Len(PaddedJson(Object(entries), p).value.0))
  {
    hide TargetLen;
    hide PaddedJson;
    hide Utf8Len;
    PaddedJsonIsExact(entries, p);
    TargetIsLeastSize(p, Utf8Len(Printed(Object(WithPadding(entries, "")))), USIZE_MAX);
  }

  /** Anything but an object is sent as it is; the plan's padded length is its length only if that is a size. */
  lemma OnlyObjectsArePadded(printed: string, p: Profile)
    requires Utf8Len(printed) <= USIZE_MAX
    ensures PaddedJson(Other(printed), p).Success? <==> p == Disabled || Utf8Len(printed) <= 1_048_576
    ensures PaddedJson(Other(printed), p).Success? ==>
              var (text, plan) := PaddedJson(Other(printed), p).value;
              text == printed && (plan.paddedLen == Utf8Len(text) <==> IsSize(p, Utf8Len(text)))
  {
    hide Utf8Len;
    TargetIsLeastSize(p, Utf8Len(printed), USIZE_MAX);
    TargetFitsExactlyWhen(p, Utf8Len(printed));
    if IsSize(p, Utf8Len(printed)) {
      TargetIsLeastSize(p, Utf8Len(printed), Utf8Len(printed));
    }
  }

  /** Without a profile everything is sent as it is, whatever its length. */
  lemma DisabledPadsNothing(j: Json)
    ensures var len := Utf8Len(Printed(j));
            PaddedJson(j, Disabled) == Success((Printed(j), Plan(Disabled, len, len, 0)))
  {
  }

  /** One byte of JSON that is no object goes out as one byte under a plan that says 256. */
  lemma PlanMayMisstateLength()
    ensures var r := PaddedJson(Other("7"), Interactive);
            r.Success? && Utf8Len(r.value.0) == 1 && r.value.1.paddedLen == 256
  {
    AsciiUtf8Len("7");
  }

  // ----- printed strings read back -----

  function HexDigit(c: char): Option<nat> {
    if '0' <= c <= '9' then Some((c - '0') as nat)
    else if 'a' <= c <= 'f' then Some((c - 'a') as nat + 10) else None
  }

  /** The text of a JSON string between its quotes, by section 7 of RFC 8259; code units below 256 only. */
  function ReadBack(s: string): Option<string> {
    if s == "" then Some("")
    else if s[0] == '"' || s[0] < ' ' then None
    else if s[0] != '\\' then Prepend(s[0], ReadBack(s[1..]))
    else if |s| < 2 then None
    else
      match s[1]
      case '"' => Prepend('"', ReadBack(s[2..]))
      case '\\' => Prepend('\\', ReadBack(s[2..]))
      case '/' => Prepend('/', ReadBack(s[2..]))
      case 'b' => Prepend('\U{8}', ReadBack(s[2..]))
      case 'f' => Prepend('\U{C}', ReadBack(s[2..]))
      case 'n' => Prepend('\n', ReadBack(s[2..]))
      case 'r' => Prepend('\r', ReadBack(s[2..]))
      case 't' => Prepend('\t', ReadBack(s[2..]))
      case 'u' =>
        if |s| < 6 || s[2] != '0' || s[3] != '0' || HexDigit(s[4]).None? || HexDigit(s[5]).None? then None
        else Prepend((HexDigit(s[4]).value * 16 + HexDigit(s[5]).value) as char, ReadBack(s[6..]))
      case _ => None
  }

  function Prepend(c: char, rest: Option<string>): Option<string> {
    match rest case None => None case Some(s) => Some([c] + s)
  }

  lemma HexReadsBack(d: nat)
    requires d < 16
    ensures HexDigit(HEX[d]) == Some(d)
  {
  }

  lemma CharReadsBack(c: char, rest: string)
    ensures ReadBack(EscapedChar(c) + rest) == Prepend(c, ReadBack(rest))
  {
    var s := EscapedChar(c) + rest;
    if |EscapedChar(c)| == 1 {
      assert s[0] == c && s[1..] == rest;
    } else if |EscapedChar(c)| == 2 {
      assert s[2..] == rest;
    } else {
      HexReadsBack(c as int / 16);
      HexReadsBack(c as int % 16);
      assert s[6..] == rest;
    }
  }

  /** Only quotes, backslashes and control characters are escaped. */
  lemma EscapedExactlyWhen(c: char)
    ensures EscapedChar(c) != [c] <==> c == '"' || c == '\\' || c < '\U{20}'
    ensures EscapedChar(c) != [c] ==> |EscapedChar(c)| == if c in "\"\\\U{8}\U{C}\n\r\t" then 2 else 6
  {
  }

  /** What is printed between quotes reads back as the text itself. */
  lemma {:induction false} PrintedReadsBack(s: string)
    ensures ReadBack(Escaped(s)) == Some(s)
  {
    hide EscapedChar;
    if s != "" {
      CharReadsBack(s[0], Escaped(s[1..]));
      PrintedReadsBack(s[1..]);
      assert [s[0]] + s[1..] == s;
    }
  }

}

/** The history of direct messages and its paging (mess/db.go:503-660 and mess/hub.go:503-574). */
module History {
  import opened Wrappers
  import opened Sequences
  import opened Text
  import opened Envelopes

  const DEFAULT_LIMIT := 100
  const MAX_LIMIT := 500

  // ----- threads -----

  /** The identifier of a direct thread; a hash in the source, kept symbolic here. */
  datatype ThreadId = Direct(left: string, right: string)

  function ThreadOf(a: string, b: string): ThreadId {
    var left, right := Trim(a), Trim(b);
    if Precedes(right, left) then Direct(right, left) else Direct(left, right)
  }

  /** A thread is the unordered pair of its participants' trimmed keys. */
  lemma ThreadIsUnorderedPair(a: string, b: string, c: string, d: string)
    ensures ThreadOf(a, b) == ThreadOf(c, d) <==>
            (Trim(a) == Trim(c) && Trim(b) == Trim(d)) || (Trim(a) == Trim(d) && Trim(b) == Trim(c))
    ensures !Precedes(ThreadOf(a, b).right, ThreadOf(a, b).left)
  {
    hide Trim;
    PrecedesIsTotal(Trim(a), Trim(b));
    PrecedesIsTotal(Trim(c), Trim(d));
  }

  lemma ThreadOfTrimmed(a: string, b: string)
    ensures ThreadOf(Trim(a), Trim(b)) == ThreadOf(a, b)
  {
    hide Trim;
    TrimTwice(a);
    TrimTwice(b);
  }

  // ----- the table -----

  datatype Row = Row(id: nat, thread: ThreadId, msgId: string, kind: string, sender: string, recipient: string,
                     payload: Payload, state: string)

  datatype Table = Table(rows: seq<Row>, nextId: nat)

  const EMPTY := Table([], 1)

  predicate Holds(rows: seq<Row>, thread: ThreadId, msgId: string) {
    exists i :: 0 <= i < |rows| && rows[i].thread == thread && rows[i].msgId == msgId
  }

  /** What a caller asks to have recorded. */
  datatype Record = Record(thread: ThreadId, msgId: string, kind: string, sender: string, recipient: string,
                           payload: Payload, state: string)

  function StateOrDefault(state: string): string {
    if Trim(state) == "" then "accepted" else Trim(state)
  }

  /** The row for a record, all its texts trimmed; none when a field it needs is missing. */
  function RowOf(r: Record): Option<Row> {
    if Trim(r.msgId) == "" || Trim(r.kind) == "" || Trim(r.sender) == "" || r.payload == Raw("") then None
    else Some(Row(0, r.thread, Trim(r.msgId), Trim(r.kind), Trim(r.sender), Trim(r.recipient), r.payload,
                  StateOrDefault(r.state)))
  }

  /** What filing a routed message comes to: nothing to file, an error, or a row. */
  datatype Filing = Skip | Refuse | File(row: Row)

  /** An identifier that is blank but not empty gets as far as the insert, which refuses it. */
  function FilingOf(m: Message): Filing {
    match m.payload
    case Raw(bytes) => if bytes == "" then Skip else Refuse
    case Json(e) =>
      var sender, recipient := FirstNonBlank(e.sender, m.sender), FirstNonBlank(e.recipient, m.recipient);
      var kind := FirstNonBlank(e.kind, m.kind);
      var msgId := if Trim(e.msgId) == "" then e.msgId else Trim(e.msgId);
      if sender == "" || recipient == "" || msgId == "" || kind == "" then Skip
      else
        match RowOf(Record(ThreadOf(sender, recipient), msgId, kind, sender, recipient, m.payload, "accepted"))
        case None => Refuse
        case Some(row) => File(row)
  }

  function Recorded(t: Table, entry: Row): Table {
    if Holds(t.rows, entry.thread, entry.msgId) then t
    else Table(t.rows + [entry.(id := t.nextId)], t.nextId + 1)
  }

  function Restated(rows: seq<Row>, which: Row -> bool, state: string): (r: seq<Row>)
    ensures |r| == |rows|
    ensures forall i :: 0 <= i < |rows| ==> r[i] == if which(rows[i]) then rows[i].(state := state) else rows[i]
  {
    seq(|rows|, i requires 0 <= i < |rows| => if which(rows[i]) then rows[i].(state := state) else rows[i])
  }

  function StateUpdated(t: Table, sender: string, recipient: string, msgId: string, state: string): Table {
    if Trim(sender) == "" || Trim(recipient) == "" || Trim(msgId) == "" then t
    else t.(rows := Restated(t.rows,
                             (r: Row) => && r.thread == ThreadOf(sender, recipient)
                                          && r.msgId == Trim(msgId)
                                          && r.sender == Trim(sender)
                                          && r.recipient == Trim(recipient),
                             StateOrDefault(state)))
  }

  function MarkedDelivered(t: Table, recipient: string, msgId: string): Table {
    if Trim(recipient) == "" || Trim(msgId) == "" then t
    else t.(rows := Restated(t.rows, (r: Row) => r.recipient == Trim(recipient) && r.msgId == Trim(msgId), "delivered"))
  }

  // ----- paging -----

  /** The query's rows: of the thread, beyond the cursor, and to or from the account. */
  function Selected(rows: seq<Row>, thread: ThreadId, account: string, cursor: int): seq<Row> {
    if rows == [] then []
    else if && rows[0].thread == thread && rows[0].id > cursor
            && (rows[0].sender == account || rows[0].recipient == account)
    then [rows[0]] + Selected(rows[1..], thread, account, cursor)
    else Selected(rows[1..], thread, account, cursor)
  }

  function EffectiveLimit(limit: int): nat {
    if limit <= 0 || limit > MAX_LIMIT then DEFAULT_LIMIT else limit
  }

  function Limited(rows: seq<Row>, limit: nat): seq<Row> {
    if |rows| <= limit then rows else rows[..limit]
  }

  function NextCursor(page: seq<Row>, cursor: int): int
    decreases |page|
  {
    if page == [] then cursor
    else NextCursor(page[1..], if page[0].id > cursor then page[0].id else cursor)
  }

  datatype Page = Page(records: seq<Row>, nextCursor: int)

  /** One page, or nothing when a participant is blank. */
  function Paged(rows: seq<Row>, account: string, peer: string, cursor: int, limit: int): Option<Page> {
    if Trim(account) == "" || Trim(peer) == "" then None
    else
      var from := if cursor < 0 then 0 else cursor;
      var found := Selected(rows, ThreadOf(Trim(account), Trim(peer)), Trim(account), from);
      var records := Limited(found, EffectiveLimit(limit));
      Some(Page(records, NextCursor(records, from)))
  }

  class HistoryTable {
    var rows: seq<Row>
    var nextId: nat

    constructor ()
      ensures State() == EMPTY
    {
      rows, nextId := [], 1;
    }

    ghost function State(): Table
      reads this
    {
      Table(rows, nextId)
    }

    /** Trims every field, refuses a record that misses one, and ignores one whose (thread, identifier) is taken. */
    method SaveMessageHistory(record: Record) returns (saved: bool)
      modifies this
      ensures match RowOf(record)
              case None => !saved && State() == old(State())
              case Some(row) => saved && State() == Recorded(old(State()), row)
    {
      var msgId, kind, sender := Trim(record.msgId), Trim(record.kind), Trim(record.sender);
      var recipient := Trim(record.recipient);
      if msgId == "" || kind == "" || sender == "" || record.payload == Raw("") {
        return false;
      }
      if !Holds(rows, record.thread, msgId) {
        rows := rows + [Row(nextId, record.thread, msgId, kind, sender, recipient, record.payload,
                            StateOrDefault(record.state))];
        nextId := nextId + 1;
      }
      saved := true;
    }

    method UpdateDirectMessageHistoryState(rawSender: string, rawRecipient: string, rawMsgId: string, state: string)
      modifies this`rows
      ensures State() == StateUpdated(old(State()), rawSender, rawRecipient, rawMsgId, state)
      ensures Cores(rows) == Cores(old(rows))
    {
      hide ThreadOf;
      var sender, recipient, msgId := Trim(rawSender), Trim(rawRecipient), Trim(rawMsgId);
      if sender == "" || recipient == "" || msgId == "" {
        return;
      }
      ThreadOfTrimmed(rawSender, rawRecipient);
      var thread, newState := ThreadOf(sender, recipient), StateOrDefault(state);
      rows := Restated(rows,
                       (r: Row) => && r.thread == thread && r.msgId == msgId
                                   && r.sender == sender && r.recipient == recipient,
                       newState);
    }

    method MarkMessageHistoryDeliveredByRecipient(rawRecipient: string, rawMsgId: string)
      modifies this`rows
      ensures State() == MarkedDelivered(old(State()), rawRecipient, rawMsgId)
      ensures Cores(rows) == Cores(old(rows))
    {
      var recipient, msgId := Trim(rawRecipient), Trim(rawMsgId);
      if recipient == "" || msgId == "" {
        return;
      }
      rows := Restated(rows, (r: Row) => r.recipient == recipient && r.msgId == msgId, "delivered");
    }

    method ListDirectMessageHistory(rawAccount: string, rawPeer: string, rawCursor: int, rawLimit: int)
      returns (page: Option<Page>)
      ensures page == Paged(rows, rawAccount, rawPeer, rawCursor, rawLimit)
    {
      var account, peer := Trim(rawAccount), Trim(rawPeer);
      if account == "" || peer == "" {
        return None;
      }
      var limit, cursor := rawLimit, rawCursor;
      if limit <= 0 || limit > MAX_LIMIT {
        limit := DEFAULT_LIMIT;
      }
      if cursor < 0 {
        cursor := 0;
      }
      var found := Limited(Selected(rows, ThreadOf(account, peer), account, cursor), limit);
      var records: seq<Row>, nextCursor := [], cursor;
      for i := 0 to |found|
        invariant records == found[..i]
        invariant NextCursor(found[i..], nextCursor) == NextCursor(found, cursor)
      {
        if found[i].id > nextCursor {
          nextCursor := found[i].id;
        }
        records := records + [found[i]];
        assert found[i..][1..] == found[i + 1..];
      }
      assert found[..|found|] == found;
      page := Some(Page(records, nextCursor));
    }
  }

  // ----- what stays true of the table -----

  ghost predicate Sound(t: Table) {
    && (forall i :: 0 <= i < |t.rows| ==>
          var r := t.rows[i];
          && 1 <= r.id < t.nextId
          && r.sender == Trim(r.sender) && r.recipient == Trim(r.recipient)
          && r.thread == ThreadOf(r.sender, r.recipient))
    && (forall i, j :: 0 <= i < j < |t.rows| ==>
          t.rows[i].id < t.rows[j].id && (t.rows[i].thread != t.rows[j].thread || t.rows[i].msgId != t.rows[j].msgId))
    && t.nextId >= 1
  }

  datatype Change =
    | Routed(message: Message)
    | SetState(sender: string, recipient: string, msgId: string, state: string)
    | MarkDelivered(recipient: string, msgId: string)

  function Changed(t: Table, c: Change): Table {
    match c
    case Routed(m) => if FilingOf(m).File? then Recorded(t, FilingOf(m).row) else t
    case SetState(sender, recipient, msgId, state) => StateUpdated(t, sender, recipient, msgId, state)
    case MarkDelivered(recipient, msgId) => MarkedDelivered(t, recipient, msgId)
  }

  lemma OnlyEnvelopesAreFiled(m: Message)
    requires FilingOf(m).File?
    ensures m.payload.Json?
  {
  }

  /**
   A message is filed exactly when it names sender, recipient, identifier and type, the envelope's names first, and
   then under those; one that only lacks more than blanks in its identifier is refused, any other passed over.
   */
  lemma FilingShape(m: Message)
    requires m.payload.Json?
    ensures var e := m.payload.envelope;
            var sender := if Trim(e.sender) != "" then Trim(e.sender) else Trim(m.sender);
            var recipient := if Trim(e.recipient) != "" then Trim(e.recipient) else Trim(m.recipient);
            var kind := if Trim(e.kind) != "" then Trim(e.kind) else Trim(m.kind);
            if sender == "" || recipient == "" || kind == "" || e.msgId == "" then FilingOf(m) == Skip
            else if Trim(e.msgId) == "" then FilingOf(m) == Refuse
            else FilingOf(m) == File(Row(0, ThreadOf(sender, recipient), Trim(e.msgId), kind, sender, recipient,
                                         m.payload, "accepted"))
  {
    hide Trim;
    hide ThreadOf;
    var e := m.payload.envelope;
    TrimTwice(e.sender);
    TrimTwice(m.sender);
    TrimTwice(e.recipient);
    TrimTwice(m.recipient);
    TrimTwice(e.kind);
    TrimTwice(m.kind);
    TrimTwice(e.msgId);
    TrimKeeps("accepted");
    TrimKeeps("");
  }

  /** Bytes that are no envelope are refused; an empty payload is passed over. */
  lemma RawIsNotFiled(m: Message)
    requires m.payload.Raw?
    ensures FilingOf(m) == Refuse <==> m.payload.bytes != ""
    ensures FilingOf(m) == Skip <==> m.payload.bytes == ""
  {
  }

  lemma FiledIsTrimmed(m: Message)
    requires FilingOf(m).File?
    ensures var r := FilingOf(m).row;
            && r.sender == Trim(r.sender) && r.recipient == Trim(r.recipient)
            && r.thread == ThreadOf(r.sender, r.recipient)
  {
    hide Trim;
    hide ThreadOf;
    FilingShape(m);
    TrimTwice(m.sender);
    TrimTwice(m.recipient);
    TrimTwice(m.payload.envelope.sender);
    TrimTwice(m.payload.envelope.recipient);
  }

  lemma ChangeKeepsSound(t: Table, c: Change)
    requires Sound(t)
    ensures Sound(Changed(t, c))
  {
    hide Trim;
    hide ThreadOf;
    hide FilingOf;
    if c.Routed? && FilingOf(c.message).File? {
      FiledIsTrimmed(c.message);
    }
  }

  /** A row under (thread, identifier) holds this sender's payload. */
  ghost predicate Records(rows: seq<Row>, thread: ThreadId, msgId: string, sender: string, payload: Payload) {
    exists r :: r in rows && r.thread == thread && r.msgId == msgId && r.sender == sender && r.payload == payload
  }

  /** Whatever is under (thread, identifier) is this sender's payload. */
  ghost predicate Admits(rows: seq<Row>, thread: ThreadId, msgId: string, sender: string, payload: Payload) {
    forall r :: r in rows && r.thread == thread && r.msgId == msgId ==> r.sender == sender && r.payload == payload
  }

  /** The table holds the entry's own payload after the insert exactly when nothing else was under its key. */
  lemma RecordedExactlyWhen(t: Table, entry: Row)
    requires Sound(t)
    ensures Records(Recorded(t, entry).rows, entry.thread, entry.msgId, entry.sender, entry.payload)
        <==> Admits(t.rows, entry.thread, entry.msgId, entry.sender, entry.payload)
  {
    hide Trim;
    hide ThreadOf;
    if Holds(t.rows, entry.thread, entry.msgId) {
      var i :| 0 <= i < |t.rows| && t.rows[i].thread == entry.thread && t.rows[i].msgId == entry.msgId;
      assert t.rows[i] in t.rows;
    } else {
      var rows := Recorded(t, entry).rows;
      assert rows[|rows| - 1] in rows;
    }
  }

  /** The recipient's rows under the identifier say that they are delivered; nothing else changes. */
  lemma MarkingTells(t: Table, recipient: string, msgId: string, i: nat)
    requires i < |t.rows|
    ensures var t' := MarkedDelivered(t, recipient, msgId);
            && |t'.rows| == |t.rows| && t'.nextId == t.nextId
            && t'.rows[i].state == (if && Trim(recipient) != "" && Trim(msgId) != ""
                                       && t.rows[i].recipient == Trim(recipient) && t.rows[i].msgId == Trim(msgId)
                                    then "delivered" else t.rows[i].state)
            && Core(t'.rows[i]) == Core(t.rows[i])
  {
    hide Trim;
  }

  /** A state update reaches the sender's rows to this recipient under the identifier, and no other. */
  lemma UpdatingTells(t: Table, sender: string, recipient: string, msgId: string, state: string, i: nat)
    requires Sound(t) && i < |t.rows|
    ensures var t' := StateUpdated(t, sender, recipient, msgId, state);
            && |t'.rows| == |t.rows| && t'.nextId == t.nextId
            && t'.rows[i].state ==
                 (if && Trim(sender) != "" && Trim(recipient) != "" && Trim(msgId) != ""
                     && t.rows[i].sender == Trim(sender) && t.rows[i].recipient == Trim(recipient)
                     && t.rows[i].msgId == Trim(msgId)
                  then (if Trim(state) == "" then "accepted" else Trim(state)) else t.rows[i].state)
            && Core(t'.rows[i]) == Core(t.rows[i])
  {
    hide Trim;
    ThreadOfTrimmed(sender, recipient);
    hide ThreadOf;
  }

  /** The part of a row that never changes. */
  function Core(r: Row): Row {
    r.(state := "")
  }

  function Cores(rows: seq<Row>): (c: seq<Row>)
    ensures |c| == |rows|
    ensures forall i :: 0 <= i < |rows| ==> c[i] == Core(rows[i])
  {
    seq(|rows|, i requires 0 <= i < |rows| => Core(rows[i]))
  }

  /** Rows are only appended, and only their state changes. */
  lemma ChangeExtends(t: Table, c: Change)
    ensures |t.rows| <= |Changed(t, c).rows|
    ensures Cores(Changed(t, c).rows)[..|t.rows|] == Cores(t.rows)
  {
    hide Trim;
    hide ThreadOf;
    hide FilingOf;
  }

  lemma {:induction false} ChangesExtend(t: Table, changes: seq<Change>)
    requires Sound(t)
    ensures var t' := ChangedAll(t, changes);
            Sound(t') && |t.rows| <= |t'.rows| && Cores(t'.rows)[..|t.rows|] == Cores(t.rows)
    decreases |changes|
  {
    hide Sound;
    hide Changed;
    if changes != [] {
      var next := Changed(t, changes[0]);
      ChangeKeepsSound(t, changes[0]);
      ChangeExtends(t, changes[0]);
      ChangesExtend(next, changes[1..]);
      var last := ChangedAll(t, changes);
      assert Cores(last.rows)[..|t.rows|] == Cores(last.rows)[..|next.rows|][..|t.rows|];
    }
  }

  function ChangedAll(t: Table, changes: seq<Change>): Table
    decreases |changes|
  {
    if changes == [] then t else ChangedAll(Changed(t, changes[0]), changes[1..])
  }

  // ----- the rows of one thread -----

  function ThreadRows(rows: seq<Row>, thread: ThreadId): seq<Row> {
    if rows == [] then []
    else if rows[0].thread == thread then [rows[0]] + ThreadRows(rows[1..], thread)
    else ThreadRows(rows[1..], thread)
  }

  function Beyond(rows: seq<Row>, cursor: int): seq<Row> {
    if rows == [] then []
    else if rows[0].id > cursor then [rows[0]] + Beyond(rows[1..], cursor)
    else Beyond(rows[1..], cursor)
  }

  ghost predicate Increasing(rows: seq<Row>) {
    forall i, j :: 0 <= i < j < |rows| ==> rows[i].id < rows[j].id
  }

  lemma {:induction false} ThreadElements(rows: seq<Row>, thread: ThreadId)
    ensures forall r :: r in ThreadRows(rows, thread) <==> r in rows && r.thread == thread
  {
    if rows != [] {
      ThreadElements(rows[1..], thread);
    }
  }

  lemma {:induction false} ThreadIncreasing(rows: seq<Row>, thread: ThreadId)
    requires Increasing(rows)
    ensures Increasing(ThreadRows(rows, thread))
  {
    if rows != [] {
      ThreadIncreasing(rows[1..], thread);
      ThreadElements(rows[1..], thread);
      IncreasingCons(rows[0], ThreadRows(rows[1..], thread));
    }
  }

  lemma IncreasingCons(row: Row, rows: seq<Row>)
    requires Increasing(rows) && forall r :: r in rows ==> row.id < r.id
    ensures Increasing([row] + rows)
  {
  }

  /** The rows of a thread are all to or from either participant, so the query loses none of them. */
  lemma {:induction false} SelectedIsBeyond(rows: seq<Row>, thread: ThreadId, account: string, cursor: int)
    requires forall r :: r in rows && r.thread == thread ==> r.sender == account || r.recipient == account
    ensures Selected(rows, thread, account, cursor) == Beyond(ThreadRows(rows, thread), cursor)
  {
    if rows != [] {
      assert rows[0] in rows && forall r :: r in rows[1..] ==> r in rows;
      SelectedIsBeyond(rows[1..], thread, account, cursor);
    }
  }

  lemma {:induction false} BeyondIsSuffix(rows: seq<Row>, k: nat, cursor: int)
    requires k <= |rows|
    requires forall i :: 0 <= i < |rows| ==> (rows[i].id > cursor <==> i >= k)
    ensures Beyond(rows, cursor) == rows[k..]
  {
    if rows != [] {
      BeyondIsSuffix(rows[1..], if k == 0 then 0 else k - 1, cursor);
    }
  }

  lemma {:induction false} NextCursorIsLast(page: seq<Row>, cursor: int)
    requires Increasing(page) && forall r :: r in page ==> r.id > cursor
    ensures NextCursor(page, cursor) == if page == [] then cursor else page[|page| - 1].id
    decreases |page|
  {
    if page != [] {
      assert page[0] in page;
      NextCursorIsLast(page[1..], page[0].id);
    }
  }

  function CursorAt(rows: seq<Row>, k: nat): int
    requires k <= |rows|
  {
    if k == 0 then 0 else rows[k - 1].id
  }

  lemma SelectedIsNext(t: Table, account: string, peer: string, k: nat)
    requires Sound(t) && k <= |ThreadRows(t.rows, ThreadOf(account, peer))|
    ensures var all := ThreadRows(t.rows, ThreadOf(account, peer));
            Selected(t.rows, ThreadOf(account, peer), Trim(account), CursorAt(all, k)) == all[k..]
  {
    hide Trim;
    hide ThreadOf;
    hide Selected;
    hide Sound;
    var thread := ThreadOf(account, peer);
    var all := ThreadRows(t.rows, thread);
    ThreadParticipants(t, account, peer);
    SelectedIsBeyond(t.rows, thread, Trim(account), CursorAt(all, k));
    CursorSeparates(t, thread, k);
    BeyondIsSuffix(all, k, CursorAt(all, k));
  }

  lemma LimitedIsNext(all: seq<Row>, k: nat, limit: nat)
    requires Increasing(all) && k <= |all| && forall i :: 0 <= i < |all| ==> (all[i].id > CursorAt(all, k) <==> i >= k)
    ensures var m := k + Min(limit, |all| - k);
            Limited(all[k..], limit) == all[k..m] && NextCursor(all[k..m], CursorAt(all, k)) == CursorAt(all, m)
  {
    NextCursorIsLast(all[k..k + Min(limit, |all| - k)], CursorAt(all, k));
  }

  /** A page asked for after k rows of the thread holds exactly the next ones, up to the limit. */
  lemma PageIsNext(t: Table, account: string, peer: string, k: nat, limit: int)
    requires Sound(t) && Trim(account) != "" && Trim(peer) != ""
    requires k <= |ThreadRows(t.rows, ThreadOf(account, peer))|
    ensures var all := ThreadRows(t.rows, ThreadOf(account, peer));
            var m := k + Min(if 1 <= limit <= 500 then limit else 100, |all| - k);
            Paged(t.rows, account, peer, CursorAt(all, k), limit) == Some(Page(all[k..m], CursorAt(all, m)))
  {
    hide Trim;
    hide Selected;
    hide ThreadRows;
    hide Limited;
    hide NextCursor;
    hide CursorAt;
    var all := ThreadRows(t.rows, ThreadOf(account, peer));
    TrimTwice(account);
    TrimTwice(peer);
    ThreadIncreasing(t.rows, ThreadOf(account, peer));
    SelectedIsNext(t, account, peer, k);
    CursorSeparates(t, ThreadOf(account, peer), k);
    LimitedIsNext(all, k, EffectiveLimit(limit));
  }

  /** A page is refused exactly when a participant is blank, and a negative cursor means the start. */
  lemma PageRefusedExactlyWhen(rows: seq<Row>, account: string, peer: string, cursor: int, limit: int)
    ensures Paged(rows, account, peer, cursor, limit) == None <==> Trim(account) == "" || Trim(peer) == ""
    ensures cursor < 0 ==> Paged(rows, account, peer, cursor, limit) == Paged(rows, account, peer, 0, limit)
  {
    hide Trim;
    hide Selected;
  }

  lemma CursorSeparates(t: Table, thread: ThreadId, k: nat)
    requires Sound(t) && k <= |ThreadRows(t.rows, thread)|
    ensures var all := ThreadRows(t.rows, thread);
            && CursorAt(all, k) >= 0
            && forall i :: 0 <= i < |all| ==> (all[i].id > CursorAt(all, k) <==> i >= k)
  {
    hide ThreadOf;
    hide Trim;
    var all := ThreadRows(t.rows, thread);
    ThreadIncreasing(t.rows, thread);
    ThreadElements(t.rows, thread);
    forall i | 0 <= i < |all|
      ensures all[i].id >= 1
    {
      assert all[i] in t.rows;
    }
  }

  lemma ThreadParticipants(t: Table, account: string, peer: string)
    requires Sound(t)
    ensures forall r :: r in t.rows && r.thread == ThreadOf(account, peer) ==>
              r.sender == Trim(account) || r.recipient == Trim(account)
  {
    hide Trim;
    hide ThreadOf;
    forall r | r in t.rows && r.thread == ThreadOf(account, peer)
      ensures r.sender == Trim(account) || r.recipient == Trim(account)
    {
      ThreadIsUnorderedPair(r.sender, r.recipient, account, peer);
    }
  }

  // ----- following the cursor -----

  lemma {:induction false} ThreadExtends(a: seq<Row>, b: seq<Row>, thread: ThreadId)
    requires |a| <= |b| && Cores(b)[..|a|] == Cores(a)
    ensures var va, vb := ThreadRows(a, thread), ThreadRows(b, thread);
            |va| <= |vb| && Cores(vb)[..|va|] == Cores(va)
    decreases |a|
  {
    if a != [] {
      assert Cores(b)[..|a|][0] == Core(b[0]) && Cores(a)[0] == Core(a[0]);
      assert Core(a[0]) == Core(b[0]);
      forall i | 0 <= i < |a[1..]|
        ensures Core(b[1..][i]) == Core(a[1..][i])
      {
        assert Cores(b)[..|a|][i + 1] == Cores(a)[i + 1];
      }
      ThreadExtends(a[1..], b[1..], thread);
    }
  }

  /** What happens between two pages, and the limit of the second. */
  datatype Visit = Visit(changes: seq<Change>, limit: int)

  /** Follow the cursor; the result is the table, the rows read and the cursor. */
  function Read(t: Table, account: string, peer: string, cursor: int, visits: seq<Visit>): (Table, seq<Row>, int)
    requires Trim(account) != "" && Trim(peer) != ""
    decreases |visits|
  {
    if visits == [] then (t, [], cursor)
    else
      var next := ChangedAll(t, visits[0].changes);
      var page := Paged(next.rows, account, peer, cursor, visits[0].limit).value;
      var (last, more, end) := Read(next, account, peer, page.nextCursor, visits[1..]);
      (last, page.records + more, end)
  }

  /** `log` is what comes after k rows, and the cursor now stands behind it. */
  ghost predicate Continues(before: seq<Row>, k: nat, all: seq<Row>, log: seq<Row>, end: int) {
    && k <= |before| <= |all| && Cores(all)[..|before|] == Cores(before)
    && k + |log| <= |all| && Cores(all)[k..k + |log|] == Cores(log)
    && end == CursorAt(all, k + |log|)
  }

  /**
   Following the cursor after k rows yields the rows that come next in the final table, in order and each
   once, whatever is appended or restated in between.
   */
  lemma {:induction false} ReadIsNext(t: Table, account: string, peer: string, k: nat, visits: seq<Visit>)
    requires Sound(t) && Trim(account) != "" && Trim(peer) != ""
    requires k <= |ThreadRows(t.rows, ThreadOf(account, peer))|
    ensures var before := ThreadRows(t.rows, ThreadOf(account, peer));
            var (last, log, end) := Read(t, account, peer, CursorAt(before, k), visits);
            Sound(last) && Continues(before, k, ThreadRows(last.rows, ThreadOf(account, peer)), log, end)
    decreases |visits|
  {
    hide Sound;
    hide Trim;
    hide ThreadOf;
    hide ThreadRows;
    hide Paged;
    hide ChangedAll;
    hide Continues;
    hide CursorAt;
    var thread := ThreadOf(account, peer);
    var before := ThreadRows(t.rows, thread);
    if visits == [] {
      NothingRead(before, k);
    } else {
      var next := ChangedAll(t, visits[0].changes);
      var all := ThreadRows(next.rows, thread);
      ChangesExtend(t, visits[0].changes);
      ThreadExtends(t.rows, next.rows, thread);
      SameCursor(before, all, k);
      PageIsNext(next, account, peer, k, visits[0].limit);
      var m := k + Min(EffectiveLimit(visits[0].limit), |all| - k);
      ReadIsNext(next, account, peer, m, visits[1..]);
      var (last, more, end) := Read(next, account, peer, CursorAt(all, m), visits[1..]);
      PiecesJoin(before, all, ThreadRows(last.rows, thread), k, m, more, end);
    }
  }

  lemma NothingRead(rows: seq<Row>, k: nat)
    requires k <= |rows|
    ensures Continues(rows, k, rows, [], CursorAt(rows, k))
  {
    assert Cores(rows)[..|rows|] == Cores(rows);
  }

  lemma SameCursor(a: seq<Row>, b: seq<Row>, k: nat)
    requires k <= |a| <= |b| && Cores(b)[..|a|] == Cores(a)
    ensures CursorAt(a, k) == CursorAt(b, k)
  {
    if k > 0 {
      assert Cores(b)[..|a|][k - 1] == Cores(a)[k - 1];
    }
  }

  lemma PiecesJoin(before: seq<Row>, all: seq<Row>, final: seq<Row>, k: nat, m: nat, more: seq<Row>, end: int)
    requires k <= |before| <= |all| && k <= m <= |all| && Cores(all)[..|before|] == Cores(before)
    requires Continues(all, m, final, more, end)
    ensures Continues(before, k, final, all[k..m] + more, end)
  {
    var log := all[k..m] + more;
    assert Cores(final)[..|before|] == Cores(final)[..|all|][..|before|];
    forall i | 0 <= i < |log|
      ensures Core(final[k + i]) == Core(log[i])
    {
      if i < m - k {
        assert Cores(final)[..|all|][k + i] == Cores(all)[k + i];
      } else {
        assert Cores(final)[m..m + |more|][i - (m - k)] == Cores(more)[i - (m - k)];
      }
    }
  }

  /** Reading from the start until a page comes back empty has read every row of the thread once, in order. */
  lemma EmptyPageMeansAllRead(account: string, peer: string, t: Table, visits: seq<Visit>, limit: int)
    requires Sound(t) && Trim(account) != "" && Trim(peer) != ""
    ensures var (last, log, end) := Read(t, account, peer, 0, visits);
            var all := ThreadRows(last.rows, ThreadOf(account, peer));
            && (Paged(last.rows, account, peer, end, limit).value.records == [] <==> Cores(log) == Cores(all))
            && |log| <= |all| && Cores(all)[..|log|] == Cores(log)
  {
    hide Sound;
    hide Trim;
    hide ThreadOf;
    hide ThreadRows;
    hide Paged;
    hide Read;
    ReadIsNext(t, account, peer, 0, visits);
    var (last, log, end) := Read(t, account, peer, 0, visits);
    PageIsNext(last, account, peer, |log|, limit);
    var all := ThreadRows(last.rows, ThreadOf(account, peer));
    assert Cores(all)[0..|log|] == Cores(all)[..|log|];
    assert |log| == |all| ==> Cores(all)[..|log|] == Cores(all);
  }

  /** Each page makes progress: n pages read at least n rows, or all that were there at the start. */
  lemma {:induction false} ReadProgresses(t: Table, account: string, peer: string, k: nat, visits: seq<Visit>)
    requires Sound(t) && Trim(account) != "" && Trim(peer) != ""
    requires k <= |ThreadRows(t.rows, ThreadOf(account, peer))|
    ensures var before := ThreadRows(t.rows, ThreadOf(account, peer));
            k + |Read(t, account, peer, CursorAt(before, k), visits).1| >= Min(k + |visits|, |before|)
    decreases |visits|
  {
    hide Sound;
    hide Trim;
    hide ThreadOf;
    hide ThreadRows;
    hide Paged;
    hide ChangedAll;
    hide CursorAt;
    if visits != [] {
      var next := ChangedAll(t, visits[0].changes);
      var before := ThreadRows(t.rows, ThreadOf(account, peer));
      var all := ThreadRows(next.rows, ThreadOf(account, peer));
      ChangesExtend(t, visits[0].changes);
      ThreadExtends(t.rows, next.rows, ThreadOf(account, peer));
      SameCursor(before, all, k);
      PageIsNext(next, account, peer, k, visits[0].limit);
      ReadProgresses(next, account, peer, k + Min(EffectiveLimit(visits[0].limit), |all| - k), visits[1..]);
    }
  }
}

/** The queue of messages for users who are away (mess/db.go:1348-1484 and 1600-1608). */
module OfflineQueue {
  import opened Wrappers
  import opened Text
  import opened Envelopes

  const BATCH_LIMIT := 1000

  /** One table row; `msgId` is the column that the unique index covers together with the recipient. */
  datatype Row = Row(id: nat, sender: string, recipient: string, msgId: string, payload: Payload)

  datatype Queue = Queue(rows: seq<Row>, nextId: nat)

  const EMPTY := Queue([], 1)

  // ----- saving -----

  predicate IsFor(row: Row, recipient: string, msgId: string) {
    row.recipient == recipient && row.msgId == msgId
  }

  predicate Holds(rows: seq<Row>, recipient: string, msgId: string) {
    exists i :: 0 <= i < |rows| && IsFor(rows[i], recipient, msgId)
  }

  predicate HoldsFrom(rows: seq<Row>, sender: string, recipient: string, msgId: string) {
    exists i :: 0 <= i < |rows| && IsFor(rows[i], recipient, msgId) && rows[i].sender == sender
  }

  function Replaced(rows: seq<Row>, sender: string, recipient: string, msgId: string, payload: Payload): (r: seq<Row>)
    ensures |r| == |rows|
    ensures forall i :: 0 <= i < |rows| ==>
              r[i] == if IsFor(rows[i], recipient, msgId) && rows[i].sender == sender then rows[i].(payload := payload)
                      else rows[i]
  {
    seq(|rows|, i requires 0 <= i < |rows| =>
      if IsFor(rows[i], recipient, msgId) && rows[i].sender == sender then rows[i].(payload := payload) else rows[i])
  }

  /** The sender's own row under the key is rewritten in place; else a row is added if the key is free. */
  function Saved(q: Queue, sender: string, recipient: string, payload: Payload): Queue {
    var msgId := MessageIdOf(payload);
    if Trim(msgId) != "" && HoldsFrom(q.rows, sender, recipient, msgId) then
      q.(rows := Replaced(q.rows, sender, recipient, msgId, payload))
    else if Holds(q.rows, recipient, msgId) then q
    else Queue(q.rows + [Row(q.nextId, sender, recipient, msgId, payload)], q.nextId + 1)
  }

  // ----- listing and acknowledging -----

  function RowsFor(rows: seq<Row>, recipient: string): seq<Row> {
    if rows == [] then []
    else if rows[0].recipient == recipient then [rows[0]] + RowsFor(rows[1..], recipient)
    else RowsFor(rows[1..], recipient)
  }

  function Batch(rows: seq<Row>, recipient: string): seq<Row> {
    var all := RowsFor(rows, recipient);
    if |all| <= BATCH_LIMIT then all else all[..BATCH_LIMIT]
  }

  /** A row that can never be shown: no envelope, no identifier, or a message somebody sent to themselves. */
  predicate IsStale(row: Row, recipient: string) {
    match row.payload
    case Raw(_) => true
    case Json(e) =>
      || !IsValidMessageId(e.msgId)
      || (e.kind in ["message", "offline_message"]
          && var from := FirstNonBlank(e.sender, row.sender);
             from != "" && from == FirstNonBlank(e.recipient, row.recipient) == Trim(recipient))
  }

  function LiveRows(batch: seq<Row>, recipient: string): seq<Row> {
    if batch == [] then []
    else if IsStale(batch[0], recipient) then LiveRows(batch[1..], recipient)
    else [batch[0]] + LiveRows(batch[1..], recipient)
  }

  function WithoutIds(rows: seq<Row>, ids: set<nat>): seq<Row> {
    if rows == [] then []
    else if rows[0].id in ids then WithoutIds(rows[1..], ids)
    else [rows[0]] + WithoutIds(rows[1..], ids)
  }

  function StaleIds(batch: seq<Row>, recipient: string): set<nat> {
    if batch == [] then {}
    else if IsStale(batch[0], recipient) then {batch[0].id} + StaleIds(batch[1..], recipient)
    else StaleIds(batch[1..], recipient)
  }

  /** What one connection is sent, and the queue once its stale rows are gone. */
  function Listed(q: Queue, recipient: string): (Queue, seq<Row>) {
    var batch := Batch(q.rows, recipient);
    (q.(rows := WithoutIds(q.rows, StaleIds(batch, recipient))), LiveRows(batch, recipient))
  }

  function WithoutKey(rows: seq<Row>, recipient: string, msgId: string): seq<Row> {
    if rows == [] then []
    else if IsFor(rows[0], recipient, msgId) then WithoutKey(rows[1..], recipient, msgId)
    else [rows[0]] + WithoutKey(rows[1..], recipient, msgId)
  }

  function Acknowledged(q: Queue, recipient: string, msgId: string): Queue {
    if Trim(recipient) == "" || Trim(msgId) == "" then q
    else q.(rows := WithoutKey(q.rows, Trim(recipient), Trim(msgId)))
  }

  class OfflineTable {
    var rows: seq<Row>
    var nextId: nat

    constructor ()
      ensures State() == EMPTY
    {
      rows, nextId := [], 1;
    }

    ghost function State(): Queue
      reads this
    {
      Queue(rows, nextId)
    }

    method SaveOfflineMessage(sender: string, recipient: string, payload: Payload)
      modifies this
      ensures State() == Saved(old(State()), sender, recipient, payload)
    {
      var msgId := MessageIdOf(payload);
      if Trim(msgId) != "" {
        var affected := HoldsFrom(rows, sender, recipient, msgId);
        rows := Replaced(rows, sender, recipient, msgId, payload);
        if affected {
          return;
        }
        assert rows == old(rows);
      }
      if !Holds(rows, recipient, msgId) {
        rows := rows + [Row(nextId, sender, recipient, msgId, payload)];
        nextId := nextId + 1;
      }
    }

    method ListOfflineMessages(recipient: string) returns (messages: seq<Row>)
      modifies this`rows
      ensures (State(), messages) == Listed(old(State()), recipient)
    {
      var staleIds;
      messages, staleIds := ScanBatch(Batch(rows, recipient), recipient);
      rows := WithoutIds(rows, staleIds);
    }

    /** Goes over one batch: the rows to send and the identifiers to delete. */
    static method ScanBatch(batch: seq<Row>, recipient: string) returns (messages: seq<Row>, staleIds: set<nat>)
      ensures messages == LiveRows(batch, recipient) && staleIds == StaleIds(batch, recipient)
    {
      hide IsStale;
      messages, staleIds := [], {};
      for i := 0 to |batch|
        invariant messages + LiveRows(batch[i..], recipient) == LiveRows(batch, recipient)
        invariant staleIds + StaleIds(batch[i..], recipient) == StaleIds(batch, recipient)
      {
        ScanStep(batch, i, recipient);
        if IsStale(batch[i], recipient) {
          staleIds := staleIds + {batch[i].id};
        } else {
          messages := messages + [batch[i]];
        }
      }
    }

    method DeleteOfflineMessage(rawRecipient: string, rawMsgId: string)
      modifies this`rows
      ensures State() == Acknowledged(old(State()), rawRecipient, rawMsgId)
    {
      var recipient, msgId := Trim(rawRecipient), Trim(rawMsgId);
      if recipient == "" || msgId == "" {
        return;
      }
      rows := WithoutKey(rows, recipient, msgId);
    }
  }

  lemma ScanStep(batch: seq<Row>, i: nat, recipient: string)
    requires i < |batch|
    ensures LiveRows(batch[i..], recipient)
         == (if IsStale(batch[i], recipient) then [] else [batch[i]]) + LiveRows(batch[i + 1..], recipient)
    ensures StaleIds(batch[i..], recipient)
         == (if IsStale(batch[i], recipient) then {batch[i].id} else {}) + StaleIds(batch[i + 1..], recipient)
  {
    hide IsStale;
    assert batch[i..][1..] == batch[i + 1..];
  }

  // ----- the unique index -----

  /** Identifiers increase along the table, the index columns are unique, and the column repeats the payload's. */
  ghost predicate Sound(q: Queue) {
    && (forall i :: 0 <= i < |q.rows| ==> q.rows[i].id < q.nextId && q.rows[i].msgId == MessageIdOf(q.rows[i].payload))
    && (forall i, j :: 0 <= i < j < |q.rows| ==>
          q.rows[i].id < q.rows[j].id && !IsFor(q.rows[j], q.rows[i].recipient, q.rows[i].msgId))
  }

  lemma SavingKeepsSound(q: Queue, sender: string, recipient: string, payload: Payload)
    requires Sound(q)
    ensures Sound(Saved(q, sender, recipient, payload))
  {
    hide Trim;
  }

  /** A successful save leaves a row under the key. */
  lemma SavedHolds(q: Queue, sender: string, recipient: string, payload: Payload)
    ensures Holds(Saved(q, sender, recipient, payload).rows, recipient, MessageIdOf(payload))
  {
    hide Trim;
    var msgId, rows := MessageIdOf(payload), Saved(q, sender, recipient, payload).rows;
    if HoldsFrom(q.rows, sender, recipient, msgId) {
      var i :| 0 <= i < |q.rows| && IsFor(q.rows[i], recipient, msgId) && q.rows[i].sender == sender;
      assert IsFor(rows[i], recipient, msgId);
    } else if !Holds(q.rows, recipient, msgId) {
      assert IsFor(rows[|rows| - 1], recipient, msgId);
    }
  }

  /** A save frees no key. */
  lemma SavingLosesNothing(q: Queue, sender: string, recipient: string, payload: Payload, r: string, id: string)
    requires Holds(q.rows, r, id)
    ensures Holds(Saved(q, sender, recipient, payload).rows, r, id)
  {
    hide Trim;
    var i :| 0 <= i < |q.rows| && IsFor(q.rows[i], r, id);
    assert IsFor(Saved(q, sender, recipient, payload).rows[i], r, id);
  }

  lemma OneRowPerKey(q: Queue, i: nat)
    requires Sound(q) && i < |q.rows|
    ensures forall j :: 0 <= j < |q.rows| && j != i ==> !IsFor(q.rows[j], q.rows[i].recipient, q.rows[i].msgId)
  {
  }

  /** A row under the payload's key holds the payload in the sender's name. */
  ghost predicate Stores(rows: seq<Row>, sender: string, recipient: string, payload: Payload) {
    exists r :: r in rows && IsFor(r, recipient, MessageIdOf(payload)) && r.sender == sender && r.payload == payload
  }

  /**
   The row already under the payload's key, if any, is the sender's own, and either the identifier is not blank or
   the row holds the payload already.
   */
  ghost predicate Admits(rows: seq<Row>, sender: string, recipient: string, payload: Payload) {
    forall r :: r in rows && IsFor(r, recipient, MessageIdOf(payload)) ==>
      r.sender == sender && (Trim(MessageIdOf(payload)) != "" || r.payload == payload)
  }

  /** The payload itself is kept exactly when the table admits it. */
  lemma StoredExactlyWhen(q: Queue, sender: string, recipient: string, payload: Payload)
    requires Sound(q)
    ensures Stores(Saved(q, sender, recipient, payload).rows, sender, recipient, payload)
        <==> Admits(q.rows, sender, recipient, payload)
  {
    hide Trim;
    hide Sound;
    var msgId, q' := MessageIdOf(payload), Saved(q, sender, recipient, payload);
    SavingKeepsSound(q, sender, recipient, payload);
    if i :| 0 <= i < |q.rows| && IsFor(q.rows[i], recipient, msgId) {
      OnlyRow(q, q.rows[i]);
      OnlyRow(q', q'.rows[i]);
      assert IsFor(q'.rows[i], recipient, msgId);
    } else {
      assert q'.rows[|q'.rows| - 1] in q'.rows && IsFor(q'.rows[|q'.rows| - 1], recipient, msgId);
    }
  }

  lemma OnlyRow(q: Queue, row: Row)
    requires Sound(q) && row in q.rows
    ensures forall r :: r in q.rows && IsFor(r, row.recipient, row.msgId) ==> r == row
  {
  }

  ghost predicate SameRowsFor(a: seq<Row>, b: seq<Row>, recipient: string) {
    forall r: Row :: r.recipient == recipient ==> (r in a <==> r in b)
  }

  /** A save concerns no other recipient. */
  lemma SavingConcernsOne(q: Queue, sender: string, recipient: string, payload: Payload, other: string)
    requires other != recipient
    ensures SameRowsFor(q.rows, Saved(q, sender, recipient, payload).rows, other)
  {
    hide Trim;
    var rows := Saved(q, sender, recipient, payload).rows;
    forall r: Row | r.recipient == other && r in q.rows
      ensures r in rows
    {
      var i :| 0 <= i < |q.rows| && q.rows[i] == r;
      assert rows[i] == r;
    }
  }

  /** A resend by the same sender changes the payload of its row and nothing else: same place, same identifiers. */
  lemma ResendKeepsPlace(q: Queue, i: nat, payload: Payload)
    requires Sound(q) && i < |q.rows|
    requires MessageIdOf(payload) == q.rows[i].msgId && Trim(q.rows[i].msgId) != ""
    ensures Saved(q, q.rows[i].sender, q.rows[i].recipient, payload)
         == q.(rows := q.rows[i := q.rows[i].(payload := payload)])
  {
    hide Trim;
    var row := q.rows[i];
    assert IsFor(q.rows[i], row.recipient, row.msgId);
    OneRowPerKey(q, i);
  }
}

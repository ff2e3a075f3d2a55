/**
 Draining the offline queue: a client is sent a batch, acknowledges what it was sent, and comes back
 (mess/hub.go:308-319, mess/client.go:168-186 and mess/db.go:1390-1455).
 */
module OfflineDrain {
  import opened Wrappers
  import opened Sequences
  import opened Text
  import opened Envelopes
  import opened OfflineQueue

  function AllAcknowledged(q: Queue, recipient: string, messages: seq<Row>): Queue
    decreases |messages|
  {
    if messages == [] then q
    else AllAcknowledged(Acknowledged(q, recipient, MessageIdOf(messages[0].payload)), recipient, messages[1..])
  }

  /** One connection: the batch sent, and the queue once every message of it is acknowledged. */
  function Round(q: Queue, recipient: string): (Queue, seq<Row>) {
    var (listed, messages) := Listed(q, recipient);
    (AllAcknowledged(listed, recipient, messages), messages)
  }

  function Rounds(q: Queue, recipient: string, n: nat): (Queue, seq<Row>)
    decreases n
  {
    if n == 0 then (q, [])
    else
      var (q', messages) := Round(q, recipient);
      var (q'', more) := Rounds(q', recipient, n - 1);
      (q'', messages + more)
  }

  function IdsOf(rows: seq<Row>): set<nat> {
    if rows == [] then {} else {rows[0].id} + IdsOf(rows[1..])
  }

  // ----- removals are filters on identifiers -----

  lemma {:induction false} WithoutElements(rows: seq<Row>, ids: set<nat>)
    ensures forall r :: r in WithoutIds(rows, ids) <==> r in rows && r.id !in ids
  {
    if rows != [] {
      WithoutElements(rows[1..], ids);
    }
  }

  lemma {:induction false} IdsElements(rows: seq<Row>)
    ensures forall id :: id in IdsOf(rows) <==> exists r :: r in rows && r.id == id
  {
    if rows != [] {
      IdsElements(rows[1..]);
      assert rows[0] in rows;
      assert forall r :: r in rows[1..] ==> r in rows;
    }
  }

  lemma {:induction false} WithoutTwice(rows: seq<Row>, a: set<nat>, b: set<nat>)
    ensures WithoutIds(WithoutIds(rows, a), b) == WithoutIds(rows, a + b)
  {
    if rows != [] {
      WithoutTwice(rows[1..], a, b);
      if rows[0].id !in a {
        assert WithoutIds(rows, a)[1..] == WithoutIds(rows[1..], a);
      }
    }
  }

  lemma {:induction false} KeyIsId(rows: seq<Row>, recipient: string, msgId: string, id: nat)
    requires forall r :: r in rows ==> (IsFor(r, recipient, msgId) <==> r.id == id)
    ensures WithoutKey(rows, recipient, msgId) == WithoutIds(rows, {id})
  {
    if rows != [] {
      assert rows[0] in rows && forall r :: r in rows[1..] ==> r in rows;
      KeyIsId(rows[1..], recipient, msgId, id);
    }
  }

  lemma SoundTail(q: Queue)
    requires Sound(q) && q.rows != []
    ensures Sound(q.(rows := q.rows[1..]))
  {
  }

  lemma SoundCons(row: Row, q: Queue)
    requires Sound(q) && row.id < q.nextId && row.msgId == MessageIdOf(row.payload)
    requires forall r :: r in q.rows ==> row.id < r.id && !IsFor(r, row.recipient, row.msgId)
    ensures Sound(q.(rows := [row] + q.rows))
  {
  }

  lemma {:induction false} WithoutKeepsSound(q: Queue, ids: set<nat>)
    requires Sound(q)
    ensures Sound(q.(rows := WithoutIds(q.rows, ids)))
    decreases |q.rows|
  {
    if q.rows != [] {
      SoundTail(q);
      WithoutKeepsSound(q.(rows := q.rows[1..]), ids);
      if q.rows[0].id !in ids {
        WithoutElements(q.rows[1..], ids);
        SoundCons(q.rows[0], Queue(WithoutIds(q.rows[1..], ids), q.nextId));
      }
    }
  }

  /** In a sound table an identifier and an index key name the same row. */
  lemma KeyNamesRow(q: Queue, row: Row)
    requires Sound(q) && row in q.rows
    ensures WithoutKey(q.rows, row.recipient, row.msgId) == WithoutIds(q.rows, {row.id})
  {
    var i :| 0 <= i < |q.rows| && q.rows[i] == row;
    OneRowPerKey(q, i);
    KeyIsId(q.rows, row.recipient, row.msgId, row.id);
  }

  // ----- one round -----

  ghost predicate IsAddressable(recipient: string) {
    Trim(recipient) == recipient != ""
  }

  /** A row that was sent and may be acknowledged. */
  predicate IsLive(row: Row, recipient: string) {
    row.recipient == recipient && !IsStale(row, recipient)
  }

  ghost predicate AllDistinct(rows: seq<Row>) {
    forall i, j :: 0 <= i < j < |rows| ==> rows[i].id != rows[j].id
  }

  lemma LiveRowHasId(row: Row, recipient: string)
    requires IsLive(row, recipient)
    ensures Trim(MessageIdOf(row.payload)) == MessageIdOf(row.payload) != ""
  {
    ValidIdIsTrimmed(MessageIdOf(row.payload));
  }

  /** An acknowledgement removes the row it answers exactly when the recipient's key has no blank ends. */
  lemma AcknowledgingRemovesExactlyWhen(q: Queue, row: Row, recipient: string)
    requires Sound(q) && row in q.rows && IsLive(row, recipient)
    ensures row !in Acknowledged(q, recipient, MessageIdOf(row.payload)).rows <==> IsAddressable(recipient)
  {
    hide IsLive;
    hide Trim;
    LiveRowHasId(row, recipient);
    assert row.recipient == recipient by { LiveIsFor(row, recipient); }
    WithoutKeyElements(q.rows, Trim(recipient), MessageIdOf(row.payload));
  }

  lemma LiveIsFor(row: Row, recipient: string)
    requires IsLive(row, recipient)
    ensures row.recipient == recipient
  {
  }

  lemma {:induction false} WithoutKeyElements(rows: seq<Row>, recipient: string, msgId: string)
    ensures forall r :: r in WithoutKey(rows, recipient, msgId) <==> r in rows && !IsFor(r, recipient, msgId)
  {
    if rows != [] {
      WithoutKeyElements(rows[1..], recipient, msgId);
    }
  }

  lemma AcknowledgingOne(q: Queue, recipient: string, row: Row)
    requires Sound(q) && IsAddressable(recipient) && row in q.rows && IsLive(row, recipient)
    ensures Acknowledged(q, recipient, MessageIdOf(row.payload)) == q.(rows := WithoutIds(q.rows, {row.id}))
  {
    hide IsLive;
    hide Trim;
    LiveRowHasId(row, recipient);
    LiveIsFor(row, recipient);
    KeyNamesRow(q, row);
  }

  lemma {:induction false} AcknowledgingAll(q: Queue, recipient: string, messages: seq<Row>)
    requires Sound(q) && IsAddressable(recipient) && AllDistinct(messages)
    requires forall i :: 0 <= i < |messages| ==> messages[i] in q.rows && IsLive(messages[i], recipient)
    ensures AllAcknowledged(q, recipient, messages) == q.(rows := WithoutIds(q.rows, IdsOf(messages)))
    decreases |messages|
  {
    hide IsLive;
    hide IsAddressable;
    hide Sound;
    if messages == [] {
      WithoutNothing(q.rows);
    } else {
      var id := messages[0].id;
      var q' := q.(rows := WithoutIds(q.rows, {id}));
      AcknowledgingOne(q, recipient, messages[0]);
      WithoutKeepsSound(q, {id});
      WithoutElements(q.rows, {id});
      AcknowledgingAll(q', recipient, messages[1..]);
      WithoutTwice(q.rows, {id}, IdsOf(messages[1..]));
    }
  }

  lemma {:induction false} WithoutNothing(rows: seq<Row>)
    ensures WithoutIds(rows, {}) == rows
  {
    if rows != [] {
      WithoutNothing(rows[1..]);
    }
  }

  lemma {:induction false} RowsForElements(rows: seq<Row>, recipient: string)
    ensures forall r :: r in RowsFor(rows, recipient) <==> r in rows && r.recipient == recipient
  {
    if rows != [] {
      RowsForElements(rows[1..], recipient);
    }
  }

  lemma {:induction false} LiveElements(rows: seq<Row>, recipient: string)
    ensures forall r :: r in LiveRows(rows, recipient) <==> r in rows && !IsStale(r, recipient)
    ensures IdsOf(LiveRows(rows, recipient)) + StaleIds(rows, recipient) == IdsOf(rows)
  {
    hide IsStale;
    if rows != [] {
      LiveElements(rows[1..], recipient);
      if !IsStale(rows[0], recipient) {
        assert LiveRows(rows, recipient)[1..] == LiveRows(rows[1..], recipient);
      }
    }
  }

  ghost predicate Increasing(rows: seq<Row>) {
    forall i, j :: 0 <= i < j < |rows| ==> rows[i].id < rows[j].id
  }

  lemma IncreasingCons(row: Row, rows: seq<Row>)
    requires Increasing(rows) && forall r :: r in rows ==> row.id < r.id
    ensures Increasing([row] + rows)
  {
  }

  lemma {:induction false} IncreasingFor(q: Queue, recipient: string)
    requires Sound(q)
    ensures Increasing(RowsFor(q.rows, recipient))
    decreases |q.rows|
  {
    if q.rows != [] {
      SoundTail(q);
      IncreasingFor(q.(rows := q.rows[1..]), recipient);
      RowsForElements(q.rows[1..], recipient);
      IncreasingCons(q.rows[0], RowsFor(q.rows[1..], recipient));
    }
  }

  lemma {:induction false} LiveIncreasing(rows: seq<Row>, recipient: string)
    requires Increasing(rows)
    ensures Increasing(LiveRows(rows, recipient))
  {
    hide IsStale;
    if rows != [] {
      LiveIncreasing(rows[1..], recipient);
      LiveElements(rows[1..], recipient);
      IncreasingCons(rows[0], LiveRows(rows[1..], recipient));
    }
  }

  lemma BatchIncreasing(q: Queue, recipient: string)
    requires Sound(q)
    ensures Increasing(Batch(q.rows, recipient))
    ensures forall r :: r in Batch(q.rows, recipient) ==> r in q.rows && r.recipient == recipient
  {
    hide RowsFor;
    IncreasingFor(q, recipient);
    RowsForElements(q.rows, recipient);
  }

  /** Acknowledgements of this batch reach their rows, or there are none to make. */
  ghost predicate Clears(q: Queue, recipient: string) {
    IsAddressable(recipient) || LiveRows(Batch(q.rows, recipient), recipient) == []
  }

  /** The stale and the live rows of the batch are then both gone after a round, and nothing else is. */
  lemma RoundRemovesBatch(q: Queue, recipient: string)
    requires Sound(q) && Clears(q, recipient)
    ensures Round(q, recipient).0 == q.(rows := WithoutIds(q.rows, IdsOf(Batch(q.rows, recipient))))
  {
    hide IsStale;
    hide IsAddressable;
    hide Sound;
    hide WithoutIds;
    hide LiveRows;
    hide RowsFor;
    hide StaleIds;
    var batch := Batch(q.rows, recipient);
    var (listed, messages) := Listed(q, recipient);
    var stale := StaleIds(batch, recipient);
    LiveElements(batch, recipient);
    assert stale + IdsOf(messages) == IdsOf(batch);
    if IsAddressable(recipient) {
      WithoutKeepsSound(q, stale);
      MessagesAreListed(q, recipient);
      AcknowledgingAll(listed, recipient, messages);
      WithoutTwice(q.rows, stale, IdsOf(messages));
    } else {
      assert messages == [] && AllAcknowledged(listed, recipient, messages) == listed;
      assert IdsOf(messages) == {} && stale == IdsOf(batch);
    }
  }

  lemma MessagesAreListed(q: Queue, recipient: string)
    requires Sound(q)
    ensures var (listed, messages) := Listed(q, recipient);
            && AllDistinct(messages)
            && forall i :: 0 <= i < |messages| ==> messages[i] in listed.rows && IsLive(messages[i], recipient)
  {
    hide IsStale;
    var batch := Batch(q.rows, recipient);
    var (listed, messages) := Listed(q, recipient);
    BatchIncreasing(q, recipient);
    LiveIncreasing(batch, recipient);
    LiveElements(batch, recipient);
    WithoutElements(q.rows, StaleIds(batch, recipient));
    forall i | 0 <= i < |messages|
      ensures messages[i] in listed.rows && IsLive(messages[i], recipient)
    {
      var m := messages[i];
      assert m in batch;
      StaleIdsAreOfStale(batch, recipient, m);
    }
  }

  lemma {:induction false} StaleIdsAreOfStale(rows: seq<Row>, recipient: string, m: Row)
    requires Increasing(rows) && m in rows && !IsStale(m, recipient)
    ensures m.id !in StaleIds(rows, recipient)
  {
    hide IsStale;
    if m == rows[0] {
      StaleIdsAreIds(rows[1..], recipient);
      IdsElements(rows[1..]);
    } else {
      StaleIdsAreOfStale(rows[1..], recipient, m);
    }
  }

  lemma StaleIdsAreIds(rows: seq<Row>, recipient: string)
    ensures StaleIds(rows, recipient) <= IdsOf(rows)
  {
    LiveElements(rows, recipient);
  }

  // ----- what rounds return -----

  lemma {:induction false} ForCommutes(rows: seq<Row>, recipient: string, ids: set<nat>)
    ensures RowsFor(WithoutIds(rows, ids), recipient) == WithoutIds(RowsFor(rows, recipient), ids)
  {
    if rows != [] {
      ForCommutes(rows[1..], recipient, ids);
    }
  }

  lemma {:induction false} WithoutOthers(rows: seq<Row>, ids: set<nat>)
    requires forall r :: r in rows ==> r.id !in ids
    ensures WithoutIds(rows, ids) == rows
  {
    if rows != [] {
      assert rows[0] in rows && forall r :: r in rows[1..] ==> r in rows;
      WithoutOthers(rows[1..], ids);
    }
  }

  lemma {:induction false} PrefixRemoved(rows: seq<Row>, n: nat)
    requires Increasing(rows) && n <= |rows|
    ensures WithoutIds(rows, IdsOf(rows[..n])) == rows[n..]
    decreases n
  {
    if n == 0 {
      WithoutNothing(rows);
    } else {
      var ids := IdsOf(rows[1..][..n - 1]);
      assert rows[..n][1..] == rows[1..][..n - 1];
      PrefixRemoved(rows[1..], n - 1);
      WithoutOthers(rows[1..], {rows[0].id});
      WithoutTwice(rows[1..], {rows[0].id}, ids);
    }
  }

  lemma {:induction false} LiveSplits(a: seq<Row>, b: seq<Row>, recipient: string)
    ensures LiveRows(a + b, recipient) == LiveRows(a, recipient) + LiveRows(b, recipient)
  {
    hide IsStale;
    if a == [] {
      assert a + b == b;
    } else {
      assert (a + b)[1..] == a[1..] + b;
      LiveSplits(a[1..], b, recipient);
    }
  }

  lemma BatchIsPrefix(rows: seq<Row>, recipient: string)
    ensures var all := RowsFor(rows, recipient); Batch(rows, recipient) == all[..Min(BATCH_LIMIT, |all|)]
  {
    hide RowsFor;
  }

  /** One round sends the live rows of the first batch and removes the whole batch; other queues are untouched. */
  lemma OneRound(q: Queue, recipient: string)
    requires Sound(q) && Clears(q, recipient)
    ensures var all := RowsFor(q.rows, recipient);
            var m := Min(BATCH_LIMIT, |all|);
            && Round(q, recipient).1 == LiveRows(all[..m], recipient)
            && RowsFor(Round(q, recipient).0.rows, recipient) == all[m..]
            && Sound(Round(q, recipient).0)
  {
    hide IsStale;
    hide Clears;
    hide Sound;
    hide RowsFor;
    hide WithoutIds;
    hide IdsOf;
    hide AllAcknowledged;
    var all := RowsFor(q.rows, recipient);
    var ids := IdsOf(Batch(q.rows, recipient));
    RoundRemovesBatch(q, recipient);
    BatchIsPrefix(q.rows, recipient);
    ForCommutes(q.rows, recipient, ids);
    IncreasingFor(q, recipient);
    PrefixRemoved(all, Min(BATCH_LIMIT, |all|));
    WithoutKeepsSound(q, ids);
  }

  lemma OthersUntouched(q: Queue, recipient: string, other: string)
    requires Sound(q) && Clears(q, recipient) && other != recipient
    ensures RowsFor(Round(q, recipient).0.rows, other) == RowsFor(q.rows, other)
  {
    hide IsStale;
    hide Clears;
    hide Round;
    hide RowsFor;
    hide WithoutIds;
    hide Batch;
    hide Trim;
    var ids := IdsOf(Batch(q.rows, recipient));
    RoundRemovesBatch(q, recipient);
    ForCommutes(q.rows, other, ids);
    BatchIncreasing(q, recipient);
    RowsForElements(q.rows, other);
    IdsElements(Batch(q.rows, recipient));
    forall r | r in RowsFor(q.rows, other)
      ensures r.id !in ids
    {
      forall b | b in Batch(q.rows, recipient)
        ensures b.id != r.id
      {
        DifferentRows(q, b, r);
      }
    }
    WithoutOthers(RowsFor(q.rows, other), ids);
  }

  lemma DifferentRows(q: Queue, a: Row, b: Row)
    requires Sound(q) && a in q.rows && b in q.rows && a != b
    ensures a.id != b.id
  {
  }

  /**
   n rounds send exactly the live rows among the first 1000 n, in insertion order, each once, leave exactly the
   rest, and touch nobody else's rows.
   */
  ghost predicate SentInOrder(q: Queue, recipient: string, n: nat) {
    var all := RowsFor(q.rows, recipient);
    var m := Min(1000 * n, |all|);
    var (q', log) := Rounds(q, recipient, n);
    && log == LiveRows(all[..m], recipient)
    && RowsFor(q'.rows, recipient) == all[m..]
    && forall other :: other != recipient ==> RowsFor(q'.rows, other) == RowsFor(q.rows, other)
  }

  /** The first n batches are all stale, so that nothing has to be acknowledged. */
  ghost predicate OnlyStale(q: Queue, recipient: string, n: nat) {
    var all := RowsFor(q.rows, recipient);
    LiveRows(all[..Min(1000 * n, |all|)], recipient) == []
  }

  lemma StaleBatches(q: Queue, recipient: string, n: nat)
    requires n > 0 && OnlyStale(q, recipient, n)
    ensures LiveRows(Batch(q.rows, recipient), recipient) == []
    ensures var all := RowsFor(q.rows, recipient);
            var m := Min(BATCH_LIMIT, |all|);
            LiveRows(all[m..][..Min(1000 * (n - 1), |all| - m)], recipient) == []
  {
    hide RowsFor;
    hide LiveRows;
    BatchIsPrefix(q.rows, recipient);
    BatchesSplit(RowsFor(q.rows, recipient), n, recipient);
  }

  /** The rows of the first n batches are those of the first one and of the n - 1 behind it. */
  lemma BatchesSplit(rows: seq<Row>, n: nat, recipient: string)
    requires n > 0
    ensures var m := Min(BATCH_LIMIT, |rows|);
            var m', all := Min(1000 * (n - 1), |rows| - m), Min(1000 * n, |rows|);
            && LiveRows(rows[..all], recipient) == LiveRows(rows[..m], recipient) + LiveRows(rows[m..][..m'], recipient)
            && rows[m..][m'..] == rows[all..]
  {
    hide LiveRows;
    var m := Min(BATCH_LIMIT, |rows|);
    var m' := Min(1000 * (n - 1), |rows| - m);
    assert m + m' == Min(1000 * n, |rows|);
    assert rows[..m] + rows[m..][..m'] == rows[..m + m'];
    LiveSplits(rows[..m], rows[m..][..m'], recipient);
  }

  lemma {:induction false} RoundsSend(q: Queue, recipient: string, n: nat)
    requires Sound(q) && (IsAddressable(recipient) || OnlyStale(q, recipient, n))
    ensures SentInOrder(q, recipient, n)
    decreases n
  {
    hide IsStale;
    hide Sound;
    hide RowsFor;
    hide LiveRows;
    hide Round;
    hide IsAddressable;
    var all := RowsFor(q.rows, recipient);
    if n == 0 {
      NothingSent(q, recipient);
    } else {
      if OnlyStale(q, recipient, n) {
        StaleBatches(q, recipient, n);
      }
      OneRound(q, recipient);
      BatchesSplit(all, n, recipient);
      RoundsSend(Round(q, recipient).0, recipient, n - 1);
      forall other | other != recipient
        ensures RowsFor(Round(q, recipient).0.rows, other) == RowsFor(q.rows, other)
      {
        OthersUntouched(q, recipient, other);
      }
    }
  }

  lemma NothingSent(q: Queue, recipient: string)
    ensures SentInOrder(q, recipient, 0)
  {
    hide RowsFor;
    assert RowsFor(q.rows, recipient)[0..] == RowsFor(q.rows, recipient);
  }

  // ----- keys with blank ends -----

  lemma {:induction false} AcknowledgingAllKeepsSound(q: Queue, recipient: string, messages: seq<Row>)
    requires Sound(q)
    ensures Sound(AllAcknowledged(q, recipient, messages))
    decreases |messages|
  {
    hide Sound;
    hide Acknowledged;
    if messages != [] {
      var id := MessageIdOf(messages[0].payload);
      AcknowledgingKeepsSound(q, recipient, id);
      AcknowledgingAllKeepsSound(Acknowledged(q, recipient, id), recipient, messages[1..]);
    }
  }

  /** Acknowledgements under a key with blank ends reach none of that key's rows. */
  lemma {:induction false} AcknowledgingMisses(q: Queue, recipient: string, messages: seq<Row>, row: Row)
    requires !IsAddressable(recipient) && row in q.rows && row.recipient == recipient
    ensures row in AllAcknowledged(q, recipient, messages).rows
    decreases |messages|
  {
    hide Trim;
    if messages != [] {
      var id := MessageIdOf(messages[0].payload);
      WithoutKeyElements(q.rows, Trim(recipient), Trim(id));
      AcknowledgingMisses(Acknowledged(q, recipient, id), recipient, messages[1..], row);
    }
  }

  lemma LiveStaysListed(q: Queue, recipient: string, row: Row)
    requires Sound(q) && row in q.rows && IsLive(row, recipient)
    ensures row in Listed(q, recipient).0.rows
  {
    hide IsStale;
    hide RowsFor;
    var batch := Batch(q.rows, recipient);
    BatchIncreasing(q, recipient);
    WithoutElements(q.rows, StaleIds(batch, recipient));
    if row.id in StaleIds(batch, recipient) {
      var r := StaleIdHasRow(batch, recipient, row.id);
      DifferentRows(q, r, row);
    }
  }

  /** A live row of such a key is still there after any number of rounds. */
  lemma {:induction false} LiveRowStays(q: Queue, recipient: string, n: nat, row: Row)
    requires Sound(q) && !IsAddressable(recipient) && row in q.rows && IsLive(row, recipient)
    ensures row in Rounds(q, recipient, n).0.rows
    decreases n
  {
    hide Sound;
    hide IsAddressable;
    hide IsStale;
    hide Batch;
    hide LiveRows;
    hide AllAcknowledged;
    if n > 0 {
      var (listed, messages) := Listed(q, recipient);
      LiveStaysListed(q, recipient, row);
      WithoutKeepsSound(q, StaleIds(Batch(q.rows, recipient), recipient));
      AcknowledgingAllKeepsSound(listed, recipient, messages);
      AcknowledgingMisses(listed, recipient, messages, row);
      LiveRowStays(Round(q, recipient).0, recipient, n - 1, row);
    }
  }

  lemma LiveAmong(q: Queue, recipient: string, m: nat) returns (row: Row)
    requires m <= |RowsFor(q.rows, recipient)| && LiveRows(RowsFor(q.rows, recipient)[..m], recipient) != []
    ensures row in RowsFor(q.rows, recipient)[..m] && row in q.rows && IsLive(row, recipient)
  {
    hide IsStale;
    var some := RowsFor(q.rows, recipient)[..m];
    row := LiveRows(some, recipient)[0];
    LiveElements(some, recipient);
    RowsForElements(q.rows, recipient);
    assert row in some && row in RowsFor(q.rows, recipient);
  }

  lemma NotInRest(rows: seq<Row>, m: nat, row: Row)
    requires Increasing(rows) && m <= |rows| && row in rows[..m]
    ensures row !in rows[m..]
  {
  }

  // ----- exactly when the queue drains -----

  /**
   With no new arrivals, n rounds send in order, and leave exactly the rest, exactly when the recipient's key has
   no blank ends or the batches hold nothing but stale rows.
   */
  lemma RoundsSendInOrder(q: Queue, recipient: string, n: nat)
    requires Sound(q)
    ensures SentInOrder(q, recipient, n) <==> IsAddressable(recipient) || OnlyStale(q, recipient, n)
  {
    hide IsStale;
    hide Sound;
    hide RowsFor;
    hide Rounds;
    hide LiveRows;
    hide IsAddressable;
    if IsAddressable(recipient) || OnlyStale(q, recipient, n) {
      RoundsSend(q, recipient, n);
    } else {
      var all := RowsFor(q.rows, recipient);
      var m := Min(1000 * n, |all|);
      var row := LiveAmong(q, recipient, m);
      LiveRowStays(q, recipient, n, row);
      LiveIsFor(row, recipient);
      RowsForElements(Rounds(q, recipient, n).0.rows, recipient);
      IncreasingFor(q, recipient);
      NotInRest(all, m, row);
    }
  }

  /**
   Enough rounds empty the queue exactly when the recipient's key has no blank ends or every row is stale; and
   then they have sent every live row's payload exactly once, in order.
   */
  lemma RoundsEmptyQueue(q: Queue, recipient: string, n: nat)
    requires Sound(q) && 1000 * n >= |RowsFor(q.rows, recipient)|
    ensures var all := RowsFor(q.rows, recipient);
            var (q', log) := Rounds(q, recipient, n);
            && (RowsFor(q'.rows, recipient) == [] <==>
                  IsAddressable(recipient) || forall r :: r in all ==> IsStale(r, recipient))
            && (RowsFor(q'.rows, recipient) == [] ==> log == LiveRows(all, recipient))
  {
    hide IsStale;
    hide Sound;
    hide RowsFor;
    hide Rounds;
    hide LiveRows;
    hide IsAddressable;
    var all := RowsFor(q.rows, recipient);
    assert all[..|all|] == all && all[|all|..] == [];
    LiveElements(all, recipient);
    var live := LiveRows(all, recipient);
    assert live == [] <==> forall r :: r in all ==> IsStale(r, recipient) by {
      assert live != [] ==> live[0] in live;
    }
    if IsAddressable(recipient) || live == [] {
      RoundsSend(q, recipient, n);
    } else {
      var row := LiveAmong(q, recipient, |all|);
      LiveRowStays(q, recipient, n, row);
      LiveIsFor(row, recipient);
      RowsForElements(Rounds(q, recipient, n).0.rows, recipient);
    }
  }

  // ----- every run -----

  datatype Op =
    | Save(sender: string, recipient: string, payload: Payload)
    | List(recipient: string)
    | Acknowledge(recipient: string, msgId: string)

  function Applied(q: Queue, op: Op): Queue {
    match op
    case Save(sender, recipient, payload) => Saved(q, sender, recipient, payload)
    case List(recipient) => Listed(q, recipient).0
    case Acknowledge(recipient, msgId) => Acknowledged(q, recipient, msgId)
  }

  function After(q: Queue, ops: seq<Op>): Queue
    decreases |ops|
  {
    if ops == [] then q else After(Applied(q, ops[0]), ops[1..])
  }

  lemma {:induction false} WithoutMissingKey(rows: seq<Row>, recipient: string, msgId: string)
    requires forall r :: r in rows ==> !IsFor(r, recipient, msgId)
    ensures WithoutKey(rows, recipient, msgId) == rows
  {
    if rows != [] {
      assert rows[0] in rows && forall r :: r in rows[1..] ==> r in rows;
      WithoutMissingKey(rows[1..], recipient, msgId);
    }
  }

  lemma AcknowledgingKeepsSound(q: Queue, recipient: string, msgId: string)
    requires Sound(q)
    ensures Sound(Acknowledged(q, recipient, msgId))
  {
    hide Trim;
    hide Sound;
    var key, id := Trim(recipient), Trim(msgId);
    if row :| row in q.rows && IsFor(row, key, id) {
      KeyNamesRow(q, row);
      WithoutKeepsSound(q, {row.id});
    } else {
      WithoutMissingKey(q.rows, key, id);
    }
  }

  /** Whatever is saved, listed and acknowledged, (recipient, message id) stays unique and rows stay in order. */
  lemma {:induction false} AlwaysSound(q: Queue, ops: seq<Op>)
    requires Sound(q)
    ensures Sound(After(q, ops))
    decreases |ops|
  {
    hide Sound;
    hide Saved;
    hide Batch;
    if ops != [] {
      match ops[0] {
        case Save(sender, recipient, payload) => SavingKeepsSound(q, sender, recipient, payload);
        case List(recipient) => WithoutKeepsSound(q, StaleIds(Batch(q.rows, recipient), recipient));
        case Acknowledge(recipient, msgId) => AcknowledgingKeepsSound(q, recipient, msgId);
      }
      AlwaysSound(Applied(q, ops[0]), ops[1..]);
    }
  }

  /** A row leaves the queue only when it is acknowledged, or when its own recipient lists it and it is stale. */
  lemma RowsLeaveAcknowledgedOrStale(q: Queue, op: Op, row: Row)
    requires row in q.rows && !Holds(Applied(q, op).rows, row.recipient, row.msgId)
    ensures || (op.Acknowledge? && Trim(op.recipient) == row.recipient && Trim(op.msgId) == row.msgId)
            || (op.List? && exists r :: && r in q.rows && r.id == row.id
                                        && r.recipient == op.recipient && IsStale(r, op.recipient))
  {
    hide Trim;
    hide IsStale;
    hide RowsFor;
    var rows := Applied(q, op).rows;
    InRowsHolds(q.rows, row);
    match op {
      case Save(sender, recipient, payload) =>
        SavingLosesNothing(q, sender, recipient, payload, row.recipient, row.msgId);
      case List(recipient) =>
        var batch := Batch(q.rows, recipient);
        WithoutElements(q.rows, StaleIds(batch, recipient));
        if row.id in StaleIds(batch, recipient) {
          var r := StaleIdHasRow(batch, recipient, row.id);
          RowsForElements(q.rows, recipient);
          assert r in RowsFor(q.rows, recipient);
        } else {
          InRowsHolds(rows, row);
        }
      case Acknowledge(recipient, msgId) =>
        WithoutKeyElements(q.rows, Trim(recipient), Trim(msgId));
        if row in rows {
          InRowsHolds(rows, row);
        }
    }
  }

  lemma InRowsHolds(rows: seq<Row>, row: Row)
    requires row in rows
    ensures Holds(rows, row.recipient, row.msgId)
  {
    var i :| 0 <= i < |rows| && rows[i] == row;
    assert IsFor(rows[i], row.recipient, row.msgId);
  }

  lemma {:induction false} StaleIdHasRow(batch: seq<Row>, recipient: string, id: nat) returns (r: Row)
    requires id in StaleIds(batch, recipient)
    ensures r in batch && r.id == id && IsStale(r, recipient)
  {
    hide IsStale;
    if IsStale(batch[0], recipient) && batch[0].id == id {
      r := batch[0];
    } else {
      r := StaleIdHasRow(batch[1..], recipient, id);
    }
  }

  // ----- from a client's envelope to the recipient -----

  lemma MessagesAreDirect()
    ensures !IsGroupRouted("message") && !IsChannelRouted("message")
    ensures !IsRouted("offline_message")
  {
  }

  lemma NormalizedShape(e: Envelope, key: string)
    requires Normalized(e, key).Some?
    ensures Normalized(e, key).value == Json(e.(sender := key)) && IsValidPublicKey(key)
    ensures e.kind != "offline_message" && (e.kind == "message" ==> IsValidPublicKey(e.recipient))
  {
    hide IsValidPublicKey;
    hide IsValidMessageId;
    hide IsRouted;
    hide IsGroupRouted;
    hide IsChannelRouted;
    MessagesAreDirect();
  }

  /** What is never shown: no envelope, no plain identifier, or a message whose two names are the recipient's. */
  lemma StaleExactlyWhen(row: Row, recipient: string)
    ensures IsStale(row, recipient) <==>
              || row.payload.Raw?
              || !IsPlain(row.payload.envelope.msgId, 128, "-_:.")
              || ((row.payload.envelope.kind == "message" || row.payload.envelope.kind == "offline_message")
                  && var e := row.payload.envelope;
                     var from := if Trim(e.sender) != "" then Trim(e.sender) else Trim(row.sender);
                     var to := if Trim(e.recipient) != "" then Trim(e.recipient) else Trim(row.recipient);
                     from == to == Trim(recipient) != "")
  {
    hide Trim;
    hide IsValidMessageId;
    hide IsPlain;
    if row.payload.Json? {
      MessageIdExactlyWhen(row.payload.envelope.msgId);
    }
  }

  /** The envelope has a valid identifier and is no message to oneself. */
  predicate IsShown(e: Envelope, key: string, recipient: string) {
    IsValidMessageId(e.msgId) && !(e.kind == "message" && Trim(key) == Trim(e.recipient) == Trim(recipient))
  }

  /** A client's envelope is never shown exactly when it has no valid identifier or is a message to oneself. */
  lemma ClientRowIsStaleExactlyWhen(e: Envelope, key: string, row: Row, recipient: string)
    requires Normalized(e, key).Some? && row.payload == Normalized(e, key).value
    ensures IsStale(row, recipient) <==> !IsShown(e, key, recipient)
  {
    hide Trim;
    hide IsValidPublicKey;
    hide IsValidMessageId;
    hide Normalized;
    NormalizedShape(e, key);
    ValidKeyIsNotBlank(key);
    if e.kind == "message" {
      ValidKeyIsNotBlank(e.recipient);
    }
  }

  lemma {:induction false} AcknowledgingAllAddsNothing(q: Queue, recipient: string, messages: seq<Row>)
    ensures forall r :: r in AllAcknowledged(q, recipient, messages).rows ==> r in q.rows
    decreases |messages|
  {
    hide Trim;
    if messages != [] {
      var id := MessageIdOf(messages[0].payload);
      WithoutKeyElements(q.rows, Trim(recipient), Trim(id));
      AcknowledgingAllAddsNothing(Acknowledged(q, recipient, id), recipient, messages[1..]);
    }
  }

  lemma RoundAddsNothing(q: Queue, recipient: string)
    requires Sound(q)
    ensures forall r :: r in Round(q, recipient).0.rows ==> r in q.rows
    ensures forall r :: r in Round(q, recipient).1 ==> r in q.rows && IsLive(r, recipient)
    ensures Sound(Round(q, recipient).0)
  {
    hide IsLive;
    hide Sound;
    hide Batch;
    hide LiveRows;
    var (listed, messages) := Listed(q, recipient);
    WithoutElements(q.rows, StaleIds(Batch(q.rows, recipient), recipient));
    WithoutKeepsSound(q, StaleIds(Batch(q.rows, recipient), recipient));
    AcknowledgingAllAddsNothing(listed, recipient, messages);
    AcknowledgingAllKeepsSound(listed, recipient, messages);
    MessagesAreListed(q, recipient);
  }

  /** Rounds send nothing but live rows of the queue. */
  lemma {:induction false} LogIsLive(q: Queue, recipient: string, n: nat)
    requires Sound(q)
    ensures forall r :: r in Rounds(q, recipient, n).1 ==> r in q.rows && IsLive(r, recipient)
    decreases n
  {
    hide IsLive;
    hide Sound;
    hide Round;
    if n > 0 {
      RoundAddsNothing(q, recipient);
      LogIsLive(Round(q, recipient).0, recipient, n - 1);
    }
  }

  lemma OneInLog(log: seq<Row>, q: Queue, recipient: string, row: Row)
    requires Sound(q) && Increasing(log) && row in log
    requires forall r :: r in log ==> r in q.rows && r.recipient == recipient
    ensures SentOnce(log, row.sender, row.payload)
  {
    hide Sound;
    var i :| 0 <= i < |log| && log[i] == row;
    forall j | 0 <= j < |log| && j != i
      ensures MessageIdOf(log[j].payload) != MessageIdOf(row.payload)
    {
      assert log[j] in log && log[i] in log;
      SameKeySameRow(q, log[i], log[j]);
    }
  }

  lemma SameKeySameRow(q: Queue, a: Row, b: Row)
    requires Sound(q) && a in q.rows && b in q.rows && a.id != b.id && a.recipient == b.recipient
    ensures MessageIdOf(a.payload) != MessageIdOf(b.payload)
  {
    var i :| 0 <= i < |q.rows| && q.rows[i] == a;
    OneRowPerKey(q, i);
  }

  /** The payload was sent in the sender's name, and nothing else under its identifier was. */
  ghost predicate SentOnce(log: seq<Row>, sender: string, payload: Payload) {
    exists i :: && 0 <= i < |log| && log[i].sender == sender && log[i].payload == payload
                && forall j :: 0 <= j < |log| && j != i ==> MessageIdOf(log[j].payload) != MessageIdOf(payload)
  }

  /** n rounds send the payload once, and then the queue holds nothing under its identifier. */
  ghost predicate SentOnceThenGone(q: Queue, recipient: string, n: nat, sender: string, payload: Payload) {
    var (q', log) := Rounds(q, recipient, n);
    SentOnce(log, sender, payload) && !Holds(q'.rows, recipient, MessageIdOf(payload))
  }

  lemma SentWasStored(q: Queue, e: Envelope, key: string, recipient: string, n: nat)
    requires Sound(q) && Normalized(e, key).Some?
    requires SentOnce(Rounds(q, recipient, n).1, key, Normalized(e, key).value)
    ensures Stores(q.rows, key, recipient, Normalized(e, key).value) && IsShown(e, key, recipient)
  {
    hide Normalized;
    hide IsStale;
    hide IsShown;
    hide Rounds;
    var log, payload := Rounds(q, recipient, n).1, Normalized(e, key).value;
    LogIsLive(q, recipient, n);
    var row :| row in log && row.sender == key && row.payload == payload;
    ClientRowIsStaleExactlyWhen(e, key, row, recipient);
  }

  lemma AddressableIsSent(q: Queue, recipient: string, n: nat, row: Row)
    requires Sound(q) && row in q.rows && IsLive(row, recipient) && IsAddressable(recipient)
    requires 1000 * n >= |RowsFor(q.rows, recipient)|
    ensures SentOnceThenGone(q, recipient, n, row.sender, row.payload)
  {
    hide IsStale;
    hide Rounds;
    hide RowsFor;
    hide LiveRows;
    hide Sound;
    hide Holds;
    hide IsAddressable;
    hide SentOnce;
    RoundsEmptyQueue(q, recipient, n);
    EmptiedHoldsNothing(Rounds(q, recipient, n).0.rows, recipient, MessageIdOf(row.payload));
    RowsForElements(q.rows, recipient);
    LiveElements(RowsFor(q.rows, recipient), recipient);
    IncreasingFor(q, recipient);
    LiveIncreasing(RowsFor(q.rows, recipient), recipient);
    OneInLog(Rounds(q, recipient, n).1, q, recipient, row);
  }

  /**
   Enough rounds send a client's payload exactly once, and then it is gone, exactly when it is stored, may be shown
   to the recipient, and the recipient's key has no blank ends.
   */
  lemma StoredIsSentOnceExactlyWhen(q: Queue, e: Envelope, key: string, recipient: string, n: nat)
    requires Sound(q) && Normalized(e, key).Some? && 1000 * n >= |RowsFor(q.rows, recipient)|
    ensures var payload := Normalized(e, key).value;
            SentOnceThenGone(q, recipient, n, key, payload) <==>
              Stores(q.rows, key, recipient, payload) && IsShown(e, key, recipient) && IsAddressable(recipient)
  {
    hide Normalized;
    hide IsStale;
    hide IsShown;
    hide Rounds;
    hide RowsFor;
    hide Sound;
    hide SentOnce;
    hide IsAddressable;
    hide Holds;
    var payload := Normalized(e, key).value;
    if SentOnce(Rounds(q, recipient, n).1, key, payload) {
      SentWasStored(q, e, key, recipient, n);
    }
    if Stores(q.rows, key, recipient, payload) && IsShown(e, key, recipient) {
      var row :| row in q.rows && IsFor(row, recipient, MessageIdOf(payload)) && row.sender == key
                 && row.payload == payload;
      ClientRowIsStaleExactlyWhen(e, key, row, recipient);
      if IsAddressable(recipient) {
        AddressableIsSent(q, recipient, n, row);
      } else {
        LiveRowStays(q, recipient, n, row);
        InRowsHolds(Rounds(q, recipient, n).0.rows, row);
      }
    }
  }

  /**
   A client's payload, saved for a recipient, is sent by enough rounds exactly once and then gone exactly when the
   table admits it, it may be shown to the recipient, and the recipient's key has no blank ends.
   */
  lemma QueuedMessageIsSentOnceExactlyWhen(q: Queue, e: Envelope, key: string, recipient: string, n: nat)
    requires Sound(q) && Normalized(e, key).Some?
    requires 1000 * n >= |RowsFor(Saved(q, key, recipient, Normalized(e, key).value).rows, recipient)|
    ensures var payload := Normalized(e, key).value;
            SentOnceThenGone(Saved(q, key, recipient, payload), recipient, n, key, payload) <==>
              Admits(q.rows, key, recipient, payload) && IsShown(e, key, recipient) && IsAddressable(recipient)
  {
    hide Normalized;
    hide IsShown;
    hide Saved;
    hide RowsFor;
    hide Sound;
    hide IsAddressable;
    hide SentOnceThenGone;
    hide Admits;
    hide Stores;
    SavingKeepsSound(q, key, recipient, Normalized(e, key).value);
    StoredExactlyWhen(q, key, recipient, Normalized(e, key).value);
    StoredIsSentOnceExactlyWhen(Saved(q, key, recipient, Normalized(e, key).value), e, key, recipient, n);
  }

  lemma EmptiedHoldsNothing(rows: seq<Row>, recipient: string, msgId: string)
    requires RowsFor(rows, recipient) == []
    ensures !Holds(rows, recipient, msgId)
  {
    RowsForElements(rows, recipient);
  }

  // ----- an input on which draining fails -----

  /** Bob's key ends in a line break, which the server accepts. */
  function Alice(): string {
    SampleKey('A')
  }

  function Bob(): string {
    SampleKey('B') + "\n"
  }

  const GREETING := Envelope("message", "m1", "", Bob(), "", Alice(), "x")

  lemma BobsKeyIsAccepted()
    ensures IsValidPublicKey(Alice()) && IsValidPublicKey(Bob()) && Trim(Bob()) != Bob() && Trim(Alice()) != Trim(Bob())
  {
    hide IsValidPublicKey;
    hide Trim;
    SampleKeyIsValid('A');
    SampleKeyIsValid('B');
    ValidKeysMayHaveBlankEnds(SampleKey('B'));
    assert Bob()[0] == 'B';
    TrimDropsWhitespace(Bob(), 'B');
  }

  lemma MessagesAreRouted()
    ensures IsRouted("message") && !NeedsTarget("message")
  {
  }

  lemma GreetingIsRouted()
    ensures Normalized(GREETING, Alice()) == Some(Json(GREETING)) && IsValidMessageId("m1")
  {
    hide IsRouted;
    hide IsGroupRouted;
    hide IsChannelRouted;
    hide NeedsTarget;
    hide NeedsMessageId;
    hide NeedsData;
    hide IsValidPublicKey;
    hide Alice;
    hide Bob;
    BobsKeyIsAccepted();
    MessagesAreDirect();
    AsciiUtf8Len("x");
    MessagesAreRouted();
  }

  /** Alice's message to Bob is queued, sent to him and acknowledged by him, and the queue still holds it. */
  lemma AcknowledgedRowStays()
    ensures IsValidPublicKey(Bob()) && Normalized(GREETING, Alice()) == Some(Json(GREETING))
    ensures var q := Saved(EMPTY, Alice(), Bob(), Json(GREETING));
            q.rows == [Row(1, Alice(), Bob(), "m1", Json(GREETING))] && Round(q, Bob()) == (q, q.rows)
  {
    hide IsValidPublicKey;
    hide IsValidMessageId;
    hide IsStale;
    hide Normalized;
    hide Trim;
    hide Alice;
    hide Bob;
    hide Round;
    var row := Row(1, Alice(), Bob(), "m1", Json(GREETING));
    BobsKeyIsAccepted();
    GreetingIsRouted();
    ClientRowIsStaleExactlyWhen(GREETING, Alice(), row, Bob());
    OneRowRound(row, Bob(), 2);
  }

  lemma OneRowListed(row: Row, recipient: string, nextId: nat)
    requires IsLive(row, recipient)
    ensures Listed(Queue([row], nextId), recipient) == (Queue([row], nextId), [row])
  {
    hide IsStale;
    assert RowsFor([row], recipient) == [row];
    assert [row][1..] == [];
    assert LiveRows([row], recipient) == [row];
    assert StaleIds([row], recipient) == StaleIds([], recipient) == {};
    assert WithoutIds([row], {}) == [row];
  }

  /** A live row alone in the table outlives a round when its recipient's key has blank ends. */
  lemma OneRowRound(row: Row, recipient: string, nextId: nat)
    requires IsLive(row, recipient) && !IsAddressable(recipient)
    ensures Round(Queue([row], nextId), recipient) == (Queue([row], nextId), [row])
  {
    hide IsStale;
    hide Listed;
    hide Trim;
    var q, id := Queue([row], nextId), MessageIdOf(row.payload);
    OneRowListed(row, recipient, nextId);
    if Trim(recipient) != recipient {
      WithoutMissingKey([row], Trim(recipient), Trim(id));
    }
    assert Acknowledged(q, recipient, id) == q;
    assert AllAcknowledged(q, recipient, [row]) == AllAcknowledged(q, recipient, []);
  }
}

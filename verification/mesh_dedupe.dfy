/** The expiring dedupe cache of a mesh node (clients/core/src/mesh.rs:144-182). */
module MeshDedupe {
  import opened Wrappers
  import opened Sequences
  import opened MeshNames

  datatype Cache = Cache(seen: map<string, nat>, order: seq<string>)

  const EMPTY := Cache(map[], [])

  function KeyOf(e: Envelope): string {
    DedupeKey(e.topic, e.msgId)
  }

  /** Keys leave from the oldest end until the first one that is still live. */
  function Pruned(c: Cache, now: nat): Cache
    decreases |c.order|
  {
    if c.order == [] then c
    else if c.order[0] !in c.seen then Pruned(c.(order := c.order[1..]), now)
    else if c.seen[c.order[0]] > now then c
    else Pruned(Cache(c.seen - {c.order[0]}, c.order[1..]), now)
  }

  /** The new cache and whether the envelope was accepted, or why it is not valid. */
  function Remembered(c: Cache, e: Envelope, now: nat): Result<(Cache, bool), MeshError> {
    var invalid := Validate(e, now);
    if invalid.Some? then Failure(invalid.value) else
    var p := Pruned(c, now);
    if KeyOf(e) in p.seen then Success((p, false))
    else Success((Cache(p.seen[KeyOf(e) := e.expiresAt], p.order + [KeyOf(e)]), true))
  }

  class MeshDedupeCache {
    var seen: map<string, nat>
    var order: seq<string>

    constructor ()
      ensures State() == EMPTY
    {
      seen, order := map[], [];
    }

    ghost function State(): Cache
      reads this
    {
      Cache(seen, order)
    }

    method Prune(now: nat)
      modifies this
      ensures State() == Pruned(old(State()), now)
    {
      while order != []
        invariant Pruned(State(), now) == Pruned(old(State()), now)
        decreases |order|
      {
        var key := order[0];
        if key !in seen {
          order := order[1..];
          continue;
        }
        if seen[key] > now {
          break;
        }
        order := order[1..];
        seen := seen - {key};
      }
    }

    method Remember(e: Envelope, now: nat) returns (r: Result<bool, MeshError>)
      modifies this
      ensures match Remembered(old(State()), e, now)
              case Failure(error) => r == Failure(error) && State() == old(State())
              case Success((c, accepted)) => r == Success(accepted) && State() == c
    {
      var invalid := Validate(e, now);
      if invalid.Some? {
        return Failure(invalid.value);
      }
      Prune(now);
      var key := DedupeKey(e.topic, e.msgId);
      if key in seen {
        return Success(false);
      }
      seen := seen[key := e.expiresAt];
      order := order + [key];
      r := Success(true);
    }
  }

  // ----- the order list and the table agree -----

  ghost predicate Sound(c: Cache) {
    && NoDuplicates(c.order)
    && (forall key :: key in c.seen <==> key in c.order)
  }

  /** What pruning removes has expired; what it leaves is unchanged and starts with a live key. */
  lemma {:induction false} PruningIsSound(c: Cache, now: nat)
    requires Sound(c)
    ensures var p := Pruned(c, now);
            && Sound(p)
            && (forall key :: key in p.seen ==> key in c.seen && p.seen[key] == c.seen[key])
            && (forall key :: key in c.seen && key !in p.seen ==> c.seen[key] <= now)
            && (p.order != [] ==> p.seen[p.order[0]] > now)
    decreases |c.order|
  {
    if c.order != [] && c.seen[c.order[0]] <= now {
      var rest := Cache(c.seen - {c.order[0]}, c.order[1..]);
      assert Sound(rest) by {
        forall key
          ensures key in rest.seen <==> key in rest.order
        {
          assert key in c.order <==> key == c.order[0] || key in rest.order;
        }
      }
      PruningIsSound(rest, now);
    }
  }

  /** Pruning again at the same time changes nothing. */
  lemma {:induction false} PruningIsIdempotent(c: Cache, now: nat)
    ensures Pruned(Pruned(c, now), now) == Pruned(c, now)
    decreases |c.order|
  {
    if c.order != [] {
      if c.order[0] !in c.seen {
        PruningIsIdempotent(c.(order := c.order[1..]), now);
      } else if c.seen[c.order[0]] <= now {
        PruningIsIdempotent(Cache(c.seen - {c.order[0]}, c.order[1..]), now);
      }
    }
  }

  lemma RememberingIsSound(c: Cache, e: Envelope, now: nat)
    requires Sound(c) && Remembered(c, e, now).Success?
    ensures var (d, accepted) := Remembered(c, e, now).value;
            && Sound(d)
            && (accepted <==> KeyOf(e) !in Pruned(c, now).seen)
            && KeyOf(e) in d.seen
            && (accepted ==> d.seen[KeyOf(e)] == e.expiresAt > now)
            && (forall key :: key in d.seen && key != KeyOf(e) ==> key in c.seen && d.seen[key] == c.seen[key])
            && (forall key :: key in c.seen && c.seen[key] > now ==> key in d.seen && d.seen[key] == c.seen[key])
  {
    PruningIsSound(c, now);
    var p := Pruned(c, now);
    if KeyOf(e) !in p.seen {
      var d := Cache(p.seen[KeyOf(e) := e.expiresAt], p.order + [KeyOf(e)]);
      forall key
        ensures key in d.seen <==> key in d.order
      {
        assert key in d.order <==> key in p.order || key == KeyOf(e);
      }
    }
  }

  /** Once an envelope has been offered, offering its key again at the same time finds it. */
  lemma RememberedStaysKnown(c: Cache, e: Envelope, now: nat)
    requires Sound(c) && Remembered(c, e, now).Success?
    ensures KeyOf(e) in Pruned(Remembered(c, e, now).value.0, now).seen
  {
    hide Validate;
    PruningIsSound(c, now);
    PruningIsIdempotent(c, now);
    RememberingIsSound(c, e, now);
    PruningIsSound(Remembered(c, e, now).value.0, now);
  }

  // ----- runs of one cache -----

  /** One call on a cache: offering an envelope, or pruning. */
  datatype Call = Offer(envelope: Envelope, now: nat) | Tick(now: nat)

  function Called(c: Cache, call: Call): Cache {
    match call
    case Offer(e, now) => if Remembered(c, e, now).Success? then Remembered(c, e, now).value.0 else c
    case Tick(now) => Pruned(c, now)
  }

  predicate Accepts(c: Cache, call: Call) {
    call.Offer? && Remembered(c, call.envelope, call.now).Success? && Remembered(c, call.envelope, call.now).value.1
  }

  predicate Refuses(c: Cache, call: Call) {
    call.Offer? && Remembered(c, call.envelope, call.now).Success? && !Remembered(c, call.envelope, call.now).value.1
  }

  /** The cache after the first n calls. */
  function After(calls: seq<Call>, n: nat): Cache
    requires n <= |calls|
  {
    if n == 0 then EMPTY else Called(After(calls, n - 1), calls[n - 1])
  }

  predicate ClockGoesForward(calls: seq<Call>) {
    forall i, j :: 0 <= i < j < |calls| ==> calls[i].now <= calls[j].now
  }

  /** In every reachable cache, the order list has no duplicates and lists exactly the keys of the table. */
  lemma {:induction false} AlwaysSound(calls: seq<Call>, n: nat)
    requires n <= |calls|
    ensures Sound(After(calls, n))
  {
    hide Validate;
    if n > 0 {
      AlwaysSound(calls, n - 1);
      var c, call := After(calls, n - 1), calls[n - 1];
      if call.Tick? {
        PruningIsSound(c, call.now);
      } else if Remembered(c, call.envelope, call.now).Success? {
        RememberingIsSound(c, call.envelope, call.now);
      }
    }
  }

  /** An accepted key stays, with its expiry, until the clock reaches that expiry. */
  lemma {:induction false} AcceptedStays(calls: seq<Call>, i: nat, n: nat)
    requires i < n <= |calls| && Accepts(After(calls, i), calls[i])
    requires forall k :: i < k < n ==> calls[k].now < calls[i].envelope.expiresAt
    ensures var key := KeyOf(calls[i].envelope);
            key in After(calls, n).seen && After(calls, n).seen[key] == calls[i].envelope.expiresAt
  {
    hide Validate;
    AlwaysSound(calls, n - 1);
    var c, call := After(calls, n - 1), calls[n - 1];
    if i < n - 1 {
      AcceptedStays(calls, i, n - 1);
    }
    if call.Tick? {
      PruningIsSound(c, call.now);
    } else if Remembered(c, call.envelope, call.now).Success? {
      RememberingIsSound(c, call.envelope, call.now);
    }
  }

  /**
   With a clock that never goes back, a cache accepts one topic and message id at most once before
   the first accepted copy expires.
   */
  lemma AcceptedOnceBeforeExpiry(calls: seq<Call>, i: nat, j: nat)
    requires i < j < |calls| && ClockGoesForward(calls)
    requires Accepts(After(calls, i), calls[i]) && Accepts(After(calls, j), calls[j])
    requires calls[i].envelope.topic == calls[j].envelope.topic && calls[i].envelope.msgId == calls[j].envelope.msgId
    ensures calls[i].envelope.expiresAt <= calls[j].now
  {
    hide Validate;
    if calls[j].now < calls[i].envelope.expiresAt {
      AcceptedStays(calls, i, j);
      AlwaysSound(calls, j);
      PruningIsSound(After(calls, j), calls[j].now);
      assert false;
    }
  }

  lemma {:induction false} KnownWasAccepted(calls: seq<Call>, n: nat, key: string) returns (i: nat)
    requires n <= |calls| && key in After(calls, n).seen
    ensures i < n && Accepts(After(calls, i), calls[i]) && KeyOf(calls[i].envelope) == key
  {
    hide Validate;
    AlwaysSound(calls, n - 1);
    var c, call := After(calls, n - 1), calls[n - 1];
    PruningIsSound(c, call.now);
    if call.Offer? && Remembered(c, call.envelope, call.now).Success? {
      RememberingIsSound(c, call.envelope, call.now);
    }
    if key in c.seen {
      i := KnownWasAccepted(calls, n - 1, key);
    } else {
      i := n - 1;
    }
  }

  /** A valid envelope is only ever refused because the same topic and message id was accepted before. */
  lemma RefusedOnlyAsDuplicate(calls: seq<Call>, j: nat) returns (i: nat)
    requires j < |calls| && Refuses(After(calls, j), calls[j])
    ensures i < j && Accepts(After(calls, i), calls[i])
    ensures calls[i].envelope.topic == calls[j].envelope.topic && calls[i].envelope.msgId == calls[j].envelope.msgId
  {
    AlwaysSound(calls, j);
    PruningIsSound(After(calls, j), calls[j].now);
    i := KnownWasAccepted(calls, j, KeyOf(calls[j].envelope));
    var first, second := calls[i].envelope, calls[j].envelope;
    DedupeKeyInjective(first.topic, first.msgId, second.topic, second.msgId);
  }
}

/**
 Delivery to the members a room really has: the member list that routing walks is the membership table's
 (mess/hub.go:413-461 and 576-617; mess/db.go:786-807 and 966-987).
 */
module RoomDelivery {
  import opened Wrappers
  import opened Sequences
  import opened Text
  import opened Envelopes
  import Hub
  import HubDelivery
  import RoomNames
  import Rooms

  /** What the membership query returns: the keys of the room's rows, each once, in some order. */
  ghost predicate Lists(t: Rooms.Tables, room: string, members: seq<string>) {
    && NoDuplicates(members)
    && forall k :: k in members <==> (room, k) in t.rows
  }

  ghost predicate SignedIn(steps: seq<Rooms.Step>) {
    forall i :: 0 <= i < |steps| ==> IsValidPublicKey(steps[i].actor)
  }

  // ----- no member is blank -----

  ghost predicate NoBlankMember(t: Rooms.Tables) {
    forall key :: key in t.rows ==> key.1 != ""
  }

  lemma ValidIsNotEmpty(key: string)
    requires IsValidPublicKey(key)
    ensures key != "" && Trim(key) != ""
  {
    ValidKeyIsNotBlank(key);
  }

  lemma {:induction false} EnrollingAddsNoBlank(
    rows: map<(string, string), Rooms.Role>, id: string, seen: set<string>, members: seq<string>)
    requires forall key :: key in rows ==> key.1 != ""
    ensures forall key :: key in Rooms.Enrolled(rows, id, seen, members) ==> key.1 != ""
    decreases |members|
  {
    hide Trim;
    if members != [] {
      var member := Trim(members[0]);
      if member == "" || member in seen {
        EnrollingAddsNoBlank(rows, id, seen, members[1..]);
      } else {
        EnrollingAddsNoBlank(rows[(id, member) := Rooms.Member], id, seen + {member}, members[1..]);
      }
    }
  }

  lemma CreatingAddsNoBlank(kind: Rooms.Kind, t: Rooms.Tables, actor: string, r: Rooms.Request)
    requires NoBlankMember(t) && IsValidPublicKey(actor) && r.Create?
    ensures NoBlankMember(Rooms.Created(kind, t, actor, r).0)
  {
    hide IsValidPublicKey;
    hide RoomNames.Sanitized;
    hide Trim;
    hide Rooms.Enrolled;
    ValidIsNotEmpty(actor);
    if kind == Rooms.Group && Rooms.Created(kind, t, actor, r).1 == Rooms.Done {
      var owner, members := Trim(actor), RoomNames.Sanitized(r.members, {actor}, []).value;
      EnrollingAddsNoBlank(t.rows[(r.id, owner) := Rooms.Owner], r.id, {owner}, members);
    }
  }

  lemma AddingAddsNoBlank(t: Rooms.Tables, actor: string, r: Rooms.Request)
    requires NoBlankMember(t) && r.AddMember?
    ensures NoBlankMember(Rooms.AddHandled(t, actor, r).0)
  {
    hide IsValidPublicKey;
    hide Trim;
    if IsValidPublicKey(Trim(r.target)) {
      ValidIsNotEmpty(Trim(r.target));
    }
  }

  lemma JoiningAddsNoBlank(t: Rooms.Tables, actor: string, r: Rooms.Request)
    requires NoBlankMember(t) && IsValidPublicKey(actor) && r.Join?
    ensures NoBlankMember(Rooms.Joined(t, actor, r).0)
  {
    hide IsValidPublicKey;
    hide Trim;
    hide Rooms.LinkRefusal;
    ValidIsNotEmpty(actor);
  }

  /** The other requests add no row at all. */
  lemma OthersAddNoRow(kind: Rooms.Kind, t: Rooms.Tables, actor: string, r: Rooms.Request)
    requires !r.Create? && !r.AddMember? && !r.Join?
    ensures Rooms.Handled(kind, t, actor, r).0.rows.Keys <= t.rows.Keys
  {
    hide IsValidPublicKey;
    hide Trim;
    hide Rooms.Assignable;
  }

  lemma StepAddsNoBlank(kind: Rooms.Kind, t: Rooms.Tables, actor: string, r: Rooms.Request)
    requires NoBlankMember(t) && IsValidPublicKey(actor)
    ensures NoBlankMember(Rooms.Handled(kind, t, actor, r).0)
  {
    hide IsValidPublicKey;
    hide Rooms.Created;
    hide Rooms.AddHandled;
    hide Rooms.Joined;
    hide Rooms.TransferHandled;
    hide Rooms.LeaveHandled;
    hide Rooms.ChangeHandled;
    hide Rooms.RemoveHandled;
    hide Rooms.LinkCreated;
    hide Rooms.LinkRevoked;
    if r.Create? {
      CreatingAddsNoBlank(kind, t, actor, r);
    } else if r.AddMember? {
      AddingAddsNoBlank(t, actor, r);
    } else if r.Join? {
      JoiningAddsNoBlank(t, actor, r);
    } else {
      OthersAddNoRow(kind, t, actor, r);
    }
  }

  lemma {:induction false} NeverBlank(kind: Rooms.Kind, t: Rooms.Tables, steps: seq<Rooms.Step>)
    requires NoBlankMember(t) && SignedIn(steps)
    ensures NoBlankMember(Rooms.After(kind, t, steps))
    decreases |steps|
  {
    hide NoBlankMember;
    hide Rooms.Handled;
    hide IsValidPublicKey;
    if steps != [] {
      StepAddsNoBlank(kind, t, steps[0].actor, steps[0].request);
      NeverBlank(kind, Rooms.Handled(kind, t, steps[0].actor, steps[0].request).0, steps[1..]);
    }
  }

  // ----- every member is reached -----

  predicate IsOfKind(kind: Rooms.Kind, messageKind: string) {
    match kind
    case Group => IsGroupRouted(messageKind)
    case Channel => IsChannelRouted(messageKind)
  }

  /**
   After any requests of signed-in users, an accepted group or channel message of a client is, for every member
   the room has, other than the sender, on a live session or in the offline queue under its identifier.
   */
  lemma EveryMemberIsReached(kind: Rooms.Kind, steps: seq<Rooms.Step>, s: Hub.State, e: Envelope, key: string,
                             members: Option<seq<string>>, faults: Hub.Faults)
    requires SignedIn(steps) && Hub.SessionsSound(s)
    requires Normalized(e, key).Some? && IsOfKind(kind, e.kind)
    requires members.Some? ==> Lists(Rooms.After(kind, Rooms.NO_ROOMS, steps), e.groupId, members.value)
    ensures var t := Rooms.After(kind, Rooms.NO_ROOMS, steps);
            var payload := Normalized(e, key).value;
            var m := HubDelivery.ClientMessage(e, key, payload);
            var (s', accepted) := Hub.Routed(s, true, members, m, true, faults);
            accepted ==>
              forall k :: (e.groupId, k) in t.rows && k != key ==>
                HubDelivery.Enqueued(s, s', k, payload) || HubDelivery.Queued(s', k, payload)
  {
    hide Rooms.After;
    hide Hub.SessionsSound;
    hide Hub.Routed;
    hide HubDelivery.Enqueued;
    hide HubDelivery.Queued;
    hide Normalized;
    hide IsGroupRouted;
    hide IsChannelRouted;
    hide IsValidPublicKey;
    NeverBlank(kind, Rooms.NO_ROOMS, steps);
    HubDelivery.RoomMessageReachesMembers(s, e, key, members, faults);
  }
}

/**
 Groups and channels: who may do what, and who owns the room
 (mess/main.go:103-163, 165-431, 450-747, 748-1056; mess/db.go:670-726, 794-893 and 895-1268).

 One model serves both kinds.  A channel calls its base role "subscriber" and adds "poster".
 */
module Rooms {
  import opened Wrappers
  import opened Text
  import opened Envelopes
  import opened RoomNames

  datatype Kind = Group | Channel

  datatype Role = Owner | Admin | Poster | Member

  datatype Digest = Sha256(text: string)

  datatype Link = Link(room: string, expiresAt: Option<int>, maxUses: Option<int>, uses: nat,
                       password: Option<Digest>, revoked: bool)

  /** The metadata table with its owner column, the membership table and the invite links. */
  datatype Tables = Tables(meta: map<string, string>, rows: map<(string, string), Role>, links: map<string, Link>)

  const NO_ROOMS := Tables(map[], map[], map[])

  datatype Status = Done | BadRequest | Forbidden | NotFound | Gone | Unauthorized | ServerError

  /** What a signed-in user asks of the server. */
  datatype Request =
    | Create(id: string, title: string, members: seq<string>)
    | Transfer(room: string, newOwner: string)
    | LeaveOrDelete(room: string)
    | AddMember(room: string, target: string)
    | ChangeRole(room: string, target: string, role: string)
    | RemoveMember(room: string, target: string)
    | CreateLink(room: string, token: string, ttlMinutes: int, maxUses: int, password: string, now: int)
    | RevokeLink(room: string, token: string)
    | Join(token: string, password: string, now: int)

  function Rank(role: Role): nat {
    match role
    case Owner => 3
    case Admin => 2
    case Poster => 1
    case Member => 0
  }

  /** The roles that a role change may name. */
  function Assignable(kind: Kind, text: string): Option<Role> {
    if text == "admin" then Some(Admin)
    else if kind == Group && text == "member" then Some(Member)
    else if kind == Channel && text == "poster" then Some(Poster)
    else if kind == Channel && text == "subscriber" then Some(Member)
    else None
  }

  predicate IsModerator(t: Tables, room: string, key: string) {
    (room, key) in t.rows && t.rows[(room, key)] in {Owner, Admin}
  }

  predicate IsOwner(t: Tables, room: string, key: string) {
    (room, key) in t.rows && t.rows[(room, key)] == Owner
  }

  // ----- the statements run on the tables -----

  /** One membership row for each new, non-blank name. */
  function Enrolled(rows: map<(string, string), Role>, id: string, seen: set<string>, members: seq<string>)
    : map<(string, string), Role>
    decreases |members|
  {
    if members == [] then rows
    else
      var member := Trim(members[0]);
      if member == "" || member in seen then Enrolled(rows, id, seen, members[1..])
      else Enrolled(rows[(id, member) := Member], id, seen + {member}, members[1..])
  }

  function InsertOrIgnore(rows: map<(string, string), Role>, room: string, key: string): map<(string, string), Role> {
    if (room, key) in rows then rows else rows[(room, key) := Member]
  }

  /** The metadata row is moved only if it names the old owner; then both membership rows change. */
  function Transferred(t: Tables, room: string, old_: string, new_: string): Tables {
    var meta := if room in t.meta && t.meta[room] == old_ then t.meta[room := new_] else t.meta;
    var demoted := if IsOwner(t, room, old_) then t.rows[(room, old_) := Admin] else t.rows;
    var rows := if (room, new_) in demoted then demoted[(room, new_) := Owner] else demoted;
    t.(meta := meta, rows := rows)
  }

  /** Deleting the metadata row takes the room's members and links with it. */
  function Deleted(t: Tables, room: string, owner: string): Tables {
    if room in t.meta && t.meta[room] == owner then
      Tables(t.meta - {room},
             map key | key in t.rows && key.0 != room :: t.rows[key],
             map token | token in t.links && t.links[token].room != room :: t.links[token])
    else t
  }

  // ----- the routes -----

  function Created(kind: Kind, t: Tables, actor: string, r: Request): (Tables, Status)
    requires r.Create?
  {
    if Trim(r.title) == "" then (t, BadRequest)
    else
      match kind
      case Group =>
        (match Sanitized(r.members, {actor}, [])
         case Failure(_) => (t, BadRequest)
         case Success(members) =>
           var owner := Trim(actor);
           if r.id in t.meta || (r.id, owner) in t.rows then (t, ServerError)
           else (t.(meta := t.meta[r.id := owner],
                    rows := Enrolled(t.rows[(r.id, owner) := Owner], r.id, {owner}, members)), Done))
      case Channel =>
        if r.id in t.meta || (r.id, actor) in t.rows then (t, ServerError)
        else (t.(meta := t.meta[r.id := actor], rows := t.rows[(r.id, actor) := Owner]), Done)
  }

  function TransferHandled(t: Tables, actor: string, r: Request): (Tables, Status)
    requires r.Transfer?
  {
    var target := Trim(r.newOwner);
    if !IsOwner(t, r.room, actor) then (t, Forbidden)
    else if !IsValidPublicKey(target) || target == actor then (t, BadRequest)
    else if (r.room, target) !in t.rows then (t, NotFound)
    else if t.rows[(r.room, target)] == Owner then (t, BadRequest)
    else (Transferred(t, r.room, actor, target), Done)
  }

  function LeaveHandled(t: Tables, actor: string, r: Request): (Tables, Status)
    requires r.LeaveOrDelete?
  {
    if (r.room, actor) !in t.rows then (t, Forbidden)
    else if IsOwner(t, r.room, actor) then (Deleted(t, r.room, actor), Done)
    else (t.(rows := t.rows - {(r.room, actor)}), Done)
  }

  function AddHandled(t: Tables, actor: string, r: Request): (Tables, Status)
    requires r.AddMember?
  {
    var target := Trim(r.target);
    if !IsModerator(t, r.room, actor) then (t, Forbidden)
    else if !IsValidPublicKey(target) then (t, BadRequest)
    else if r.room !in t.meta then (t, ServerError)
    else (t.(rows := InsertOrIgnore(t.rows, r.room, target)), Done)
  }

  function ChangeHandled(kind: Kind, t: Tables, actor: string, r: Request): (Tables, Status)
    requires r.ChangeRole?
  {
    var target := Trim(r.target);
    var role := Assignable(kind, Trim(r.role));
    if !IsOwner(t, r.room, actor) then (t, Forbidden)
    else if !IsValidPublicKey(target) || target == actor || role.None? then (t, BadRequest)
    else if (r.room, target) !in t.rows then (t, NotFound)
    else if t.rows[(r.room, target)] == Owner then (t, BadRequest)
    else (t.(rows := t.rows[(r.room, target) := role.value]), Done)
  }

  predicate AdminMayRemove(kind: Kind, role: Role) {
    role == Member || (kind == Channel && role == Poster)
  }

  function RemoveHandled(kind: Kind, t: Tables, actor: string, r: Request): (Tables, Status)
    requires r.RemoveMember?
  {
    var target := Trim(r.target);
    if (r.room, actor) !in t.rows then (t, Forbidden)
    else if !IsValidPublicKey(target) then (t, BadRequest)
    else if (r.room, target) !in t.rows then (t, NotFound)
    else if t.rows[(r.room, target)] == Owner then (t, BadRequest)
    else if !IsModerator(t, r.room, actor) then (t, Forbidden)
    else if t.rows[(r.room, actor)] == Admin && !AdminMayRemove(kind, t.rows[(r.room, target)]) then (t, Forbidden)
    else (t.(rows := t.rows - {(r.room, target)}), Done)
  }

  function LinkCreated(t: Tables, actor: string, r: Request): (Tables, Status)
    requires r.CreateLink?
  {
    var room := Trim(r.room);
    if room == "" then (t, BadRequest)
    else if !IsModerator(t, room, actor) then (t, Forbidden)
    else if r.token in t.links || room !in t.meta then (t, ServerError)
    else
      var link := Link(room,
                       if r.ttlMinutes > 0 then Some(r.now + 60 * r.ttlMinutes) else None,
                       if r.maxUses > 0 then Some(r.maxUses) else None,
                       0,
                       if Trim(r.password) == "" then None else Some(Sha256(Trim(r.password))),
                       false);
      (t.(links := t.links[r.token := link]), Done)
  }

  function LinkRevoked(t: Tables, actor: string, r: Request): (Tables, Status)
    requires r.RevokeLink?
  {
    var room, token := Trim(r.room), Trim(r.token);
    if room == "" || token == "" then (t, BadRequest)
    else if !IsModerator(t, room, actor) then (t, Forbidden)
    else if token in t.links && t.links[token].room == room
    then (t.(links := t.links[token := t.links[token].(revoked := true)]), Done)
    else (t, Done)
  }

  /** Why a link cannot be used, if it cannot. */
  function LinkRefusal(link: Link, password: string, now: int): Option<Status> {
    if link.revoked then Some(Gone)
    else if link.expiresAt.Some? && now > link.expiresAt.value then Some(Gone)
    else if link.maxUses.Some? && link.uses >= link.maxUses.value then Some(Gone)
    else if link.password.Some? && Trim(password) == "" then Some(Unauthorized)
    else if link.password.Some? && Sha256(Trim(password)) != link.password.value then Some(Forbidden)
    else None
  }

  function Joined(t: Tables, actor: string, r: Request): (Tables, Status)
    requires r.Join?
  {
    var token := Trim(r.token);
    if token == "" then (t, BadRequest)
    else if token !in t.links then (t, NotFound)
    else
      var link := t.links[token];
      var refusal := LinkRefusal(link, r.password, r.now);
      if refusal.Some? then (t, refusal.value)
      else if link.room !in t.meta then (t, ServerError)
      else (t.(rows := InsertOrIgnore(t.rows, link.room, actor),
               links := t.links[token := link.(uses := link.uses + 1)]), Done)
  }

  function Handled(kind: Kind, t: Tables, actor: string, r: Request): (Tables, Status) {
    match r
    case Create(_, _, _) => Created(kind, t, actor, r)
    case Transfer(_, _) => TransferHandled(t, actor, r)
    case LeaveOrDelete(_) => LeaveHandled(t, actor, r)
    case AddMember(_, _) => AddHandled(t, actor, r)
    case ChangeRole(_, _, _) => ChangeHandled(kind, t, actor, r)
    case RemoveMember(_, _) => RemoveHandled(kind, t, actor, r)
    case CreateLink(_, _, _, _, _, _) => LinkCreated(t, actor, r)
    case RevokeLink(_, _) => LinkRevoked(t, actor, r)
    case Join(_, _, _) => Joined(t, actor, r)
  }

  class RoomTables {
    const kind: Kind
    var meta: map<string, string>
    var rows: map<(string, string), Role>
    var links: map<string, Link>

    constructor (kind: Kind)
      ensures State() == NO_ROOMS && this.kind == kind
    {
      this.kind := kind;
      meta, rows, links := map[], map[], map[];
    }

    ghost function State(): Tables
      reads this
    {
      Tables(meta, rows, links)
    }

    method PostGroup(actor: string, id: string, title: string, rawMembers: seq<string>) returns (status: Status)
      requires kind == Group
      modifies this
      ensures (State(), status) == Handled(kind, old(State()), actor, Create(id, title, rawMembers))
    {
      if Trim(title) == "" {
        return BadRequest;
      }
      var sanitized := SanitizeMemberPubKeys(rawMembers, actor);
      if sanitized.Failure? {
        return BadRequest;
      }
      var members, owner := sanitized.value, Trim(actor);
      if id in meta || (id, owner) in rows {
        return ServerError;
      }
      meta := meta[id := owner];
      rows := rows[(id, owner) := Owner];
      var seen := {owner};
      ghost var all := Enrolled(rows, id, seen, members);
      for i := 0 to |members|
        invariant Enrolled(rows, id, seen, members[i..]) == all
        invariant meta == old(meta)[id := owner] && links == old(links)
      {
        var member := Trim(members[i]);
        if member == "" || member in seen {
          continue;
        }
        seen := seen + {member};
        rows := rows[(id, member) := Member];
      }
      status := Done;
    }

    method PostChannel(actor: string, id: string, title: string) returns (status: Status)
      requires kind == Channel
      modifies this
      ensures (State(), status) == Handled(kind, old(State()), actor, Create(id, title, []))
    {
      if Trim(title) == "" {
        return BadRequest;
      }
      if id in meta || (id, actor) in rows {
        return ServerError;
      }
      meta := meta[id := actor];
      rows := rows[(id, actor) := Owner];
      status := Done;
    }

    method TransferOwnership(actor: string, room: string, newOwner: string) returns (status: Status)
      modifies this
      ensures (State(), status) == Handled(kind, old(State()), actor, Transfer(room, newOwner))
    {
      if (room, actor) !in rows || rows[(room, actor)] != Owner {
        return Forbidden;
      }
      var target := Trim(newOwner);
      if !IsValidPublicKey(target) || target == actor {
        return BadRequest;
      }
      if (room, target) !in rows {
        return NotFound;
      }
      if rows[(room, target)] == Owner {
        return BadRequest;
      }
      if room in meta && meta[room] == actor {
        meta := meta[room := target];
      }
      rows := rows[(room, actor) := Admin];
      rows := rows[(room, target) := Owner];
      status := Done;
    }

    method DeleteRoom(actor: string, room: string) returns (status: Status)
      modifies this
      ensures (State(), status) == Handled(kind, old(State()), actor, LeaveOrDelete(room))
    {
      if (room, actor) !in rows {
        return Forbidden;
      }
      if rows[(room, actor)] == Owner {
        if room in meta && meta[room] == actor {
          meta := meta - {room};
          rows := map key | key in rows && key.0 != room :: rows[key];
          links := map token | token in links && links[token].room != room :: links[token];
        }
      } else {
        rows := rows - {(room, actor)};
      }
      status := Done;
    }

    method PostMember(actor: string, room: string, rawTarget: string) returns (status: Status)
      modifies this
      ensures (State(), status) == Handled(kind, old(State()), actor, AddMember(room, rawTarget))
    {
      if (room, actor) !in rows || (rows[(room, actor)] != Owner && rows[(room, actor)] != Admin) {
        return Forbidden;
      }
      var target := Trim(rawTarget);
      if !IsValidPublicKey(target) {
        return BadRequest;
      }
      if room !in meta {
        return ServerError;
      }
      if (room, target) !in rows {
        rows := rows[(room, target) := Member];
      }
      status := Done;
    }

    method PatchMember(actor: string, room: string, rawTarget: string, rawRole: string) returns (status: Status)
      modifies this
      ensures (State(), status) == Handled(kind, old(State()), actor, ChangeRole(room, rawTarget, rawRole))
    {
      if (room, actor) !in rows || rows[(room, actor)] != Owner {
        return Forbidden;
      }
      var target, role := Trim(rawTarget), Assignable(kind, Trim(rawRole));
      if !IsValidPublicKey(target) || target == actor || role.None? {
        return BadRequest;
      }
      if (room, target) !in rows {
        return NotFound;
      }
      if rows[(room, target)] == Owner {
        return BadRequest;
      }
      rows := rows[(room, target) := role.value];
      status := Done;
    }

    method DeleteMember(actor: string, room: string, rawTarget: string) returns (status: Status)
      modifies this
      ensures (State(), status) == Handled(kind, old(State()), actor, RemoveMember(room, rawTarget))
    {
      if (room, actor) !in rows {
        return Forbidden;
      }
      var role, target := rows[(room, actor)], Trim(rawTarget);
      if !IsValidPublicKey(target) {
        return BadRequest;
      }
      if (room, target) !in rows {
        return NotFound;
      }
      var targetRole := rows[(room, target)];
      if targetRole == Owner {
        return BadRequest;
      }
      if role == Admin && targetRole != Member && !(kind == Channel && targetRole == Poster) {
        return Forbidden;
      }
      if role != Owner && role != Admin {
        return Forbidden;
      }
      rows := rows - {(room, target)};
      status := Done;
    }

    method PostLink(actor: string, rawRoom: string, token: string, ttlMinutes: int, maxUses: int, password: string,
                    now: int)
      returns (status: Status)
      modifies this
      ensures (State(), status)
           == Handled(kind, old(State()), actor, CreateLink(rawRoom, token, ttlMinutes, maxUses, password, now))
    {
      var room := Trim(rawRoom);
      if room == "" {
        return BadRequest;
      }
      if (room, actor) !in rows || (rows[(room, actor)] != Owner && rows[(room, actor)] != Admin) {
        return Forbidden;
      }
      if token in links || room !in meta {
        return ServerError;
      }
      links := links[token := Link(room,
                                   if ttlMinutes > 0 then Some(now + 60 * ttlMinutes) else None,
                                   if maxUses > 0 then Some(maxUses) else None,
                                   0,
                                   if Trim(password) == "" then None else Some(Sha256(Trim(password))),
                                   false)];
      status := Done;
    }

    method DeleteLink(actor: string, rawRoom: string, rawToken: string) returns (status: Status)
      modifies this
      ensures (State(), status) == Handled(kind, old(State()), actor, RevokeLink(rawRoom, rawToken))
    {
      var room, token := Trim(rawRoom), Trim(rawToken);
      if room == "" || token == "" {
        return BadRequest;
      }
      if (room, actor) !in rows || (rows[(room, actor)] != Owner && rows[(room, actor)] != Admin) {
        return Forbidden;
      }
      if token in links && links[token].room == room {
        links := links[token := links[token].(revoked := true)];
      }
      status := Done;
    }

    method JoinByInviteToken(actor: string, rawToken: string, password: string, now: int) returns (status: Status)
      modifies this
      ensures (State(), status) == Handled(kind, old(State()), actor, Join(rawToken, password, now))
    {
      var token := Trim(rawToken);
      if token == "" {
        return BadRequest;
      }
      if token !in links {
        return NotFound;
      }
      var link := links[token];
      var refusal := LinkRefusal(link, password, now);
      if refusal.Some? {
        return refusal.value;
      }
      if link.room !in meta {
        return ServerError;
      }
      if (link.room, actor) !in rows {
        rows := rows[(link.room, actor) := Member];
      }
      links := links[token := link.(uses := link.uses + 1)];
      status := Done;
    }
  }

  // ----- one owner, always -----

  /** Each room's recorded owner holds its only owner row; rows and links belong to existing rooms. */
  ghost predicate Sound(t: Tables) {
    && (forall id :: id in t.meta ==> IsOwner(t, id, t.meta[id]))
    && (forall key :: key in t.rows ==> key.0 in t.meta)
    && (forall key :: key in t.rows && t.rows[key] == Owner ==> t.meta[key.0] == key.1)
    && (forall token :: token in t.links ==> t.links[token].room in t.meta)
  }

  ghost function OwnersOf(t: Tables, room: string): set<string> {
    set key | key in t.rows && key.0 == room && t.rows[key] == Owner :: key.1
  }

  lemma SoundMeansOneOwner(t: Tables, room: string)
    requires Sound(t) && room in t.meta
    ensures OwnersOf(t, room) == {t.meta[room]}
  {
    assert t.rows[(room, t.meta[room])] == Owner;
  }

  /** Enrolling adds base-role rows to the new room only, one for each new name. */
  lemma {:induction false} EnrolledAdds(rows: map<(string, string), Role>, id: string, seen: set<string>,
                                        members: seq<string>)
    ensures var all := Enrolled(rows, id, seen, members);
            && (forall key :: key in rows && (key.0 != id || key.1 in seen) ==> key in all && all[key] == rows[key])
            && (forall key :: key in all && (key.0 != id || key.1 in seen) ==> key in rows)
            && (forall key :: key in all && key !in rows ==>
                  all[key] == Member && key.0 == id && key.1 in Named(members))
            && (forall m :: m in Named(members) - seen ==> (id, m) in all && all[(id, m)] == Member)
    decreases |members|
  {
    hide Trim;
    hide Named;
    if members != [] {
      var member := Trim(members[0]);
      NamedSplits(members);
      if member == "" || member in seen {
        EnrolledAdds(rows, id, seen, members[1..]);
      } else {
        EnrolledAdds(rows[(id, member) := Member], id, seen + {member}, members[1..]);
      }
    } else {
      NobodyIsNamed();
    }
  }

  lemma NobodyIsNamed()
    ensures Named([]) == {}
  {
  }

  lemma CreatingKeepsSound(kind: Kind, t: Tables, actor: string, r: Request)
    requires Sound(t) && r.Create?
    ensures Sound(Created(kind, t, actor, r).0)
  {
    hide Sanitized;
    hide IsValidPublicKey;
    hide Trim;
    hide Enrolled;
    var (t', status) := Created(kind, t, actor, r);
    if status == Done && kind == Group {
      var owner, members := Trim(actor), Sanitized(r.members, {actor}, []).value;
      EnrolledAdds(t.rows[(r.id, owner) := Owner], r.id, {owner}, members);
      EnrolledKeepsSound(t, t', r.id, owner);
    }
  }

  lemma EnrolledKeepsSound(t: Tables, t': Tables, id: string, owner: string)
    requires Sound(t) && id !in t.meta && t'.meta == t.meta[id := owner] && t'.links == t.links
    requires forall key :: key in t.rows ==> key in t'.rows && t'.rows[key] == t.rows[key]
    requires (id, owner) in t'.rows && t'.rows[(id, owner)] == Owner
    requires forall key :: key in t'.rows && key !in t.rows ==>
               key.0 == id && (key.1 == owner || t'.rows[key] == Member)
    ensures Sound(t')
  {
    forall room | room in t'.meta
      ensures IsOwner(t', room, t'.meta[room])
    {
      assert room != id ==> IsOwner(t, room, t.meta[room]);
    }
  }

  /** A group's creator owns it exactly when the creator's key has no blank ends: the owner is stored trimmed. */
  lemma CreatorOwnsGroupExactlyWhen(t: Tables, actor: string, r: Request)
    requires Sound(t) && r.Create? && Created(Group, t, actor, r).1 == Done
    ensures IsOwner(Created(Group, t, actor, r).0, r.id, actor) <==> Trim(actor) == actor
  {
    hide Sanitized;
    hide IsValidPublicKey;
    hide Trim;
    hide Enrolled;
    var owner, members := Trim(actor), Sanitized(r.members, {actor}, []).value;
    EnrolledAdds(t.rows[(r.id, owner) := Owner], r.id, {owner}, members);
  }

  /** Some accepted keys do not own the group they create: any key followed by a line break. */
  lemma CreatorMayNotOwn(key: string)
    requires IsValidPublicKey(key)
    ensures var actor := key + "\n";
            var (t, status) := Created(Group, NO_ROOMS, actor, Create("g", "t", []));
            IsValidPublicKey(actor) && status == Done && !IsOwner(t, "g", actor)
  {
    hide IsValidPublicKey;
    hide Trim;
    ValidKeysMayHaveBlankEnds(key);
    TrimKeeps("t");
    CreatorOwnsGroupExactlyWhen(NO_ROOMS, key + "\n", Create("g", "t", []));
  }

  lemma TransferringKeepsSound(t: Tables, actor: string, r: Request)
    requires Sound(t) && r.Transfer?
    ensures Sound(TransferHandled(t, actor, r).0)
  {
    hide IsValidPublicKey;
    hide Trim;
  }

  lemma LeavingKeepsSound(t: Tables, actor: string, r: Request)
    requires Sound(t) && r.LeaveOrDelete?
    ensures Sound(LeaveHandled(t, actor, r).0)
  {
    var t' := LeaveHandled(t, actor, r).0;
    forall room | room in t'.meta
      ensures IsOwner(t', room, t'.meta[room])
    {
      assert IsOwner(t, room, t.meta[room]);
    }
  }

  /** Rows and links of existing rooms may come and go as long as no owner's row does. */
  lemma RowsKeepSound(t: Tables, t': Tables)
    requires Sound(t) && t'.meta == t.meta
    requires forall key :: key in t'.rows ==> key.0 in t.meta
    requires forall key :: key in t.rows && t.rows[key] == Owner ==> key in t'.rows && t'.rows[key] == Owner
    requires forall key :: key in t'.rows && t'.rows[key] == Owner ==> key in t.rows && t.rows[key] == Owner
    requires forall token :: token in t'.links ==> t'.links[token].room in t.meta
    ensures Sound(t')
  {
    forall room | room in t'.meta
      ensures IsOwner(t', room, t'.meta[room])
    {
      assert IsOwner(t, room, t.meta[room]);
    }
  }

  lemma InsertingKeepsSound(t: Tables, room: string, key: string)
    requires Sound(t) && room in t.meta
    ensures Sound(t.(rows := InsertOrIgnore(t.rows, room, key)))
  {
    RowsKeepSound(t, t.(rows := InsertOrIgnore(t.rows, room, key)));
  }

  lemma DroppingKeepsSound(t: Tables, key: (string, string))
    requires Sound(t) && key in t.rows && t.rows[key] != Owner
    ensures Sound(t.(rows := t.rows - {key}))
  {
    RowsKeepSound(t, t.(rows := t.rows - {key}));
  }

  lemma RelinkingKeepsSound(t: Tables, token: string, link: Link)
    requires Sound(t) && link.room in t.meta
    ensures Sound(t.(links := t.links[token := link]))
  {
    RowsKeepSound(t, t.(links := t.links[token := link]));
  }

  lemma AddingKeepsSound(t: Tables, actor: string, r: Request)
    requires Sound(t) && r.AddMember?
    ensures Sound(AddHandled(t, actor, r).0)
  {
    hide Sound;
    hide IsModerator;
    hide InsertOrIgnore;
    hide IsValidPublicKey;
    hide Trim;
    if r.room in t.meta {
      InsertingKeepsSound(t, r.room, Trim(r.target));
    }
  }

  lemma ChangingKeepsSound(kind: Kind, t: Tables, actor: string, r: Request)
    requires Sound(t) && r.ChangeRole?
    ensures Sound(ChangeHandled(kind, t, actor, r).0)
  {
    hide IsValidPublicKey;
    hide Trim;
    hide Assignable;
    AssignedIsNotOwner(kind, Trim(r.role));
    RowsKeepSound(t, ChangeHandled(kind, t, actor, r).0);
  }

  lemma RemovingKeepsSound(kind: Kind, t: Tables, actor: string, r: Request)
    requires Sound(t) && r.RemoveMember?
    ensures Sound(RemoveHandled(kind, t, actor, r).0)
  {
    hide Sound;
    hide IsModerator;
    hide AdminMayRemove;
    hide IsValidPublicKey;
    hide Trim;
    var key := (r.room, Trim(r.target));
    if key in t.rows && t.rows[key] != Owner {
      DroppingKeepsSound(t, key);
    }
  }

  lemma AssignedIsNotOwner(kind: Kind, text: string)
    ensures Assignable(kind, text) != Some(Owner)
  {
  }

  lemma LinkingKeepsSound(t: Tables, actor: string, r: Request)
    requires Sound(t) && r.CreateLink?
    ensures Sound(LinkCreated(t, actor, r).0)
  {
    hide Trim;
    hide IsModerator;
    RowsKeepSound(t, LinkCreated(t, actor, r).0);
  }

  lemma RevokingKeepsSound(t: Tables, actor: string, r: Request)
    requires Sound(t) && r.RevokeLink?
    ensures Sound(LinkRevoked(t, actor, r).0)
  {
    hide Trim;
    hide IsModerator;
    RowsKeepSound(t, LinkRevoked(t, actor, r).0);
  }

  lemma JoiningKeepsSound(t: Tables, actor: string, r: Request)
    requires Sound(t) && r.Join?
    ensures Sound(Joined(t, actor, r).0)
  {
    hide Sound;
    hide InsertOrIgnore;
    hide Trim;
    hide LinkRefusal;
    var token := Trim(r.token);
    if token in t.links && t.links[token].room in t.meta {
      var link := t.links[token];
      InsertingKeepsSound(t, link.room, actor);
      RelinkingKeepsSound(t.(rows := InsertOrIgnore(t.rows, link.room, actor)), token,
                          link.(uses := link.uses + 1));
    }
  }

  lemma RequestKeepsSound(kind: Kind, t: Tables, actor: string, r: Request)
    requires Sound(t)
    ensures Sound(Handled(kind, t, actor, r).0)
  {
    hide Sound;
    match r
    case Create(_, _, _) => CreatingKeepsSound(kind, t, actor, r);
    case Transfer(_, _) => TransferringKeepsSound(t, actor, r);
    case LeaveOrDelete(_) => LeavingKeepsSound(t, actor, r);
    case AddMember(_, _) => AddingKeepsSound(t, actor, r);
    case ChangeRole(_, _, _) => ChangingKeepsSound(kind, t, actor, r);
    case RemoveMember(_, _) => RemovingKeepsSound(kind, t, actor, r);
    case CreateLink(_, _, _, _, _, _) => LinkingKeepsSound(t, actor, r);
    case RevokeLink(_, _) => RevokingKeepsSound(t, actor, r);
    case Join(_, _, _) => JoiningKeepsSound(t, actor, r);
  }

  datatype Step = Step(actor: string, request: Request)

  function After(kind: Kind, t: Tables, steps: seq<Step>): Tables
    decreases |steps|
  {
    if steps == [] then t else After(kind, Handled(kind, t, steps[0].actor, steps[0].request).0, steps[1..])
  }

  lemma {:induction false} SoundAfter(kind: Kind, t: Tables, steps: seq<Step>)
    requires Sound(t)
    ensures Sound(After(kind, t, steps))
    decreases |steps|
  {
    hide Sound;
    hide Handled;
    if steps != [] {
      RequestKeepsSound(kind, t, steps[0].actor, steps[0].request);
      SoundAfter(kind, Handled(kind, t, steps[0].actor, steps[0].request).0, steps[1..]);
    }
  }

  /** After any requests, one at a time, each room has exactly one owner row: its recorded owner's. */
  lemma AlwaysOneOwner(kind: Kind, steps: seq<Step>, room: string)
    requires room in After(kind, NO_ROOMS, steps).meta
    ensures var t := After(kind, NO_ROOMS, steps); OwnersOf(t, room) == {t.meta[room]}
  {
    hide OwnersOf;
    SoundAfter(kind, NO_ROOMS, steps);
    SoundMeansOneOwner(After(kind, NO_ROOMS, steps), room);
  }

  // ----- who may change what -----

  function RankIn(t: Tables, key: (string, string)): nat
    requires key in t.rows
  {
    Rank(t.rows[key])
  }

  predicate IsRecordedOwner(t: Tables, room: string, key: string) {
    room in t.meta && t.meta[room] == key
  }

  /** What one row may become by one step of `actor`. */
  ghost predicate RowMayBecome(t: Tables, t': Tables, actor: string, key: (string, string)) {
    && (key in t.rows && key in t'.rows && t.rows[key] != t'.rows[key] ==> IsRecordedOwner(t, key.0, actor))
    && (key in t.rows && key !in t'.rows ==>
          || actor == key.1
          || IsRecordedOwner(t, key.0, actor)
          || ((key.0, actor) in t.rows && RankIn(t, (key.0, actor)) == Rank(Admin) && RankIn(t, key) < Rank(Admin)))
    && (key !in t.rows && key in t'.rows && key.0 in t.meta ==>
          t'.rows[key] == Member && (IsModerator(t, key.0, actor) || actor == key.1))
  }

  /** The recorded owner of a surviving room changes only by its owner's step, to one of its members. */
  ghost predicate OwnerMayBecome(t: Tables, t': Tables, actor: string, room: string) {
    room in t.meta && room in t'.meta && t'.meta[room] != t.meta[room] ==>
      t.meta[room] == actor && (room, t'.meta[room]) in t.rows
  }

  ghost predicate Authorized(t: Tables, t': Tables, actor: string, key: (string, string)) {
    RowMayBecome(t, t', actor, key) && OwnerMayBecome(t, t', actor, key.0)
  }

  lemma CreatingIsAuthorized(kind: Kind, t: Tables, actor: string, r: Request, key: (string, string))
    requires Sound(t) && r.Create?
    ensures Authorized(t, Created(kind, t, actor, r).0, actor, key)
  {
    hide Sanitized;
    hide IsValidPublicKey;
    hide Trim;
    hide Enrolled;
    var status := Created(kind, t, actor, r).1;
    if status == Done && kind == Group {
      var owner, members := Trim(actor), Sanitized(r.members, {actor}, []).value;
      EnrolledAdds(t.rows[(r.id, owner) := Owner], r.id, {owner}, members);
    }
  }

  lemma TransferringIsAuthorized(t: Tables, actor: string, r: Request, key: (string, string))
    requires Sound(t) && r.Transfer?
    ensures Authorized(t, TransferHandled(t, actor, r).0, actor, key)
  {
    hide IsValidPublicKey;
    hide Trim;
  }

  lemma LeavingIsAuthorized(t: Tables, actor: string, r: Request, key: (string, string))
    requires Sound(t) && r.LeaveOrDelete?
    ensures Authorized(t, LeaveHandled(t, actor, r).0, actor, key)
  {
  }

  lemma AddingIsAuthorized(t: Tables, actor: string, r: Request, key: (string, string))
    requires Sound(t) && r.AddMember?
    ensures Authorized(t, AddHandled(t, actor, r).0, actor, key)
  {
    hide IsValidPublicKey;
    hide Trim;
  }

  lemma ChangingIsAuthorized(kind: Kind, t: Tables, actor: string, r: Request, key: (string, string))
    requires Sound(t) && r.ChangeRole?
    ensures Authorized(t, ChangeHandled(kind, t, actor, r).0, actor, key)
  {
    hide IsValidPublicKey;
    hide Trim;
    hide Assignable;
  }

  lemma RemovingIsAuthorized(kind: Kind, t: Tables, actor: string, r: Request, key: (string, string))
    requires Sound(t) && r.RemoveMember?
    ensures Authorized(t, RemoveHandled(kind, t, actor, r).0, actor, key)
  {
    hide IsValidPublicKey;
    hide Trim;
  }

  lemma JoiningIsAuthorized(t: Tables, actor: string, r: Request, key: (string, string))
    requires Sound(t) && r.Join?
    ensures Authorized(t, Joined(t, actor, r).0, actor, key)
  {
    hide LinkRefusal;
    hide Trim;
  }

  /** Links alone grant nothing. */
  lemma LinksChangeNoRow(t: Tables, actor: string, r: Request, key: (string, string))
    requires Sound(t) && (r.CreateLink? || r.RevokeLink?)
    ensures r.CreateLink? ==> Authorized(t, LinkCreated(t, actor, r).0, actor, key)
    ensures r.RevokeLink? ==> Authorized(t, LinkRevoked(t, actor, r).0, actor, key)
  {
    hide Trim;
    hide IsModerator;
  }

  /** Roles of members change only by the owner's step; nobody is removed but by themselves or a higher role. */
  lemma StepIsAuthorized(kind: Kind, t: Tables, actor: string, r: Request, key: (string, string))
    requires Sound(t)
    ensures Authorized(t, Handled(kind, t, actor, r).0, actor, key)
  {
    hide Sound;
    hide Authorized;
    match r
    case Create(_, _, _) => CreatingIsAuthorized(kind, t, actor, r, key);
    case Transfer(_, _) => TransferringIsAuthorized(t, actor, r, key);
    case LeaveOrDelete(_) => LeavingIsAuthorized(t, actor, r, key);
    case AddMember(_, _) => AddingIsAuthorized(t, actor, r, key);
    case ChangeRole(_, _, _) => ChangingIsAuthorized(kind, t, actor, r, key);
    case RemoveMember(_, _) => RemovingIsAuthorized(kind, t, actor, r, key);
    case CreateLink(_, _, _, _, _, _) => LinksChangeNoRow(t, actor, r, key);
    case RevokeLink(_, _) => LinksChangeNoRow(t, actor, r, key);
    case Join(_, _, _) => JoiningIsAuthorized(t, actor, r, key);
  }

  /** A member whose role ends higher was raised by a step of whoever owned the room at that moment. */
  lemma {:induction false} RisesOnlyByOwner(kind: Kind, t: Tables, steps: seq<Step>, key: (string, string))
    returns (i: nat)
    requires Sound(t)
    requires forall n :: 0 <= n <= |steps| ==> key in After(kind, t, steps[..n]).rows
    requires key in t.rows && key in After(kind, t, steps).rows
    requires RankIn(t, key) < RankIn(After(kind, t, steps), key)
    ensures i < |steps|
    ensures var before, after := After(kind, t, steps[..i]), After(kind, t, steps[..i + 1]);
            && key.0 in before.meta && steps[i].actor == before.meta[key.0]
            && key in before.rows && key in after.rows && RankIn(before, key) < RankIn(after, key)
    decreases |steps|
  {
    hide Handled;
    hide Sound;
    hide RowMayBecome;
    var next := Handled(kind, t, steps[0].actor, steps[0].request).0;
    assert steps[..1][1..] == [];
    assert After(kind, t, steps[..1]) == next;
    RiseOfOneStep(kind, t, steps[0], key);
    if RankIn(t, key) < RankIn(next, key) {
      i := 0;
    } else {
      RequestKeepsSound(kind, t, steps[0].actor, steps[0].request);
      forall n | 0 <= n <= |steps[1..]|
        ensures key in After(kind, next, steps[1..][..n]).rows
      {
        assert steps[..n + 1][1..] == steps[1..][..n];
      }
      var j := RisesOnlyByOwner(kind, next, steps[1..], key);
      i := j + 1;
      assert steps[..i][1..] == steps[1..][..j] && steps[..i + 1][1..] == steps[1..][..j + 1];
    }
  }

  lemma RiseOfOneStep(kind: Kind, t: Tables, step: Step, key: (string, string))
    requires Sound(t) && key in t.rows
    ensures var next := Handled(kind, t, step.actor, step.request).0;
            key.0 in t.meta && (key in next.rows && next.rows[key] != t.rows[key] ==> t.meta[key.0] == step.actor)
  {
    hide Handled;
    StepIsAuthorized(kind, t, step.actor, step.request, key);
  }

  // ----- invite links -----

  ghost predicate LinksWithinLimit(t: Tables) {
    forall token :: token in t.links && t.links[token].maxUses.Some? ==>
      t.links[token].uses <= t.links[token].maxUses.value
  }

  lemma RequestKeepsLimit(kind: Kind, t: Tables, actor: string, r: Request)
    requires LinksWithinLimit(t)
    ensures LinksWithinLimit(Handled(kind, t, actor, r).0)
  {
    hide Trim;
    hide IsValidPublicKey;
    hide Sanitized;
    hide Enrolled;
  }

  /** No link is ever used more often than its maximum allows. */
  lemma {:induction false} LinksStayWithinLimit(kind: Kind, t: Tables, steps: seq<Step>)
    requires LinksWithinLimit(t)
    ensures LinksWithinLimit(After(kind, t, steps))
    decreases |steps|
  {
    hide Handled;
    hide LinksWithinLimit;
    if steps != [] {
      RequestKeepsLimit(kind, t, steps[0].actor, steps[0].request);
      LinksStayWithinLimit(kind, Handled(kind, t, steps[0].actor, steps[0].request).0, steps[1..]);
    }
  }
}

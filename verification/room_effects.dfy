/**
 What a granted request does to a room, and exactly when it is granted, over the membership rows and the
 links themselves (mess/main.go:103-431 and 748-1056; mess/db.go:670-893 and 1042-1193).
 */
module RoomEffects {
  import opened Wrappers
  import opened Text
  import opened Envelopes
  import opened RoomNames
  import opened Rooms

  ghost predicate HasRole(t: Tables, room: string, key: string, role: Role) {
    (room, key) in t.rows && t.rows[(room, key)] == role
  }

  ghost predicate SameRow(t: Tables, t': Tables, key: (string, string)) {
    (key in t.rows <==> key in t'.rows) && (key in t.rows ==> t'.rows[key] == t.rows[key])
  }

  /** All rows but the named ones are as they were. */
  ghost predicate OnlyRows(t: Tables, t': Tables, keys: set<(string, string)>) {
    forall key :: key !in keys ==> SameRow(t, t', key)
  }

  ghost predicate OnlyRowsOf(t: Tables, t': Tables, room: string) {
    forall key: (string, string) :: key.0 != room ==> SameRow(t, t', key)
  }

  // ----- what each granted request leaves -----

  /** The new room has its owner and the others named, and nobody else. */
  ghost predicate Founded(t: Tables, t': Tables, id: string, owner: string, others: set<string>) {
    && t'.meta == t.meta[id := owner] && t'.links == t.links
    && OnlyRowsOf(t, t', id)
    && HasRole(t', id, owner, Owner)
    && (forall m :: m in others && m != owner ==> HasRole(t', id, m, Member))
    && (forall m :: (id, m) in t'.rows ==> m == owner || m in others)
  }

  ghost predicate HandedOver(t: Tables, t': Tables, room: string, from: string, to: string) {
    && t'.meta == t.meta[room := to] && t'.links == t.links
    && OnlyRows(t, t', {(room, from), (room, to)})
    && HasRole(t', room, from, Admin) && HasRole(t', room, to, Owner)
  }

  ghost predicate Abolished(t: Tables, t': Tables, room: string) {
    && room !in t'.meta && (forall id :: id != room ==> (id in t.meta <==> id in t'.meta))
    && (forall id :: id in t'.meta ==> t'.meta[id] == t.meta[id])
    && OnlyRowsOf(t, t', room) && (forall key :: (room, key) !in t'.rows)
    && (forall token :: token in t'.links <==> token in t.links && t.links[token].room != room)
    && (forall token :: token in t'.links ==> t'.links[token] == t.links[token])
  }

  ghost predicate Dropped(t: Tables, t': Tables, room: string, key: string) {
    t'.meta == t.meta && t'.links == t.links && OnlyRows(t, t', {(room, key)}) && (room, key) !in t'.rows
  }

  /** The key has a row: the one it had, or one with the base role. */
  ghost predicate Admitted(t: Tables, t': Tables, room: string, key: string) {
    && OnlyRows(t, t', {(room, key)})
    && (room, key) in t'.rows
    && t'.rows[(room, key)] == if (room, key) in t.rows then t.rows[(room, key)] else Member
  }

  ghost predicate OnlyLink(t: Tables, t': Tables, token: string) {
    && t'.meta == t.meta && t'.rows == t.rows
    && t'.links.Keys == t.links.Keys + {token}
    && forall other :: other in t.links && other != token ==> t'.links[other] == t.links[other]
  }

  ghost predicate HasEffect(kind: Kind, t: Tables, t': Tables, actor: string, r: Request) {
    match r
    case Create(id, _, members) =>
      if kind == Group then Founded(t, t', id, Trim(actor), Named(members)) else Founded(t, t', id, actor, {})
    case Transfer(room, newOwner) => HandedOver(t, t', room, actor, Trim(newOwner))
    case LeaveOrDelete(room) =>
      if HasRole(t, room, actor, Owner) then Abolished(t, t', room) else Dropped(t, t', room, actor)
    case AddMember(room, target) =>
      t'.meta == t.meta && t'.links == t.links && Admitted(t, t', room, Trim(target))
    case ChangeRole(room, target, role) =>
      && t'.meta == t.meta && t'.links == t.links
      && OnlyRows(t, t', {(room, Trim(target))})
      && (room, Trim(target)) in t'.rows
      && RoleNamed(kind, Trim(role), t'.rows[(room, Trim(target))])
    case RemoveMember(room, target) => Dropped(t, t', room, Trim(target))
    case CreateLink(room, token, ttlMinutes, maxUses, password, now) =>
      && OnlyLink(t, t', token)
      && t'.links[token].room == Trim(room) && t'.links[token].uses == 0 && !t'.links[token].revoked
      && t'.links[token].expiresAt == (if ttlMinutes > 0 then Some(now + 60 * ttlMinutes) else None)
      && t'.links[token].maxUses == (if maxUses > 0 then Some(maxUses) else None)
      && t'.links[token].password == (if Trim(password) == "" then None else Some(Sha256(Trim(password))))
    case RevokeLink(room, token) =>
      if Trim(token) in t.links && t.links[Trim(token)].room == Trim(room)
      then OnlyLink(t, t', Trim(token)) && t'.links[Trim(token)] == t.links[Trim(token)].(revoked := true)
      else t' == t
    case Join(token, _, _) =>
      && Trim(token) in t.links
      && t'.meta == t.meta
      && Admitted(t, t', t.links[Trim(token)].room, actor)
      && t'.links == t.links[Trim(token) := t.links[Trim(token)].(uses := t.links[Trim(token)].uses + 1)]
  }

  ghost predicate RoleNamed(kind: Kind, text: string, role: Role) {
    || (text == "admin" && role == Admin)
    || (kind == Group && text == "member" && role == Member)
    || (kind == Channel && text == "poster" && role == Poster)
    || (kind == Channel && text == "subscriber" && role == Member)
  }

  // ----- exactly when each request is granted -----

  ghost predicate Runs(t: Tables, room: string, key: string) {
    HasRole(t, room, key, Owner) || HasRole(t, room, key, Admin)
  }

  /** The link is neither revoked, nor expired, nor used up, and the password is the one it was made with. */
  ghost predicate LetsIn(link: Link, password: string, now: int) {
    && !link.revoked
    && (link.expiresAt.Some? ==> now <= link.expiresAt.value)
    && (link.maxUses.Some? ==> link.uses < link.maxUses.value)
    && (link.password.Some? ==> Trim(password) != "" && link.password == Some(Sha256(Trim(password))))
  }

  ghost predicate IsGranted(kind: Kind, t: Tables, actor: string, r: Request) {
    match r
    case Create(id, title, members) =>
      && Trim(title) != "" && id !in t.meta
      && (kind == Group ==>
            (forall m :: m in Named(members) ==> IsValidPublicKey(m)) && |Named(members) - {actor}| <= 200)
    case Transfer(room, newOwner) =>
      && HasRole(t, room, actor, Owner) && IsValidPublicKey(Trim(newOwner)) && Trim(newOwner) != actor
      && (room, Trim(newOwner)) in t.rows
    case LeaveOrDelete(room) => (room, actor) in t.rows
    case AddMember(room, target) => Runs(t, room, actor) && IsValidPublicKey(Trim(target))
    case ChangeRole(room, target, role) =>
      && HasRole(t, room, actor, Owner) && IsValidPublicKey(Trim(target)) && Trim(target) != actor
      && (room, Trim(target)) in t.rows
      && exists named :: RoleNamed(kind, Trim(role), named)
    case RemoveMember(room, target) =>
      && IsValidPublicKey(Trim(target)) && (room, Trim(target)) in t.rows
      && (|| (HasRole(t, room, actor, Owner) && !HasRole(t, room, Trim(target), Owner))
          || (HasRole(t, room, actor, Admin)
              && (HasRole(t, room, Trim(target), Member)
                  || (kind == Channel && HasRole(t, room, Trim(target), Poster)))))
    case CreateLink(room, token, _, _, _, _) => Trim(room) != "" && Runs(t, Trim(room), actor) && token !in t.links
    case RevokeLink(room, token) => Trim(room) != "" && Trim(token) != "" && Runs(t, Trim(room), actor)
    case Join(token, password, now) =>
      Trim(token) != "" && Trim(token) in t.links && LetsIn(t.links[Trim(token)], password, now)
  }

  lemma FoundingIsGranted(t: Tables, actor: string, r: Request)
    requires Sound(t) && r.Create?
    ensures Created(Group, t, actor, r).1 == Done <==> IsGranted(Group, t, actor, r)
  {
    hide Sanitized;
    hide IsValidPublicKey;
    hide Trim;
    hide Enrolled;
    hide Named;
    SanitizedIsTheNamedOthers(r.members, actor);
  }

  lemma FoundingHasEffect(t: Tables, actor: string, r: Request)
    requires Sound(t) && r.Create? && Created(Group, t, actor, r).1 == Done
    ensures HasEffect(Group, t, Created(Group, t, actor, r).0, actor, r)
  {
    hide Sanitized;
    hide IsValidPublicKey;
    hide Trim;
    hide Enrolled;
    hide Named;
    var owner, members := Trim(actor), Sanitized(r.members, {actor}, []).value;
    SanitizedIsTheNamedOthers(r.members, actor);
    EnrolledAdds(t.rows[(r.id, owner) := Owner], r.id, {owner}, members);
    NamesAreListed(r.members, members, actor);
  }

  lemma CreatingIsGranted(kind: Kind, t: Tables, actor: string, r: Request)
    requires Sound(t) && r.Create?
    ensures var (t', status) := Created(kind, t, actor, r);
            (status == Done <==> IsGranted(kind, t, actor, r)) && (status == Done ==> HasEffect(kind, t, t', actor, r))
  {
    hide Trim;
    if kind == Group {
      hide Created;
      hide IsGranted;
      hide HasEffect;
      hide Sound;
      FoundingIsGranted(t, actor, r);
      if Created(kind, t, actor, r).1 == Done {
        FoundingHasEffect(t, actor, r);
      }
    }
  }

  /** The cleaned list names whom the raw one names, the creator aside. */
  lemma NamesAreListed(raw: seq<string>, members: seq<string>, actor: string)
    requires forall m :: m in members <==> m in Named(raw) - {actor}
    ensures forall m :: m in Named(raw) && m != Trim(actor) ==> m in Named(members)
    ensures forall m :: m in Named(members) ==> m in Named(raw)
  {
    hide Trim;
    forall m | m in Named(raw) && m != Trim(actor)
      ensures m in Named(members)
    {
      var i :| 0 <= i < |raw| && Trim(raw[i]) != "" && m == Trim(raw[i]);
      TrimTwice(raw[i]);
      assert m in Named(raw) - {actor};
      assert m in members;
      var k :| 0 <= k < |members| && members[k] == m;
      assert Trim(members[k]) == m;
    }
    forall m | m in Named(members)
      ensures m in Named(raw)
    {
      var k :| 0 <= k < |members| && Trim(members[k]) != "" && m == Trim(members[k]);
      assert members[k] in members;
      var i :| 0 <= i < |raw| && Trim(raw[i]) != "" && members[k] == Trim(raw[i]);
      TrimTwice(raw[i]);
    }
  }

  lemma TransferringIsGranted(kind: Kind, t: Tables, actor: string, r: Request)
    requires Sound(t) && r.Transfer?
    ensures var (t', status) := TransferHandled(t, actor, r);
            (status == Done <==> IsGranted(kind, t, actor, r)) && (status == Done ==> HasEffect(kind, t, t', actor, r))
  {
    hide IsValidPublicKey;
    hide Trim;
  }

  lemma LeavingIsGranted(kind: Kind, t: Tables, actor: string, r: Request)
    requires Sound(t) && r.LeaveOrDelete?
    ensures var (t', status) := LeaveHandled(t, actor, r);
            (status == Done <==> IsGranted(kind, t, actor, r)) && (status == Done ==> HasEffect(kind, t, t', actor, r))
  {
  }

  lemma AddingIsGranted(kind: Kind, t: Tables, actor: string, r: Request)
    requires Sound(t) && r.AddMember?
    ensures var (t', status) := AddHandled(t, actor, r);
            (status == Done <==> IsGranted(kind, t, actor, r)) && (status == Done ==> HasEffect(kind, t, t', actor, r))
  {
    hide IsValidPublicKey;
    hide Trim;
  }

  lemma ChangingIsGranted(kind: Kind, t: Tables, actor: string, r: Request)
    requires Sound(t) && r.ChangeRole?
    ensures var (t', status) := ChangeHandled(kind, t, actor, r);
            (status == Done <==> IsGranted(kind, t, actor, r)) && (status == Done ==> HasEffect(kind, t, t', actor, r))
  {
    hide IsValidPublicKey;
    hide Trim;
    hide Assignable;
    RolesAreNamed(kind, Trim(r.role));
  }

  lemma RolesAreNamed(kind: Kind, text: string)
    ensures forall role :: RoleNamed(kind, text, role) <==> Assignable(kind, text) == Some(role)
  {
  }

  lemma RemovingIsGranted(kind: Kind, t: Tables, actor: string, r: Request)
    requires Sound(t) && r.RemoveMember?
    ensures var (t', status) := RemoveHandled(kind, t, actor, r);
            (status == Done <==> IsGranted(kind, t, actor, r)) && (status == Done ==> HasEffect(kind, t, t', actor, r))
  {
    hide IsValidPublicKey;
    hide Trim;
  }

  lemma LinkingIsGranted(kind: Kind, t: Tables, actor: string, r: Request)
    requires Sound(t) && r.CreateLink?
    ensures var (t', status) := LinkCreated(t, actor, r);
            (status == Done <==> IsGranted(kind, t, actor, r)) && (status == Done ==> HasEffect(kind, t, t', actor, r))
  {
    hide Trim;
  }

  lemma RevokingIsGranted(kind: Kind, t: Tables, actor: string, r: Request)
    requires Sound(t) && r.RevokeLink?
    ensures var (t', status) := LinkRevoked(t, actor, r);
            (status == Done <==> IsGranted(kind, t, actor, r)) && (status == Done ==> HasEffect(kind, t, t', actor, r))
  {
    hide Trim;
  }

  lemma JoiningIsGranted(kind: Kind, t: Tables, actor: string, r: Request)
    requires Sound(t) && r.Join?
    ensures var (t', status) := Joined(t, actor, r);
            (status == Done <==> IsGranted(kind, t, actor, r)) && (status == Done ==> HasEffect(kind, t, t', actor, r))
  {
    hide Trim;
  }

  /** Every request is granted exactly when it may be, and then has its effect; otherwise it changes nothing. */
  lemma GrantedExactlyWhen(kind: Kind, t: Tables, actor: string, r: Request)
    requires Sound(t)
    ensures var (t', status) := Handled(kind, t, actor, r);
            && (status == Done <==> IsGranted(kind, t, actor, r))
            && (if status == Done then HasEffect(kind, t, t', actor, r) else t' == t)
  {
    hide Sound;
    hide HasEffect;
    hide IsGranted;
    RefusingChangesNothing(kind, t, actor, r);
    match r
    case Create(_, _, _) => CreatingIsGranted(kind, t, actor, r);
    case Transfer(_, _) => TransferringIsGranted(kind, t, actor, r);
    case LeaveOrDelete(_) => LeavingIsGranted(kind, t, actor, r);
    case AddMember(_, _) => AddingIsGranted(kind, t, actor, r);
    case ChangeRole(_, _, _) => ChangingIsGranted(kind, t, actor, r);
    case RemoveMember(_, _) => RemovingIsGranted(kind, t, actor, r);
    case CreateLink(_, _, _, _, _, _) => LinkingIsGranted(kind, t, actor, r);
    case RevokeLink(_, _) => RevokingIsGranted(kind, t, actor, r);
    case Join(_, _, _) => JoiningIsGranted(kind, t, actor, r);
  }

  lemma RefusingChangesNothing(kind: Kind, t: Tables, actor: string, r: Request)
    ensures Handled(kind, t, actor, r).1 != Done ==> Handled(kind, t, actor, r).0 == t
  {
    hide Trim;
    hide IsValidPublicKey;
    hide Sanitized;
    hide Enrolled;
  }

  /** The answer that the asker may not do this, exactly when they lack the role for it. */
  lemma ForbiddenExactlyWhen(kind: Kind, t: Tables, actor: string, r: Request)
    requires Sound(t) && !r.Join?
    ensures Handled(kind, t, actor, r).1 == Forbidden <==>
              match r
              case Create(_, _, _) => false
              case Transfer(room, _) => !HasRole(t, room, actor, Owner)
              case LeaveOrDelete(room) => (room, actor) !in t.rows
              case AddMember(room, _) => !Runs(t, room, actor)
              case ChangeRole(room, _, _) => !HasRole(t, room, actor, Owner)
              case RemoveMember(room, target) =>
                || (room, actor) !in t.rows
                || (IsValidPublicKey(Trim(target)) && (room, Trim(target)) in t.rows
                    && !HasRole(t, room, Trim(target), Owner) && !IsGranted(kind, t, actor, r))
              case CreateLink(room, _, _, _, _, _) => Trim(room) != "" && !Runs(t, Trim(room), actor)
              case RevokeLink(room, token) => Trim(room) != "" && Trim(token) != "" && !Runs(t, Trim(room), actor)
  {
    hide Trim;
    hide IsValidPublicKey;
    hide Sanitized;
    hide Enrolled;
    hide Assignable;
  }

  /** Why a join is refused. */
  lemma JoinRefusals(kind: Kind, t: Tables, actor: string, r: Request)
    requires Sound(t) && r.Join?
    ensures var status, token := Handled(kind, t, actor, r).1, Trim(r.token);
            if token == "" then status == BadRequest
            else if token !in t.links then status == NotFound
            else
              var link := t.links[token];
              if link.revoked || (link.expiresAt.Some? && r.now > link.expiresAt.value)
                 || (link.maxUses.Some? && link.uses >= link.maxUses.value)
              then status == Gone
              else if link.password.Some? && link.password != Some(Sha256(Trim(r.password)))
              then status == (if Trim(r.password) == "" then Unauthorized else Forbidden)
              else status == Done || (Trim(r.password) == "" && status == Unauthorized)
  {
    hide Trim;
  }

  // ----- links over time -----

  /** A new link lets in whoever comes in time and with its password. */
  lemma NewLinkLetsIn(kind: Kind, t: Tables, actor: string, r: Request, guest: string, password: string, now: int)
    requires Sound(t) && r.CreateLink? && Handled(kind, t, actor, r).1 == Done && Trim(r.token) == r.token != ""
    ensures var made := Handled(kind, t, actor, r).0;
            Handled(kind, made, guest, Join(r.token, password, now)).1 == Done <==>
              && (r.ttlMinutes > 0 ==> now <= r.now + 60 * r.ttlMinutes)
              && (Trim(r.password) != "" ==> Trim(password) == Trim(r.password))
  {
    hide Sound;
    hide Trim;
    GrantedExactlyWhen(kind, t, actor, r);
    var made := Handled(kind, t, actor, r).0;
    RequestKeepsSound(kind, t, actor, r);
    GrantedExactlyWhen(kind, made, guest, Join(r.token, password, now));
    hide Handled;
  }

  /** The token names no usable link. */
  ghost predicate IsDead(t: Tables, token: string) {
    token in t.links ==> t.links[token].revoked
  }

  lemma DeadStays(kind: Kind, t: Tables, step: Step, token: string)
    requires Sound(t) && IsDead(t, token) && (step.request.CreateLink? ==> step.request.token != token)
    ensures IsDead(Handled(kind, t, step.actor, step.request).0, token)
  {
    hide Sound;
    hide Handled;
    hide Trim;
    hide IsGranted;
    hide OnlyRows;
    hide OnlyRowsOf;
    GrantedExactlyWhen(kind, t, step.actor, step.request);
  }

  lemma {:induction false} StaysDead(kind: Kind, t: Tables, steps: seq<Step>, token: string)
    requires Sound(t) && IsDead(t, token)
    requires forall i :: 0 <= i < |steps| && steps[i].request.CreateLink? ==> steps[i].request.token != token
    ensures Sound(After(kind, t, steps)) && IsDead(After(kind, t, steps), token)
    decreases |steps|
  {
    hide Sound;
    hide Handled;
    hide IsDead;
    if steps != [] {
      DeadStays(kind, t, steps[0], token);
      RequestKeepsSound(kind, t, steps[0].actor, steps[0].request);
      StaysDead(kind, Handled(kind, t, steps[0].actor, steps[0].request).0, steps[1..], token);
    }
  }

  /** Once a link of the room is revoked, no join with its token is granted ever after. */
  lemma RevokedLetsNobodyIn(kind: Kind, t: Tables, actor: string, room: string, token: string, steps: seq<Step>,
                            guest: string, password: string, now: int)
    requires Sound(t) && Handled(kind, t, actor, RevokeLink(room, token)).1 == Done
    requires Trim(token) in t.links && t.links[Trim(token)].room == Trim(room)
    requires forall i :: 0 <= i < |steps| && steps[i].request.CreateLink? ==> steps[i].request.token != Trim(token)
    ensures var later := After(kind, Handled(kind, t, actor, RevokeLink(room, token)).0, steps);
            Handled(kind, later, guest, Join(token, password, now)).1 != Done
  {
    hide Sound;
    hide Trim;
    hide Handled;
    var revoked := Handled(kind, t, actor, RevokeLink(room, token)).0;
    GrantedExactlyWhen(kind, t, actor, RevokeLink(room, token));
    RequestKeepsSound(kind, t, actor, RevokeLink(room, token));
    StaysDead(kind, revoked, steps, Trim(token));
    GrantedExactlyWhen(kind, After(kind, revoked, steps), guest, Join(token, password, now));
  }
}

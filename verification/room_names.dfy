/** Cleaning the member list of a new group (mess/main.go:1275-1298). */
module RoomNames {
  import opened Wrappers
  import opened Sequences
  import opened Text
  import opened Envelopes

  const MAX_MEMBERS_PER_CREATE := 200

  datatype MemberError = InvalidMember | TooManyMembers

  function Sanitized(raw: seq<string>, seen: set<string>, members: seq<string>): Result<seq<string>, MemberError>
    decreases |raw|
  {
    if raw == [] then Success(members)
    else
      var member := Trim(raw[0]);
      if member == "" then Sanitized(raw[1..], seen, members)
      else if !IsValidPublicKey(member) then Failure(InvalidMember)
      else if member in seen then Sanitized(raw[1..], seen, members)
      else if |members| >= MAX_MEMBERS_PER_CREATE then Failure(TooManyMembers)
      else Sanitized(raw[1..], seen + {member}, members + [member])
  }

  method SanitizeMemberPubKeys(raw: seq<string>, owner: string) returns (r: Result<seq<string>, MemberError>)
    ensures r == Sanitized(raw, {owner}, [])
  {
    var members, seen := [], {owner};
    for i := 0 to |raw|
      invariant Sanitized(raw[i..], seen, members) == Sanitized(raw, {owner}, [])
    {
      var member := Trim(raw[i]);
      if member == "" {
        continue;
      }
      if !IsValidPublicKey(member) {
        return Failure(InvalidMember);
      }
      if member in seen {
        continue;
      }
      if |members| >= MAX_MEMBERS_PER_CREATE {
        return Failure(TooManyMembers);
      }
      seen := seen + {member};
      members := members + [member];
    }
    r := Success(members);
  }

  function Named(raw: seq<string>): set<string> {
    set i | 0 <= i < |raw| && Trim(raw[i]) != "" :: Trim(raw[i])
  }

  /** What cleaning gives when it starts from some members and some keys already seen. */
  ghost predicate Cleans(raw: seq<string>, seen: set<string>, members: seq<string>,
                         r: Result<seq<string>, MemberError>) {
    && (r.Success? <==>
          (forall m :: m in Named(raw) ==> IsValidPublicKey(m))
          && |members| + |Named(raw) - seen| <= MAX_MEMBERS_PER_CREATE)
    && (r.Success? ==>
          NoDuplicates(r.value) && forall m :: m in r.value <==> m in members || m in Named(raw) - seen)
  }

  lemma {:induction false} SanitizedFrom(raw: seq<string>, seen: set<string>, members: seq<string>)
    requires NoDuplicates(members) && (forall m :: m in members ==> m in seen)
    requires |members| <= MAX_MEMBERS_PER_CREATE
    ensures Cleans(raw, seen, members, Sanitized(raw, seen, members))
    decreases |raw|
  {
    hide IsValidPublicKey;
    hide Trim;
    hide Cleans;
    hide Named;
    if raw == [] {
      NobodyNamed(seen, members);
    } else {
      var member := Trim(raw[0]);
      NamedSplits(raw);
      if member == "" || (IsValidPublicKey(member) && member in seen) {
        SanitizedFrom(raw[1..], seen, members);
        SkippingCleans(raw, seen, members, Sanitized(raw[1..], seen, members));
      } else if !IsValidPublicKey(member) || |members| >= MAX_MEMBERS_PER_CREATE {
        RefusingCleans(raw, seen, members);
      } else {
        SanitizedFrom(raw[1..], seen + {member}, members + [member]);
        TakingCleans(raw, seen, members, Sanitized(raw[1..], seen + {member}, members + [member]));
      }
    }
  }

  lemma NobodyNamed(seen: set<string>, members: seq<string>)
    requires NoDuplicates(members) && |members| <= MAX_MEMBERS_PER_CREATE
    ensures Cleans([], seen, members, Success(members))
  {
    assert Named([]) == {};
  }

  lemma SkippingCleans(raw: seq<string>, seen: set<string>, members: seq<string>, r: Result<seq<string>, MemberError>)
    requires raw != [] && Cleans(raw[1..], seen, members, r)
    requires Trim(raw[0]) == "" || (IsValidPublicKey(Trim(raw[0])) && Trim(raw[0]) in seen)
    ensures Cleans(raw, seen, members, r)
  {
    hide IsValidPublicKey;
    hide Trim;
    hide Named;
    NamedSplits(raw);
    assert Named(raw) - seen == Named(raw[1..]) - seen;
  }

  lemma RefusingCleans(raw: seq<string>, seen: set<string>, members: seq<string>)
    requires raw != [] && Trim(raw[0]) != ""
    requires !IsValidPublicKey(Trim(raw[0])) || (Trim(raw[0]) !in seen && |members| >= MAX_MEMBERS_PER_CREATE)
    ensures Cleans(raw, seen, members, Failure(InvalidMember)) && Cleans(raw, seen, members, Failure(TooManyMembers))
  {
    hide IsValidPublicKey;
    hide Trim;
    hide Named;
    NamedSplits(raw);
    assert Trim(raw[0]) in Named(raw);
    if Trim(raw[0]) !in seen {
      assert Trim(raw[0]) in Named(raw) - seen;
    }
  }

  lemma TakingCleans(raw: seq<string>, seen: set<string>, members: seq<string>, r: Result<seq<string>, MemberError>)
    requires raw != [] && Trim(raw[0]) != "" && IsValidPublicKey(Trim(raw[0])) && Trim(raw[0]) !in seen
    requires Cleans(raw[1..], seen + {Trim(raw[0])}, members + [Trim(raw[0])], r)
    ensures Cleans(raw, seen, members, r)
  {
    hide IsValidPublicKey;
    hide Trim;
    hide Named;
    NamedSplits(raw);
    var rest := Named(raw[1..]) - (seen + {Trim(raw[0])});
    assert Named(raw) - seen == rest + {Trim(raw[0])};
    assert |Named(raw) - seen| == |rest| + 1;
  }

  lemma NamedSplits(raw: seq<string>)
    requires raw != []
    ensures Named(raw) == Named(raw[1..]) + (if Trim(raw[0]) == "" then {} else {Trim(raw[0])})
  {
    hide Trim;
    var named := Named(raw[1..]) + (if Trim(raw[0]) == "" then {} else {Trim(raw[0])});
    forall m | m in Named(raw)
      ensures m in named
    {
      var i :| 0 <= i < |raw| && Trim(raw[i]) != "" && m == Trim(raw[i]);
      if i > 0 {
        assert raw[1..][i - 1] == raw[i];
      }
    }
    forall m | m in Named(raw[1..])
      ensures m in Named(raw)
    {
      var i :| 0 <= i < |raw[1..]| && Trim(raw[1..][i]) != "" && m == Trim(raw[1..][i]);
      assert raw[i + 1] == raw[1..][i];
    }
  }

  /**
   Cleaning succeeds exactly when every name given is a key and at most 200 differ from the creator;
   it then lists those, each once.
   */
  lemma SanitizedIsTheNamedOthers(raw: seq<string>, owner: string)
    ensures var r := Sanitized(raw, {owner}, []);
            && (r.Success? <==>
                  (forall m :: m in Named(raw) ==> IsValidPublicKey(m))
                  && |Named(raw) - {owner}| <= 200)
            && (r.Success? ==> NoDuplicates(r.value) && forall m :: m in r.value <==> m in Named(raw) - {owner})
  {
    SanitizedFrom(raw, {owner}, []);
  }
}

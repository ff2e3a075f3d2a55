/** The anti-flood guard of one websocket client (mess/client.go:374-435). Times are nanoseconds. */
module EventFlood {
  import opened Wrappers
  import opened FixedWindow

  const SECOND := 1_000_000_000
  const TYPING_GAP := 900_000_000
  const BLOCK_SECONDS := 30
  const VIOLATIONS_BEFORE_BLOCK := 3
  const WINDOW: nat := 10 * SECOND

  datatype Category = Call | Message | Dummy | Control | Interaction | Default

  function Policy(eventType: string): (Category, nat) {
    if eventType in ["call_offer", "call_answer", "call_reject", "call_end", "ice_candidate"] then (Call, 36)
    else if eventType in ["message", "group_message", "channel_message"] then (Message, 80)
    else if eventType == "dummy" then (Dummy, 20)
    else if eventType in ["session_reset", "session_repair"] then (Control, 24)
    else if eventType in ["edit", "delete", "reaction", "reply", "pin", "unpin", "attachment", "forward", "group_edit",
                          "group_delete", "group_reaction", "channel_edit", "channel_delete", "channel_reaction",
                          "channel_pin"] then (Interaction, 60)
    else (Default, 50)
  }

  function LimitOf(c: Category): nat {
    match c
    case Call => 36
    case Message => 80
    case Dummy => 20
    case Control => 24
    case Interaction => 60
    case Default => 50
  }

  datatype Guard = Guard(windows: map<Category, Window>, blockedUntil: Option<int>, violations: nat,
                         lastTyping: Option<int>)

  const EMPTY := Guard(map[], None, 0, None)

  datatype Event = Event(kind: string, now: int)

  datatype Verdict = Verdict(allowed: bool, retryAfter: int)

  predicate Blocked(g: Guard, now: int) {
    g.blockedUntil.Some? && now < g.blockedUntil.value
  }

  function Counted(windows: map<Category, Window>, c: Category, now: int): Window {
    if c !in windows || now - windows[c].start > WINDOW then Window(now, 1)
    else windows[c].(count := windows[c].count + 1)
  }

  function Refused(g: Guard, now: int): (Guard, Verdict) {
    if g.violations + 1 >= VIOLATIONS_BEFORE_BLOCK
    then (g.(blockedUntil := Some(now + BLOCK_SECONDS * SECOND), violations := 0), Verdict(false, BLOCK_SECONDS))
    else (g.(violations := g.violations + 1), Verdict(false, 10))
  }

  /** The guard's decision on one event. */
  function Allowed(g: Guard, e: Event): (Guard, Verdict) {
    if Blocked(g, e.now) then
      var whole := (g.blockedUntil.value - e.now) / SECOND;
      (g, Verdict(false, if whole < 1 then 1 else whole))
    else if e.kind == "typing" then
      if g.lastTyping.Some? && e.now - g.lastTyping.value < TYPING_GAP then (g, Verdict(false, 1))
      else (g.(lastTyping := Some(e.now)), Verdict(true, 0))
    else
      var (c, limit) := Policy(e.kind);
      var b := Counted(g.windows, c, e.now);
      var g' := g.(windows := g.windows[c := b]);
      if b.count <= limit then (g', Verdict(true, 0)) else Refused(g', e.now)
  }

  class FloodGuard {
    var windows: map<Category, Window>
    var blockedUntil: Option<int>
    var violations: nat
    var typingLastSentAt: Option<int>

    constructor ()
      ensures State() == EMPTY
    {
      windows, blockedUntil, violations, typingLastSentAt := map[], None, 0, None;
    }

    ghost function State(): Guard
      reads this
    {
      Guard(windows, blockedUntil, violations, typingLastSentAt)
    }

    method AllowInboundEvent(eventType: string, now: int) returns (ok: bool, retry: int)
      modifies this
      ensures (State(), Verdict(ok, retry)) == Allowed(old(State()), Event(eventType, now))
    {
      if blockedUntil.Some? && now < blockedUntil.value {
        retry := (blockedUntil.value - now) / SECOND;
        if retry < 1 {
          retry := 1;
        }
        return false, retry;
      }
      if eventType == "typing" {
        if typingLastSentAt.Some? && now - typingLastSentAt.value < TYPING_GAP {
          return false, 1;
        }
        typingLastSentAt := Some(now);
        return true, 0;
      }
      var (category, limit) := Policy(eventType);
      var bucket;
      if category !in windows || now - windows[category].start > WINDOW {
        bucket := Window(now, 0);
      } else {
        bucket := windows[category];
      }
      bucket := bucket.(count := bucket.count + 1);
      windows := windows[category := bucket];
      if bucket.count <= limit {
        return true, 0;
      }
      violations := violations + 1;
      if violations >= VIOLATIONS_BEFORE_BLOCK {
        blockedUntil := Some(now + BLOCK_SECONDS * SECOND);
        violations := 0;
        return false, BLOCK_SECONDS;
      }
      return false, 10;
    }
  }

  // ----- runs -----

  ghost predicate ClockNeverGoesBack(events: seq<Event>) {
    forall i, j :: 0 <= i < j < |events| ==> events[i].now <= events[j].now
  }

  function After(g: Guard, events: seq<Event>): Guard
    decreases |events|
  {
    if events == [] then g else After(Allowed(g, events[0]).0, events[1..])
  }

  function Verdicts(g: Guard, events: seq<Event>): (vs: seq<Verdict>)
    ensures |vs| == |events|
    decreases |events|
  {
    if events == [] then []
    else
      var (next, v) := Allowed(g, events[0]);
      [v] + Verdicts(next, events[1..])
  }

  /** The times at which events of one category were let through; typing events have no category. */
  function AdmittedTimes(events: seq<Event>, vs: seq<Verdict>, c: Category): seq<int>
    requires |vs| == |events|
    decreases |events|
  {
    if events == [] then []
    else Extended([], events[0].now, vs[0].allowed && Concerns(events[0], c)) + AdmittedTimes(events[1..], vs[1..], c)
  }

  predicate Concerns(e: Event, c: Category) {
    e.kind != "typing" && Policy(e.kind).0 == c
  }

  function TypingTimes(events: seq<Event>, vs: seq<Verdict>): seq<int>
    requires |vs| == |events|
    decreases |events|
  {
    if events == [] then []
    else Extended([], events[0].now, vs[0].allowed && events[0].kind == "typing") + TypingTimes(events[1..], vs[1..])
  }

  // ----- the sliding bound -----

  /** The category's window accounts for everything of the category that was admitted. */
  ghost predicate Accounted(windows: map<Category, Window>, c: Category, log: seq<int>, since: int) {
    if c !in windows then log == []
    else windows[c].start <= since && Fits(WINDOW, LimitOf(c), windows[c], log)
  }

  lemma PolicyHasLimit(kind: string)
    ensures Policy(kind).1 == LimitOf(Policy(kind).0)
  {
  }

  lemma EventAccounts(g: Guard, c: Category, log: seq<int>, since: int, e: Event)
    requires Accounted(g.windows, c, log, since) && since <= e.now
    ensures var (g', v) := Allowed(g, e);
            Accounted(g'.windows, c, Extended(log, e.now, v.allowed && Concerns(e, c)), e.now)
  {
    hide Fits;
    hide Policy;
    PolicyHasLimit(e.kind);
    if !Blocked(g, e.now) && Concerns(e, c) {
      var v := Allowed(g, e).1;
      if c !in g.windows {
        FirstFits(WINDOW, LimitOf(c), e.now, v.allowed);
      } else if e.now - g.windows[c].start > WINDOW {
        OpeningFits(WINDOW, LimitOf(c), g.windows[c], log, e.now, v.allowed);
      } else {
        JoiningFits(WINDOW, LimitOf(c), g.windows[c], log, e.now, v.allowed);
      }
    }
  }

  lemma AdmittedUnfolds(g: Guard, c: Category, log: seq<int>, events: seq<Event>)
    requires events != []
    ensures var (next, v) := Allowed(g, events[0]);
            log + AdmittedTimes(events, Verdicts(g, events), c)
              == Extended(log, events[0].now, v.allowed && Concerns(events[0], c))
                 + AdmittedTimes(events[1..], Verdicts(next, events[1..]), c)
  {
    hide Allowed;
    hide Concerns;
    var (next, v) := Allowed(g, events[0]);
    assert Verdicts(g, events)[1..] == Verdicts(next, events[1..]);
    assert Verdicts(g, events)[0] == v;
  }

  lemma NothingAdmitted(lo: int, hi: int)
    ensures CountIn([], lo, hi) == 0
  {
  }

  lemma {:induction false} BoundFrom(g: Guard, c: Category, log: seq<int>, since: int, events: seq<Event>,
                                     lo: int, hi: int)
    requires Accounted(g.windows, c, log, since) && ClockNeverGoesBack(events) && hi <= lo + WINDOW
    requires events != [] ==> since <= events[0].now
    ensures CountIn(log + AdmittedTimes(events, Verdicts(g, events), c), lo, hi) <= Burst(LimitOf(c))
    decreases |events|
  {
    hide Allowed;
    hide Concerns;
    hide CountIn;
    hide Extended;
    if events == [] {
      assert log + [] == log;
      assert c in g.windows ==> FitsWithin(WINDOW, LimitOf(c), g.windows[c], log, lo, hi);
      NothingAdmitted(lo, hi);
    } else {
      var e := events[0];
      var (next, v) := Allowed(g, e);
      EventAccounts(g, c, log, since, e);
      AdmittedUnfolds(g, c, log, events);
      BoundFrom(next, c, Extended(log, e.now, v.allowed && Concerns(e, c)), e.now, events[1..], lo, hi);
    }
  }

  /** In any closed interval of ten seconds a category is let through less than twice its limit. */
  lemma SlidingBound(events: seq<Event>, c: Category, lo: int, hi: int)
    requires ClockNeverGoesBack(events) && hi <= lo + WINDOW
    ensures CountIn(AdmittedTimes(events, Verdicts(EMPTY, events), c), lo, hi) <= Burst(LimitOf(c))
  {
    var times := AdmittedTimes(events, Verdicts(EMPTY, events), c);
    BoundFrom(EMPTY, c, [], if events == [] then 0 else events[0].now, events, lo, hi);
    assert [] + times == times;
  }

  // ----- typing and blocking -----

  lemma {:induction false} TypingGapsFrom(g: Guard, events: seq<Event>)
    requires ClockNeverGoesBack(events)
    ensures var times := TypingTimes(events, Verdicts(g, events));
            && (times != [] && g.lastTyping.Some? ==> times[0] - g.lastTyping.value >= TYPING_GAP)
            && forall i :: 0 <= i < |times| - 1 ==> times[i + 1] - times[i] >= TYPING_GAP
    decreases |events|
  {
    hide Policy;
    if events != [] {
      var (next, v) := Allowed(g, events[0]);
      TypingGapsFrom(next, events[1..]);
      assert Verdicts(g, events)[1..] == Verdicts(next, events[1..]);
    }
  }

  /** Typing events let through are at least 900 milliseconds apart. */
  lemma TypingIsSpaced(events: seq<Event>)
    requires ClockNeverGoesBack(events)
    ensures var times := TypingTimes(events, Verdicts(EMPTY, events));
            forall i :: 0 <= i < |times| - 1 ==> times[i + 1] - times[i] >= TYPING_GAP
  {
    TypingGapsFrom(EMPTY, events);
  }

  // ----- the guard by the list of events alone -----

  /** How many events of a kind and its like are let through in one window; no two families share a number. */
  function Allowance(kind: string): nat {
    if kind in ["message", "group_message", "channel_message"] then 80
    else if kind == "dummy" then 20
    else if kind in ["session_reset", "session_repair"] then 24
    else if kind in ["call_offer", "call_answer", "call_reject", "call_end", "ice_candidate"] then 36
    else if kind in ["edit", "delete", "reaction", "reply", "pin", "unpin", "attachment", "forward"] then 60
    else if kind in ["group_edit", "group_delete", "group_reaction", "channel_edit", "channel_delete",
                     "channel_reaction", "channel_pin"] then 60
    else 50
  }

  /** When the latest block of a list of events began. */
  function LastBlock(past: seq<Event>): Option<int>
    decreases |past|, 4
  {
    if past == [] then None
    else
      var before, e := past[..|past| - 1], past[|past| - 1];
      if BeginsBlock(before, e) then Some(e.now) else LastBlock(before)
  }

  predicate IsBlocked(past: seq<Event>, now: int)
    decreases |past|, 5
  {
    LastBlock(past).Some? && now < LastBlock(past).value + 30_000_000_000
  }

  /** An event that counts against the allowance of this size. */
  predicate IsAttempt(past: seq<Event>, e: Event, allowance: nat)
    decreases |past|, 6
  {
    !IsBlocked(past, e.now) && e.kind != "typing" && Allowance(e.kind) == allowance
  }

  /** The position of the attempt that opened the window an attempt at this time would join, if there is one. */
  function Opening(past: seq<Event>, allowance: nat, now: int): Option<nat>
    ensures Opening(past, allowance, now).Some? ==> Opening(past, allowance, now).value < |past|
    decreases |past|, 7
  {
    var first := LastOpening(past, allowance);
    if first.Some? && now - past[first.value].now <= 10_000_000_000 then first else None
  }

  /** The position of the latest attempt that no earlier window could take. */
  function LastOpening(past: seq<Event>, allowance: nat): (i: Option<nat>)
    ensures i.Some? ==> i.value < |past|
    decreases |past|, 2
  {
    if past == [] then None
    else
      var before, e := past[..|past| - 1], past[|past| - 1];
      if IsAttempt(before, e, allowance) && Opening(before, allowance, e.now).None? then Some(|past| - 1)
      else LastOpening(before, allowance)
  }

  /** How many attempts a list of events holds from a position on. */
  function AttemptsFrom(past: seq<Event>, from: nat, allowance: nat): nat
    decreases |past|, 2
  {
    if |past| <= from then 0
    else
      var before, e := past[..|past| - 1], past[|past| - 1];
      AttemptsFrom(before, from, allowance) + if IsAttempt(before, e, allowance) then 1 else 0
  }

  /** How many attempts the window holds that an attempt at this time would join. */
  function InWindow(past: seq<Event>, allowance: nat, now: int): nat
    decreases |past|, 8
  {
    var opening := Opening(past, allowance, now);
    if opening.None? then 0 else AttemptsFrom(past, opening.value, allowance)
  }

  /** An attempt that finds its window's allowance used up. */
  predicate IsOver(past: seq<Event>, e: Event)
    decreases |past|, 9
  {
    && IsAttempt(past, e, Allowance(e.kind))
    && InWindow(past, Allowance(e.kind), e.now) >= Allowance(e.kind)
  }

  /** How many events of a list were over their allowance. */
  function Overs(past: seq<Event>): nat
    decreases |past|, 3
  {
    if past == [] then 0
    else
      var before, e := past[..|past| - 1], past[|past| - 1];
      Overs(before) + if IsOver(before, e) then 1 else 0
  }

  /** Every third event over its allowance begins a block. */
  predicate BeginsBlock(past: seq<Event>, e: Event)
    decreases |past|, 10
  {
    IsOver(past, e) && (Overs(past) + 1) % 3 == 0
  }

  /** When the latest typing event was let through. */
  function LastTyped(past: seq<Event>): Option<int>
    decreases |past|, 0
  {
    if past == [] then None
    else
      var before, e := past[..|past| - 1], past[|past| - 1];
      if TypingPasses(before, e) then Some(e.now) else LastTyped(before)
  }

  predicate TypingPasses(past: seq<Event>, e: Event)
    decreases |past|, 1
  {
    && e.kind == "typing" && !IsBlocked(past, e.now)
    && (LastTyped(past).Some? ==> e.now - LastTyped(past).value >= 900_000_000)
  }

  /** What the guard remembers of one category. */
  ghost predicate Remembers(g: Guard, past: seq<Event>, c: Category) {
    var first := LastOpening(past, LimitOf(c));
    if first.None? then c !in g.windows
    else
      && c in g.windows
      && g.windows[c] == Window(past[first.value].now, AttemptsFrom(past, first.value, LimitOf(c)))
  }

  /** The guard remembers exactly what the list of events says. */
  ghost predicate Tracks(g: Guard, past: seq<Event>) {
    && (forall c :: Remembers(g, past, c))
    && g.blockedUntil == (if LastBlock(past).None? then None else Some(LastBlock(past).value + 30_000_000_000))
    && g.violations == Overs(past) % 3
    && g.lastTyping == LastTyped(past)
  }

  lemma FamiliesHaveNumbers(kind: string)
    ensures Policy(kind) == (Policy(kind).0, Allowance(kind)) && LimitOf(Policy(kind).0) == Allowance(kind)
  {
  }

  lemma NumbersDiffer(c: Category, d: Category)
    requires LimitOf(c) == LimitOf(d)
    ensures c == d
  {
  }

  /** Each notion for a list with one more event. */
  lemma OneMoreAttempt(past: seq<Event>, e: Event, allowance: nat, from: nat)
    ensures AttemptsFrom(past + [e], from, allowance) ==
              if |past| < from then 0
              else AttemptsFrom(past, from, allowance) + if IsAttempt(past, e, allowance) then 1 else 0
    ensures LastOpening(past + [e], allowance) ==
              if IsAttempt(past, e, allowance) && Opening(past, allowance, e.now).None? then Some(|past|)
              else LastOpening(past, allowance)
  {
    hide IsAttempt;
    hide Opening;
    assert (past + [e])[..|past|] == past;
  }

  lemma OneMoreAnswer(past: seq<Event>, e: Event)
    ensures LastBlock(past + [e]) == if BeginsBlock(past, e) then Some(e.now) else LastBlock(past)
    ensures Overs(past + [e]) == Overs(past) + if IsOver(past, e) then 1 else 0
    ensures LastTyped(past + [e]) == if TypingPasses(past, e) then Some(e.now) else LastTyped(past)
  {
    hide BeginsBlock;
    hide IsOver;
    hide TypingPasses;
    assert (past + [e])[..|past|] == past;
  }

  /** An attempt finds as many attempts in its window as the guard has counted there. */
  lemma WindowIsCounted(g: Guard, past: seq<Event>, c: Category, now: int)
    requires Remembers(g, past, c)
    ensures Counted(g.windows, c, now).count == InWindow(past, LimitOf(c), now) + 1
  {
    hide AttemptsFrom;
    hide LastOpening;
  }

  lemma NoneBeyond(past: seq<Event>, allowance: nat)
    ensures AttemptsFrom(past, |past|, allowance) == 0
  {
  }

  lemma CountingRemembers(g: Guard, past: seq<Event>, e: Event, c: Category)
    requires Tracks(g, past)
    ensures Remembers(Allowed(g, e).0, past + [e], c)
  {
    hide Policy;
    hide Allowance;
    hide Overs;
    hide LastBlock;
    hide LastTyped;
    hide AttemptsFrom;
    hide LastOpening;
    FamiliesHaveNumbers(e.kind);
    if LimitOf(c) == Allowance(e.kind) {
      NumbersDiffer(c, Policy(e.kind).0);
    }
    assert Remembers(g, past, c);
    var first := LastOpening(past, LimitOf(c));
    OneMoreAttempt(past, e, LimitOf(c), |past|);
    if first.Some? {
      OneMoreAttempt(past, e, LimitOf(c), first.value);
      assert (past + [e])[first.value] == past[first.value];
    }
    assert AttemptsFrom(past, |past|, LimitOf(c)) == 0 by { NoneBeyond(past, LimitOf(c)); }
  }

  lemma AnswerTracks(g: Guard, past: seq<Event>, e: Event)
    requires Tracks(g, past)
    ensures Answers(past, e, Allowed(g, e).1)
    ensures var g' := Allowed(g, e).0;
            && g'.blockedUntil ==
                 (if LastBlock(past + [e]).None? then None else Some(LastBlock(past + [e]).value + 30_000_000_000))
            && g'.violations == Overs(past + [e]) % 3
            && g'.lastTyping == LastTyped(past + [e])
  {
    hide Policy;
    hide Allowance;
    hide InWindow;
    hide Counted;
    hide Overs;
    hide LastBlock;
    hide LastTyped;
    hide AttemptsFrom;
    hide LastOpening;
    OneMoreAnswer(past, e);
    FamiliesHaveNumbers(e.kind);
    assert Remembers(g, past, Policy(e.kind).0);
    WindowIsCounted(g, past, Policy(e.kind).0, e.now);
  }

  lemma {:induction false} AfterOneMore(g: Guard, past: seq<Event>, e: Event)
    ensures After(g, past + [e]) == Allowed(After(g, past), e).0
    decreases |past|
  {
    hide Allowed;
    if past == [] {
      assert [e][1..] == [];
    } else {
      assert (past + [e])[1..] == past[1..] + [e];
      AfterOneMore(Allowed(g, past[0]).0, past[1..], e);
    }
  }

  lemma {:induction false} GuardTracks(past: seq<Event>)
    ensures Tracks(After(EMPTY, past), past)
    decreases |past|
  {
    hide Remembers;
    hide Allowed;
    hide LastBlock;
    hide Overs;
    hide LastTyped;
    if past == [] {
      NothingTracked();
    } else {
      var before, e := past[..|past| - 1], past[|past| - 1];
      assert before + [e] == past;
      GuardTracks(before);
      AfterOneMore(EMPTY, before, e);
      AnswerTracks(After(EMPTY, before), before, e);
      forall c
        ensures Remembers(After(EMPTY, past), past, c)
      {
        CountingRemembers(After(EMPTY, before), before, e, c);
      }
    }
  }

  lemma NothingTracked()
    ensures Tracks(EMPTY, [])
  {
  }

  /** The answer to one event, as the list of events before it has it. */
  ghost predicate Answers(past: seq<Event>, e: Event, v: Verdict) {
    if IsBlocked(past, e.now) then
      var left := LastBlock(past).value + 30_000_000_000 - e.now;
      !v.allowed && (if left < 2_000_000_000 then v.retryAfter == 1
                     else v.retryAfter * 1_000_000_000 <= left < (v.retryAfter + 1) * 1_000_000_000)
    else if e.kind == "typing" then
      v == if LastTyped(past).Some? && e.now - LastTyped(past).value < 900_000_000 then Verdict(false, 1)
           else Verdict(true, 0)
    else if InWindow(past, Allowance(e.kind), e.now) < Allowance(e.kind) then v == Verdict(true, 0)
    else v == if (Overs(past) + 1) % 3 == 0 then Verdict(false, 30) else Verdict(false, 10)
  }

  /**
   After any events, an event that no block refuses is let through exactly when fewer attempts of its family than
   their allowance have come since the one that opened its window, and a typing event exactly when 900 milliseconds
   have passed since the last one let through; the waiting times told are exact too.
   */
  lemma AnswersAreExact(past: seq<Event>, e: Event)
    ensures Answers(past, e, Allowed(After(EMPTY, past), e).1)
  {
    hide Answers;
    hide Allowed;
    hide Tracks;
    GuardTracks(past);
    AnswerTracks(After(EMPTY, past), past, e);
  }

  predicate StartsBlock(g: Guard, e: Event) {
    !Blocked(g, e.now) && Blocked(Allowed(g, e).0, e.now)
  }

  /** In every run a block starts exactly with every third event over its allowance. */
  lemma ThirdRefusalBlocks(past: seq<Event>, e: Event)
    ensures StartsBlock(After(EMPTY, past), e) <==> IsOver(past, e) && (Overs(past) + 1) % 3 == 0
  {
    hide Remembers;
    hide Allowed;
    hide InWindow;
    hide Allowance;
    hide Overs;
    hide LastTyped;
    hide Answers;
    hide LastBlock;
    GuardTracks(past);
    AnswerTracks(After(EMPTY, past), past, e);
    OneMoreAnswer(past, e);
    assert IsOver(past, e) ==> IsAttempt(past, e, Allowance(e.kind));
    assert IsAttempt(past, e, Allowance(e.kind)) ==> !IsBlocked(past, e.now);
    assert BeginsBlock(past, e) <==> IsOver(past, e) && (Overs(past) + 1) % 3 == 0;
  }

  /** While the block lasts every event is refused, with a wait of 1 to 30 seconds, and nothing is remembered. */
  lemma BlockHolds(g: Guard, e: Event, events: seq<Event>)
    requires StartsBlock(g, e)
    requires forall i :: 0 <= i < |events| ==> e.now <= events[i].now < e.now + BLOCK_SECONDS * SECOND
    ensures var (g', v) := Allowed(g, e);
            && v == Verdict(false, BLOCK_SECONDS)
            && g'.blockedUntil == Some(e.now + BLOCK_SECONDS * SECOND)
            && After(g', events) == g'
            && forall i :: 0 <= i < |events| ==>
                 !Verdicts(g', events)[i].allowed && 1 <= Verdicts(g', events)[i].retryAfter <= BLOCK_SECONDS
  {
    hide Policy;
    StartedBlock(g, e);
    BlockedRefuses(Allowed(g, e).0, e.now, events);
  }

  lemma StartedBlock(g: Guard, e: Event)
    requires StartsBlock(g, e)
    ensures var (g', v) := Allowed(g, e);
            v == Verdict(false, BLOCK_SECONDS) && g'.blockedUntil == Some(e.now + BLOCK_SECONDS * SECOND)
  {
    hide Policy;
  }

  lemma {:induction false} BlockedRefuses(g: Guard, since: int, events: seq<Event>)
    requires g.blockedUntil == Some(since + BLOCK_SECONDS * SECOND)
    requires forall i :: 0 <= i < |events| ==> since <= events[i].now < since + BLOCK_SECONDS * SECOND
    ensures After(g, events) == g
    ensures forall i :: 0 <= i < |events| ==>
              !Verdicts(g, events)[i].allowed && 1 <= Verdicts(g, events)[i].retryAfter <= BLOCK_SECONDS
    decreases |events|
  {
    hide Policy;
    if events != [] {
      BlockedRefuses(g, since, events[1..]);
    }
  }
}

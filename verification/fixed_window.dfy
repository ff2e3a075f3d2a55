/**
 What a fixed window with restarts admits in any sliding interval.

 Both limiters of the server count attempts from the one that opens a window and open a new window
 with the first attempt later than the old one's start plus the window length.
 */
module FixedWindow {
  datatype Window = Window(start: int, count: nat)

  /** How many of the logged times lie in the closed interval from lo to hi. */
  function CountIn(log: seq<int>, lo: int, hi: int): nat {
    if log == [] then 0
    else CountIn(log[..|log| - 1], lo, hi) + (if lo <= log[|log| - 1] <= hi then 1 else 0)
  }

  function Extended(log: seq<int>, now: int, admitted: bool): seq<int> {
    if admitted then log + [now] else log
  }

  function AtMost(n: int, limit: int): nat {
    if limit <= 0 || n <= 0 then 0 else if n <= limit then n else limit
  }

  /** One less than twice the limit: two windows meet an interval, but the first not at its opening. */
  function Burst(limit: int): nat {
    if limit <= 0 then 0 else 2 * limit - 1
  }

  lemma CountExtended(log: seq<int>, now: int, admitted: bool, lo: int, hi: int)
    ensures CountIn(Extended(log, now, admitted), lo, hi)
         == CountIn(log, lo, hi) + if admitted && lo <= now <= hi then 1 else 0
  {
    assert (log + [now])[..|log|] == log;
  }

  lemma {:induction false} CountSplits(log: seq<int>, lo: int, mid: int, hi: int)
    requires lo <= mid <= hi + 1
    ensures CountIn(log, lo, hi) == CountIn(log, lo, mid - 1) + CountIn(log, mid, hi)
  {
    if log != [] {
      CountSplits(log[..|log| - 1], lo, mid, hi);
    }
  }

  lemma {:induction false} NothingBeyond(log: seq<int>, last: int, lo: int, hi: int)
    requires (forall i :: 0 <= i < |log| ==> log[i] <= last) && last < lo
    ensures CountIn(log, lo, hi) == 0
  {
    if log != [] {
      NothingBeyond(log[..|log| - 1], last, lo, hi);
    }
  }

  /** How much an interval may hold: from the window's start on, after it, before it, and at all. */
  ghost predicate FitsWithin(w: nat, limit: int, b: Window, log: seq<int>, lo: int, hi: int) {
    var n := CountIn(log, lo, hi);
    && (b.start <= lo ==> n <= AtMost(b.count, limit))
    && (b.start < lo ==> n <= AtMost(b.count - 1, limit - 1))
    && (b.start - w <= lo && hi < b.start ==> n <= AtMost(limit - 1, limit - 1))
    && (hi <= lo + w ==> n <= Burst(limit))
  }

  /** The times admitted so far fit the current window and respect the bound in every interval. */
  ghost predicate Fits(w: nat, limit: int, b: Window, log: seq<int>) {
    && b.count >= 1
    && (forall i :: 0 <= i < |log| ==> log[i] <= b.start + w)
    && (forall lo, hi :: FitsWithin(w, limit, b, log, lo, hi))
  }

  /** Opening a window after the old one has ended. */
  lemma OpeningFitsWithin(w: nat, limit: int, b: Window, log: seq<int>, now: int, admitted: bool, lo: int, hi: int)
    requires Fits(w, limit, b, log) && b.start + w < now && (admitted ==> 1 <= limit)
    ensures FitsWithin(w, limit, Window(now, 1), Extended(log, now, admitted), lo, hi)
  {
    CountExtended(log, now, admitted, lo, hi);
    assert FitsWithin(w, limit, b, log, lo, hi);
    if now <= lo {
      NothingBeyond(log, b.start + w, lo, hi);
    } else if now <= hi {
      CountSplits(log, lo, now, hi);
      NothingBeyond(log, b.start + w, now, hi);
      assert FitsWithin(w, limit, b, log, lo, now - 1);
    }
  }

  lemma OpeningFits(w: nat, limit: int, b: Window, log: seq<int>, now: int, admitted: bool)
    requires Fits(w, limit, b, log) && b.start + w < now && (admitted ==> 1 <= limit)
    ensures Fits(w, limit, Window(now, 1), Extended(log, now, admitted))
  {
    hide FitsWithin;
    forall lo, hi
      ensures FitsWithin(w, limit, Window(now, 1), Extended(log, now, admitted), lo, hi)
    {
      OpeningFitsWithin(w, limit, b, log, now, admitted, lo, hi);
    }
  }

  /** The first window of all. */
  lemma FirstFits(w: nat, limit: int, now: int, admitted: bool)
    requires admitted ==> 1 <= limit
    ensures Fits(w, limit, Window(now, 1), Extended([], now, admitted))
  {
    forall lo, hi
      ensures FitsWithin(w, limit, Window(now, 1), Extended([], now, admitted), lo, hi)
    {
      CountExtended([], now, admitted, lo, hi);
    }
  }

  /** One more attempt in the current window. */
  lemma JoiningFitsWithin(w: nat, limit: int, b: Window, log: seq<int>, now: int, admitted: bool, lo: int, hi: int)
    requires Fits(w, limit, b, log) && b.start <= now <= b.start + w && (admitted ==> b.count + 1 <= limit)
    ensures FitsWithin(w, limit, Window(b.start, b.count + 1), Extended(log, now, admitted), lo, hi)
  {
    CountExtended(log, now, admitted, lo, hi);
    assert FitsWithin(w, limit, b, log, lo, hi);
    if lo < b.start <= hi {
      CountSplits(log, lo, b.start, hi);
      assert FitsWithin(w, limit, b, log, lo, b.start - 1);
      assert FitsWithin(w, limit, b, log, b.start, hi);
    }
  }

  lemma JoiningFits(w: nat, limit: int, b: Window, log: seq<int>, now: int, admitted: bool)
    requires Fits(w, limit, b, log) && b.start <= now <= b.start + w && (admitted ==> b.count + 1 <= limit)
    ensures Fits(w, limit, Window(b.start, b.count + 1), Extended(log, now, admitted))
  {
    hide FitsWithin;
    var b', log' := Window(b.start, b.count + 1), Extended(log, now, admitted);
    forall lo, hi
      ensures FitsWithin(w, limit, b', log', lo, hi)
    {
      JoiningFitsWithin(w, limit, b, log, now, admitted, lo, hi);
    }
  }
}

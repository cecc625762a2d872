/** The fixed-window rate limiter (`allowRate`, relay/src/host-relay.ts). */
module Limiter {

  datatype Window = Window(start: int, count: nat)

  /** The window after one more message at `now`. */
  function Touch(w: Window, now: int, windowMs: nat): Window {
    if now - w.start >= windowMs then Window(now, 1) else w.(count := w.count + 1)
  }

  /** The caller reads the window off storage, updates it here and writes it
      back. */
  method AllowRate(window: Window, now: int, limit: nat, windowMs: nat) returns (next: Window, allowed: bool)
    ensures next == Touch(window, now, windowMs)
    ensures allowed <==> next.count <= limit
  {
    next := window;
    if now - next.start >= windowMs {
      next := next.(start := now);
      next := next.(count := 1);
    } else {
      next := next.(count := next.count + 1);
    }
    allowed := next.count <= limit;
  }

  /** The window after messages at each of `times`. */
  function After(w: Window, windowMs: nat, times: seq<int>): Window
    decreases |times|
  {
    if times == [] then w else After(Touch(w, times[0], windowMs), windowMs, times[1..])
  }

  /** The times of the messages let through, in order. */
  function Admitted(w: Window, limit: nat, windowMs: nat, times: seq<int>): seq<int>
    decreases |times|
  {
    if times == [] then []
    else
      var next := Touch(w, times[0], windowMs);
      (if next.count <= limit then [times[0]] else []) + Admitted(next, limit, windowMs, times[1..])
  }

  /** How many of `times` fall in `[lo, hi)`. */
  function CountIn(times: seq<int>, lo: int, hi: int): nat {
    if times == [] then 0
    else (if lo <= times[0] < hi then 1 else 0) + CountIn(times[1..], lo, hi)
  }

  predicate NonDecreasing(times: seq<int>) {
    forall i, j :: 0 <= i <= j < |times| ==> times[i] <= times[j]
  }

  /** The clock never runs backwards, and starts no earlier than the window. */
  predicate Clocked(w: Window, times: seq<int>) {
    NonDecreasing(times) && (times != [] ==> w.start <= times[0])
  }

  lemma AdmittedStep(w: Window, limit: nat, windowMs: nat, times: seq<int>, lo: int, hi: int)
    requires times != []
    ensures var next := Touch(w, times[0], windowMs);
      CountIn(Admitted(w, limit, windowMs, times), lo, hi)
      == (if next.count <= limit && lo <= times[0] < hi then 1 else 0)
         + CountIn(Admitted(next, limit, windowMs, times[1..]), lo, hi)
  {
    var next := Touch(w, times[0], windowMs);
    var rest := Admitted(next, limit, windowMs, times[1..]);
    if next.count > limit {
      assert Admitted(w, limit, windowMs, times) == rest;
    }
  }

  /** What the current window can still admit. */
  function Left(w: Window, limit: nat): nat {
    if w.count < limit then limit - w.count else 0
  }

  /** The most that messages arriving from `lo` on can have admitted before
      `lo + windowMs`: what is left of the current window, and one fresh window
      when the current one began before `lo`. */
  function Room(w: Window, limit: nat, windowMs: nat, lo: int): nat {
    if w.start >= lo + windowMs then 0
    else if w.start >= lo then Left(w, limit)
    else Left(w, limit) + limit
  }

  lemma {:induction false} RoomBounds(w: Window, limit: nat, windowMs: nat, times: seq<int>, lo: int)
    requires Clocked(w, times) && windowMs > 0
    requires times != [] ==> lo <= times[0]
    ensures CountIn(Admitted(w, limit, windowMs, times), lo, lo + windowMs) <= Room(w, limit, windowMs, lo)
    decreases |times|
  {
    if times != [] {
      var next := Touch(w, times[0], windowMs);
      AdmittedStep(w, limit, windowMs, times, lo, lo + windowMs);
      RoomBounds(next, limit, windowMs, times[1..], lo);
    }
  }

  /** The message at `i` finds its window over and opens a new one. */
  predicate Opens(w: Window, windowMs: nat, times: seq<int>, i: nat)
    requires i < |times|
  {
    times[i] - After(w, windowMs, times[..i]).start >= windowMs
  }

  /** The window that a message leaves behind is not over at that time. */
  lemma {:induction false} StillOpen(w: Window, windowMs: nat, times: seq<int>)
    requires windowMs > 0 && times != []
    ensures times[|times| - 1] - After(w, windowMs, times).start < windowMs
    decreases |times|
  {
    if |times| == 1 {
      assert times[1..] == [];
    } else {
      StillOpen(Touch(w, times[0], windowMs), windowMs, times[1..]);
    }
  }

  lemma {:induction false} OpenedBound(w: Window, limit: nat, windowMs: nat, times: seq<int>, i: nat)
    requires Clocked(w, times) && windowMs > 0 && i < |times| && Opens(w, windowMs, times, i)
    ensures CountIn(Admitted(w, limit, windowMs, times), times[i], times[i] + windowMs) <= limit
    decreases |times|
  {
    var next, rest, lo := Touch(w, times[0], windowMs), times[1..], times[i];
    AdmittedStep(w, limit, windowMs, times, lo, lo + windowMs);
    if i == 0 {
      assert times[..0] == [];
      RoomBounds(next, limit, windowMs, rest, lo);
    } else {
      assert times[..i][1..] == rest[..i - 1];
      StillOpen(w, windowMs, times[..i]);
      assert times[0] <= times[i - 1] < lo;
      OpenedBound(next, limit, windowMs, rest, i - 1);
    }
  }

  /** No window of a run admits more than `limit`: the one it starts in at most
      what it had left, and each one opened on the way at most `limit`. */
  lemma WindowBound(w: Window, limit: nat, windowMs: nat, times: seq<int>)
    requires Clocked(w, times) && windowMs > 0
    ensures CountIn(Admitted(w, limit, windowMs, times), w.start, w.start + windowMs) <= Left(w, limit)
    ensures forall i :: 0 <= i < |times| && Opens(w, windowMs, times, i)
                        ==> CountIn(Admitted(w, limit, windowMs, times), times[i], times[i] + windowMs) <= limit
  {
    hide Admitted, CountIn, Opens;
    RoomBounds(w, limit, windowMs, times, w.start);
    forall i | 0 <= i < |times| && Opens(w, windowMs, times, i)
      ensures CountIn(Admitted(w, limit, windowMs, times), times[i], times[i] + windowMs) <= limit
    {
      OpenedBound(w, limit, windowMs, times, i);
    }
  }

  /** Wherever an interval of one window's length is laid over a run, at most
      twice the limit was admitted in it. */
  lemma {:induction false} IntervalBound(w: Window, limit: nat, windowMs: nat, times: seq<int>, lo: int)
    requires Clocked(w, times) && windowMs > 0
    ensures CountIn(Admitted(w, limit, windowMs, times), lo, lo + windowMs) <= 2 * limit
    decreases |times|
  {
    if times == [] || lo <= times[0] {
      RoomBounds(w, limit, windowMs, times, lo);
    } else {
      AdmittedStep(w, limit, windowMs, times, lo, lo + windowMs);
      IntervalBound(Touch(w, times[0], windowMs), limit, windowMs, times[1..], lo);
    }
  }

  lemma {:induction false} AfterStep(w: Window, windowMs: nat, times: seq<int>, now: int)
    ensures After(w, windowMs, times + [now]) == Touch(After(w, windowMs, times), now, windowMs)
    decreases |times|
  {
    if times == [] {
      assert (times + [now])[1..] == [];
    } else {
      assert (times + [now])[1..] == times[1..] + [now];
      AfterStep(Touch(w, times[0], windowMs), windowMs, times[1..], now);
    }
  }

  lemma {:induction false} AdmittedAppend(w: Window, limit: nat, windowMs: nat, times: seq<int>, now: int)
    ensures Admitted(w, limit, windowMs, times + [now])
            == Admitted(w, limit, windowMs, times)
               + (if After(w, windowMs, times + [now]).count <= limit then [now] else [])
    decreases |times|
  {
    if times == [] {
      assert (times + [now])[1..] == [];
    } else {
      var next := Touch(w, times[0], windowMs);
      assert (times + [now])[1..] == times[1..] + [now];
      AdmittedAppend(next, limit, windowMs, times[1..], now);
    }
  }

  lemma {:induction false} CountAppend(times: seq<int>, t: int, lo: int, hi: int)
    ensures CountIn(times + [t], lo, hi) == CountIn(times, lo, hi) + (if lo <= t < hi then 1 else 0)
  {
    if times == [] {
      assert times + [t] == [t];
    } else {
      assert (times + [t])[1..] == times[1..] + [t];
      CountAppend(times[1..], t, lo, hi);
    }
  }

  lemma {:induction false} CountNone(times: seq<int>, lo: int, hi: int)
    requires forall i :: 0 <= i < |times| ==> hi <= times[i] || times[i] < lo
    ensures CountIn(times, lo, hi) == 0
  {
    if times != [] {
      CountNone(times[1..], lo, hi);
    }
  }

  /** The counter is the truth about its window: from a fresh window, the count
      is the number of messages that arrived since the window began, and the
      window began less than `windowMs` before the last one. */
  lemma {:induction false} CounterCounts(w: Window, windowMs: nat, times: seq<int>)
    requires Clocked(w, times) && windowMs > 0 && w.count == 0
    ensures var a := After(w, windowMs, times);
      (times != [] ==> w.start <= a.start <= times[|times| - 1] < a.start + windowMs)
      && (times != [] ==> a.count == CountIn(times, a.start, times[|times| - 1] + 1))
  {
    if times != [] {
      var last := |times| - 1;
      var init, now := times[..last], times[last];
      assert times == init + [now];
      CounterCounts(w, windowMs, init);
      AfterStep(w, windowMs, init, now);
      var a, b := After(w, windowMs, init), After(w, windowMs, times);
      CountAppend(init, now, b.start, now + 1);
      if now - a.start >= windowMs {
        if init != [] {
          assert forall i :: 0 <= i < |init| ==> init[i] < a.start + windowMs by {
            assert forall i :: 0 <= i < |init| ==> init[i] <= init[|init| - 1];
          }
        }
        CountNone(init, now, now + 1);
      } else if init == [] {
      } else {
        CountUpTo(init, a.start, init[|init| - 1] + 1, now + 1);
      }
    }
  }

  lemma {:induction false} CountUpTo(times: seq<int>, lo: int, hi: int, hi': int)
    requires hi <= hi'
    requires forall i :: 0 <= i < |times| ==> times[i] < hi
    ensures CountIn(times, lo, hi) == CountIn(times, lo, hi')
  {
    if times != [] {
      CountUpTo(times[1..], lo, hi, hi');
    }
  }

  /** A message is refused only when more than `limit` messages, it included,
      arrived within one window's length. */
  lemma RefusedWhenFull(w: Window, limit: nat, windowMs: nat, times: seq<int>)
    requires Clocked(w, times) && windowMs > 0 && w.count == 0 && times != []
    requires After(w, windowMs, times).count > limit
    ensures var now := times[|times| - 1];
      exists lo :: Crowded(times, lo, now, limit) && lo <= now < lo + windowMs
  {
    CounterCounts(w, windowMs, times);
    assert Crowded(times, After(w, windowMs, times).start, times[|times| - 1], limit);
  }

  /** More than `limit` messages arrived from `lo` up to `now`. */
  predicate Crowded(times: seq<int>, lo: int, now: int, limit: nat) {
    CountIn(times, lo, now + 1) > limit
  }
}

/** The stopwatch of stopwatch/manager.js: a seconds counter driven by a
    one-second interval, started and paused by `toggle`, cleared by `reset`
    and by `stopAndGetDuration`, shown as `MM:SS`. Clock readings (`new
    Date()`) are passed in as numbers. */
module Stopwatch {
  import opened Wrappers
  import Decimal

  // ---------------------------------------------------------------------
  // `formatTime`.

  /** `formatTime(totalSeconds)`: whole minutes, a colon, the remaining
      seconds, each padded with `0` to two characters. */
  function FormatTime(totalSeconds: nat): (r: string)
    ensures |r| >= 5 && r[|r| - 3] == ':'
  {
    SecondsFieldLength(totalSeconds % 60);
    Decimal.PadStart2(Decimal.NatToString(totalSeconds / 60)) + ":"
    + Decimal.PadStart2(Decimal.NatToString(totalSeconds % 60))
  }

  lemma SecondsFieldLength(s: nat)
    requires s < 100
    ensures |Decimal.PadStart2(Decimal.NatToString(s))| == 2
  {
    ShortNumber(s);
  }

  /** A number below 100 has at most two digits. */
  lemma ShortNumber(n: nat)
    requires n < 100
    ensures |Decimal.NatToString(n)| <= 2
  {
    if n >= 10 {
      var q := n / 10;
      assert q < 10;
      assert |Decimal.NatToString(q)| == 1;
    }
  }

  /** A leading `0` does not change the value of a digit string. */
  lemma {:induction false} DigitsValueLeadingZero(s: string)
    requires Decimal.AllDigits(s)
    ensures Decimal.AllDigits("0" + s) && Decimal.DigitsValue("0" + s) == Decimal.DigitsValue(s)
    decreases |s|
  {
    var z := "0" + s;
    assert Decimal.AllDigits(z) by {
      forall k | 0 <= k < |z| ensures Decimal.IsDigit(z[k]) {
        if k > 0 { assert z[k] == s[k - 1]; }
      }
    }
    if s != [] {
      assert z[..|z| - 1] == "0" + s[..|s| - 1];
      assert z[|z| - 1] == s[|s| - 1];
      DigitsValueLeadingZero(s[..|s| - 1]);
    } else {
      assert z[..|z| - 1] == [];
    }
  }

  /** A padded field reads back as the number it shows. */
  lemma PaddedValue(n: nat)
    ensures Decimal.AllDigits(Decimal.PadStart2(Decimal.NatToString(n)))
    ensures Decimal.DigitsValue(Decimal.PadStart2(Decimal.NatToString(n))) == n
  {
    var s := Decimal.NatToString(n);
    Decimal.DigitsValueOfNatToString(n);
    if |s| < 2 {
      assert Decimal.PadStart2(s) == "0" + s;
      DigitsValueLeadingZero(s);
    }
  }

  /** The two fields of `formatTime(t)` are all digits and read back as the
      whole minutes and the remaining seconds of `t`; the seconds field is
      exactly two characters, and below 100 minutes so is the minutes field. */
  lemma FormatTimeFields(t: nat)
    ensures var r := FormatTime(t);
      Decimal.AllDigits(r[..|r| - 3]) && Decimal.DigitsValue(r[..|r| - 3]) == t / 60
    ensures var r := FormatTime(t);
      Decimal.AllDigits(r[|r| - 2..]) && Decimal.DigitsValue(r[|r| - 2..]) == t % 60
    ensures t < 6000 ==> |FormatTime(t)| == 5
  {
    var m := Decimal.PadStart2(Decimal.NatToString(t / 60));
    var s := Decimal.PadStart2(Decimal.NatToString(t % 60));
    SecondsFieldLength(t % 60);
    var r := FormatTime(t);
    assert r == m + ":" + s;
    assert r[..|r| - 3] == m;
    assert r[|r| - 2..] == s;
    PaddedValue(t / 60);
    PaddedValue(t % 60);
    if t < 6000 {
      SecondsFieldLength(t / 60);
    }
  }

  // ---------------------------------------------------------------------
  // The state and its transitions.

  /** `seconds`, `isRunning` and `startTime`. */
  datatype Watch = Watch(seconds: nat, isRunning: bool, startTime: Option<int>)

  /** What `stopAndGetDuration` returns. */
  datatype Session = Session(duration: nat, startTime: int, endTime: int)

  const Cleared := Watch(0, false, None)

  /** `toggle()` at clock reading `now`: pause, or start, recording the start
      only when there is none yet. */
  function Toggled(w: Watch, now: int): (t: Watch)
    ensures t.isRunning == !w.isRunning && t.seconds == w.seconds
    ensures w.isRunning || w.startTime.Some? ==> t.startTime == w.startTime
    ensures !w.isRunning && w.startTime.None? ==> t.startTime == Some(now)
  {
    if w.isRunning then w.(isRunning := false)
    else w.(startTime := if w.startTime.Some? then w.startTime else Some(now), isRunning := true)
  }

  /** The interval callback. */
  function Ticked(w: Watch): Watch {
    w.(seconds := w.seconds + 1)
  }

  /** Pausing and resuming gives back the running stopwatch, with its
      original start and its count. */
  lemma PauseResume(w: Watch, pausedAt: int, resumedAt: int)
    requires w.isRunning && w.startTime.Some?
    ensures Toggled(Toggled(w, pausedAt), resumedAt) == w
  {
  }

  /** Starting and pausing keeps the count, and the first start is kept as
      the start time. */
  lemma StartPause(w: Watch, startedAt: int, pausedAt: int)
    requires !w.isRunning
    ensures Toggled(Toggled(w, startedAt), pausedAt) == w.(startTime := Some(w.startTime.GetOr(startedAt)))
  {
  }

  /** What happens during a session: a toggle at a clock reading, or one
      second going by, which ticks only while the interval runs. */
  datatype Event = Toggle(now: int) | Second

  function Replay(w: Watch, events: seq<Event>): Watch
    decreases |events|
  {
    if events == [] then w
    else
      var v := match events[0]
        case Toggle(now) => Toggled(w, now)
        case Second => if w.isRunning then Ticked(w) else w;
      Replay(v, events[1..])
  }

  /** While the stopwatch runs, each second adds exactly one. */
  lemma {:induction false} SecondsWhileRunning(w: Watch, n: nat)
    requires w.isRunning
    ensures Replay(w, seq(n, _ => Second)) == w.(seconds := w.seconds + n)
    decreases n
  {
    if n > 0 {
      assert seq(n, _ => Second)[1..] == seq(n - 1, _ => Second);
      SecondsWhileRunning(Ticked(w), n - 1);
    }
  }

  /** While it is paused, seconds go by without counting. */
  lemma {:induction false} SecondsWhilePaused(w: Watch, n: nat)
    requires !w.isRunning
    ensures Replay(w, seq(n, _ => Second)) == w
    decreases n
  {
    if n > 0 {
      assert seq(n, _ => Second)[1..] == seq(n - 1, _ => Second);
      SecondsWhilePaused(w, n - 1);
    }
  }

  /** Toggling never changes the count. */
  lemma {:induction false} TogglesKeepSeconds(w: Watch, events: seq<Event>)
    requires forall i :: 0 <= i < |events| ==> events[i].Toggle?
    ensures Replay(w, events).seconds == w.seconds
    decreases |events|
  {
    if events != [] {
      TogglesKeepSeconds(Toggled(w, events[0].now), events[1..]);
    }
  }

  // ---------------------------------------------------------------------
  // The manager.

  class StopwatchManager {
    var seconds: nat
    var isRunning: bool
    var startTime: Option<int>
    /** Whether the one-second interval is scheduled. */
    var ticking: bool

    function Snapshot(): Watch
      reads this
    {
      Watch(seconds, isRunning, startTime)
    }

    /** The interval is scheduled exactly while the stopwatch runs, and a
        running stopwatch has a start time. */
    ghost predicate Valid()
      reads this
    {
      ticking == isRunning && (isRunning ==> startTime.Some?)
    }

    constructor()
      ensures Snapshot() == Cleared && Valid()
    {
      seconds := 0;
      isRunning := false;
      startTime := None;
      ticking := false;
    }

    /** `toggle()`: clears the interval, or schedules it; returns the new
        `isRunning`. */
    method Toggle(now: int) returns (running: bool)
      requires Valid()
      modifies this
      ensures Snapshot() == Toggled(old(Snapshot()), now) && Valid()
      ensures running == isRunning && running == !old(isRunning)
    {
      if isRunning {
        ticking := false;
        isRunning := false;
      } else {
        if startTime.None? {
          startTime := Some(now);
        }
        isRunning := true;
        ticking := true;
      }
      return isRunning;
    }

    /** The interval callback; it only fires while the interval is scheduled. */
    method Tick()
      requires Valid() && ticking
      modifies this
      ensures Snapshot() == Ticked(old(Snapshot())) && Valid()
    {
      seconds := seconds + 1;
    }

    /** `stopAndGetDuration()` at clock reading `now`: the count so far, the
        start (or `now` if it never started) and `now`; then everything is
        cleared. */
    method StopAndGetDuration(now: int) returns (session: Session)
      modifies this
      ensures session == Session(old(seconds), old(startTime).GetOr(now), now)
      ensures Snapshot() == Cleared && Valid()
    {
      ticking := false;
      var duration := seconds;
      session := Session(duration, startTime.GetOr(now), now);
      seconds := 0;
      isRunning := false;
      startTime := None;
    }

    /** `reset()`: everything is cleared; returns `isRunning`, now false. */
    method Reset() returns (running: bool)
      modifies this
      ensures Snapshot() == Cleared && Valid() && !running
    {
      ticking := false;
      seconds := 0;
      isRunning := false;
      startTime := None;
      return isRunning;
    }
  }
}

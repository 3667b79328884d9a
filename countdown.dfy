/** The countdown of countdown/countdown.js: a number of seconds shown in the
    tray as `M:SS` and counted down one step per second to 0, after which the
    title is cleared. */
module Countdown {
  import Decimal

  /** `parseInt(t / 60)` for an integer `t`: the quotient truncated toward zero. */
  function Minutes(t: int): (m: int)
    ensures t >= 0 ==> 0 <= t - 60 * m < 60
  {
    if t >= 0 then t / 60 else -((-t) / 60)
  }

  /** `show_time(t)`: the minutes unpadded, a colon, and the remaining seconds
      with a `0` in front below 10. */
  function ShowTime(t: int): string {
    var minute := Minutes(t);
    var second := t - minute * 60;
    Decimal.IntToString(minute) + ":"
    + (if second < 10 then "0" + Decimal.IntToString(second) else Decimal.IntToString(second))
  }

  /** For a count that is not negative, the seconds lie in [0, 60) and,
      with the minutes, make up the count. */
  lemma MinutesSeconds(t: int)
    requires t >= 0
    ensures var second := t - Minutes(t) * 60;
      0 <= second < 60 && 60 * Minutes(t) + second == t
  {
  }

  /** The title is the unpadded minutes, a colon and exactly two digits of
      seconds. */
  lemma ShowTimeFields(t: int)
    requires t >= 0
    ensures var title := ShowTime(t);
      var s := t % 60;
      title == Decimal.NatToString(t / 60) + ":" + [Decimal.DigitChar(s / 10), Decimal.DigitChar(s % 10)]
  {
    var s := t % 60;
    MinutesSeconds(t);
    assert t - Minutes(t) * 60 == s;
    if s < 10 {
      assert Decimal.IntToString(s) == [Decimal.DigitChar(s)];
      assert Decimal.DigitChar(s / 10) == '0';
    } else {
      assert Decimal.NatToString(s) == Decimal.NatToString(s / 10) + [Decimal.DigitChar(s % 10)];
      assert Decimal.NatToString(s / 10) == [Decimal.DigitChar(s / 10)];
    }
  }

  /** The counts `start_count_time(t)` shows, one per second, each call
      showing its count and, unless it is 0, scheduling the next call with
      one less. */
  function Shown(t: nat): (counts: seq<nat>)
    ensures |counts| == t + 1 && counts[0] == t
    decreases t
  {
    [t] + (if t == 0 then [] else Shown(t - 1))
  }

  /** Each step lowers the count by exactly one, down to 0. */
  lemma {:induction false} ShownCountDown(t: nat, i: nat)
    requires i <= t
    ensures Shown(t)[i] == t - i
    decreases t
  {
    if i > 0 {
      assert Shown(t)[i] == Shown(t - 1)[i - 1];
      ShownCountDown(t - 1, i - 1);
    }
  }

  /** The tray titles of the countdown: the titles of t, t - 1, ..., 0 in
      order, then the empty title. */
  function Titles(t: nat): (titles: seq<string>)
    ensures |titles| == t + 2 && titles[|titles| - 1] == ""
    ensures forall i :: 0 <= i <= t ==> titles[i] == ShowTime(t - i)
  {
    var counts := Shown(t);
    assert forall i :: 0 <= i <= t ==> counts[i] == t - i by {
      forall i | 0 <= i <= t ensures counts[i] == t - i {
        ShownCountDown(t, i);
      }
    }
    seq(|counts|, i requires 0 <= i < |counts| => ShowTime(counts[i])) + [""]
  }

  /** `time_start(m)`: the countdown from `m` minutes. */
  function TimeStart(minutes: nat): (titles: seq<string>)
    ensures |titles| == minutes * 60 + 2
  {
    Titles(minutes * 60)
  }

  /** The first title of a countdown of `m` minutes is `m:00`. */
  lemma TimeStartTitle(minutes: nat)
    ensures TimeStart(minutes)[0] == Decimal.NatToString(minutes) + ":00"
  {
    ShowTimeFields(minutes * 60);
    assert minutes * 60 / 60 == minutes;
    assert minutes * 60 % 60 == 0;
  }

  /** The durations offered by the tray menu, in minutes. */
  const MenuMinutes: seq<nat> := [42, 47, 27, 17]
}

/**
 * The audio player component (`front-end/src/components/AudioPlayer.jsx`): the time label, the
 * playback-rate cycle, the progress percentage and the player's state as its handlers update
 * it. The `<audio>` element is outside the model: its events arrive as method calls carrying
 * the values the element reports, and whether `play()` resolves is a parameter.
 */
module AudioPlayer {
  import opened Text
  import opened JsRuntime

  // ---------------------------------------------------------------------------
  // The time label

  /**
   * `${Math.floor(s / 60)}:${Math.floor(s % 60).toString().padStart(2, '0')}` without a guard,
   * for any number (Playground's `formatTime` is exactly this).
   */
  function MinutesSeconds(n: Number): string {
    IntegralToString(FloorN(Div60N(n))) + ":" + PadStart2(IntegralToString(FloorN(Rem60N(n))))
  }

  /** The label of a whole number of seconds: minutes, a colon, two-digit seconds. */
  function ClockOfWhole(total: nat): string {
    NatToString(total / 60) + ":" + PadStart2(NatToString(total % 60))
  }

  /** `formatTime`: "0:00" for a non-finite time, otherwise the label of its whole seconds. */
  function FormatTime(n: Number): (shown: string)
    ensures !IsFinite(n) ==> shown == "0:00"
    ensures n.Finite? && n.r >= 0.0 ==> shown == ClockOfWhole(Floor(n.r))
  {
    if !IsFinite(n) then "0:00"
    else if n.r >= 0.0 then
      MinutesSecondsOfTime(n.r);
      MinutesSeconds(n)
    else MinutesSeconds(n)
  }

  /** For a time of at least zero seconds the unguarded label is the label of its whole seconds. */
  lemma MinutesSecondsOfTime(r: real)
    requires r >= 0.0
    ensures MinutesSeconds(Finite(r)) == ClockOfWhole(Floor(r))
  {
    var total := Floor(r);
    FloorDiv60(r);
    FloorRem60(r);
    FloorOfWhole(total / 60);
    FloorOfWhole(total % 60);
  }

  /** Whole minutes: the floor of a sixtieth is a sixtieth of the floor. */
  lemma FloorDiv60(r: real)
    requires r >= 0.0
    ensures Floor(r / 60.0) == Floor(r) / 60
  {
    var total := Floor(r);
    var q := total / 60;
    assert total == 60 * q + total % 60;
    assert q as real <= r / 60.0 < q as real + 1.0;
  }

  /** Whole seconds: the floor of the remainder is the remainder of the floor. */
  lemma FloorRem60(r: real)
    requires r >= 0.0
    ensures Floor(Rem60(r)) == Floor(r) % 60
  {
    var total := Floor(r);
    var q := total / 60;
    var s := total % 60;
    assert total == 60 * q + s;
    FloorDiv60(r);
    assert Trunc(r / 60.0) == q;
    assert Rem60(r) == r - q as real * 60.0;
    assert s as real <= Rem60(r) < s as real + 1.0;
  }

  lemma FloorOfWhole(k: int)
    ensures Floor(k as real) == k
  {
  }

  /** Non-finite input renders as NaN and Infinity text when the guard is missing. */
  lemma MinutesSecondsOfNonFinite()
    ensures MinutesSeconds(NaN) == "NaN:NaN"
    ensures MinutesSeconds(PosInf) == "Infinity:NaN"
    ensures MinutesSeconds(NegInf) == "-Infinity:NaN"
  {
  }

  /** Reading the label back: the minutes times 60 plus the two-digit seconds give the seconds. */
  lemma {:induction false} ClockReadsBack(total: nat)
    ensures var parts := SplitOn(ClockOfWhole(total), ':');
      |parts| == 2 && |parts[1]| == 2 &&
      (forall i :: 0 <= i < |parts[0]| ==> '0' <= parts[0][i] <= '9') &&
      (forall i :: 0 <= i < |parts[1]| ==> '0' <= parts[1][i] <= '9') &&
      DigitsValue(parts[0]) * 60 + DigitsValue(parts[1]) == total
  {
    var m := NatToString(total / 60);
    var ss := PadStart2(NatToString(total % 60));
    SecondsReadBack(total % 60);
    assert ClockOfWhole(total) == Join([':'], [m, ss]);
    assert ':' !in m && ':' !in ss;
    SplitOnJoin([m, ss], ':');
    DigitsValueOfNatToString(total / 60);
  }

  lemma SecondsReadBack(s: nat)
    requires s < 60
    ensures var ss := PadStart2(NatToString(s));
      |ss| == 2 && (forall i :: 0 <= i < 2 ==> '0' <= ss[i] <= '9') && DigitsValue(ss) == s
  {
    NatToStringLength(s);
    DigitsValueOfNatToString(s);
    var d := NatToString(s);
    if s < 10 {
      var ss := PadStart2(d);
      assert ss == ['0', d[0]];
      assert ss[..1] == "0";
      assert DigitsValue(ss[..1]) == 0 by {
        assert ss[..1][..0] == [];
      }
      assert d[..0] == [];
    } else {
      assert |d| >= 2;
      assert s / 10 < 10;
      assert d == NatToString(s / 10) + [DigitChar(s % 10)];
    }
  }

  // ---------------------------------------------------------------------------
  // Playback rate and progress

  /** The rate after one click: 1 → 1.5 → 2 → 1, and anything else back to 1. */
  function NextRate(rate: real): (next: real)
    ensures next == 1.0 || next == 1.5 || next == 2.0
    ensures rate == 1.0 ==> next == 1.5
    ensures rate == 1.5 ==> next == 2.0
    ensures rate != 1.0 && rate != 1.5 ==> next == 1.0
  {
    if rate == 1.0 then 1.5 else if rate == 1.5 then 2.0 else 1.0
  }

  /** Three clicks bring each of the three rates back to itself. */
  lemma RateCycle(rate: real)
    requires rate == 1.0 || rate == 1.5 || rate == 2.0
    ensures NextRate(NextRate(NextRate(rate))) == rate
    ensures NextRate(rate) != rate && NextRate(NextRate(rate)) != rate
  {
  }

  function Clamp(lo: real, hi: real, x: real): (c: real)
    requires lo <= hi
    ensures lo <= c <= hi
    ensures lo <= x <= hi ==> c == x
    ensures x < lo ==> c == lo
    ensures x > hi ==> c == hi
  {
    if x < lo then lo else if x > hi then hi else x
  }

  /**
   * The progress bar fill: 0 when the duration is falsy (0 or NaN), 0 for an infinite
   * duration (the quotient is 0), otherwise the elapsed share of the duration as a percentage,
   * clamped to [0, 100].
   */
  function ProgressPercent(currentTime: real, duration: Number): (p: real)
    ensures 0.0 <= p <= 100.0
    ensures !Truthy(duration) || !IsFinite(duration) ==> p == 0.0
    ensures duration.Finite? && duration.r > 0.0 && currentTime >= duration.r ==> p == 100.0
    ensures duration.Finite? && duration.r > 0.0 && 0.0 <= currentTime <= duration.r ==>
      p * duration.r == currentTime * 100.0
  {
    match duration
    case Finite(d) =>
      if d == 0.0 then 0.0
      else
        var x := currentTime / d * 100.0;
        if d > 0.0 then
          QuotientFacts(currentTime, d);
          Clamp(0.0, 100.0, x)
        else Clamp(0.0, 100.0, x)
    case _ => 0.0
  }

  /** The share of a positive divisor: at least 1 from the divisor up, within [0, 1] below it. */
  lemma QuotientFacts(c: real, d: real)
    requires d > 0.0
    ensures (c / d) * d == c
    ensures c >= d ==> c / d >= 1.0
    ensures 0.0 <= c <= d ==> 0.0 <= c / d <= 1.0
  {
  }

  // ---------------------------------------------------------------------------
  // The player's state

  /** The component's state: `isPlaying`, `currentTime`, `duration`, `volume` and `rate`. */
  class Player {
    var isPlaying: bool
    var currentTime: real
    var duration: Number
    var volume: real
    var rate: real

    /** The duration is never NaN (it is read as `duration || 0`) and the rate is one of the three. */
    ghost predicate Valid()
      reads this
    {
      !duration.NaN? && (rate == 1.0 || rate == 1.5 || rate == 2.0)
    }

    constructor()
      ensures Valid()
      ensures !isPlaying && currentTime == 0.0 && duration == Finite(0.0) && volume == 1.0 && rate == 1.0
    {
      isPlaying := false;
      currentTime := 0.0;
      duration := Finite(0.0);
      volume := 1.0;
      rate := 1.0;
    }

    function Progress(): (p: real)
      reads this
      ensures 0.0 <= p <= 100.0
    {
      ProgressPercent(currentTime, duration)
    }

    /** 'loadedmetadata': the element's duration, or 0 when it is NaN or 0. */
    method OnLoaded(elementDuration: Number)
      requires Valid()
      modifies this
      ensures Valid()
      ensures duration == (if Truthy(elementDuration) then elementDuration else Finite(0.0))
      ensures isPlaying == old(isPlaying) && currentTime == old(currentTime) && volume == old(volume) && rate == old(rate)
    {
      duration := if Truthy(elementDuration) then elementDuration else Finite(0.0);
    }

    /** 'timeupdate': the element's position, or 0 when it is NaN. */
    method OnTime(elementTime: Number)
      requires Valid()
      modifies this
      ensures Valid()
      ensures currentTime == (if elementTime.Finite? then elementTime.r else 0.0)
      ensures isPlaying == old(isPlaying) && duration == old(duration) && volume == old(volume) && rate == old(rate)
    {
      currentTime := if elementTime.Finite? then elementTime.r else 0.0;
    }

    /** 'ended': playback stops. */
    method OnEnded()
      requires Valid()
      modifies this
      ensures Valid() && !isPlaying
      ensures currentTime == old(currentTime) && duration == old(duration) && volume == old(volume) && rate == old(rate)
    {
      isPlaying := false;
    }

    /**
     * The play/pause button: nothing without an element; while playing, pause; while paused,
     * playing only once `play()` has resolved, and still paused when it rejects.
     */
    method TogglePlay(hasElement: bool, playResolves: bool)
      requires Valid()
      modifies this
      ensures Valid()
      ensures !hasElement ==> isPlaying == old(isPlaying)
      ensures hasElement && old(isPlaying) ==> !isPlaying
      ensures hasElement && !old(isPlaying) ==> isPlaying == playResolves
      ensures currentTime == old(currentTime) && duration == old(duration) && volume == old(volume) && rate == old(rate)
    {
      if !hasElement {
        return;
      }
      if isPlaying {
        isPlaying := false;
      } else if playResolves {
        isPlaying := true;
      }
    }

    /** The seek slider: the chosen position becomes the current time. */
    method OnSeek(hasElement: bool, value: real)
      requires Valid()
      modifies this
      ensures Valid()
      ensures currentTime == (if hasElement then value else old(currentTime))
      ensures isPlaying == old(isPlaying) && duration == old(duration) && volume == old(volume) && rate == old(rate)
    {
      if hasElement {
        currentTime := value;
      }
    }

    /** The volume slider. */
    method OnVolume(value: real)
      requires Valid()
      modifies this
      ensures Valid() && volume == value
      ensures isPlaying == old(isPlaying) && currentTime == old(currentTime) && duration == old(duration) && rate == old(rate)
    {
      volume := value;
    }

    /** The rate chip. */
    method ToggleRate()
      requires Valid()
      modifies this
      ensures Valid() && rate == NextRate(old(rate))
      ensures isPlaying == old(isPlaying) && currentTime == old(currentTime) && duration == old(duration) && volume == old(volume)
    {
      rate := NextRate(rate);
    }
  }

  /** Three clicks on the rate chip restore the rate. */
  method RateChipCycle(p: Player)
    requires p.Valid()
    modifies p
    ensures p.Valid() && p.rate == old(p.rate)
  {
    RateCycle(p.rate);
    p.ToggleRate();
    p.ToggleRate();
    p.ToggleRate();
  }
}

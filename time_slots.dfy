/** Booking-time helpers (lib/time-slots.ts): the list of `HH:MM` start
    times, and `HH:MM` arithmetic. JavaScript numbers are modelled as exact
    integers and reals; `None` stands for `NaN`. */
module TimeSlots {
  import opened Text

  /** An hour and a minute. */
  type Time = (int, int)

  function TotalMinutesOf(t: Time): int
  {
    t.0 * 60 + t.1
  }

  /** The inner loop's times: `minute` and every `interval` after it below 60. */
  function MinuteTimes(hour: int, minute: int, interval: int): seq<Time>
    requires interval > 0
    decreases 60 - minute
  {
    if minute >= 60 then [] else [(hour, minute)] + MinuteTimes(hour, minute + interval, interval)
  }

  /** Every time the nested loops visit, hour by hour. */
  function SlotTimes(startHour: int, endHour: int, interval: int): seq<Time>
    requires interval > 0
    decreases endHour - startHour
  {
    if endHour <= startHour then []
    else SlotTimes(startHour, endHour - 1, interval) + MinuteTimes(endHour - 1, 0, interval)
  }

  /** `${String(hour).padStart(2, '0')}:${String(minute).padStart(2, '0')}` */
  function FormatSlot(t: Time): string
  {
    SlotField(t.0) + ":" + SlotField(t.1)
  }

  /** `String(n).padStart(2, '0')` */
  function SlotField(n: int): string
  {
    PadStart2(IntToString(n))
  }

  /** `slots` is `times`, each formatted. */
  predicate FormatsOf(slots: seq<string>, times: seq<Time>)
  {
    |slots| == |times| && forall k :: 0 <= k < |slots| ==> slots[k] == FormatSlot(times[k])
  }

  lemma FormatsOfAppend(slots: seq<string>, times: seq<Time>, s: string, t: Time)
    requires FormatsOf(slots, times) && s == FormatSlot(t)
    ensures FormatsOf(slots + [s], times + [t])
  {
    var slots', times' := slots + [s], times + [t];
    forall k | 0 <= k < |slots'|
      ensures slots'[k] == FormatSlot(times'[k])
    {
      if k < |slots| {
        assert slots'[k] == slots[k] && times'[k] == times[k];
      }
    }
  }

  /** One pass of the inner loop keeps its invariant. */
  lemma MinuteStep(times: seq<Time>, startHour: int, hour: int, minute: int, interval: int)
    requires interval > 0 && minute < 60
    requires times + MinuteTimes(hour, minute, interval)
      == SlotTimes(startHour, hour, interval) + MinuteTimes(hour, 0, interval)
    ensures (times + [(hour, minute)]) + MinuteTimes(hour, minute + interval, interval)
      == SlotTimes(startHour, hour, interval) + MinuteTimes(hour, 0, interval)
  {
    var rest := MinuteTimes(hour, minute + interval, interval);
    assert MinuteTimes(hour, minute, interval) == [(hour, minute)] + rest;
    assert (times + [(hour, minute)]) + rest == times + ([(hour, minute)] + rest);
  }

  /** The end of the inner loop completes the hour. */
  lemma HourStep(times: seq<Time>, startHour: int, hour: int, minute: int, interval: int)
    requires interval > 0 && minute >= 60 && startHour <= hour
    requires times + MinuteTimes(hour, minute, interval)
      == SlotTimes(startHour, hour, interval) + MinuteTimes(hour, 0, interval)
    ensures times == SlotTimes(startHour, hour + 1, interval)
  {
    assert times + MinuteTimes(hour, minute, interval) == times;
  }

  /** `generateTimeSlots(startHour, endHour, interval)`. A non-positive
      interval makes the source loop forever, so it is excluded. */
  method GenerateTimeSlots(startHour: int, endHour: int, interval: int) returns (slots: seq<string>)
    requires interval > 0
    ensures FormatsOf(slots, SlotTimes(startHour, endHour, interval))
  {
    slots := [];
    ghost var times: seq<Time> := [];
    var hour := startHour;
    while hour < endHour
      invariant hour == startHour || startHour < hour <= endHour
      invariant times == SlotTimes(startHour, hour, interval)
      invariant FormatsOf(slots, times)
    {
      var minute := 0;
      while minute < 60
        invariant 0 <= minute
        invariant times + MinuteTimes(hour, minute, interval)
          == SlotTimes(startHour, hour, interval) + MinuteTimes(hour, 0, interval)
        invariant FormatsOf(slots, times)
        decreases 60 - minute
      {
        var timeStr := FormatSlot((hour, minute));
        MinuteStep(times, startHour, hour, minute, interval);
        FormatsOfAppend(slots, times, timeStr, (hour, minute));
        slots := slots + [timeStr];
        times := times + [(hour, minute)];
        minute := minute + interval;
      }
      HourStep(times, startHour, hour, minute, interval);
      hour := hour + 1;
    }
  }

  /** Splits `s` at its first colon: the text before it, and the text after
      it when there is one. */
  function SplitAtColon(s: string): (string, Option<string>)
  {
    if s == [] then ([], None)
    else if s[0] == ':' then ([], Some(s[1..]))
    else
      var (before, after) := SplitAtColon(s[1..]);
      ([s[0]] + before, after)
  }

  /** The split is at the first colon: the part before holds none, and with
      no colon the whole string comes back. */
  lemma {:induction false} SplitAtColonSpec(s: string)
    ensures var (before, after) := SplitAtColon(s);
      ':' !in before
      && (after.None? <==> ':' !in s)
      && (after.None? ==> before == s)
      && (after.Some? ==> s == before + ":" + after.value)
  {
    if s != [] && s[0] != ':' {
      SplitAtColonSpec(s[1..]);
      var (before, after) := SplitAtColon(s[1..]);
      assert s == [s[0]] + s[1..];
      if after.Some? {
        assert s == [s[0]] + before + ":" + after.value;
      }
    } else if s != [] {
      assert s == [] + ":" + s[1..];
    }
  }

  /** `Number(s)` for an optionally signed string of digits (the empty string
      reads as 0); every other string is `NaN`, written `None`. */
  function ToNumber(s: string): (n: Option<int>)
    ensures n.Some? && s != [] ==> IsDigit(s[0]) || s[0] == '-' || s[0] == '+'
    ensures n.Some? && n.value < 0 ==> s != [] && s[0] == '-'
  {
    if AllDigits(s) then Some(ParseDecimal(s))
    else if |s| >= 2 && (s[0] == '-' || s[0] == '+') && AllDigits(s[1..]) then
      var magnitude: int := ParseDecimal(s[1..]);
      Some(if s[0] == '-' then -magnitude else magnitude)
    else None
  }

  /** `const [h, m] = s.split(':').map(Number)` and then `h * 60 + m`. The
      minute field is the text between the first and the second colon. With
      no colon there is no minute field, `m` is `undefined`, and
      `h * 60 + undefined` is `NaN`. */
  function TotalMinutes(s: string): (m: Option<int>)
    ensures ':' !in s ==> m.None?
  {
    SplitAtColonSpec(s);
    var (h, rest) := SplitAtColon(s);
    if rest.None? then None
    else
      match (ToNumber(h), ToNumber(SplitAtColon(rest.value).0))
      case (Some(hv), Some(mv)) => Some(hv * 60 + mv)
      case _ => None
  }

  /** `calculateDuration`: hours from start to end, `NaN` when either time
      does not parse. */
  function CalculateDuration(startTime: string, endTime: string): (hours: Option<real>)
    ensures hours.Some? <==> TotalMinutes(startTime).Some? && TotalMinutes(endTime).Some?
    ensures hours.Some? ==>
      hours.value * 60.0 == (TotalMinutes(endTime).value - TotalMinutes(startTime).value) as real
  {
    match (TotalMinutes(startTime), TotalMinutes(endTime))
    case (Some(s), Some(e)) => Some((e - s) as real / 60.0)
    case _ => None
  }

  /** `calculatePrice` */
  function CalculatePrice(pricePerHour: real, hours: real): (price: real)
    ensures hours == 0.0 ==> price == 0.0
    ensures pricePerHour >= 0.0 && hours >= 0.0 ==> price >= 0.0
    ensures hours > 0.0 ==> (price > 0.0 <==> pricePerHour > 0.0)
  {
    pricePerHour * hours
  }

  /** `isTimeSlotValid`: comparisons with `NaN` are false. */
  function IsTimeSlotValid(startTime: string, endTime: string): (valid: bool)
    ensures valid ==> TotalMinutes(startTime).Some? && TotalMinutes(endTime).Some?
    ensures valid ==> ':' in startTime && ':' in endTime
    ensures startTime == endTime ==> !valid
  {
    match (TotalMinutes(startTime), TotalMinutes(endTime))
    case (Some(s), Some(e)) => e > s
    case _ => false
  }

  /** The duration is positive exactly when the interval is valid, and zero
      for an empty interval, which therefore costs nothing. */
  lemma DurationPositiveIffValid(startTime: string, endTime: string, pricePerHour: real)
    ensures (CalculateDuration(startTime, endTime).Some? && CalculateDuration(startTime, endTime).value > 0.0)
      <==> IsTimeSlotValid(startTime, endTime)
    ensures TotalMinutes(startTime).Some? && TotalMinutes(startTime) == TotalMinutes(endTime) ==>
      CalculatePrice(pricePerHour, CalculateDuration(startTime, endTime).value) == 0.0
  {
  }

  /** `a:b` splits into `a` and `b` when `a` holds no colon. */
  lemma {:induction false} SplitNoColonPrefix(a: string, b: string)
    requires ':' !in a
    ensures SplitAtColon(a + ":" + b) == (a, Some(b))
  {
    if a != [] {
      var s := a + ":" + b;
      assert s[0] == a[0] && a[0] in a;
      assert ':' !in a[1..] by {
        forall i | 0 <= i < |a[1..]|
          ensures a[1..][i] != ':'
        {
          assert a[1..][i] == a[i + 1] && a[i + 1] in a;
        }
      }
      assert s[1..] == a[1..] + ":" + b;
      SplitNoColonPrefix(a[1..], b);
      assert a == [a[0]] + a[1..];
    } else {
      assert a + ":" + b == ":" + b;
    }
  }

  /** `Number` reads back what `String` printed. */
  lemma ToNumberOfString(n: int)
    ensures ToNumber(IntToString(n)) == Some(n)
  {
    var s := IntToString(n);
    if n >= 0 {
      NatToDecimalSpec(n);
    } else {
      NatToDecimalSpec(-n);
      assert s[1..] == NatToDecimal(-n);
    }
  }

  /** A slot field holds no colon and reads back as the number printed. */
  lemma SlotFieldReadsBack(n: int)
    ensures ToNumber(SlotField(n)) == Some(n)
    ensures ':' !in SlotField(n)
  {
    var s := IntToString(n);
    if n >= 0 {
      PaddedDecimal(n);
      assert ':' !in PadStart2(s) by {
        forall i | 0 <= i < |PadStart2(s)|
          ensures PadStart2(s)[i] != ':'
        {
          assert IsDigit(PadStart2(s)[i]);
        }
      }
    } else {
      NatToDecimalSpec(-n);
      assert s[1..] == NatToDecimal(-n);
      assert PadStart2(s) == s;
      assert ':' !in s by {
        forall i | 0 <= i < |s|
          ensures s[i] != ':'
        {
          if i > 0 {
            assert s[i] == s[1..][i - 1];
            assert IsDigit(s[i]);
          }
        }
      }
    }
  }

  /** A formatted slot reads back as its total minutes; a negative hour
      prints with its sign and reads back with it. */
  lemma ParseFormattedSlot(t: Time)
    ensures TotalMinutes(FormatSlot(t)) == Some(TotalMinutesOf(t))
  {
    var (hour, minute) := t;
    assert FormatSlot(t) == SlotField(hour) + ":" + SlotField(minute);
    ParseSlotFields(hour, minute);
  }

  /** The two printed fields joined by a colon read back as total minutes. */
  lemma ParseSlotFields(hour: int, minute: int)
    ensures TotalMinutes(SlotField(hour) + ":" + SlotField(minute)) == Some(hour * 60 + minute)
  {
    SlotFieldReadsBack(hour);
    SlotFieldReadsBack(minute);
    TotalMinutesOfFields(SlotField(hour), SlotField(minute), hour, minute);
  }

  /** `h:m` with two colon-free fields reads as `h * 60 + m`. */
  lemma TotalMinutesOfFields(h: string, m: string, hour: int, minute: int)
    requires ':' !in h && ':' !in m
    requires ToNumber(h) == Some(hour) && ToNumber(m) == Some(minute)
    ensures TotalMinutes(h + ":" + m) == Some(hour * 60 + minute)
  {
    SplitNoColonPrefix(h, m);
    SplitAtColonSpec(m);
  }

  /** Every time a step of `interval` from `minute` reaches lies below 60, in
      the given hour, on a multiple of `interval`. */
  lemma {:induction false} MinuteTimesBounds(hour: int, minute: int, interval: int)
    requires interval > 0 && minute >= 0 && minute % interval == 0
    ensures forall t :: t in MinuteTimes(hour, minute, interval) ==>
      t.0 == hour && minute <= t.1 < 60 && t.1 % interval == 0
    decreases 60 - minute
  {
    if minute < 60 {
      NextMultiple(minute, interval);
      MinuteTimesBounds(hour, minute + interval, interval);
      assert MinuteTimes(hour, minute, interval)
        == [(hour, minute)] + MinuteTimes(hour, minute + interval, interval);
    }
  }

  /** The inner loop's times increase. */
  lemma {:induction false} MinuteTimesShape(hour: int, minute: int, interval: int)
    requires interval > 0 && minute >= 0 && minute % interval == 0
    ensures forall t :: t in MinuteTimes(hour, minute, interval) ==>
      t.0 == hour && minute <= t.1 < 60 && t.1 % interval == 0
    ensures StrictlyIncreasing(MinuteTimes(hour, minute, interval))
    decreases 60 - minute
  {
    MinuteTimesBounds(hour, minute, interval);
    if minute < 60 {
      NextMultiple(minute, interval);
      MinuteTimesShape(hour, minute + interval, interval);
      var rest := MinuteTimes(hour, minute + interval, interval);
      var ts := [(hour, minute)] + rest;
      assert MinuteTimes(hour, minute, interval) == ts;
      forall j, k | 0 <= j < k < |ts|
        ensures TotalMinutesOf(ts[j]) < TotalMinutesOf(ts[k])
      {
        assert ts[k] == rest[k - 1] && rest[k - 1] in rest;
        if j > 0 {
          assert ts[j] == rest[j - 1];
        }
      }
    }
  }

  lemma NextMultiple(m: int, d: int)
    requires d > 0 && m % d == 0
    ensures (m + d) % d == 0
  {
    var q := m / d;
    assert m == d * q;
    assert m + d == d * (q + 1);
    DivUnique(m + d, d, q + 1, 0);
  }

  /** Times in strictly increasing order of `hour * 60 + minute`. */
  predicate StrictlyIncreasing(ts: seq<Time>)
  {
    forall j, k :: 0 <= j < k < |ts| ==> TotalMinutesOf(ts[j]) < TotalMinutesOf(ts[k])
  }

  /** Every generated time has an hour in `[startHour, endHour)` and a
      minute below 60 that is a multiple of `interval`, and the times come
      out strictly increasing. */
  lemma {:induction false} SlotTimesShape(startHour: int, endHour: int, interval: int)
    requires interval > 0
    ensures forall t :: t in SlotTimes(startHour, endHour, interval) ==>
      startHour <= t.0 < endHour && 0 <= t.1 < 60 && t.1 % interval == 0
    ensures StrictlyIncreasing(SlotTimes(startHour, endHour, interval))
    decreases endHour - startHour
  {
    if startHour < endHour {
      SlotTimesShape(startHour, endHour - 1, interval);
      MinuteTimesShape(endHour - 1, 0, interval);
      var front := SlotTimes(startHour, endHour - 1, interval);
      var last := MinuteTimes(endHour - 1, 0, interval);
      var ts := front + last;
      assert ts == SlotTimes(startHour, endHour, interval);
      forall t | t in ts
        ensures startHour <= t.0 < endHour && 0 <= t.1 < 60 && t.1 % interval == 0
      {
        if t !in front {
          var k :| 0 <= k < |last| && last[k] == t;
        }
      }
      forall j, k | 0 <= j < k < |ts|
        ensures TotalMinutesOf(ts[j]) < TotalMinutesOf(ts[k])
      {
        if k < |front| {
          assert ts[j] == front[j] && ts[k] == front[k];
        } else if j < |front| {
          assert ts[j] == front[j] && ts[j] in front;
          assert ts[k] == last[k - |front|];
        } else {
          assert ts[j] == last[j - |front|] && ts[k] == last[k - |front|];
        }
      }
    }
  }

  /** The inner loop visits `ceil((60 - minute) / interval)` minutes. */
  lemma {:induction false} MinuteCount(hour: int, minute: int, interval: int)
    requires interval > 0 && minute < 60
    ensures |MinuteTimes(hour, minute, interval)| == (59 - minute + interval) / interval
    decreases 60 - minute
  {
    var x := 59 - minute;
    if minute + interval >= 60 {
      DivUnique(x + interval, interval, 1, x);
    } else {
      MinuteCount(hour, minute + interval, interval);
      DivShift(x, interval);
      assert x - interval + interval == x;
    }
  }

  lemma {:induction false} MulBounds(d: int, k: int)
    requires d > 0
    ensures k >= 1 ==> d * k >= d
    ensures k <= -1 ==> d * k <= -d
    decreases if k < 0 then -k else k
  {
    if k > 1 {
      MulBounds(d, k - 1);
      assert d * k == d * (k - 1) + d;
    } else if k < -1 {
      MulBounds(d, k + 1);
      assert d * k == d * (k + 1) - d;
    }
  }

  /** Euclidean division has one quotient. */
  lemma DivUnique(n: int, d: int, q: int, r: int)
    requires d > 0 && 0 <= r < d && n == d * q + r
    ensures n / d == q
  {
    var q', r' := n / d, n % d;
    assert n == d * q' + r' && 0 <= r' < d;
    assert d * q - d * q' == d * (q - q');
    MulBounds(d, q - q');
  }

  lemma DivShift(x: int, d: int)
    requires d > 0
    ensures (x + d) / d == x / d + 1
  {
    var q, r := x / d, x % d;
    assert x == d * q + r;
    assert x + d == d * (q + 1) + r;
    DivUnique(x + d, d, q + 1, r);
  }

  /** For a positive interval the generator returns
      `(endHour - startHour) * ceil(60 / interval)` slots, and none at all
      when `endHour <= startHour`. */
  lemma {:induction false} SlotCount(startHour: int, endHour: int, interval: int)
    requires interval > 0
    ensures |SlotTimes(startHour, endHour, interval)| ==
      if endHour <= startHour then 0 else (endHour - startHour) * ((59 + interval) / interval)
    decreases endHour - startHour
  {
    if startHour < endHour {
      SlotCount(startHour, endHour - 1, interval);
      MinuteCount(endHour - 1, 0, interval);
      var c := (59 + interval) / interval;
      assert (endHour - startHour) * c == (endHour - 1 - startHour) * c + c;
    }
  }

  /** With an interval of an hour or more there is one slot per hour, on
      the hour. */
  lemma {:induction false} HourlySlots(startHour: int, endHour: int, interval: int, k: int)
    requires interval >= 60 && 0 <= k < endHour - startHour
    ensures |SlotTimes(startHour, endHour, interval)| == endHour - startHour
    ensures SlotTimes(startHour, endHour, interval)[k] == (startHour + k, 0)
    decreases endHour - startHour
  {
    assert MinuteTimes(endHour - 1, 0, interval) == [(endHour - 1, 0)];
    if k < endHour - 1 - startHour {
      HourlySlots(startHour, endHour - 1, interval, k);
    } else if startHour < endHour - 1 {
      HourlySlots(startHour, endHour - 1, interval, 0);
    }
  }

  /** The defaults (6, 23, 60) give 17 slots, from "06:00" to "22:00". */
  lemma DefaultSlots(slots: seq<string>)
    requires FormatsOf(slots, SlotTimes(6, 23, 60))
    ensures |slots| == 17
    ensures slots[0] == "06:00" && slots[16] == "22:00"
  {
    HourlySlots(6, 23, 60, 0);
    HourlySlots(6, 23, 60, 16);
    assert slots[0] == FormatSlot((6, 0)) && slots[16] == FormatSlot((22, 0));
    FormatOnTheHour(6);
    FormatOnTheHour(22);
  }

  /** The spelling of an on-the-hour slot for hours 0 to 99. */
  lemma FormatOnTheHour(h: int)
    requires 0 <= h < 100
    ensures FormatSlot((h, 0)) == [DigitChar(h / 10), DigitChar(h % 10), ':', '0', '0']
  {
    assert IntToString(0) == "0";
    assert SlotField(0) == "00";
    if h < 10 {
      assert IntToString(h) == [DigitChar(h)];
    } else {
      assert NatToDecimal(h / 10) == [DigitChar(h / 10)];
      assert IntToString(h) == [DigitChar(h / 10), DigitChar(h % 10)];
    }
  }

  /** Two formatted times form a valid slot exactly when the first is
      earlier. */
  lemma FormattedValidity(t: Time, u: Time)
    ensures IsTimeSlotValid(FormatSlot(t), FormatSlot(u)) <==> TotalMinutesOf(t) < TotalMinutesOf(u)
  {
    ParseFormattedSlot(t);
    ParseFormattedSlot(u);
  }

  /** Between two generated slots, `isTimeSlotValid` holds exactly when the
      first comes earlier in the list. */
  lemma SlotOrderIsValidity(slots: seq<string>, startHour: int, endHour: int, interval: int, j: int, k: int)
    requires interval > 0
    requires FormatsOf(slots, SlotTimes(startHour, endHour, interval))
    requires 0 <= j < |slots| && 0 <= k < |slots|
    ensures IsTimeSlotValid(slots[j], slots[k]) <==> j < k
  {
    var ts := SlotTimes(startHour, endHour, interval);
    SlotTimesShape(startHour, endHour, interval);
    assert ts[j] in ts && ts[k] in ts;
    assert slots[j] == FormatSlot(ts[j]) && slots[k] == FormatSlot(ts[k]);
    FormattedValidity(ts[j], ts[k]);
    if j < k {
      assert TotalMinutesOf(ts[j]) < TotalMinutesOf(ts[k]);
    } else if k < j {
      assert TotalMinutesOf(ts[k]) < TotalMinutesOf(ts[j]);
    }
  }
}

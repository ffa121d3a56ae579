/** The settlement watcher: a deadline, the instant it was created, and a
    timer handle that is set while the watcher runs and null once it has
    stopped. Each timer firing is an explicit Tick with the current time and
    the value the callback resolved to. */
module Watching {
  import opened Types

  /** The timer period, in milliseconds. */
  const TickInterval: int := 1000

  const ReasonCallback: string := "Condition met via callback"
  const ReasonExpired: string := "Time expired"

  /** What one tick decides, once the callback has resolved. */
  datatype Decision = Continue | StopByCallback | StopByTimeout

  /** The tick's decision table: the callback is consulted first, so a true
      result stops the watcher even when the time is also up. */
  function Decide(remaining: int, callbackResult: bool): (d: Decision)
    ensures d == StopByCallback <==> callbackResult
    ensures d == StopByTimeout <==> !callbackResult && remaining <= 0
    ensures d == Continue <==> !callbackResult && remaining > 0
  {
    if callbackResult then StopByCallback
    else if remaining <= 0 then StopByTimeout
    else Continue
  }

  /** The reason a stopping decision passes to stop. */
  function Reason(d: Decision): string
  {
    match d
    case StopByCallback => ReasonCallback
    case StopByTimeout => ReasonExpired
    case Continue => ""
  }

  function Remaining(maxTime: int, startTime: int, now: int): int
  {
    maxTime - (now - startTime)
  }

  /** One firing of the timer: when it fires and what the callback resolves to. */
  datatype TickEvent = TickEvent(now: int, callbackResult: bool)

  predicate Halts(maxTime: int, startTime: int, t: TickEvent)
  {
    Decide(Remaining(maxTime, startTime, t.now), t.callbackResult) != Continue
  }

  /** The index of the tick at which a watcher with this deadline and start
      stops, if it stops within the given firings. */
  function FirstStop(maxTime: int, startTime: int, ticks: seq<TickEvent>): (r: Option<nat>)
    ensures r.Some? ==> r.value < |ticks| && Halts(maxTime, startTime, ticks[r.value])
    ensures r.Some? ==> forall j :: 0 <= j < r.value ==> !Halts(maxTime, startTime, ticks[j])
    ensures r.None? <==> forall j :: 0 <= j < |ticks| ==> !Halts(maxTime, startTime, ticks[j])
  {
    if |ticks| == 0 then None
    else if Halts(maxTime, startTime, ticks[0]) then Some(0)
    else
      match FirstStop(maxTime, startTime, ticks[1..])
      case None => None
      case Some(k) => Some(k + 1)
  }

  class Watcher {
    const maxTime: int
    const startTime: int
    /** The interval handle; None is null. */
    var interval: Option<nat>
    /** The reasons stop has logged, oldest first. */
    var stopReasons: seq<string>

    /** The constructor reads the clock once; `now` is that reading. */
    constructor (maxTime: int, now: int)
      ensures this.maxTime == maxTime && startTime == now
      ensures interval == None && stopReasons == []
    {
      this.maxTime := maxTime;
      startTime := now;
      interval := None;
      stopReasons := [];
    }

    predicate Running()
      reads this
    {
      interval.Some?
    }

    /** start: installs the timer (whose handle is `handle`) and returns the
        banner it prints. */
    method Start(handle: nat) returns (banner: string)
      modifies this
      ensures interval == Some(handle) && stopReasons == old(stopReasons)
      ensures banner == "Started time: " + FormatTime(maxTime)
    {
      banner := "Started time: " + FormatTime(maxTime);
      interval := Some(handle);
    }

    /** stop: acts only while the timer is set; it clears the handle and logs
        the reason once. A second stop changes nothing. */
    method Stop(reason: string)
      modifies this
      ensures interval == None
      ensures stopReasons == old(stopReasons) + if old(interval).Some? then [reason] else []
    {
      if interval.Some? {
        interval := None;
        stopReasons := stopReasons + [reason];
      }
    }

    /** One firing of the timer at `now`, once the callback has resolved to
        `callbackResult`. A cleared timer does not fire, so a stopped watcher
        is left as it is and shows nothing. Also returns the remaining time
        and the line a running watcher shows for it. */
    method Tick(now: int, callbackResult: bool) returns (remaining: int, shown: string)
      modifies this
      ensures remaining == maxTime - (now - startTime)
      ensures old(Running()) ==> shown == "Remaining time: " + FormatTime(remaining)
      ensures !old(Running()) ==> shown == ""
      ensures !old(Running()) ==> interval == old(interval) && stopReasons == old(stopReasons)
      ensures old(Running()) ==>
                var d := Decide(remaining, callbackResult);
                && (d == Continue ==> interval == old(interval) && stopReasons == old(stopReasons))
                && (d != Continue ==> interval == None && stopReasons == old(stopReasons) + [Reason(d)])
    {
      var elapsedTime := now - startTime;
      remaining := maxTime - elapsedTime;
      if !Running() {
        return remaining, "";
      }
      shown := "Remaining time: " + FormatTime(remaining);
      if callbackResult {
        Stop(ReasonCallback);
        return;
      }
      if remaining <= 0 {
        Stop(ReasonExpired);
        return;
      }
    }

    /** The timer firing at each of the given instants in turn, until the
        watcher stops; `fired` is the number of firings that ran. */
    method RunSchedule(ticks: seq<TickEvent>) returns (fired: nat)
      modifies this
      ensures !old(Running()) ==> fired == 0 && interval == old(interval) && stopReasons == old(stopReasons)
      ensures old(Running()) ==>
                match FirstStop(maxTime, startTime, ticks)
                case None =>
                  fired == |ticks| && interval == old(interval) && stopReasons == old(stopReasons)
                case Some(k) =>
                  && fired == k + 1 && interval == None
                  && stopReasons == old(stopReasons)
                       + [Reason(Decide(Remaining(maxTime, startTime, ticks[k].now), ticks[k].callbackResult))]
    {
      var i := 0;
      while i < |ticks| && Running()
        invariant 0 <= i <= |ticks|
        invariant !old(Running()) ==> i == 0 && interval == old(interval) && stopReasons == old(stopReasons)
        invariant Running() ==> interval == old(interval) && stopReasons == old(stopReasons)
        invariant Running() ==> forall j :: 0 <= j < i ==> !Halts(maxTime, startTime, ticks[j])
        invariant old(Running()) && !Running() ==>
                    && 0 < i
                    && (forall j :: 0 <= j < i - 1 ==> !Halts(maxTime, startTime, ticks[j]))
                    && Halts(maxTime, startTime, ticks[i - 1])
                    && interval == None
                    && stopReasons == old(stopReasons)
                         + [Reason(Decide(Remaining(maxTime, startTime, ticks[i - 1].now), ticks[i - 1].callbackResult))]
      {
        var _, _ := Tick(ticks[i].now, ticks[i].callbackResult);
        i := i + 1;
      }
      fired := i;
    }
  }

  /** With a callback that keeps returning false, the watcher stops at the
      first tick whose elapsed time has reached the deadline, and never
      earlier; it keeps running while every tick comes before the deadline. */
  lemma AlwaysFalseStopsAtDeadline(maxTime: int, startTime: int, ticks: seq<TickEvent>)
    requires forall j :: 0 <= j < |ticks| ==> !ticks[j].callbackResult
    ensures forall k ::
              FirstStop(maxTime, startTime, ticks) == Some(k) <==>
                && 0 <= k < |ticks|
                && ticks[k].now - startTime >= maxTime
                && forall j :: 0 <= j < k ==> ticks[j].now - startTime < maxTime
    ensures FirstStop(maxTime, startTime, ticks).None? <==>
              forall j :: 0 <= j < |ticks| ==> ticks[j].now - startTime < maxTime
  {
  }

  /** A callback that resolves to true on the first tick stops the watcher
      there, for the callback's reason, whatever the remaining time. */
  lemma TrueCallbackStopsFirstTick(maxTime: int, startTime: int, ticks: seq<TickEvent>)
    requires |ticks| > 0 && ticks[0].callbackResult
    ensures FirstStop(maxTime, startTime, ticks) == Some(0)
    ensures Reason(Decide(Remaining(maxTime, startTime, ticks[0].now), ticks[0].callbackResult)) == ReasonCallback
  {
  }

  /** Whatever the callback resolves to, a tick at or past the deadline
      stops the watcher; so it has stopped by the first such tick. */
  lemma DeadlineStopsWhateverCallback(maxTime: int, startTime: int, ticks: seq<TickEvent>, j: nat)
    requires j < |ticks| && ticks[j].now - startTime >= maxTime
    ensures FirstStop(maxTime, startTime, ticks).Some?
    ensures FirstStop(maxTime, startTime, ticks).value <= j
  {
    assert Halts(maxTime, startTime, ticks[j]);
  }

  /** The firings of a timer started at `startTime`, one per interval, with
      the values the callback resolves to at each. */
  function Schedule(startTime: int, results: seq<bool>): seq<TickEvent>
  {
    seq(|results|, i requires 0 <= i < |results| => TickEvent(startTime + TickInterval * (i + 1), results[i]))
  }

  /** With one firing per interval, the watcher has stopped by firing k + 1,
      where k is the first index with (k + 1) intervals >= the deadline: less
      than one interval after the deadline, whatever the callback returns.
      With a callback that never matches it stops exactly there, by
      timeout, and never before. */
  lemma RegularScheduleStops(maxTime: int, startTime: int, results: seq<bool>)
    requires 0 < maxTime <= |results| * TickInterval
    ensures var k := (maxTime - 1) / TickInterval;
            && k < |results|
            && FirstStop(maxTime, startTime, Schedule(startTime, results)).Some?
            && FirstStop(maxTime, startTime, Schedule(startTime, results)).value <= k
            && TickInterval * (k + 1) >= maxTime
            && TickInterval * (k + 1) < maxTime + TickInterval
    ensures (forall j :: 0 <= j < |results| ==> !results[j]) ==>
              var k := (maxTime - 1) / TickInterval;
              && FirstStop(maxTime, startTime, Schedule(startTime, results)) == Some(k)
              && Decide(Remaining(maxTime, startTime, Schedule(startTime, results)[k].now), false) == StopByTimeout
  {
    var ticks := Schedule(startTime, results);
    var n := |results|;
    var k := (maxTime - 1) / TickInterval;
    var r := (maxTime - 1) % TickInterval;
    assert maxTime - 1 == TickInterval * k + r && 0 <= r < TickInterval;
    assert TickInterval * k < TickInterval * n;
    assert k < n;
    assert ticks[k].now - startTime == TickInterval * (k + 1);
    DeadlineStopsWhateverCallback(maxTime, startTime, ticks, k);
    if forall j :: 0 <= j < n ==> !results[j] {
      assert forall j :: 0 <= j < |ticks| ==> !ticks[j].callbackResult;
      AlwaysFalseStopsAtDeadline(maxTime, startTime, ticks);
      forall j | 0 <= j < k ensures ticks[j].now - startTime < maxTime {
        assert ticks[j].now - startTime == TickInterval * (j + 1);
      }
    }
  }

  /** Scenario: a deadline of five intervals with a callback that never
      matches ends by timeout on the fifth firing, not before. */
  lemma FiveIntervalDeadline(startTime: int)
    ensures FirstStop(5 * TickInterval, startTime, Schedule(startTime, seq(7, i => false))) == Some(4)
  {
    RegularScheduleStops(5 * TickInterval, startTime, seq(7, i => false));
  }

  // ---------------------------------------------------------------------------
  // formatTime, with JavaScript number semantics on integers

  function DigitChar(d: int): char
    requires 0 <= d < 10
  {
    ('0' as int + d) as char
  }

  /** Number.prototype.toString() of a non-negative integer. */
  function Decimal(n: nat): string
  {
    if n < 10 then [DigitChar(n)] else Decimal(n / 10) + [DigitChar(n % 10)]
  }

  /** Number.prototype.toString() of an integer. */
  function NumberToString(x: int): string
  {
    if x < 0 then "-" + Decimal(-x) else Decimal(x)
  }

  /** padStart(2, "0"). */
  function PadStart2(s: string): string
  {
    if |s| >= 2 then s else if |s| == 1 then "0" + s else "00"
  }

  /** The `%` operator of JavaScript: the remainder takes the sign of the
      dividend. */
  function TruncRem(a: int, b: int): int
    requires b > 0
  {
    if a >= 0 then a % b else -((-a) % b)
  }

  /** Math.floor(ms / 1000); for a positive divisor Dafny's division floors. */
  function TotalSeconds(ms: int): int { ms / 1000 }
  function ClockHours(totalSeconds: int): int { totalSeconds / 3600 }
  function ClockMinutes(totalSeconds: int): int { TruncRem(totalSeconds, 3600) / 60 }
  function ClockSeconds(totalSeconds: int): int { TruncRem(totalSeconds, 60) }

  /** formatTime: hours, minutes and seconds, each padded to two characters,
      joined by ":". */
  function FormatTime(ms: int): (r: string)
    ensures |r| >= 8
    ensures r[0] == '-' <==> ms < 0
  {
    var totalSeconds := TotalSeconds(ms);
    LeadingField(ClockHours(totalSeconds));
    PadStart2(NumberToString(ClockHours(totalSeconds))) + ":"
    + PadStart2(NumberToString(ClockMinutes(totalSeconds))) + ":"
    + PadStart2(NumberToString(ClockSeconds(totalSeconds)))
  }

  /** A padded field is at least two characters and starts with a minus sign
      exactly when its value is negative. */
  lemma LeadingField(x: int)
    ensures var f := PadStart2(NumberToString(x));
            |f| >= 2 && (f[0] == '-' <==> x < 0)
  {
    if x >= 0 {
      FieldDecodes(x);
    }
  }

  /** For a non-negative duration the three fields recombine into its whole
      seconds, with minutes and seconds below 60. */
  lemma ClockFieldsRecombine(ms: int)
    requires ms >= 0
    ensures var t := TotalSeconds(ms);
            && ClockHours(t) >= 0 && 0 <= ClockMinutes(t) < 60 && 0 <= ClockSeconds(t) < 60
            && ClockHours(t) * 3600 + ClockMinutes(t) * 60 + ClockSeconds(t) == t
  {
    var t := TotalSeconds(ms);
    var h, r := t / 3600, t % 3600;
    assert t == h * 3600 + r;
    var m, s := r / 60, r % 60;
    assert r == m * 60 + s;
    assert t == (h * 60 + m) * 60 + s;
    assert t % 60 == s;
  }

  /** Half a second past the deadline the remaining time shows as
      "-1:-1:-1": floor division and the sign-keeping remainder give -1 in
      every field. */
  lemma FormatTimePastDeadline()
    ensures FormatTime(-500) == "-1:-1:-1"
  {
    assert TotalSeconds(-500) == -1;
    assert ClockHours(-1) == -1 && ClockMinutes(-1) == -1 && ClockSeconds(-1) == -1;
    assert NumberToString(-1) == "-1";
  }

  predicate IsDigits(s: string)
  {
    forall i :: 0 <= i < |s| ==> '0' <= s[i] <= '9'
  }

  /** The value a string of decimal digits denotes. */
  function DigitsValue(s: string): int
  {
    if |s| == 0 then 0 else DigitsValue(s[..|s| - 1]) * 10 + (s[|s| - 1] as int - '0' as int)
  }

  lemma {:induction false} DecimalDecodes(n: nat)
    ensures IsDigits(Decimal(n)) && 1 <= |Decimal(n)|
    ensures DigitsValue(Decimal(n)) == n
    ensures n < 100 ==> |Decimal(n)| <= 2
  {
    if n >= 10 {
      DecimalDecodes(n / 10);
      var s := Decimal(n);
      assert s[..|s| - 1] == Decimal(n / 10);
    }
  }

  lemma {:induction false} LeadingZero(s: string)
    ensures DigitsValue("0" + s) == DigitsValue(s)
  {
    if |s| > 0 {
      var t := "0" + s;
      assert t[..|t| - 1] == "0" + s[..|s| - 1];
      LeadingZero(s[..|s| - 1]);
    }
  }

  lemma PadDecodes(s: string)
    requires IsDigits(s) && 1 <= |s|
    ensures IsDigits(PadStart2(s)) && DigitsValue(PadStart2(s)) == DigitsValue(s)
    ensures |PadStart2(s)| == if |s| < 2 then 2 else |s|
  {
    if |s| == 1 {
      LeadingZero(s);
    }
  }

  /** One padded field of a non-negative value reads back as that value. */
  lemma FieldDecodes(x: int)
    requires x >= 0
    ensures var f := PadStart2(NumberToString(x));
            && IsDigits(f) && DigitsValue(f) == x && |f| >= 2
            && (x < 60 ==> |f| == 2)
  {
    DecimalDecodes(x);
    PadDecodes(Decimal(x));
  }

  /** Where the fields sit in "hh:mm:ss" when the last two fields have two
      characters each. */
  lemma JoinedFields(a: string, b: string, c: string)
    requires |a| >= 2 && |b| == 2 && |c| == 2
    ensures var f := a + ":" + b + ":" + c;
            var n := |f|;
            && n >= 8 && f[n - 6] == ':' && f[n - 3] == ':'
            && f[..n - 6] == a && f[n - 5..n - 3] == b && f[n - 2..] == c
  {
  }

  /** For a non-negative duration, formatTime's text reads back as its whole
      seconds: the last two fields are two digits each, below 60; the first
      is at least two digits; and hours * 3600 + minutes * 60 + seconds is
      Math.floor(ms / 1000). */
  lemma FormatTimeDecodes(ms: int)
    requires ms >= 0
    ensures var f := FormatTime(ms);
            var n := |f|;
            && n >= 8 && f[n - 6] == ':' && f[n - 3] == ':'
            && IsDigits(f[..n - 6]) && IsDigits(f[n - 5..n - 3]) && IsDigits(f[n - 2..])
            && DigitsValue(f[n - 5..n - 3]) < 60 && DigitsValue(f[n - 2..]) < 60
            && DigitsValue(f[..n - 6]) * 3600 + DigitsValue(f[n - 5..n - 3]) * 60 + DigitsValue(f[n - 2..])
               == ms / 1000
  {
    var t := TotalSeconds(ms);
    ClockFieldsRecombine(ms);
    var h, m, s := ClockHours(t), ClockMinutes(t), ClockSeconds(t);
    FieldDecodes(h);
    FieldDecodes(m);
    FieldDecodes(s);
    var hs, mins, secs := PadStart2(NumberToString(h)), PadStart2(NumberToString(m)), PadStart2(NumberToString(s));
    var f := FormatTime(ms);
    assert f == hs + ":" + mins + ":" + secs;
    JoinedFields(hs, mins, secs);
  }
}

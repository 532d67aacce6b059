/**
 * Session schedules in UTC: daily or weekly windows that may wrap, and the next instant at which logon is
 * allowed. Instants are nanoseconds since the epoch in 64 bits; days have 86400 seconds and day 0 is a Thursday.
 */
module Schedule {
  import opened Optional

  datatype TimeOfDay = TimeOfDay(hour: nat, minute: nat, second: nat)

  type Weekday = d: int | 0 <= d < 7

  /** Session window and logon window of one segment. */
  datatype Segment = Segment(
    startTime: Option<TimeOfDay>, endTime: Option<TimeOfDay>, startDay: Option<Weekday>, endDay: Option<Weekday>,
    logonTime: Option<TimeOfDay>, logoutTime: Option<TimeOfDay>, logonDay: Option<Weekday>, logoutDay: Option<Weekday>)

  datatype Config = Config(nonStop: bool, single: Segment, segments: seq<Segment>)

  datatype Window = Window(startSecond: nat, endSecond: nat, startDay: Option<Weekday>, endDay: Option<Weekday>)

  // ---------------------------------------------------------------- validation

  predicate ValidTime(t: TimeOfDay) {
    t.hour < 24 && t.minute < 60 && t.second < 60
  }

  predicate ValidPair(start: Option<TimeOfDay>, end: Option<TimeOfDay>, startDay: Option<Weekday>,
      endDay: Option<Weekday>) {
    && start.Some? == end.Some? && startDay.Some? == endDay.Some? && (startDay.Some? ==> start.Some?)
    && (start.Some? ==> ValidTime(start.value)) && (end.Some? ==> ValidTime(end.value))
  }

  predicate ValidSegment(s: Segment) {
    && ValidPair(s.startTime, s.endTime, s.startDay, s.endDay)
    && ValidPair(s.logonTime, s.logoutTime, s.logonDay, s.logoutDay)
  }

  predicate HasSessionFields(s: Segment) {
    s.startTime.Some? || s.endTime.Some? || s.startDay.Some? || s.endDay.Some?
  }

  predicate HasLogonFields(s: Segment) {
    s.logonTime.Some? || s.logoutTime.Some? || s.logonDay.Some? || s.logoutDay.Some?
  }

  predicate ValidSchedule(c: Config) {
    if c.segments != [] then
      && !c.nonStop && !HasSessionFields(c.single) && !HasLogonFields(c.single)
      && forall s :: s in c.segments ==> ValidSegment(s)
    else
      && !(c.nonStop && (HasSessionFields(c.single) || HasLogonFields(c.single)))
      && ValidSegment(c.single)
  }

  // ---------------------------------------------------------------- windows

  function SecondsOfDay(t: TimeOfDay): nat {
    t.hour * 3600 + t.minute * 60 + t.second
  }

  function BuildWindow(s: Segment, logon: bool): Option<Window>
    requires ValidSegment(s)
  {
    if logon && HasLogonFields(s) then
      Some(Window(SecondsOfDay(s.logonTime.value), SecondsOfDay(s.logoutTime.value), s.logonDay, s.logoutDay))
    else if !HasSessionFields(s) then None
    else Some(Window(SecondsOfDay(s.startTime.value), SecondsOfDay(s.endTime.value), s.startDay, s.endDay))
  }

  function WindowsOf(segments: seq<Segment>, logon: bool): seq<Window>
    requires forall s :: s in segments ==> ValidSegment(s)
    decreases |segments|
  {
    if segments == [] then []
    else
      var last := |segments| - 1;
      match BuildWindow(segments[last], logon)
      case None => WindowsOf(segments[..last], logon)
      case Some(w) => WindowsOf(segments[..last], logon) + [w]
  }

  function Windows(c: Config, logon: bool): seq<Window>
    requires ValidSchedule(c)
  {
    if c.nonStop then [] else WindowsOf(if c.segments != [] then c.segments else [c.single], logon)
  }

  method BuildWindowSpecs(c: Config, logon: bool) returns (windows: seq<Window>)
    requires ValidSchedule(c)
    ensures windows == Windows(c, logon)
  {
    windows := [];
    if c.nonStop {
      return;
    }
    if c.segments != [] {
      for i := 0 to |c.segments|
        invariant windows == WindowsOf(c.segments[..i], logon)
      {
        assert c.segments[..i + 1][..i] == c.segments[..i];
        var window := BuildWindow(c.segments[i], logon);
        if window.Some? {
          windows := windows + [window.value];
        }
      }
      assert c.segments[..|c.segments|] == c.segments;
      return;
    }
    var window := BuildWindow(c.single, logon);
    assert [c.single][..0] == [] && WindowsOf([], logon) == [];
    assert WindowsOf([c.single], logon) == if window.None? then [] else [window.value];
    if window.Some? {
      windows := [window.value];
    }
  }

  predicate ValidWindow(w: Window) {
    w.startSecond < 86400 && w.endSecond < 86400 && w.startDay.Some? == w.endDay.Some?
  }

  lemma {:induction false} WindowsValid(segments: seq<Segment>, logon: bool)
    requires forall s :: s in segments ==> ValidSegment(s)
    ensures forall w :: w in WindowsOf(segments, logon) ==> ValidWindow(w)
    decreases |segments|
  {
    if segments != [] {
      var last := |segments| - 1;
      assert segments[last] in segments;
      WindowsValid(segments[..last], logon);
    }
  }

  // ---------------------------------------------------------------- calendar

  function WeekdayOf(day: nat): Weekday {
    (day + 4) % 7
  }

  predicate Within(w: Window, ns: nat) {
    var sec := ns / 1_000_000_000;
    var current := if w.startDay.Some? then WeekdayOf(sec / 86400) * 86400 + sec % 86400 else sec % 86400;
    var start := if w.startDay.Some? then w.startDay.value * 86400 + w.startSecond else w.startSecond;
    var end := if w.endDay.Some? then w.endDay.value * 86400 + w.endSecond else w.endSecond;
    start == end || (if start < end then start <= current < end else start <= current || current < end)
  }

  /** Nanoseconds of a calendar day and time, as stored in 64 bits. */
  function UnixTimeNs(day: nat, hour: nat, minute: nat, second: nat): nat {
    (day * 86400 + hour * 3600 + minute * 60 + second) * 1_000_000_000 % 0x1_0000_0000_0000_0000
  }

  predicate WithinAny(windows: seq<Window>, ns: nat) {
    windows == [] || exists i :: 0 <= i < |windows| && Within(windows[i], ns)
  }

  // ---------------------------------------------------------------- positions within a period

  /** A day or a week. */
  function Period(w: Window): nat {
    if w.startDay.Some? then 604800 else 86400
  }

  function Start(w: Window): nat {
    if w.startDay.Some? then w.startDay.value * 86400 + w.startSecond else w.startSecond
  }

  function End(w: Window): nat {
    if w.endDay.Some? then w.endDay.value * 86400 + w.endSecond else w.endSecond
  }

  function Position(w: Window, sec: nat): nat {
    if w.startDay.Some? then (sec + 345600) % 604800 else sec % 86400
  }

  predicate Inside(w: Window, position: nat) {
    || Start(w) == End(w)
    || (if Start(w) < End(w) then Start(w) <= position < End(w) else Start(w) <= position || position < End(w))
  }

  lemma WeekPosition(sec: nat)
    ensures WeekdayOf(sec / 86400) * 86400 + sec % 86400 == (sec + 345600) % 604800
  {
    var day := sec / 86400;
    var week := (day + 4) / 7;
    assert sec + 345600 == 604800 * week + (WeekdayOf(day) * 86400 + sec % 86400);
  }

  lemma WithinIsInside(w: Window, ns: nat)
    requires ValidWindow(w)
    ensures Within(w, ns) == Inside(w, Position(w, ns / 1_000_000_000))
  {
    WeekPosition(ns / 1_000_000_000);
  }

  /** Seconds to the next start. */
  function Wait(w: Window, sec: nat): nat
    requires ValidWindow(w)
  {
    var p := Position(w, sec);
    if p <= Start(w) then Start(w) - p else Start(w) + Period(w) - p
  }

  /** When logon is next possible, were there no limit to the clock. */
  function NextStart(w: Window, ns: nat): nat
    requires ValidWindow(w)
  {
    var sec := ns / 1_000_000_000;
    if Within(w, ns) then ns else (sec + Wait(w, sec)) * 1_000_000_000
  }

  lemma PositionAhead(w: Window, sec: nat, d: nat)
    requires d <= Period(w)
    ensures Position(w, sec + d)
         == if Position(w, sec) + d < Period(w) then Position(w, sec) + d else Position(w, sec) + d - Period(w)
  {
    if w.startDay.Some? {
      WeekAhead(sec + 345600, d);
    } else {
      DayAhead(sec, d);
    }
  }

  lemma WeekAhead(x: nat, d: nat)
    requires d <= 604800
    ensures (x + d) % 604800 == if x % 604800 + d < 604800 then x % 604800 + d else x % 604800 + d - 604800
  {
    assert x + d == 604800 * (x / 604800) + (x % 604800 + d);
  }

  lemma DayAhead(x: nat, d: nat)
    requires d <= 86400
    ensures (x + d) % 86400 == if x % 86400 + d < 86400 then x % 86400 + d else x % 86400 + d - 86400
  {
    assert x + d == 86400 * (x / 86400) + (x % 86400 + d);
  }

  /** The next start lies inside the window and no instant before it does. */
  lemma NextStartIsFirst(w: Window, ns: nat)
    requires ValidWindow(w)
    ensures NextStart(w, ns) >= ns && Within(w, NextStart(w, ns))
    ensures forall t :: ns <= t < NextStart(w, ns) ==> !Within(w, t)
    ensures !Within(w, ns) ==> NextStart(w, ns) <= ns + 604800_000_000_000
  {
    var sec := ns / 1_000_000_000;
    WithinIsInside(w, ns);
    if !Within(w, ns) {
      var d := Wait(w, sec);
      assert NextStart(w, ns) == (sec + d) * 1_000_000_000;
      hide Within, Inside, Position;
      WithinIsInside(w, NextStart(w, ns));
      StartIsInside(w, sec, 0);
      forall t | ns <= t < NextStart(w, ns) ensures !Within(w, t) {
        WithinIsInside(w, t);
        StartIsInside(w, sec, t / 1_000_000_000 - sec);
      }
    }
  }

  /** From outside the window its next start is inside, and no second before that is. */
  lemma StartIsInside(w: Window, sec: nat, e: nat)
    requires ValidWindow(w) && !Inside(w, Position(w, sec))
    ensures 0 < Wait(w, sec) <= Period(w) && Inside(w, Position(w, sec + Wait(w, sec)))
    ensures e < Wait(w, sec) ==> !Inside(w, Position(w, sec + e))
  {
    PositionAhead(w, sec, Wait(w, sec));
    if e < Wait(w, sec) {
      PositionAhead(w, sec, e);
    }
  }

  // ---------------------------------------------------------------- next start of one window

  /** A candidate on the day `day` of the calendar. */
  function Candidate(w: Window, day: nat): nat {
    (day * 86400 + w.startSecond) * 1_000_000_000
  }

  /** The next start is on the coming start day, or a period later if that has passed. */
  lemma NextStartDay(w: Window, ns: nat, delta: int)
    requires ValidWindow(w) && !Within(w, ns)
    requires
      var today := WeekdayOf(ns / 1_000_000_000 / 86400);
      delta == if w.startDay.None? then 0
               else if w.startDay.value < today then w.startDay.value - today + 7 else w.startDay.value - today
    ensures
      var day := ns / 1_000_000_000 / 86400 + delta;
      NextStart(w, ns) == if Candidate(w, day) > ns then Candidate(w, day) else Candidate(w, day + Period(w) / 86400)
  {
    var sec := ns / 1_000_000_000;
    WithinIsInside(w, ns);
    WeekPosition(sec);
    assert sec == sec / 86400 * 86400 + sec % 86400;
  }

  lemma StoredCandidate(w: Window, day: nat)
    requires w.startSecond < 86400
    ensures StoredStart(w, day) == Candidate(w, day) % 0x1_0000_0000_0000_0000
  {
  }

  /** A candidate past the end of the clock comes out before `now`, and so does the one after it. */
  lemma PastTheClock(x: nat, now: nat)
    requires now < 0x1_0000_0000_0000_0000 && x <= now + 2_000_000_000_000_000
    ensures x < 0x1_0000_0000_0000_0000 ==> x % 0x1_0000_0000_0000_0000 == x
    ensures x >= 0x1_0000_0000_0000_0000 ==> x % 0x1_0000_0000_0000_0000 < now
  {
  }

  /** `r` is the next start, or lies before `now` if the clock does not reach that. */
  predicate Settled(w: Window, now: nat, r: nat)
    requires ValidWindow(w)
  {
    if NextStart(w, now) < 0x1_0000_0000_0000_0000 then r == NextStart(w, now) else r < now
  }

  function StoredStart(w: Window, day: nat): nat {
    UnixTimeNs(day, w.startSecond / 3600, w.startSecond / 60 % 60, w.startSecond % 60)
  }

  /** Picking the first of two candidates a period apart that lies after `now`. */
  lemma PickCandidate(w: Window, now: nat, day: nat)
    requires ValidWindow(w) && now < 0x1_0000_0000_0000_0000 && !Within(w, now)
    requires NextStart(w, now) == if Candidate(w, day) > now then Candidate(w, day)
      else Candidate(w, day + Period(w) / 86400)
    ensures Settled(w, now,
      if StoredStart(w, day) <= now then StoredStart(w, day + Period(w) / 86400) else StoredStart(w, day))
  {
    StoredCandidate(w, day);
    StoredCandidate(w, day + Period(w) / 86400);
    NextStartIsFirst(w, now);
    PastTheClock(Candidate(w, day), now);
    PastTheClock(Candidate(w, day + Period(w) / 86400), now);
  }

  lemma SettledNow(w: Window, now: nat)
    requires ValidWindow(w) && now < 0x1_0000_0000_0000_0000 && Within(w, now)
    ensures Settled(w, now, now)
  {
  }

  method NextWindowStart(w: Window, now: nat) returns (r: nat)
    requires ValidWindow(w) && now < 0x1_0000_0000_0000_0000
    ensures Settled(w, now, r)
  {
    hide UnixTimeNs, NextStart, Candidate, Within;
    if Within(w, now) {
      SettledNow(w, now);
      return now;
    }
    var day := now / 1_000_000_000 / 86400;
    var hour, minute, second := w.startSecond / 3600, w.startSecond / 60 % 60, w.startSecond % 60;
    if w.startDay.Some? {
      var delta := w.startDay.value - WeekdayOf(day);
      if delta < 0 {
        delta := delta + 7;
      }
      NextStartDay(w, now, delta);
      day := day + delta;
      PickCandidate(w, now, day);
      r := UnixTimeNs(day, hour, minute, second);
      if r <= now {
        day := day + 7;
        r := UnixTimeNs(day, hour, minute, second);
      }
      return;
    }
    NextStartDay(w, now, 0);
    PickCandidate(w, now, day);
    r := UnixTimeNs(day, hour, minute, second);
    if r <= now {
      day := day + 1;
      r := UnixTimeNs(day, hour, minute, second);
    }
  }

  // ---------------------------------------------------------------- next start of a schedule

  /** Every window's next start can be written in 64 bits. */
  predicate ClockReaches(windows: seq<Window>, now: nat)
    requires forall w :: w in windows ==> ValidWindow(w)
  {
    forall i :: 0 <= i < |windows| ==> NextStart(windows[i], now) < 0x1_0000_0000_0000_0000
  }

  /** `r` is the first instant from `now` on at which logon is allowed. */
  ghost predicate FirstLogon(windows: seq<Window>, now: nat, r: nat) {
    now <= r && WithinAny(windows, r) && forall t :: now <= t < r ==> !WithinAny(windows, t)
  }

  /**
   * The next logon start is the first instant at which logon is allowed, exactly as long as the clock
   * reaches every window's next start; past that point it lies before `now`.
   */
  method NextLogonWindowStart(c: Config, now: nat) returns (r: Option<nat>)
    requires ValidSchedule(c) && now < 0x1_0000_0000_0000_0000
    ensures forall w :: w in Windows(c, true) ==> ValidWindow(w)
    ensures r.Some? && (FirstLogon(Windows(c, true), now, r.value) <==> ClockReaches(Windows(c, true), now))
  {
    var windows := BuildWindowSpecs(c, true);
    WindowsValid(if c.segments != [] then c.segments else [c.single], true);
    if windows == [] {
      return Some(now);
    }
    r := None;
    for i := 0 to |windows|
      invariant i > 0 <==> r.Some?
      invariant r.Some? && ClockReaches(windows[..i], now) ==> FirstLogon(windows[..i], now, r.value)
      invariant r.Some? && !ClockReaches(windows[..i], now) ==> r.value < now
    {
      var candidate := NextWindowStart(windows[i], now);
      NextStartIsFirst(windows[i], now);
      FirstOfMore(windows, i, now, r, candidate);
      if r.None? || candidate < r.value {
        r := Some(candidate);
      }
    }
    assert windows[..|windows|] == windows;
  }

  /** One more window: the earlier of two first instants. */
  lemma FirstOfMore(windows: seq<Window>, i: nat, now: nat, r: Option<nat>, candidate: nat)
    requires i < |windows| && (forall w :: w in windows ==> ValidWindow(w)) && (i > 0 <==> r.Some?)
    requires r.Some? && ClockReaches(windows[..i], now) ==> FirstLogon(windows[..i], now, r.value)
    requires NextStart(windows[i], now) < 0x1_0000_0000_0000_0000 ==> candidate == NextStart(windows[i], now)
    ensures ClockReaches(windows[..i + 1], now) ==> FirstLogon(windows[..i + 1], now,
              if r.None? || candidate < r.value then candidate else r.value)
    ensures ClockReaches(windows[..i + 1], now)
        <==> ClockReaches(windows[..i], now) && NextStart(windows[i], now) < 0x1_0000_0000_0000_0000
  {
    hide Within, NextStart, ValidWindow;
    var a, b := windows[..i], windows[..i + 1];
    assert b == a + [windows[i]];
    NextStartIsFirst(windows[i], now);
    forall t ensures WithinAny(b, t) <==> (i > 0 && WithinAny(a, t)) || Within(windows[i], t) {
      if i > 0 && WithinAny(a, t) {
        var j :| 0 <= j < i && Within(a[j], t);
        assert Within(b[j], t);
      } else if Within(windows[i], t) {
        assert Within(b[i], t);
      }
    }
  }

  /** The clock reaches every next start until its last week. */
  lemma ClockReachesUntilLastWeek(windows: seq<Window>, now: nat)
    requires (forall w :: w in windows ==> ValidWindow(w)) && now + 604800_000_000_000 < 0x1_0000_0000_0000_0000
    ensures ClockReaches(windows, now)
  {
    forall i | 0 <= i < |windows| ensures NextStart(windows[i], now) < 0x1_0000_0000_0000_0000 {
      NextStartIsFirst(windows[i], now);
    }
  }

  /** At the last instant of the clock, a window that opens at midnight has no representable next start. */
  lemma ClockRunsOut()
    ensures !ClockReaches([Window(0, 1, None, None)], 0xFFFF_FFFF_FFFF_FFFF)
  {
    assert NextStart([Window(0, 1, None, None)][0], 0xFFFF_FFFF_FFFF_FFFF) == 18446745600_000_000_000;
  }
}

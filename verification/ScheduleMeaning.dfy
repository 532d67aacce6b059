/** When a schedule allows logon, told by calendar days and times of day instead of seconds. */
module ScheduleMeaning {
  import opened Optional
  import opened Schedule

  /** A time of day, on a day of the week if the window is weekly. */
  datatype Moment = Moment(day: int, time: TimeOfDay)

  predicate EarlierTime(a: TimeOfDay, b: TimeOfDay) {
    a.hour < b.hour || (a.hour == b.hour && (a.minute < b.minute || (a.minute == b.minute && a.second < b.second)))
  }

  predicate Earlier(a: Moment, b: Moment) {
    a.day < b.day || (a.day == b.day && EarlierTime(a.time, b.time))
  }

  /** From one moment, which counts, to another, which does not; round the clock if they are the same. */
  predicate Between(from: Moment, to: Moment, now: Moment) {
    if from == to then true
    else if Earlier(from, to) then !Earlier(now, from) && Earlier(now, to)
    else !Earlier(now, from) || Earlier(now, to)
  }

  function Clock(ns: nat): TimeOfDay {
    var second := ns / 1_000_000_000 % 86400;
    TimeOfDay(second / 3600, second % 3600 / 60, second % 60)
  }

  /** 1 January 1970 was a Thursday; Sunday is day 0. */
  function DayOfWeek(ns: nat): int {
    (ns / 1_000_000_000 / 86400 + 4) % 7
  }

  predicate Open(from: TimeOfDay, to: TimeOfDay, fromDay: Option<Weekday>, toDay: Option<Weekday>, ns: nat) {
    if fromDay.Some? && toDay.Some?
    then Between(Moment(fromDay.value, from), Moment(toDay.value, to), Moment(DayOfWeek(ns), Clock(ns)))
    else Between(Moment(0, from), Moment(0, to), Moment(0, Clock(ns)))
  }

  /** A segment's own times: its logon times if they are asked for and given, else its session times. */
  predicate SegmentOpen(s: Segment, logon: bool, ns: nat)
    requires ValidSegment(s)
  {
    if logon && s.logonTime.Some? then Open(s.logonTime.value, s.logoutTime.value, s.logonDay, s.logoutDay, ns)
    else s.startTime.Some? && Open(s.startTime.value, s.endTime.value, s.startDay, s.endDay, ns)
  }

  /** A segment that says something. */
  predicate Speaks(s: Segment, logon: bool) {
    s.startTime.Some? || (logon && s.logonTime.Some?)
  }

  function Segments(c: Config): seq<Segment> {
    if c.segments != [] then c.segments else [c.single]
  }

  /** The schedule is open: it never stops, or says nothing, or one of its segments is open. */
  ghost predicate Allowed(c: Config, logon: bool, ns: nat)
    requires ValidSchedule(c)
  {
    || c.nonStop || (forall i :: 0 <= i < |Segments(c)| ==> !Speaks(Segments(c)[i], logon))
    || exists i :: 0 <= i < |Segments(c)| && SegmentOpen(Segments(c)[i], logon, ns)
  }

  // ---------------------------------------------------------------- moments and seconds

  lemma TimesInSeconds(a: TimeOfDay, b: TimeOfDay)
    requires ValidTime(a) && ValidTime(b)
    ensures EarlierTime(a, b) <==> SecondsOfDay(a) < SecondsOfDay(b)
    ensures a == b <==> SecondsOfDay(a) == SecondsOfDay(b)
  {
  }

  function SecondsOf(m: Moment): int {
    m.day * 86400 + SecondsOfDay(m.time)
  }

  lemma MomentsInSeconds(a: Moment, b: Moment)
    requires ValidTime(a.time) && ValidTime(b.time)
    ensures Earlier(a, b) <==> SecondsOf(a) < SecondsOf(b)
    ensures a == b <==> SecondsOf(a) == SecondsOf(b)
  {
    TimesInSeconds(a.time, b.time);
  }

  lemma ClockInSeconds(ns: nat)
    ensures ValidTime(Clock(ns)) && SecondsOfDay(Clock(ns)) == ns / 1_000_000_000 % 86400
  {
    var second := ns / 1_000_000_000 % 86400;
    assert second == second / 3600 * 3600 + second % 3600;
    assert second % 3600 == second % 3600 / 60 * 60 + second % 60;
  }

  lemma OpenIsWithin(from: TimeOfDay, to: TimeOfDay, fromDay: Option<Weekday>, toDay: Option<Weekday>, ns: nat)
    requires ValidTime(from) && ValidTime(to) && fromDay.Some? == toDay.Some?
    ensures Open(from, to, fromDay, toDay, ns)
       <==> Within(Window(SecondsOfDay(from), SecondsOfDay(to), fromDay, toDay), ns)
  {
    hide SecondsOfDay, Clock, Earlier, ValidTime;
    var a := Moment(if fromDay.Some? then fromDay.value else 0, from);
    var b := Moment(if toDay.Some? then toDay.value else 0, to);
    var now := Moment(if fromDay.Some? then DayOfWeek(ns) else 0, Clock(ns));
    ClockInSeconds(ns);
    MomentsInSeconds(a, b);
    MomentsInSeconds(now, a);
    MomentsInSeconds(now, b);
  }

  // ---------------------------------------------------------------- segments and windows

  lemma SegmentWindow(s: Segment, logon: bool, ns: nat)
    requires ValidSegment(s)
    ensures BuildWindow(s, logon).Some? <==> Speaks(s, logon)
    ensures SegmentOpen(s, logon, ns) <==> BuildWindow(s, logon).Some? && Within(BuildWindow(s, logon).value, ns)
  {
    hide Open, Within, SecondsOfDay, ValidTime;
    if logon && s.logonTime.Some? {
      OpenIsWithin(s.logonTime.value, s.logoutTime.value, s.logonDay, s.logoutDay, ns);
    } else if s.startTime.Some? {
      OpenIsWithin(s.startTime.value, s.endTime.value, s.startDay, s.endDay, ns);
    }
  }

  /** Some window of the segments is open. */
  ghost predicate AnyOpen(segments: seq<Segment>, logon: bool, ns: nat)
    requires forall s :: s in segments ==> ValidSegment(s)
  {
    exists i :: 0 <= i < |segments| && SegmentOpen(segments[i], logon, ns)
  }

  ghost predicate AnySpeaks(segments: seq<Segment>, logon: bool) {
    exists i :: 0 <= i < |segments| && Speaks(segments[i], logon)
  }

  lemma {:induction false} WindowsSpeak(segments: seq<Segment>, logon: bool, ns: nat)
    requires forall s :: s in segments ==> ValidSegment(s)
    ensures WindowsOf(segments, logon) != [] <==> AnySpeaks(segments, logon)
    ensures AnyOpen(segments, logon, ns) <==>
      exists i :: 0 <= i < |WindowsOf(segments, logon)| && Within(WindowsOf(segments, logon)[i], ns)
    decreases |segments|
  {
    hide BuildWindow, Within, SegmentOpen, Speaks, ValidSegment;
    if segments != [] {
      var last := |segments| - 1;
      var s, front := segments[last], segments[..last];
      var ws, all := WindowsOf(front, logon), WindowsOf(segments, logon);
      assert s in segments;
      WindowsSpeak(front, logon, ns);
      SegmentWindow(s, logon, ns);
      OneMore(segments, logon, ns);
      var w := BuildWindow(s, logon);
      assert all == if w.Some? then ws + [w.value] else ws;
      OpenMore(ws, w, all, ns);
    }
  }

  lemma OpenMore(ws: seq<Window>, w: Option<Window>, all: seq<Window>, ns: nat)
    requires all == if w.Some? then ws + [w.value] else ws
    ensures (exists i :: 0 <= i < |all| && Within(all[i], ns))
       <==> (exists i :: 0 <= i < |ws| && Within(ws[i], ns)) || (w.Some? && Within(w.value, ns))
  {
    hide Within;
    if w.Some? {
      assert all[|ws|] == w.value;
      assert forall i :: 0 <= i < |ws| ==> all[i] == ws[i];
    }
  }

  lemma OneMore(segments: seq<Segment>, logon: bool, ns: nat)
    requires segments != [] && forall s :: s in segments ==> ValidSegment(s)
    ensures
      var last := |segments| - 1;
      && (AnySpeaks(segments, logon) <==> AnySpeaks(segments[..last], logon) || Speaks(segments[last], logon))
      && (AnyOpen(segments, logon, ns)
          <==> AnyOpen(segments[..last], logon, ns) || SegmentOpen(segments[last], logon, ns))
  {
    hide Speaks, SegmentOpen, ValidSegment;
    var last := |segments| - 1;
    var front := segments[..last];
    assert forall i :: 0 <= i < last ==> front[i] == segments[i];
    assert segments[last] in segments;
  }

  /** The windows built for a schedule are open exactly when the schedule is. */
  lemma WindowsMean(c: Config, logon: bool, ns: nat)
    requires ValidSchedule(c)
    ensures WithinAny(Windows(c, logon), ns) <==> Allowed(c, logon, ns)
  {
    hide Within, SegmentOpen, Speaks, WindowsOf, ValidSegment;
    WindowsSpeak(Segments(c), logon, ns);
  }

  // ---------------------------------------------------------------- the next logon

  /** `r` is the first instant from `now` on at which the schedule allows logon. */
  ghost predicate FirstAllowed(c: Config, now: nat, r: nat)
    requires ValidSchedule(c)
  {
    now <= r && Allowed(c, true, r) && forall t :: now <= t < r ==> !Allowed(c, true, t)
  }

  lemma FirstLogonMeans(c: Config, now: nat, r: nat)
    requires ValidSchedule(c)
    ensures FirstLogon(Windows(c, true), now, r) <==> FirstAllowed(c, now, r)
  {
    hide Allowed, WithinAny, Windows, ValidSchedule;
    forall t: nat ensures WithinAny(Windows(c, true), t) <==> Allowed(c, true, t) {
      WindowsMean(c, true, t);
    }
  }
}

/** Weekdays, times of day and the weekly windows of a schedule, in local time.

    A local instant is its UTC instant plus the fixed offset, in microseconds.
    Its date is a day number counted from 1 January 1970, which was a Thursday.
 */
module Calendar {
  import opened Wrappers
  import opened Stretches

  datatype Weekday = Mon | Tue | Wed | Thu | Fri | Sat | Sun {
    function Previous(): Weekday {
      match this
      case Mon => Sun
      case Tue => Mon
      case Wed => Tue
      case Thu => Wed
      case Fri => Thu
      case Sat => Fri
      case Sun => Sat
    }
  }

  datatype ScheduleDay = Everyday | Workdays | Weekend | Only(day: Weekday) {
    predicate Includes(weekday: Weekday) {
      match this
      case Everyday => true
      case Workdays => weekday != Sat && weekday != Sun
      case Weekend => weekday == Sat || weekday == Sun
      case Only(day) => weekday == day
    }
  }

  function Date(t: int): int {
    t / 86_400_000_000
  }

  function WeekdayOf(date: int): Weekday {
    [Thu, Fri, Sat, Sun, Mon, Tue, Wed][date % 7]
  }

  /** Stepping back one date steps back one weekday, across every week boundary. */
  lemma {:induction false} PreviousDate(date: int)
    ensures WeekdayOf(date - 1) == WeekdayOf(date).Previous()
  {
    assert (date - 1) % 7 == if date % 7 == 0 then 6 else date % 7 - 1;
  }

  // ------------------------------------------------------------- time of day

  datatype Clock = Clock(hour: nat, minute: nat) {
    /** The derived ordering: hours first, then minutes. */
    predicate Before(other: Clock) {
      hour < other.hour || (hour == other.hour && minute < other.minute)
    }

    function MinutesAfterMidnight(): nat {
      hour * 60 + minute
    }
  }

  type TimeOfDay = c: Clock | c.hour <= 23 && c.minute <= 59 witness Clock(0, 0)

  predicate IsDigit(c: char) {
    '0' <= c <= '9'
  }

  function Digit(n: nat): (c: char)
    requires n < 10
    ensures IsDigit(c) && (c as int) - ('0' as int) == n
  {
    ('0' as int + n) as char
  }

  /** A two-character unsigned number as `str::parse` reads it: two digits, or a
      plus sign and one digit. */
  function ParseTwo(s: string): Option<nat>
    requires |s| == 2
  {
    if !IsDigit(s[1]) then None
    else if s[0] == '+' then Some(s[1] as int - '0' as int)
    else if IsDigit(s[0]) then Some((s[0] as int - '0' as int) * 10 + (s[1] as int - '0' as int))
    else None
  }

  function FirstColon(s: string, from: nat): (i: nat)
    requires from <= |s|
    ensures from <= i <= |s|
    ensures forall k :: from <= k < i ==> s[k] != ':'
    ensures i < |s| ==> s[i] == ':'
    decreases |s| - from
  {
    if from == |s| || s[from] == ':' then from else FirstColon(s, from + 1)
  }

  function ParseTimeOfDay(s: string): Option<TimeOfDay> {
    var colon := FirstColon(s, 0);
    if colon != 2 || |s| != 5 then None
    else
      match (ParseTwo(s[..2]), ParseTwo(s[3..]))
      case (Some(hour), Some(minute)) => if hour > 23 || minute > 59 then None else Some(Clock(hour, minute))
      case _ => None
  }

  function TwoDigits(n: nat): (s: string)
    requires n < 100
    ensures |s| == 2 && ParseTwo(s) == Some(n)
  {
    [Digit(n / 10), Digit(n % 10)]
  }

  function PrintTimeOfDay(t: TimeOfDay): string {
    TwoDigits(t.hour) + ":" + TwoDigits(t.minute)
  }

  /** What the policy store writes for a time of day reads back as that time. */
  lemma {:induction false} TimeOfDayRoundTrip(t: TimeOfDay)
    ensures ParseTimeOfDay(PrintTimeOfDay(t)) == Some(t)
  {
    var s := PrintTimeOfDay(t);
    assert s[0] == TwoDigits(t.hour)[0] && s[1] == TwoDigits(t.hour)[1] && s[2] == ':';
    assert IsDigit(s[0]) && IsDigit(s[1]);
    assert FirstColon(s, 0) == 2;
    assert s[..2] == TwoDigits(t.hour) && s[3..] == TwoDigits(t.minute);
  }

  // ------------------------------------------------------------------ windows

  datatype Window = Window(weekday: ScheduleDay, start: TimeOfDay, end: TimeOfDay)

  datatype Schedule = Schedule(id: string, name: Option<string>, windows: seq<Window>)

  function AtTime(date: int, time: TimeOfDay): int {
    date * 86_400_000_000 + time.hour * 3_600_000_000 + time.minute * 60_000_000
  }

  function WindowStart(w: Window, date: int): int {
    AtTime(date, w.start)
  }

  /** The end falls on the next date unless the window starts before it ends. */
  function WindowEnd(w: Window, date: int): int {
    AtTime(if w.start.Before(w.end) then date else date + 1, w.end)
  }

  /** `t` lies in the occurrence of the window that opens on `date`. */
  ghost predicate InWindow(w: Window, date: int, t: int) {
    w.weekday.Includes(WeekdayOf(date)) && WindowStart(w, date) <= t < WindowEnd(w, date)
  }

  /** Some window opening on `date` covers `t`. */
  ghost predicate OnDate(windows: seq<Window>, date: int, t: int) {
    exists w | w in windows :: InWindow(w, date, t)
  }

  /** The instant-by-instant reading of a schedule. */
  predicate ScheduleIsActive(windows: seq<Window>, now: int) {
    exists w | w in windows :: WindowIsActive(w, now)
  }

  predicate WindowIsActive(w: Window, now: int) {
    var weekday := WeekdayOf(Date(now));
    var minute := now % 86_400_000_000 / 3_600_000_000 * 60 + now % 3_600_000_000 / 60_000_000;
    var start := w.start.MinutesAfterMidnight();
    var end := w.end.MinutesAfterMidnight();
    if start < end then
      w.weekday.Includes(weekday) && minute >= start && minute < end
    else
      (w.weekday.Includes(weekday) && minute >= start)
      || (w.weekday.Includes(weekday.Previous()) && minute < end)
  }

  lemma {:induction false} MinuteOfDay(now: int)
    ensures var minute := now % 86_400_000_000 / 3_600_000_000 * 60 + now % 3_600_000_000 / 60_000_000;
            Date(now) * 86_400_000_000 + minute * 60_000_000 <= now
              < Date(now) * 86_400_000_000 + (minute + 1) * 60_000_000
    ensures 0 <= now - Date(now) * 86_400_000_000 < 86_400_000_000
  {
    var tod := now % 86_400_000_000;
    assert tod == now - Date(now) * 86_400_000_000;
    assert tod % 3_600_000_000 == now % 3_600_000_000 by {
      assert now == tod + 3_600_000_000 * (24 * Date(now));
    }
  }

  /** A window reaches its own date and the one after it, nothing else. */
  lemma {:induction false} WindowReach(w: Window, date: int, t: int)
    requires InWindow(w, date, t)
    ensures date == Date(t) || date == Date(t) - 1
  {
    MinuteOfDay(t);
  }

  lemma {:induction false} WindowPointwise(w: Window, t: int)
    ensures WindowIsActive(w, t) <==> InWindow(w, Date(t), t) || InWindow(w, Date(t) - 1, t)
  {
    MinuteOfDay(t);
    PreviousDate(Date(t));
  }

  /** The instant-by-instant reading agrees with laying out each window date by
      date: overnight windows, day groups and windows that start when they end. */
  lemma {:induction false} SchedulePointwise(windows: seq<Window>, t: int)
    ensures ScheduleIsActive(windows, t) <==> OnDate(windows, Date(t), t) || OnDate(windows, Date(t) - 1, t)
    ensures forall date :: OnDate(windows, date, t) ==> date == Date(t) || date == Date(t) - 1
  {
    forall w | w in windows
      ensures WindowIsActive(w, t) <==> InWindow(w, Date(t), t) || InWindow(w, Date(t) - 1, t)
    {
      WindowPointwise(w, t);
    }
    forall date | OnDate(windows, date, t) ensures date == Date(t) || date == Date(t) - 1 {
      var w :| w in windows && InWindow(w, date, t);
      WindowReach(w, date, t);
    }
  }

  ghost function OnDateP(windows: seq<Window>, date: int): int -> bool {
    t => OnDate(windows, date, t)
  }

  ghost function ActiveP(windows: seq<Window>): int -> bool {
    t => ScheduleIsActive(windows, t)
  }

  lemma {:induction false} WholeBound(bound: int, x: int, t: int)
    requires Whole(bound) && InSecond(x, t)
    ensures bound <= t <==> bound <= x
  {
  }

  lemma {:induction false} AtTimeWhole(date: int, time: TimeOfDay)
    ensures Whole(AtTime(date, time))
  {
    assert AtTime(date, time) == 1_000_000 * (date * 86_400 + time.hour * 3_600 + time.minute * 60);
  }

  /** Schedules only switch on whole seconds. */
  lemma {:induction false} WindowsOnSeconds(windows: seq<Window>, date: int)
    ensures OnSeconds(OnDateP(windows, date))
  {
    forall x, t | InSecond(x, t) ensures OnDateP(windows, date)(t) == OnDateP(windows, date)(x) {
      forall w ensures InWindow(w, date, t) == InWindow(w, date, x) {
        WindowOnSeconds(w, date, x, t);
      }
    }
  }

  lemma {:induction false} WindowOnSeconds(w: Window, date: int, x: int, t: int)
    requires InSecond(x, t)
    ensures InWindow(w, date, t) == InWindow(w, date, x)
  {
    AtTimeWhole(date, w.start);
    AtTimeWhole(date, w.end);
    AtTimeWhole(date + 1, w.end);
    WholeBound(WindowStart(w, date), x, t);
    WholeBound(WindowEnd(w, date), x, t);
  }

  lemma {:induction false} SameDate(x: int, t: int)
    requires InSecond(x, t)
    ensures Date(t) == Date(x)
  {
    var date := Date(x);
    assert x - date * 86_400_000_000 == 1_000_000 * (x / 1_000_000 - date * 86_400);
    assert 0 <= t - date * 86_400_000_000 < 86_400_000_000;
  }

  lemma {:induction false} ScheduleOnSeconds(windows: seq<Window>)
    ensures OnSeconds(ActiveP(windows))
  {
    forall x, t | InSecond(x, t) ensures ActiveP(windows)(t) == ActiveP(windows)(x) {
      SameSecondSameActivity(windows, x, t);
    }
  }

  lemma {:induction false} SameSecondSameActivity(windows: seq<Window>, x: int, t: int)
    requires InSecond(x, t)
    ensures ScheduleIsActive(windows, t) == ScheduleIsActive(windows, x)
  {
    hide OnDate, ScheduleIsActive, Date;
    var date := Date(x);
    SameDate(x, t);
    SchedulePointwise(windows, t);
    SchedulePointwise(windows, x);
    WindowsOnSeconds(windows, date);
    WindowsOnSeconds(windows, date - 1);
    assert OnDateP(windows, date)(t) == OnDateP(windows, date)(x);
    assert OnDateP(windows, date - 1)(t) == OnDateP(windows, date - 1)(x);
  }
}

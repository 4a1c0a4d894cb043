/**
 Weekly schedule windows (packages/shared/encodr_shared/scheduling.py).

 An instant is a number of microseconds, at one fixed UTC offset, since the
 midnight that starts some Monday; it may be negative. Windows are in normal
 form; the module ScheduleText says how their stored text is written and read.
 */
module ScheduleWindows {
  import opened Wrappers

  const MINUTE: int := 60_000_000
  const DAY: int := 86_400_000_000
  const WEEK: int := 604_800_000_000

  /** Days count from Monday = 0; times are minutes after midnight. */
  datatype Window = Window(days: seq<nat>, start: nat, end: nat)

  ghost predicate Normal(w: Window) {
    && w.days != []
    && (forall i :: 0 <= i < |w.days| ==> w.days[i] < 7)
    && w.start < 1440
    && w.end < 1440
  }

  ghost predicate AllNormal(ws: seq<Window>) {
    forall i :: 0 <= i < |ws| ==> Normal(ws[i])
  }

  function DayOf(t: int): int { t / DAY }

  function Weekday(day: int): nat { day % 7 }

  function Opens(w: Window, day: int): int {
    day * DAY + w.start * MINUTE
  }

  /** A window whose end comes before its start runs into the next day. */
  function Closes(w: Window, day: int): int {
    day * DAY + (if w.start <= w.end then 0 else DAY) + w.end * MINUTE
  }

  /** What a window means: one closed interval for each day it lists. */
  ghost predicate OpenOn(w: Window, day: int, t: int)
    requires Normal(w)
  {
    Weekday(day) in w.days && Opens(w, day) <= t <= Closes(w, day)
  }

  ghost predicate OpenAt(w: Window, t: int)
    requires Normal(w)
  {
    exists day :: OpenOn(w, day, t)
  }

  ghost predicate Allows(ws: seq<Window>, t: int)
    requires AllNormal(ws)
  {
    ws == [] || exists i :: 0 <= i < |ws| && OpenAt(ws[i], t)
  }

  lemma OpenOnlyTodayOrYesterday(w: Window, day: int, t: int)
    requires Normal(w) && OpenOn(w, day, t)
    ensures day == DayOf(t) || (day == DayOf(t) - 1 && w.end < w.start)
  {
    assert day * DAY <= t < (day + 2) * DAY;
  }

  /** `schedule_windows_allow_now`: the clock comparison decides the interval meaning. */
  method ScheduleWindowsAllowNow(ws: seq<Window>, now: int) returns (allowed: bool)
    requires AllNormal(ws)
    ensures allowed <==> Allows(ws, now)
  {
    if ws == [] {
      return true;
    }
    var today, clock := DayOf(now), now % DAY;
    for i := 0 to |ws|
      invariant forall k :: 0 <= k < i ==> !OpenAt(ws[k], now)
    {
      var w := ws[i];
      var start, end := w.start * MINUTE, w.end * MINUTE;
      if start <= end {
        if Weekday(today) in w.days && start <= clock <= end {
          assert OpenOn(w, today, now);
          return true;
        }
      } else {
        if Weekday(today) in w.days && clock >= start {
          assert OpenOn(w, today, now);
          return true;
        }
        if Weekday(today - 1) in w.days && clock <= end {
          assert OpenOn(w, today - 1, now);
          return true;
        }
      }
      forall day | OpenOn(w, day, now) ensures false {
        OpenOnlyTodayOrYesterday(w, day, now);
      }
    }
    return false;
  }

  // -------------------------------------------------------- Next opening

  ghost predicate IsLeastAllowed(ws: seq<Window>, now: int, t: int)
    requires AllNormal(ws)
  {
    && now <= t
    && Allows(ws, t)
    && forall u :: now <= u < t ==> !Allows(ws, u)
  }

  lemma LeastAllowedUnique(ws: seq<Window>, now: int, t: int, t': int)
    requires AllNormal(ws) && IsLeastAllowed(ws, now, t) && IsLeastAllowed(ws, now, t')
    ensures t == t'
  {
  }

  /** The openings `next_schedule_opening` collects over the first `days` days of its scan. */
  ghost predicate ScannedOpenings(ws: seq<Window>, now: int, days: nat, windows: nat, c: seq<int>)
    requires AllNormal(ws) && windows <= |ws|
  {
    && (forall k :: 0 <= k < |c| ==> now <= c[k] && Allows(ws, c[k]))
    && (forall day, i :: DayOf(now) <= day < DayOf(now) + days && 0 <= i < |ws| ==> Scanned(ws[i], now, day, c))
    && (forall i :: 0 <= i < windows ==> Scanned(ws[i], now, DayOf(now) + days, c))
  }

  ghost predicate Scanned(w: Window, now: int, day: int, c: seq<int>)
    requires Normal(w)
  {
    Weekday(day) in w.days && now <= Opens(w, day) ==> Opens(w, day) in c
  }

  /** Every window opens within the week that follows, whatever the weekday and clock. */
  lemma OpensWithinAWeek(w: Window, now: int) returns (day: int)
    requires Normal(w)
    ensures DayOf(now) <= day <= DayOf(now) + 7
    ensures Weekday(day) in w.days && now <= Opens(w, day) < now + WEEK
  {
    var k := w.days[0];
    day := DayOf(now) + (k - DayOf(now)) % 7;
    WeekdayReached(DayOf(now), k);
    if Opens(w, day) < now {
      day := day + 7;
      assert day % 7 == (day - 7) % 7;
    }
  }

  lemma WeekdayReached(day: int, k: int)
    requires 0 <= k < 7
    ensures (day + (k - day) % 7) % 7 == k
  {
    var q := (k - day) / 7;
    assert day + (k - day) % 7 == k + 7 * (-q);
  }

  lemma OpeningIsAllowed(ws: seq<Window>, i: nat, day: int)
    requires AllNormal(ws) && i < |ws| && Weekday(day) in ws[i].days
    ensures Allows(ws, Opens(ws[i], day))
  {
    assert OpenOn(ws[i], day, Opens(ws[i], day));
  }

  /** An interval that is not open now but is open within the week starts inside the scan. */
  lemma LaterOpeningIsScanned(ws: seq<Window>, now: int, i: nat, day: int, u: int, c: seq<int>)
    requires AllNormal(ws) && i < |ws| && !Allows(ws, now)
    requires ScannedOpenings(ws, now, 8, 0, c)
    requires now <= u < now + WEEK && OpenOn(ws[i], day, u)
    ensures Opens(ws[i], day) in c && Opens(ws[i], day) <= u
  {
    assert !OpenOn(ws[i], day, now);
    assert now < Opens(ws[i], day) < now + WEEK;
    assert DayOf(now) <= day < DayOf(now) + 8;
    assert Scanned(ws[i], now, day, c);
  }

  lemma ScanIsExhaustive(ws: seq<Window>, now: int, t: int, c: seq<int>)
    requires AllNormal(ws) && ws != [] && !Allows(ws, now)
    requires ScannedOpenings(ws, now, 8, 0, c)
    requires now <= t < now + WEEK
    requires forall k :: 0 <= k < |c| ==> t <= c[k]
    ensures forall u :: now <= u < t ==> !Allows(ws, u)
  {
    forall u | now <= u < t && Allows(ws, u) ensures false {
      var i :| 0 <= i < |ws| && OpenAt(ws[i], u);
      var day :| OpenOn(ws[i], day, u);
      LaterOpeningIsScanned(ws, now, i, day, u, c);
    }
  }

  lemma ScanGrows(ws: seq<Window>, now: int, days: nat, windows: nat, c: seq<int>, opening: int)
    requires AllNormal(ws) && windows <= |ws|
    requires ScannedOpenings(ws, now, days, windows, c)
    requires now <= opening && Allows(ws, opening)
    ensures ScannedOpenings(ws, now, days, windows, c + [opening])
  {
    forall day, i | DayOf(now) <= day <= DayOf(now) + days && 0 <= i < |ws| && Scanned(ws[i], now, day, c)
      ensures Scanned(ws[i], now, day, c + [opening])
    {
    }
  }

  /** `next_schedule_opening`: the least instant from now on that the windows accept. */
  method NextScheduleOpening(ws: seq<Window>, now: int) returns (opening: Option<int>)
    requires AllNormal(ws)
    ensures opening.None? <==> ws == []
    ensures opening.Some? ==> IsLeastAllowed(ws, now, opening.value) && opening.value < now + WEEK
  {
    if ws == [] {
      return None;
    }
    var open := ScheduleWindowsAllowNow(ws, now);
    if open {
      return Some(now);
    }
    var candidates: seq<int> := [];
    for offset := 0 to 8
      invariant ScannedOpenings(ws, now, offset, 0, candidates)
    {
      var day := DayOf(now) + offset;
      for i := 0 to |ws|
        invariant ScannedOpenings(ws, now, offset, i, candidates)
      {
        if Weekday(day) in ws[i].days {
          var candidate := Opens(ws[i], day);
          if candidate >= now {
            OpeningIsAllowed(ws, i, day);
            ScanGrows(ws, now, offset, i, candidates, candidate);
            candidates := candidates + [candidate];
          }
        }
      }
    }
    var first := OpensWithinAWeek(ws[0], now);
    assert Scanned(ws[0], now, first, candidates);
    var least := Minimum(candidates);
    ScanIsExhaustive(ws, now, least, candidates);
    return Some(least);
  }

  method Minimum(s: seq<int>) returns (m: int)
    requires s != []
    ensures m in s && forall k :: 0 <= k < |s| ==> m <= s[k]
  {
    m := s[0];
    for i := 1 to |s|
      invariant m in s && forall k :: 0 <= k < i ==> m <= s[k]
    {
      if s[i] < m {
        m := s[i];
      }
    }
  }

  /** A least accepted instant exists for every nonempty window list, less than a week ahead. */
  lemma LeastAllowedExists(ws: seq<Window>, now: int)
    requires AllNormal(ws) && ws != []
    ensures exists t :: IsLeastAllowed(ws, now, t) && t < now + WEEK
  {
    var day := OpensWithinAWeek(ws[0], now);
    OpeningIsAllowed(ws, 0, day);
    var t := LeastFrom(ws, now, now, Opens(ws[0], day));
  }

  lemma {:induction false} LeastFrom(ws: seq<Window>, now: int, from: int, upper: int) returns (t: int)
    requires AllNormal(ws) && now <= from <= upper && Allows(ws, upper)
    requires forall u :: now <= u < from ==> !Allows(ws, u)
    ensures IsLeastAllowed(ws, now, t) && t <= upper
    decreases upper - from
  {
    if Allows(ws, from) {
      t := from;
    } else {
      t := LeastFrom(ws, now, from + 1, upper);
    }
  }

  ghost function LeastAllowed(ws: seq<Window>, now: int): (t: int)
    requires AllNormal(ws) && ws != []
    ensures IsLeastAllowed(ws, now, t) && t < now + WEEK
  {
    LeastAllowedExists(ws, now);
    var t :| IsLeastAllowed(ws, now, t) && t < now + WEEK;
    t
  }
}

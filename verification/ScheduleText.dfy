/**
 The stored text of schedule windows: `normalise_schedule_windows`, `_normalise_time`
 and `_parse_time` (packages/shared/encodr_shared/scheduling.py:9-38, 100-113).
 */
module ScheduleText {
  import opened Wrappers
  import opened Text
  import opened ScheduleWindows

  // ---------------------------------------------------------------- Times

  /** The digits Python's `int` accepts: single underscores may separate them. */
  function DigitsValue(s: string): Option<int> {
    if s == [] || !IsDigit(s[|s| - 1]) then None
    else
      var last := s[|s| - 1] as int - '0' as int;
      if |s| == 1 then Some(last)
      else
        var front := if s[|s| - 2] == '_' then s[..|s| - 2] else s[..|s| - 1];
        var value :- DigitsValue(front);
        Some(10 * value + last)
  }

  /** `int(text)`, `None` where Python raises. */
  function ParseInt(text: string): Option<int> {
    var s := Strip(text);
    if s != [] && s[0] == '-' then
      var value :- DigitsValue(s[1..]);
      Some(-value)
    else if s != [] && s[0] == '+' then DigitsValue(s[1..])
    else DigitsValue(s)
  }

  /** `_parse_time`: minutes after midnight, `None` where the source raises ValueError. */
  function ParseTime(text: string): (r: Option<nat>)
    ensures r.Some? ==> r.value < 1440
  {
    var parts := Split(text, ':');
    if |parts| < 2 then None
    else
      // maxsplit=1 leaves further colons in the minutes, which int() then rejects
      var hour :- ParseInt(parts[0]);
      var minute :- ParseInt(Join(parts[1..], ':'));
      if 0 <= hour <= 23 && 0 <= minute <= 59 then Some(60 * hour + minute) else None
  }

  /** `strftime("%H:%M")` */
  function FormatTime(m: nat): string
    requires m < 1440
  {
    TwoDigits(m / 60) + ":" + TwoDigits(m % 60)
  }

  function TwoDigits(n: nat): string
    requires n < 100
  {
    [DigitChar(n / 10), DigitChar(n % 10)]
  }

  lemma TwoDigitsValue(a: nat, b: nat)
    requires a < 10 && b < 10
    ensures DigitsValue([DigitChar(a), DigitChar(b)]) == Some(10 * a + b)
  {
    assert [DigitChar(a), DigitChar(b)][..1] == [DigitChar(a)];
    assert DigitsValue([DigitChar(a)]) == Some(a);
  }

  lemma ParseTwoDigits(n: nat)
    requires n < 100
    ensures ParseInt(TwoDigits(n)) == Some(n)
    ensures ':' !in TwoDigits(n) && TwoDigits(n) != "" && Trimmed(TwoDigits(n))
  {
    StripFixed(TwoDigits(n));
    TwoDigitsValue(n / 10, n % 10);
  }

  /** Digits, with single underscores between some of them. */
  predicate IntShaped(s: string) {
    && s != "" && IsDigit(s[0]) && IsDigit(s[|s| - 1])
    && (forall i :: 0 <= i < |s| ==> IsDigit(s[i]) || s[i] == '_')
    && (forall i :: 0 < i < |s| ==> s[i - 1] != '_' || s[i] != '_')
  }

  function DigitsOf(s: string): (digits: string)
    ensures forall i :: 0 <= i < |digits| ==> IsDigit(digits[i])
  {
    if s == "" then ""
    else DigitsOf(s[..|s| - 1]) + if IsDigit(s[|s| - 1]) then [s[|s| - 1]] else ""
  }

  /** What the digits are worth, exactly: other texts are refused, and underscores do not count. */
  lemma {:induction false} DigitsValueExactly(s: string)
    ensures DigitsValue(s) == if IntShaped(s) then Some(DigitsToNat(DigitsOf(s))) else None
  {
    if |s| >= 2 && IsDigit(s[|s| - 1]) {
      var between := if s[|s| - 2] == '_' then "_" else "";
      var front := s[..|s| - 1 - |between|];
      assert s == front + between + [s[|s| - 1]];
      if front != "" {
        DigitsValueExactly(front);
        LastDigit(front, between, s[|s| - 1]);
        LastDigitValue(front, between, s[|s| - 1]);
      }
    } else if |s| == 1 {
      OneDigit(s);
    }
  }

  lemma OneDigit(s: string)
    requires |s| == 1
    ensures DigitsValue(s) == if IntShaped(s) then Some(DigitsToNat(DigitsOf(s))) else None
  {
    if IsDigit(s[0]) {
      assert s[..0] == "" && DigitsOf("") == "" && DigitsOf(s) == [s[0]] && [s[0]][..0] == "";
    }
  }

  lemma LastDigitValue(front: string, between: string, digit: char)
    requires front != "" && IsDigit(digit) && (between == "_" || (between == "" && front[|front| - 1] != '_'))
    ensures DigitsValue(front + between + [digit]) ==
      match DigitsValue(front)
      case Some(value) => Some(10 * value + (digit as int - '0' as int))
      case None => None
  {
    var s := front + between + [digit];
    assert between == "_" ==> s[|s| - 2] == '_' && s[..|s| - 2] == front;
    assert between == "" ==> s[|s| - 2] == front[|front| - 1] && s[..|s| - 1] == front;
  }

  /** A digit after a text, with or without an underscore between. */
  lemma LastDigit(front: string, between: string, digit: char)
    requires front != "" && IsDigit(digit) && (between == "_" || (between == "" && front[|front| - 1] != '_'))
    ensures IntShaped(front + between + [digit]) <==> IntShaped(front)
    ensures DigitsToNat(DigitsOf(front + between + [digit])) == 10 * DigitsToNat(DigitsOf(front)) + (digit as int - '0' as int)
  {
    ShapeOfLast(front, between, digit);
    var s := front + between + [digit];
    assert s[..|s| - 1] == front + between;
    assert between == "_" ==> (front + between)[..|front|] == front;
    assert between == "" ==> front + between == front;
    assert DigitsOf(s) == DigitsOf(front) + [digit];
    assert DigitsOf(s)[..|DigitsOf(s)| - 1] == DigitsOf(front);
  }

  lemma ShapeOfLast(front: string, between: string, digit: char)
    requires front != "" && IsDigit(digit) && (between == "_" || (between == "" && front[|front| - 1] != '_'))
    ensures IntShaped(front + between + [digit]) <==> IntShaped(front)
  {
    var s, n := front + between + [digit], |front|;
    assert forall i :: 0 <= i < n ==> s[i] == front[i];
    assert between == "_" ==> s[n] == '_' && s[n + 1] == digit;
    assert between == "" ==> s[n] == digit;
    if IntShaped(front) {
      assert forall i :: n <= i < |s| ==> IsDigit(s[i]) || s[i] == '_';
    }
    if IntShaped(s) {
      assert IsDigit(front[n - 1]) by {
        assert s[n - 1] == front[n - 1];
      }
    }
  }

  /** A text in the form of an integer: digits with a sign or none, and any space around them. */
  predicate IntegerForm(text: string, before: string, sign: string, digits: string, after: string) {
    && text == before + sign + digits + after && AllSpace(before) && AllSpace(after)
    && sign in {"", "+", "-"} && IntShaped(digits)
  }

  function Signed(sign: string, n: int): int { if sign == "-" then -n else n }

  /** Such a text is read as the integer it looks like. */
  lemma IntegersAreRead(text: string, before: string, sign: string, digits: string, after: string)
    requires IntegerForm(text, before, sign, digits, after)
    ensures ParseInt(text) == Some(Signed(sign, DigitsToNat(DigitsOf(digits))))
  {
    SignedIsTrimmed(sign, digits);
    assert text == before + (sign + digits) + after;
    StripPadded(before, sign + digits, after);
    DigitsValueExactly(digits);
    SignedParses(text, sign, digits);
  }

  lemma SignedIsTrimmed(sign: string, digits: string)
    requires sign in {"", "+", "-"} && IntShaped(digits)
    ensures Trimmed(sign + digits)
  {
    var s := sign + digits;
    assert s[0] == (if sign == "" then digits[0] else sign[0]) && s[|s| - 1] == digits[|digits| - 1];
  }

  lemma SignedParses(text: string, sign: string, digits: string)
    requires sign in {"", "+", "-"} && digits != "" && IsDigit(digits[0]) && Strip(text) == sign + digits
    requires DigitsValue(digits).Some? && DigitsValue(digits).value >= 0
    ensures ParseInt(text) == Some(Signed(sign, DigitsValue(digits).value))
  {
    var s := sign + digits;
    assert sign == "" ==> s == digits && s[0] == digits[0];
    assert sign != "" ==> s[1..] == digits && s[0] == sign[0];
  }

  /** And no other text is. */
  lemma OnlyIntegersAreRead(text: string) returns (before: string, sign: string, digits: string, after: string)
    requires ParseInt(text).Some?
    ensures IntegerForm(text, before, sign, digits, after)
  {
    before, after := StripMeaning(text);
    var s := Strip(text);
    DigitsValueExactly(s);
    if s != "" && (s[0] == '-' || s[0] == '+') {
      sign, digits := [s[0]], s[1..];
      DigitsValueExactly(digits);
      assert s == sign + digits;
    } else {
      sign, digits := "", s;
    }
    assert text == before + sign + digits + after;
  }

  /** No integer text holds a colon. */
  lemma IntsHoldNoColon(text: string)
    requires ParseInt(text).Some?
    ensures ':' !in text
  {
    var before, sign, digits, after := OnlyIntegersAreRead(text);
  }

  /** The times that are accepted: an hour, a colon and a minute, in their ranges. */
  lemma TimesAreAcceptedExactly(text: string)
    ensures ':' !in text ==> ParseTime(text).None?
    ensures forall h, n :: ':' !in h && text == h + [':'] + n ==>
      ParseTime(text) ==
        match (ParseInt(h), ParseInt(n))
        case (Some(hour), Some(minute)) => if 0 <= hour <= 23 && 0 <= minute <= 59 then Some(60 * hour + minute) else None
        case _ => None
  {
    if ':' !in text {
      SplitPlain(text, ':');
    }
    forall h, n | ':' !in h && text == h + [':'] + n
      ensures Split(text, ':')[0] == h && Join(Split(text, ':')[1..], ':') == n && |Split(text, ':')| >= 2
    {
      SplitConcat(h, ':', n);
      JoinSplit(n, ':');
      assert ([h] + Split(n, ':'))[1..] == Split(n, ':');
    }
  }

  /** An hour and a minute around the only colon. */
  lemma ParseAroundColon(h: string, n: string, hour: nat, minute: nat)
    requires ':' !in h && ':' !in n && hour < 24 && minute < 60
    requires ParseInt(h) == Some(hour) && ParseInt(n) == Some(minute)
    ensures ParseTime(h + [':'] + n) == Some(60 * hour + minute)
  {
    SplitConcat(h, ':', n);
    SplitPlain(n, ':');
    assert Split(h + [':'] + n, ':') == [h, n];
    assert [h, n][1..] == [n];
  }

  lemma TrimmedAroundColon(h: string, n: string)
    requires Trimmed(h) && Trimmed(n)
    ensures Trimmed(h + [':'] + n)
  {
  }

  /** Formatting and parsing undo each other on every minute of the day. */
  lemma ParseFormat(m: nat)
    requires m < 1440
    ensures ParseTime(FormatTime(m)) == Some(m)
    ensures Strip(FormatTime(m)) == FormatTime(m)
  {
    var h, n := TwoDigits(m / 60), TwoDigits(m % 60);
    ParseTwoDigits(m / 60);
    ParseTwoDigits(m % 60);
    ParseAroundColon(h, n, m / 60, m % 60);
    assert FormatTime(m) == h + [':'] + n;
    TrimmedAroundColon(h, n);
    StripFixed(FormatTime(m));
  }

  // -------------------------------------------------------------- Windows

  const DAY_ORDER: seq<string> := ["mon", "tue", "wed", "thu", "fri", "sat", "sun"]

  /** What a client may submit; `days` is `None` when it is not a list. */
  datatype RawItem = NotAnObject | Item(days: Option<seq<string>>, start: string, end: string)
  datatype RawValue = Absent | NotAList | Listed(items: seq<RawItem>)

  datatype Stored = Stored(days: seq<string>, startTime: string, endTime: string)

  datatype ScheduleError = NeedsList | NeedsObjects | NeedsDays | UnsupportedDay | BadTime

  function CleanDay(day: string): string { Lower(Strip(day)) }

  /** The loop over `days`: names outside `known` are refused, repeats dropped. */
  function CleanDays(days: seq<string>, done: seq<string>, known: seq<string>): Result<seq<string>, ScheduleError> {
    if days == [] then Ok(done)
    else
      var day := CleanDay(days[0]);
      if day !in known then Err(UnsupportedDay)
      else CleanDays(days[1..], if day in done then done else done + [day], known)
  }

  function NormaliseTime(value: string): Result<string, ScheduleError> {
    match ParseTime(Strip(value))
    case Some(m) => Ok(FormatTime(m))
    case None => Err(BadTime)
  }

  function NormaliseItem(item: RawItem): Result<Stored, ScheduleError> {
    if item.NotAnObject? then Err(NeedsObjects)
    else if item.days.None? || item.days.value == [] then Err(NeedsDays)
    else
      var days :- CleanDays(item.days.value, [], DAY_ORDER);
      var start :- NormaliseTime(item.start);
      var end :- NormaliseTime(item.end);
      Ok(Stored(days, start, end))
  }

  lemma {:induction false} DaysAreAcceptedExactly(days: seq<string>, done: seq<string>, known: seq<string>)
    ensures CleanDays(days, done, known).Ok? <==> forall i :: 0 <= i < |days| ==> CleanDay(days[i]) in known
    ensures CleanDays(days, done, known).Err? ==> CleanDays(days, done, known).error == UnsupportedDay
  {
    if days != [] {
      var day := CleanDay(days[0]);
      DaysAreAcceptedExactly(days[1..], if day in done then done else done + [day], known);
      assert forall i :: 1 <= i < |days| ==> days[i] == days[1..][i - 1];
    }
  }

  /** Each day is the name of one, in any case and with any space around it. */
  predicate KnownDays(days: seq<string>) {
    forall i :: 0 <= i < |days| ==>
      Lower(Strip(days[i])) in {"mon", "tue", "wed", "thu", "fri", "sat", "sun"}
  }

  /** Which items are accepted, and why each other one is refused. */
  lemma ItemsAreAcceptedExactly(item: RawItem)
    ensures var r := NormaliseItem(item);
      if item.NotAnObject? then r == Err(NeedsObjects)
      else if item.days.None? || item.days.value == [] then r == Err(NeedsDays)
      else if !KnownDays(item.days.value) then r == Err(UnsupportedDay)
      else if ParseTime(Strip(item.start)).None? || ParseTime(Strip(item.end)).None? then r == Err(BadTime)
      else r.Ok?
  {
    if item.Item? && item.days.Some? {
      DaysAreAcceptedExactly(item.days.value, [], DAY_ORDER);
      forall day ensures day in DAY_ORDER <==> day in {"mon", "tue", "wed", "thu", "fri", "sat", "sun"} {
        assert DAY_ORDER[0] == "mon" && DAY_ORDER[1] == "tue" && DAY_ORDER[2] == "wed" && DAY_ORDER[3] == "thu"
            && DAY_ORDER[4] == "fri" && DAY_ORDER[5] == "sat" && DAY_ORDER[6] == "sun";
      }
    }
  }

  /** Every item is accepted, as these windows. */
  predicate AllAccepted(items: seq<RawItem>, windows: seq<Stored>) {
    |windows| == |items| && forall i :: 0 <= i < |items| ==> NormaliseItem(items[i]) == Ok(windows[i])
  }

  /** Some item is refused for this reason, and every one before it is accepted. */
  predicate FirstRefused(items: seq<RawItem>, e: ScheduleError, i: nat) {
    i < |items| && NormaliseItem(items[i]) == Err(e) && forall j :: 0 <= j < i ==> NormaliseItem(items[j]).Ok?
  }

  /** `normalise_schedule_windows`; no windows at all are stored as `None`. */
  method NormaliseScheduleWindows(value: RawValue) returns (r: Result<Option<seq<Stored>>, ScheduleError>)
    ensures value == Absent || value == Listed([]) ==> r == Ok(None)
    ensures value == NotAList ==> r == Err(NeedsList)
    ensures value.Listed? && value.items != [] ==>
      match r
      case Ok(windows) => windows.Some? && AllAccepted(value.items, windows.value)
      case Err(e) => exists i :: 0 <= i < |value.items| && FirstRefused(value.items, e, i)
  {
    if value == Absent || value == Listed([]) {
      return Ok(None);
    }
    if value == NotAList {
      return Err(NeedsList);
    }
    var windows := NormaliseAll(value.items);
    if windows.Err? {
      return Err(windows.error);
    }
    return Ok(Some(windows.value));
  }

  /** The loop over the items. */
  method NormaliseAll(items: seq<RawItem>) returns (r: Result<seq<Stored>, ScheduleError>)
    ensures r.Ok? ==> AllAccepted(items, r.value)
    ensures r.Err? ==> exists i :: 0 <= i < |items| && FirstRefused(items, r.error, i)
  {
    var windows: seq<Stored> := [];
    for n := 0 to |items|
      invariant |windows| == n
      invariant forall i :: 0 <= i < n ==> NormaliseItem(items[i]) == Ok(windows[i])
    {
      var item := NormaliseWindow(items[n]);
      if item.Err? {
        assert FirstRefused(items, item.error, n);
        return Err(item.error);
      }
      windows := windows + [item.value];
    }
    return Ok(windows);
  }

  /** The body of the loop over the items. */
  method NormaliseWindow(item: RawItem) returns (r: Result<Stored, ScheduleError>)
    ensures r == NormaliseItem(item)
  {
    if item.NotAnObject? {
      return Err(NeedsObjects);
    }
    if item.days.None? || item.days.value == [] {
      return Err(NeedsDays);
    }
    var days, cleaned := item.days.value, [];
    assert days[0..] == days;
    for k := 0 to |days|
      invariant CleanDays(days[k..], cleaned, DAY_ORDER) == CleanDays(days, [], DAY_ORDER)
    {
      assert days[k..][1..] == days[k + 1..];
      var day := CleanDay(days[k]);
      if day !in DAY_ORDER {
        return Err(UnsupportedDay);
      }
      if day !in cleaned {
        cleaned := cleaned + [day];
      }
    }
    var start, end := NormaliseTime(item.start), NormaliseTime(item.end);
    if start.Err? || end.Err? {
      return Err(BadTime);
    }
    return Ok(Stored(cleaned, start.value, end.value));
  }

  // -------------------------------------------------- Reading stored text

  function DayIndex(day: string): Option<nat> {
    if day == "mon" then Some(0) else if day == "tue" then Some(1) else if day == "wed" then Some(2)
    else if day == "thu" then Some(3) else if day == "fri" then Some(4) else if day == "sat" then Some(5)
    else if day == "sun" then Some(6) else None
  }

  function DayIndexes(days: seq<string>): seq<nat> {
    if days == [] then []
    else
      match DayIndex(CleanDay(days[0]))
      case Some(k) => [k] + DayIndexes(days[1..])
      case None => DayIndexes(days[1..])
  }

  /** How `schedule_windows_allow_now` and `next_schedule_opening` read a stored window. */
  function ReadWindow(s: Stored): Option<Window> {
    var start :- ParseTime(s.startTime);
    var end :- ParseTime(s.endTime);
    Some(Window(DayIndexes(s.days), start, end))
  }

  /** A day is read by its place in the week, and other names are not read at all. */
  lemma DayIndexExactly(day: string, k: nat)
    ensures DayIndex(day) == Some(k) <==> k < 7 && DAY_ORDER[k] == day
  {
    if k < 7 && DAY_ORDER[k] == day {
      DayNamesAreClean(day);
      DayNamesDistinct(DayIndex(day).value, k);
    }
  }

  lemma DayNamesAreClean(day: string)
    requires day in DAY_ORDER
    ensures CleanDay(day) == day
    ensures DayIndex(day).Some? && DayIndex(day).value < 7 && DAY_ORDER[DayIndex(day).value] == day
  {
    assert LStripSpace(day) == day && RStripSpace(day) == day;
  }

  lemma {:induction false} CleanDaysSound(days: seq<string>, done: seq<string>, known: seq<string>)
    requires CleanDays(days, done, known).Ok?
    ensures var r := CleanDays(days, done, known).value;
      && done <= r
      && (forall d :: d in r <==> d in done || exists i :: 0 <= i < |days| && CleanDay(days[i]) == d)
      && ((forall d :: d in done ==> d in known) ==> forall d :: d in r ==> d in known)
      && ((forall i, j :: 0 <= i < j < |done| ==> done[i] != done[j]) ==>
            forall i, j :: 0 <= i < j < |r| ==> r[i] != r[j])
  {
    if days != [] {
      var day := CleanDay(days[0]);
      CleanDaysSound(days[1..], if day in done then done else done + [day], known);
      var r := CleanDays(days, done, known).value;
      forall d
        ensures d in r <==> d in done || exists i :: 0 <= i < |days| && CleanDay(days[i]) == d
      {
        if i :| 0 <= i < |days| && CleanDay(days[i]) == d {
          assert i > 0 ==> days[1..][i - 1] == days[i];
        }
        if i :| 0 <= i < |days[1..]| && CleanDay(days[1..][i]) == d {
          assert days[i + 1] == days[1..][i];
        }
      }
    }
  }

  ghost predicate CleanNames(days: seq<string>, known: seq<string>) {
    && (forall i :: 0 <= i < |days| ==> days[i] in known && CleanDay(days[i]) == days[i])
    && (forall i, j :: 0 <= i < j < |days| ==> days[i] != days[j])
  }

  lemma {:induction false} CleanDaysFixed(days: seq<string>, done: seq<string>, known: seq<string>)
    requires CleanNames(days, known)
    requires forall i :: 0 <= i < |days| ==> days[i] !in done
    ensures CleanDays(days, done, known) == Ok(done + days)
  {
    if days == [] {
      assert done + days == done;
    } else {
      var rest, done' := days[1..], done + [days[0]];
      assert CleanNames(rest, known) by {
        assert forall i :: 0 <= i < |rest| ==> rest[i] == days[i + 1];
      }
      assert forall i :: 0 <= i < |rest| ==> rest[i] == days[i + 1] && rest[i] !in done';
      CleanDaysFixed(rest, done', known);
      assert done' + rest == done + days;
    }
  }

  lemma {:induction false} DayIndexesMeaning(days: seq<string>)
    requires forall i :: 0 <= i < |days| ==> days[i] in DAY_ORDER
    ensures |DayIndexes(days)| == |days|
    ensures forall i :: 0 <= i < |days| ==> DayIndexes(days)[i] < 7 && DAY_ORDER[DayIndexes(days)[i]] == days[i]
  {
    if days != [] {
      DayIndexMeaning(days[0]);
      DayIndexesMeaning(days[1..]);
      assert forall i :: 1 <= i < |days| ==> days[1..][i - 1] == days[i];
    }
  }

  lemma DayIndexMeaning(day: string)
    requires day in DAY_ORDER
    ensures var k := DayIndex(CleanDay(day)); k.Some? && k.value < 7 && DAY_ORDER[k.value] == day
  {
    DayNamesAreClean(day);
  }

  /** Storing keeps the meaning: what is read back has the submitted times and the submitted days. */
  lemma StoredReadsBack(item: RawItem)
    requires NormaliseItem(item).Ok?
    ensures var w := ReadWindow(NormaliseItem(item).value);
      && w.Some? && Normal(w.value)
      && ParseTime(Strip(item.start)) == Some(w.value.start)
      && ParseTime(Strip(item.end)) == Some(w.value.end)
      && forall k :: 0 <= k < 7 ==>
           (k in w.value.days <==> exists i :: 0 <= i < |item.days.value| && CleanDay(item.days.value[i]) == DAY_ORDER[k])
  {
    DaysReadBack(item.days.value);
    ParseFormat(ParseTime(Strip(item.start)).value);
    ParseFormat(ParseTime(Strip(item.end)).value);
  }

  lemma DaysReadBack(days: seq<string>)
    requires days != [] && CleanDays(days, [], DAY_ORDER).Ok?
    ensures var stored := CleanDays(days, [], DAY_ORDER).value; var indexes := DayIndexes(stored);
      && |indexes| > 0 && (forall i :: 0 <= i < |indexes| ==> indexes[i] < 7)
      && forall k :: 0 <= k < 7 ==>
           (k in indexes <==> exists i :: 0 <= i < |days| && CleanDay(days[i]) == DAY_ORDER[k])
  {
    var stored := CleanDays(days, [], DAY_ORDER).value;
    CleanDaysSound(days, [], DAY_ORDER);
    DayIndexesMeaning(stored);
    assert CleanDay(days[0]) in stored;
    forall k | 0 <= k < 7 ensures k in DayIndexes(stored) <==> DAY_ORDER[k] in stored {
      DayIndexesContain(stored, k);
    }
  }

  lemma DayIndexesContain(days: seq<string>, k: nat)
    requires k < 7 && forall i :: 0 <= i < |days| ==> days[i] in DAY_ORDER
    ensures k in DayIndexes(days) <==> DAY_ORDER[k] in days
  {
    DayIndexesMeaning(days);
    var indexes := DayIndexes(days);
    if DAY_ORDER[k] in days {
      var i :| 0 <= i < |days| && days[i] == DAY_ORDER[k];
      DayNamesDistinct(indexes[i], k);
    }
  }

  lemma DayNamesDistinct(a: nat, b: nat)
    requires a < 7 && b < 7 && DAY_ORDER[a] == DAY_ORDER[b]
    ensures a == b
  {
    assert DAY_ORDER[a][0] == DAY_ORDER[b][0] && DAY_ORDER[a][1] == DAY_ORDER[b][1];
  }

  /** Storing is idempotent: submitting what was stored stores the same text. */
  lemma StoredIsFixed(item: RawItem)
    requires NormaliseItem(item).Ok?
    ensures var s := NormaliseItem(item).value;
      NormaliseItem(Item(Some(s.days), s.startTime, s.endTime)) == Ok(s)
  {
    StoredDaysAreFixed(item.days.value);
    ParseFormat(ParseTime(Strip(item.start)).value);
    ParseFormat(ParseTime(Strip(item.end)).value);
  }

  lemma StoredDaysAreFixed(days: seq<string>)
    requires days != [] && CleanDays(days, [], DAY_ORDER).Ok?
    ensures var stored := CleanDays(days, [], DAY_ORDER).value;
      stored != [] && CleanDays(stored, [], DAY_ORDER) == Ok(stored)
  {
    var stored := CleanDays(days, [], DAY_ORDER).value;
    CleanDaysSound(days, [], DAY_ORDER);
    assert CleanDay(days[0]) in stored;
    forall i | 0 <= i < |stored| ensures CleanDay(stored[i]) == stored[i] {
      DayNamesAreClean(stored[i]);
    }
    CleanDaysFixed(stored, [], DAY_ORDER);
    assert [] + stored == stored;
  }
}

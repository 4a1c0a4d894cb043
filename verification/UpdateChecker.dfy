/** The update checker's clocked state (packages/shared/encodr_shared/update.py:52-183). */
module UpdateChecker {
  import opened Wrappers
  import opened Text
  import opened Versions

  datatype Settings = Settings(enabled: bool, metadataUrl: Option<string>, channel: string, currentVersion: string, interval: nat)

  datatype Status = Disabled | NotChecked | Misconfigured | Ok | Error

  datatype Result = Result(latestVersion: Option<string>, updateAvailable: bool, channel: string, status: Status, checkedAt: Option<int>)

  /** The release metadata the checker reads; the other fields are carried text. */
  datatype Payload = Payload(latestVersion: Option<string>, version: Option<string>, tagName: Option<string>, channel: Option<string>)

  /** `check_now` catches URLError, ValueError and OSError; anything else escapes it. */
  datatype Fetch = Metadata(payload: Payload) | CaughtError | UncaughtError

  function OptionalText(value: Option<string>): Option<string> {
    var text :- value;
    if Strip(text) == "" then None else Some(Strip(text))
  }

  function ExtractLatestVersion(p: Payload): Option<string> {
    if OptionalText(p.latestVersion).Some? then OptionalText(p.latestVersion)
    else if OptionalText(p.version).Some? then OptionalText(p.version)
    else
      var tag :- OptionalText(p.tagName);
      Some(if tag[0] == 'v' || tag[0] == 'V' then tag[1..] else tag)
  }

  predicate Nonblank(text: Option<string>) { text.Some? && Strip(text.value) != "" }

  /** The first text that is not blank, stripped; a tag loses one leading "v". */
  lemma LatestVersionMeaning(p: Payload)
    ensures var latest := ExtractLatestVersion(p);
      if Nonblank(p.latestVersion) then latest == Some(Strip(p.latestVersion.value))
      else if Nonblank(p.version) then latest == Some(Strip(p.version.value))
      else if !Nonblank(p.tagName) then latest == None
      else
        var tag := Strip(p.tagName.value);
        latest == Some(if StartsWith(tag, "v") || StartsWith(tag, "V") then tag[1..] else tag)
  {
    if Nonblank(p.tagName) {
      var tag := Strip(p.tagName.value);
      assert StartsWith(tag, "v") <==> tag[0] == 'v';
      assert StartsWith(tag, "V") <==> tag[0] == 'V';
    }
  }

  function DefaultResult(s: Settings): Result {
    Result(None, false, s.channel, if s.enabled then NotChecked else Disabled, None)
  }

  predicate HasUrl(s: Settings) {
    s.metadataUrl.Some? && s.metadataUrl.value != ""
  }

  /** The result `check_now` stores, `None` when the fetch error escapes. */
  function CheckResult(s: Settings, now: int, fetch: Fetch): Option<Result> {
    if !s.enabled then Some(DefaultResult(s))
    else if !HasUrl(s) then Some(Result(None, false, s.channel, Misconfigured, Some(now)))
    else
      var failed := Result(None, false, s.channel, Error, Some(now));
      match fetch
      case UncaughtError => None
      case CaughtError => Some(failed)
      case Metadata(p) =>
        match ExtractLatestVersion(p)
        case None => Some(failed)
        case Some(latest) =>
          var channel := if p.channel.Some? && p.channel.value != "" then p.channel.value else s.channel;
          Some(Result(Some(latest), IsVersionNewer(s.currentVersion, latest), channel, Status.Ok, Some(now)))
  }

  /** The fetched metadata names this version. */
  predicate Names(fetch: Fetch, version: string) {
    fetch.Metadata? && ExtractLatestVersion(fetch.payload) == Some(version)
  }

  /** What a check comes to, with an update advertised exactly if the fetched version is newer. */
  predicate CheckedRightly(s: Settings, now: int, fetch: Fetch, r: Option<Result>) {
    if !s.enabled then r == Some(Result(None, false, s.channel, Disabled, None))
    else if s.metadataUrl.None? || s.metadataUrl.value == "" then r == Some(Result(None, false, s.channel, Misconfigured, Some(now)))
    else if fetch.UncaughtError? then r == None
    else if fetch.CaughtError? || ExtractLatestVersion(fetch.payload).None? then
      r == Some(Result(None, false, s.channel, Error, Some(now)))
    else
      var version, channel := ExtractLatestVersion(fetch.payload).value, fetch.payload.channel;
      && r.Some? && r.value.latestVersion == Some(version) && r.value.status.Ok? && r.value.checkedAt == Some(now)
      && (r.value.updateAvailable <==> IsVersionNewer(s.currentVersion, version))
      && (r.value.channel == if channel.Some? && channel.value != "" then channel.value else s.channel)
  }

  predicate ShouldAutoCheck(s: Settings, last: Result, now: int) {
    s.enabled &&
    (last.status == NotChecked || last.checkedAt.None? || s.interval == 0 || now - last.checkedAt.value >= s.interval)
  }

  class Checker {
    const settings: Settings
    var last: Result

    constructor (settings: Settings)
      ensures this.settings == settings && last == DefaultResult(settings)
      ensures last == Result(None, false, settings.channel, if settings.enabled then NotChecked else Disabled, None)
    {
      this.settings := settings;
      last := DefaultResult(settings);
    }

    /** `check_now`; an escaping error leaves the stored result as it was. */
    method CheckNow(now: int, fetch: Fetch) returns (r: Option<Result>)
      modifies this
      ensures r == CheckResult(settings, now, fetch)
      ensures last == if r.Some? then r.value else old(last)
      ensures CheckedRightly(settings, now, fetch, r)
    {
      if !settings.enabled {
        last := DefaultResult(settings);
        return Some(last);
      }
      if settings.metadataUrl.None? || settings.metadataUrl.value == "" {
        last := Result(None, false, settings.channel, Misconfigured, Some(now));
        return Some(last);
      }
      if fetch.UncaughtError? {
        return None;
      }
      var latest := if fetch.Metadata? then ExtractLatestVersion(fetch.payload) else None;
      if latest.None? {
        last := Result(None, false, settings.channel, Error, Some(now));
        return Some(last);
      }
      var named := fetch.payload.channel;
      var channel := if named.Some? && named.value != "" then named.value else settings.channel;
      last := Result(latest, IsVersionNewer(settings.currentVersion, latest.value), channel, Status.Ok, Some(now));
      return Some(last);
    }

    /** `current_status`; `asked` and `now` are its two readings of the clock. */
    method CurrentStatus(autoCheck: bool, asked: int, now: int, fetch: Fetch) returns (r: Option<Result>)
      modifies this
      ensures last == if autoCheck then After(settings, old(last), Call(false, asked, now, fetch)) else old(last)
      ensures r == if autoCheck && ShouldAutoCheck(settings, old(last), asked) then CheckResult(settings, now, fetch) else Some(old(last))
    {
      if autoCheck {
        var due := settings.enabled &&
          (last.status == NotChecked || last.checkedAt.None? || settings.interval == 0
           || asked - last.checkedAt.value >= settings.interval);
        if due {
          r := CheckNow(now, fetch);
          return;
        }
      }
      return Some(last);
    }
  }

  // ----------------------------------------------------------------- Runs

  /** A call of `check_now` (manual) or of `current_status(auto_check=True)`. */
  datatype Call = Call(manual: bool, asked: int, now: int, fetch: Fetch)

  predicate Checks(s: Settings, last: Result, c: Call) {
    c.manual || ShouldAutoCheck(s, last, c.asked)
  }

  function After(s: Settings, last: Result, c: Call): Result {
    if Checks(s, last, c) && CheckResult(s, c.now, c.fetch).Some? then CheckResult(s, c.now, c.fetch).value else last
  }

  /** A check that started at `at`; `recorded` unless its fetch error escaped. */
  datatype Check = Check(auto: bool, at: int, recorded: bool)

  /** The checks an enabled checker makes over a run, in order. */
  function ChecksOf(s: Settings, last: Result, calls: seq<Call>): seq<Check>
    decreases |calls|
  {
    if calls == [] then []
    else
      var c := calls[0];
      (if Checks(s, last, c) then [Check(!c.manual, c.now, CheckResult(s, c.now, c.fetch).Some?)] else [])
      + ChecksOf(s, After(s, last, c), calls[1..])
  }

  ghost predicate ClockAdvances(from: int, calls: seq<Call>)
    decreases |calls|
  {
    calls == [] || (from <= calls[0].asked <= calls[0].now && ClockAdvances(calls[0].now, calls[1..]))
  }

  ghost predicate AutoAfter(checks: seq<Check>, since: int, interval: nat) {
    forall k :: 0 <= k < |checks| && checks[k].auto ==> checks[k].at - since >= interval
  }

  ghost predicate Spaced(checks: seq<Check>, interval: nat) {
    forall j, k :: 0 <= j < k < |checks| && checks[j].recorded && checks[k].auto ==>
      checks[k].at - checks[j].at >= interval
  }

  /** Every automatic check comes at least the interval after `since`, where some check was recorded. */
  lemma {:induction false} AutoChecksKeepAway(s: Settings, last: Result, since: int, clock: int, calls: seq<Call>)
    requires s.enabled && ClockAdvances(clock, calls)
    requires last.status != NotChecked && last.checkedAt.Some? && since <= last.checkedAt.value <= clock
    ensures AutoAfter(ChecksOf(s, last, calls), since, s.interval)
    decreases |calls|
  {
    if calls != [] {
      AutoChecksKeepAway(s, After(s, last, calls[0]), since, calls[0].now, calls[1..]);
    }
  }

  /**
   Over any run with an advancing clock, an automatic check never starts less than the
   interval after any earlier check whose outcome was recorded.
   */
  lemma {:induction false} AutoChecksAreSpaced(s: Settings, last: Result, clock: int, calls: seq<Call>)
    requires s.enabled && ClockAdvances(clock, calls)
    ensures Spaced(ChecksOf(s, last, calls), s.interval)
    decreases |calls|
  {
    if calls != [] {
      var c := calls[0];
      var next := After(s, last, c);
      AutoChecksAreSpaced(s, next, c.now, calls[1..]);
      var rest := ChecksOf(s, next, calls[1..]);
      var recorded := CheckResult(s, c.now, c.fetch).Some?;
      if Checks(s, last, c) {
        if recorded {
          AutoChecksKeepAway(s, next, c.now, c.now, calls[1..]);
        }
        SpacedWithFirst(Check(!c.manual, c.now, recorded), rest, s.interval);
      } else {
        assert ChecksOf(s, last, calls) == rest;
      }
    }
  }

  lemma SpacedWithFirst(first: Check, rest: seq<Check>, interval: nat)
    requires Spaced(rest, interval) && (first.recorded ==> AutoAfter(rest, first.at, interval))
    ensures Spaced([first] + rest, interval)
  {
  }

  /** Recording is needed: after an error that escapes, the next automatic check follows at once. */
  lemma EscapedErrorsAreNotSpaced(s: Settings, now: int)
    requires s.enabled && HasUrl(s) && s.interval > 0
    ensures var auto := Call(false, now, now, UncaughtError);
      ChecksOf(s, DefaultResult(s), [auto, auto]) == [Check(true, now, false), Check(true, now, false)]
  {
    var auto := Call(false, now, now, UncaughtError);
    assert [auto, auto][1..] == [auto] && [auto][1..] == [];
    assert ChecksOf(s, DefaultResult(s), [auto]) == [Check(true, now, false)];
  }

  /** No run that follows makes an automatic check within the interval after `since`. */
  ghost predicate KeepsInterval(s: Settings, last: Result, since: int) {
    forall calls: seq<Call> :: ClockAdvances(since, calls) ==> AutoAfter(ChecksOf(s, last, calls), since, s.interval)
  }

  /** An automatic check keeps the interval after it free, in every run that follows, unless its fetch error escapes. */
  lemma RecordingKeepsIntervalExactly(s: Settings, last: Result, c: Call)
    requires s.enabled && s.interval > 0 && !c.manual && Checks(s, last, c) && c.asked <= c.now
    ensures KeepsInterval(s, After(s, last, c), c.now) <==> !(HasUrl(s) && c.fetch.UncaughtError?)
  {
    if CheckResult(s, c.now, c.fetch).Some? {
      forall calls: seq<Call> | ClockAdvances(c.now, calls)
        ensures AutoAfter(ChecksOf(s, After(s, last, c), calls), c.now, s.interval)
      {
        AutoChecksKeepAway(s, After(s, last, c), c.now, c.now, calls);
      }
    } else {
      var again := [Call(false, c.now, c.now, c.fetch)];
      assert again[1..] == [] && ClockAdvances(c.now, again);
      assert ChecksOf(s, last, again) == [Check(true, c.now, false)];
      assert ChecksOf(s, last, again)[0].auto && ChecksOf(s, last, again)[0].at == c.now;
      assert !AutoAfter(ChecksOf(s, last, again), c.now, s.interval);
    }
  }

  /** An advertised update is a stored version newer than the current one, of a successful check. */
  ghost predicate Advertised(s: Settings, r: Result) {
    r.updateAvailable ==> r.status.Ok? && r.latestVersion.Some? && IsVersionNewer(s.currentVersion, r.latestVersion.value)
  }

  function AfterCalls(s: Settings, last: Result, calls: seq<Call>): Result
    decreases |calls|
  {
    if calls == [] then last else AfterCalls(s, After(s, last, calls[0]), calls[1..])
  }

  lemma {:induction false} AfterCallsConcat(s: Settings, last: Result, calls: seq<Call>, more: seq<Call>)
    ensures AfterCalls(s, last, calls + more) == AfterCalls(s, AfterCalls(s, last, calls), more)
    decreases |calls|
  {
    if calls == [] {
      assert calls + more == more;
    } else {
      assert (calls + more)[1..] == calls[1..] + more;
      AfterCallsConcat(s, After(s, last, calls[0]), calls[1..], more);
    }
  }

  /** When the last of these checks that was recorded started. */
  function LastRecorded(checks: seq<Check>): Option<int> {
    if checks == [] then None
    else if checks[|checks| - 1].recorded then Some(checks[|checks| - 1].at)
    else LastRecorded(checks[..|checks| - 1])
  }

  lemma {:induction false} LastRecordedConcat(a: seq<Check>, b: seq<Check>)
    ensures LastRecorded(a + b) == if LastRecorded(b).Some? then LastRecorded(b) else LastRecorded(a)
    decreases |b|
  {
    if b == [] {
      assert a + b == a;
    } else {
      assert (a + b)[..|a + b| - 1] == a + b[..|b| - 1];
      LastRecordedConcat(a, b[..|b| - 1]);
    }
  }

  /** The stored result tells when the last recorded check of the run was made. */
  lemma {:induction false} StoredTimeIsLastRecorded(s: Settings, last: Result, calls: seq<Call>)
    requires s.enabled
    ensures var recorded, r := LastRecorded(ChecksOf(s, last, calls)), AfterCalls(s, last, calls);
      if recorded.Some? then r.checkedAt == recorded && r.status != NotChecked else r == last
    decreases |calls|
  {
    if calls != [] {
      var c := calls[0];
      var next := After(s, last, c);
      StoredTimeIsLastRecorded(s, next, calls[1..]);
      var first := if Checks(s, last, c) then [Check(!c.manual, c.now, CheckResult(s, c.now, c.fetch).Some?)] else [];
      LastRecordedConcat(first, ChecksOf(s, next, calls[1..]));
      FirstRecorded(first);
    }
  }

  lemma FirstRecorded(checks: seq<Check>)
    requires |checks| <= 1
    ensures LastRecorded(checks) == if checks != [] && checks[0].recorded then Some(checks[0].at) else None
  {
    assert checks != [] ==> checks[..0] == [];
  }

  /**
   After any run from the start, an automatic call checks exactly when it is due: nothing was recorded yet,
   or the interval since the last recorded check has passed, or there is none.
   */
  lemma AutoChecksComeWhenDue(s: Settings, calls: seq<Call>, c: Call)
    requires s.enabled && !c.manual
    ensures Checks(s, AfterCalls(s, DefaultResult(s), calls), c) <==>
      match LastRecorded(ChecksOf(s, DefaultResult(s), calls))
      case Some(at) => s.interval == 0 || at + s.interval <= c.asked
      case None => true
  {
    StoredTimeIsLastRecorded(s, DefaultResult(s), calls);
  }

  /** After any run, a check that fetches a version leaves an update advertised if and only if it is newer. */
  lemma NewerVersionsAreAdvertised(s: Settings, last: Result, calls: seq<Call>, c: Call, version: string)
    requires s.enabled && HasUrl(s) && Names(c.fetch, version) && Checks(s, AfterCalls(s, last, calls), c)
    ensures var r := AfterCalls(s, last, calls + [c]);
      (r.updateAvailable <==> IsVersionNewer(s.currentVersion, version)) && r.latestVersion == Some(version)
  {
    AfterCallsConcat(s, last, calls, [c]);
    assert [c][1..] == [];
  }

  lemma {:induction false} UpdatesAreGenuine(s: Settings, last: Result, calls: seq<Call>)
    requires Advertised(s, last)
    ensures Advertised(s, AfterCalls(s, last, calls))
    decreases |calls|
  {
    if calls != [] {
      UpdatesAreGenuine(s, After(s, last, calls[0]), calls[1..]);
    }
  }
}

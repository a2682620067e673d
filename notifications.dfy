/** The reminder logic of fetch_matches.py (the functions at lines 54-55 and
    162-300): environment checks, the per-match reminder loop, the emoji
    choices of the Telegram message, and the mapping of a Football-Data.org
    response to match dicts.

    Times are whole seconds since an arbitrary epoch. `asyncio.sleep` and the
    call to `send_telegram_notification` are recorded as events of a trace;
    the wall clock is read once, as the source does, and passed in as `now`. */
module Notifications {
  import opened Text
  import opened JsonValues

  // ---------------------------------------------------------------------------
  // Environment

  /** `sanitize_env_var` (line 54): keep the printable characters, then strip
      whitespace at both ends. */
  function SanitizeEnvVar(value: string): (r: string)
    ensures forall i :: 0 <= i < |r| ==> IsPrintable(r[i])
    ensures r != [] ==> !IsSpace(r[0]) && !IsSpace(r[|r| - 1])
    ensures |r| <= |value|
  {
    var printable := KeepPrintable(value);
    StripSlice(printable);
    Strip(printable)
  }

  /** Sanitizing an already sanitized value changes nothing. */
  lemma SanitizeIdempotent(value: string)
    ensures SanitizeEnvVar(SanitizeEnvVar(value)) == SanitizeEnvVar(value)
  {
    var once := SanitizeEnvVar(value);
    assert KeepPrintable(once) == once;
    assert LStrip(once) == once;
    assert RStrip(once) == once;
  }

  /** The variables `check_env` looks for, in order. */
  const RequiredVars: seq<string> :=
    ["FOOTBALL_DATA_API_KEY", "TELEGRAM_BOT_TOKEN", "TELEGRAM_CHAT_ID", "RECIPIENT_EMAIL"]

  /** The one listed variable whose absence `check_env` tolerates. */
  const ExemptVar: string := "TELEGRAM_BOT_TOKEN"

  /** `check_env`: walk `RequiredVars` and raise for the first one that is
      unset (an empty value counts as set), unless it is `ExemptVar`.
      `missing` names the variable of the raised exception. */
  method CheckEnv(env: map<string, string>) returns (missing: Option<string>)
    ensures missing.None? <==>
              forall i :: 0 <= i < |RequiredVars| && RequiredVars[i] != ExemptVar ==> RequiredVars[i] in env
    ensures missing.Some? ==>
              exists i :: 0 <= i < |RequiredVars| && missing.value == RequiredVars[i] &&
                (forall j :: 0 <= j < i && RequiredVars[j] != ExemptVar ==> RequiredVars[j] in env)
    ensures missing.Some? ==> missing.value !in env && missing.value != ExemptVar
  {
    for i := 0 to |RequiredVars|
      invariant forall j :: 0 <= j < i && RequiredVars[j] != ExemptVar ==> RequiredVars[j] in env
    {
      var name := RequiredVars[i];
      var exists_ := name in env;
      if !exists_ && name != ExemptVar {
        return Some(name);
      }
    }
    return None;
  }

  // ---------------------------------------------------------------------------
  // The message's emojis

  const Hourglass: string := "\U{23F3}"
  const AlarmClock: string := "\U{23F0}"
  const HighVoltage: string := "\U{26A1}"
  const SoccerBall: string := "\U{26BD}"

  /** `emoji_map` of `send_telegram_notification`. */
  const EmojiMap: map<string, string> := map[
    "UEFA Champions League" := "\U{1F3C6}",
    "UEFA Europa League" := "\U{1F31F}",
    "UEFA Europa Conference League" := "\U{1F30D}",
    "Premier League" := "\U{1F3F4}",
    "Serie A" := "\U{1F1EE}\U{1F1F9}",
    "La Liga" := "\U{1F1EA}\U{1F1F8}",
    "Bundesliga" := "\U{1F1E9}\U{1F1EA}",
    "Ligue 1" := "\U{1F1EB}\U{1F1F7}",
    "Eredivisie" := "\U{1F1F3}\U{1F1F1}",
    "Primeira Liga" := "\U{1F1F5}\U{1F1F9}",
    "FA Cup" := "\U{1F3C6}",
    "Coppa Italia" := "\U{1F3C6}\U{1F1EE}\U{1F1F9}",
    "Copa del Rey" := "\U{1F3C6}\U{1F1EA}\U{1F1F8}",
    "DFB Pokal" := "\U{1F3C6}\U{1F1E9}\U{1F1EA}",
    "Coupe de France" := "\U{1F3C6}\U{1F1EB}\U{1F1F7}"
  ]

  /** `emoji_map.get(match.get('competition', ''), '⚽')`. `None` stands for the
      TypeError a list or dict raises as a dict key; the surrounding `try`
      then sends nothing. */
  function CompetitionEmoji(competition: Json): (r: Option<string>)
    ensures r.None? <==> competition.JArr? || competition.JObj?
    ensures competition.JStr? && competition.s in EmojiMap ==> r == Some(EmojiMap[competition.s])
    ensures r.Some? && !(competition.JStr? && competition.s in EmojiMap) ==> r == Some(SoccerBall)
  {
    match competition
    case JArr(_) => None
    case JObj(_) => None
    case JStr(s) => Some(if s in EmojiMap then EmojiMap[s] else SoccerBall)
    case _ => Some(SoccerBall)
  }

  /** The emoji of the first line: an alarm clock when the label mentions
      "hour", a lightning bolt when it mentions "10 minutes", else an hourglass. */
  function TimeEmoji(timeUntilMatch: string): string {
    if Contains(timeUntilMatch, "hour") then AlarmClock
    else if Contains(timeUntilMatch, "10 minutes") then HighVoltage
    else Hourglass
  }

  // ---------------------------------------------------------------------------
  // Reminders for one match

  /** Minutes before kick-off at which reminders are sent, in loop order. */
  const Leads: seq<nat> := [60, 30, 10]

  /** `time_str`: "1 hour" for 60 minutes, "N minutes" otherwise. */
  function Label(minutes: nat): string {
    if minutes != 60 then NatToString(minutes) + " minutes" else "1 hour"
  }

  /** The labels of the three leads. */
  lemma LabelsOfLeads()
    ensures Label(60) == "1 hour" && Label(30) == "30 minutes" && Label(10) == "10 minutes"
  {
    assert NatToString(30) == "30";
    assert NatToString(10) == "10";
  }

  /** A string in which the first character of `w` never appears does not contain `w`. */
  lemma LacksFirstChar(s: string, w: string)
    requires |w| > 0 && forall i :: 0 <= i < |s| ==> s[i] != w[0]
    ensures !Contains(s, w)
  {
    forall j: nat ensures !OccursAt(s, j, w) {
      if j + |w| <= |s| {
        assert s[j..j + |w|][0] == s[j];
      }
    }
    ContainsIff(s, w);
  }

  /** The one-hour reminder gets the alarm clock. */
  lemma HourReminderEmoji()
    ensures TimeEmoji(Label(60)) == AlarmClock
  {
    LabelsOfLeads();
    assert OccursAt("1 hour", 2, "hour");
    ContainsIff("1 hour", "hour");
  }

  /** The 30-minute reminder gets the hourglass. */
  lemma ThirtyMinuteReminderEmoji()
    ensures TimeEmoji(Label(30)) == Hourglass
  {
    LabelsOfLeads();
    LacksFirstChar("30 minutes", "hour");
    LacksFirstChar("30 minutes", "10 minutes");
  }

  /** The 10-minute reminder gets the lightning bolt. */
  lemma TenMinuteReminderEmoji()
    ensures TimeEmoji(Label(10)) == HighVoltage
  {
    LabelsOfLeads();
    LacksFirstChar("10 minutes", "hour");
    assert OccursAt("10 minutes", 0, "10 minutes");
    ContainsIff("10 minutes", "10 minutes");
  }

  /** What the reminder loop does, step by step. */
  datatype Event = Sleep(seconds: int) | Notify(timeText: string)

  /** The moment `minutes` before kick-off. */
  function ReminderTime(kickoff: int, minutes: nat): int {
    kickoff - 60 * minutes
  }

  /** The leads whose reminder time is strictly after `now`, in order. */
  function DueLeads(leads: seq<nat>, kickoff: int, now: int): seq<nat> {
    if leads == [] then []
    else
      var m := leads[|leads| - 1];
      DueLeads(leads[..|leads| - 1], kickoff, now) + (if ReminderTime(kickoff, m) > now then [m] else [])
  }

  /** A lead is kept exactly when its reminder time is still ahead. */
  lemma {:induction false} DueLeadsMembers(leads: seq<nat>, kickoff: int, now: int)
    ensures forall m :: m in DueLeads(leads, kickoff, now) <==> m in leads && ReminderTime(kickoff, m) > now
  {
    if leads != [] {
      var init := leads[..|leads| - 1];
      DueLeadsMembers(init, kickoff, now);
      assert leads == init + [leads[|leads| - 1]];
    }
  }

  /** Since the leads shrink, the reminders still due are always the last ones:
      a lead is due exactly when kick-off is more than that many minutes away. */
  lemma DueLeadsAreASuffix(kickoff: int, now: int)
    ensures DueLeads(Leads, kickoff, now) ==
            if kickoff - now > 3600 then [60, 30, 10]
            else if kickoff - now > 1800 then [30, 10]
            else if kickoff - now > 600 then [10]
            else []
  {
    assert Leads[..2] == [60, 30] && [60, 30][..1] == [60] && [60][..0] == [];
    assert DueLeads([60], kickoff, now) == if ReminderTime(kickoff, 60) > now then [60] else [];
    assert DueLeads([60, 30], kickoff, now) ==
           DueLeads([60], kickoff, now) + if ReminderTime(kickoff, 30) > now then [30] else [];
    assert DueLeads(Leads, kickoff, now) ==
           DueLeads([60, 30], kickoff, now) + if ReminderTime(kickoff, 10) > now then [10] else [];
  }

  /** The labels of the notifications in a trace, in order. */
  function NotifiedLabels(trace: seq<Event>): seq<string> {
    if trace == [] then []
    else
      NotifiedLabels(trace[..|trace| - 1]) +
        (if trace[|trace| - 1].Notify? then [trace[|trace| - 1].timeText] else [])
  }

  /** The total time slept in a trace. */
  function TotalSleep(trace: seq<Event>): int {
    if trace == [] then 0
    else TotalSleep(trace[..|trace| - 1]) + (if trace[|trace| - 1].Sleep? then trace[|trace| - 1].seconds else 0)
  }

  /** When each notification goes out, for a trace started at `start`: its
      start plus every sleep before it (sending takes no time). */
  function NotifyTimes(trace: seq<Event>, start: int): seq<int> {
    if trace == [] then []
    else
      var init := trace[..|trace| - 1];
      NotifyTimes(init, start) + (if trace[|trace| - 1].Notify? then [start + TotalSleep(init)] else [])
  }

  /** One loop round that fires: a sleep, then a notification. */
  lemma AppendReminder(trace: seq<Event>, wait: int, text: string, start: int)
    ensures NotifiedLabels(trace + [Sleep(wait), Notify(text)]) == NotifiedLabels(trace) + [text]
    ensures TotalSleep(trace + [Sleep(wait), Notify(text)]) == TotalSleep(trace) + wait
    ensures NotifyTimes(trace + [Sleep(wait), Notify(text)], start) ==
            NotifyTimes(trace, start) + [start + TotalSleep(trace) + wait]
  {
    var t1 := trace + [Sleep(wait)];
    var t2 := t1 + [Notify(text)];
    assert t2 == trace + [Sleep(wait), Notify(text)];
    assert t2[..|t2| - 1] == t1;
    assert t1[..|t1| - 1] == trace;
  }

  /** The labels of a list of leads. */
  function Labels(leads: seq<nat>): seq<string> {
    if leads == [] then [] else Labels(leads[..|leads| - 1]) + [Label(leads[|leads| - 1])]
  }

  /** The reminder times of a list of leads. */
  function ReminderTimes(leads: seq<nat>, kickoff: int): seq<int> {
    if leads == [] then []
    else ReminderTimes(leads[..|leads| - 1], kickoff) + [ReminderTime(kickoff, leads[|leads| - 1])]
  }

  /** The trace of the loop as written: every wait is measured from the single
      `current_time` read before the loop. */
  function AsWrittenTrace(due: seq<nat>, kickoff: int, now: int): seq<Event> {
    if due == [] then []
    else
      var m := due[|due| - 1];
      AsWrittenTrace(due[..|due| - 1], kickoff, now) + [Sleep(ReminderTime(kickoff, m) - now), Notify(Label(m))]
  }

  /** The trace `ScheduleMatchNotifications` produces. */
  function ScheduleResult(kickoff: int, now: int): seq<Event> {
    AsWrittenTrace(DueLeads(Leads, kickoff, now), kickoff, now)
  }

  /** As written, one notification per due lead, labelled in lead order. */
  lemma {:induction false} AsWrittenLabels(due: seq<nat>, kickoff: int, now: int)
    ensures NotifiedLabels(AsWrittenTrace(due, kickoff, now)) == Labels(due)
  {
    if due != [] {
      var init, m := due[..|due| - 1], due[|due| - 1];
      AsWrittenLabels(init, kickoff, now);
      AppendReminder(AsWrittenTrace(init, kickoff, now), ReminderTime(kickoff, m) - now, Label(m), now);
    }
  }

  /** As written, every wait is at least a second, so the waits add up. */
  lemma {:induction false} AsWrittenSleep(due: seq<nat>, kickoff: int, now: int)
    requires forall k :: 0 <= k < |due| ==> ReminderTime(kickoff, due[k]) > now
    ensures TotalSleep(AsWrittenTrace(due, kickoff, now)) >= |due|
  {
    if due != [] {
      var init, m := due[..|due| - 1], due[|due| - 1];
      AsWrittenSleep(init, kickoff, now);
      AppendReminder(AsWrittenTrace(init, kickoff, now), ReminderTime(kickoff, m) - now, Label(m), now);
    }
  }

  /** As written, the k-th notification goes out at its reminder time plus
      every wait before it. */
  lemma {:induction false} AsWrittenTiming(due: seq<nat>, kickoff: int, now: int)
    ensures |NotifyTimes(AsWrittenTrace(due, kickoff, now), now)| == |due|
    ensures forall k :: 0 <= k < |due| ==>
              NotifyTimes(AsWrittenTrace(due, kickoff, now), now)[k] ==
              ReminderTime(kickoff, due[k]) + TotalSleep(AsWrittenTrace(due[..k], kickoff, now))
  {
    if due != [] {
      var init, m := due[..|due| - 1], due[|due| - 1];
      AsWrittenTiming(init, kickoff, now);
      var t0 := AsWrittenTrace(init, kickoff, now);
      var w := ReminderTime(kickoff, m) - now;
      AppendReminder(t0, w, Label(m), now);
      var times0 := NotifyTimes(t0, now);
      var times := NotifyTimes(AsWrittenTrace(due, kickoff, now), now);
      assert AsWrittenTrace(due, kickoff, now) == t0 + [Sleep(w), Notify(Label(m))];
      assert times == times0 + [now + TotalSleep(t0) + w];
      forall k | 0 <= k < |due|
        ensures times[k] == ReminderTime(kickoff, due[k]) + TotalSleep(AsWrittenTrace(due[..k], kickoff, now))
      {
        if k < |init| {
          assert due[..k] == init[..k];
          assert times[k] == times0[k];
        } else {
          assert due[..k] == init;
        }
      }
    }
  }

  /** As written, only the first reminder goes out on time; every later one is late. */
  lemma OnlyFirstReminderOnTime(due: seq<nat>, kickoff: int, now: int)
    requires forall k :: 0 <= k < |due| ==> ReminderTime(kickoff, due[k]) > now
    ensures var times := NotifyTimes(AsWrittenTrace(due, kickoff, now), now);
      && |times| == |due|
      && (forall k :: 0 <= k < |due| ==> (times[k] == ReminderTime(kickoff, due[k]) <==> k == 0))
  {
    AsWrittenTiming(due, kickoff, now);
    forall k | 0 <= k < |due| ensures TotalSleep(AsWrittenTrace(due[..k], kickoff, now)) >= k {
      AsWrittenSleep(due[..k], kickoff, now);
    }
  }

  /** One more reminder as written: a sleep measured from `now`. */
  lemma AsWrittenStep(due: seq<nat>, m: nat, kickoff: int, now: int)
    ensures AsWrittenTrace(due + [m], kickoff, now) ==
            AsWrittenTrace(due, kickoff, now) + [Sleep(ReminderTime(kickoff, m) - now), Notify(Label(m))]
  {
    assert (due + [m])[..|due|] == due;
  }

  /** `schedule_match_notifications(match)`, as written. */
  method ScheduleMatchNotifications(kickoff: int, now: int) returns (trace: seq<Event>)
    ensures trace == ScheduleResult(kickoff, now)
  {
    var currentTime := now;
    trace := [];
    for i := 0 to |Leads|
      invariant trace == AsWrittenTrace(DueLeads(Leads[..i], kickoff, now), kickoff, now)
    {
      ghost var due := DueLeads(Leads[..i], kickoff, now);
      DueLeadsStep(Leads, i, kickoff, now);
      var minutes := Leads[i];
      var notificationTime := ReminderTime(kickoff, minutes);
      if notificationTime > currentTime {
        var waitSeconds := notificationTime - currentTime;
        if waitSeconds > 0 {
          AsWrittenStep(due, minutes, kickoff, now);
          var timeStr := Label(minutes);
          trace := trace + [Sleep(waitSeconds), Notify(timeStr)];
        }
      } else {
        assert DueLeads(Leads[..i + 1], kickoff, now) == due;
      }
    }
    assert Leads[..|Leads|] == Leads;
  }

  /** The finding: with kick-off two hours away, the "30 minutes" reminder is
      sent half an hour after kick-off. */
  lemma LateSecondReminder(now: int)
    ensures var trace := ScheduleResult(now + 7200, now);
      var times := NotifyTimes(trace, now);
      && NotifiedLabels(trace) == ["1 hour", "30 minutes", "10 minutes"]
      && |times| == 3
      && times[1] == (now + 7200) + 1800
  {
    var kickoff := now + 7200;
    DueLeadsAreASuffix(kickoff, now);
    var due: seq<nat> := [60, 30, 10];
    AsWrittenLabels(due, kickoff, now);
    AsWrittenTiming(due, kickoff, now);
    LabelsOfLeads();
    assert due[..1] == [60] && due[..2] == [60, 30] && [60, 30][..1] == [60] && [60][..0] == [];
    assert Labels(due) == ["1 hour", "30 minutes", "10 minutes"];
    AppendReminder([], 3600, Label(60), now);
    assert AsWrittenTrace([60], kickoff, now) == [] + [Sleep(3600), Notify(Label(60))];
  }

  /** A match that kicked off five minutes ago gets no reminder at all. */
  lemma PastKickoffDropsAll(now: int)
    ensures ScheduleResult(now - 300, now) == []
  {
    DueLeadsAreASuffix(now - 300, now);
  }

  /** A match 40 minutes away gets the 30- and 10-minute reminders only. */
  lemma FortyMinutesAhead(now: int)
    ensures NotifiedLabels(ScheduleResult(now + 2400, now)) == ["30 minutes", "10 minutes"]
  {
    DueLeadsAreASuffix(now + 2400, now);
    var due: seq<nat> := [30, 10];
    AsWrittenLabels(due, now + 2400, now);
    assert due[..1] == [30] && [30][..0] == [];
    LabelsOfLeads();
  }

  /** Where the clock stands once the reminders for `due` have gone out on time. */
  function ClockAfter(due: seq<nat>, kickoff: int, start: int): int {
    if due == [] then start else ReminderTime(kickoff, due[|due| - 1])
  }

  /** The trace of the intended loop: each wait runs from the previous
      reminder (or from `now`) to the next reminder time. */
  function OnTimeTrace(due: seq<nat>, kickoff: int, now: int): seq<Event> {
    if due == [] then []
    else
      var init, m := due[..|due| - 1], due[|due| - 1];
      OnTimeTrace(init, kickoff, now) + [Sleep(ReminderTime(kickoff, m) - ClockAfter(init, kickoff, now)), Notify(Label(m))]
  }

  /** The intended loop sends one notification per due lead, labelled in lead order. */
  lemma {:induction false} OnTimeLabels(due: seq<nat>, kickoff: int, now: int)
    ensures NotifiedLabels(OnTimeTrace(due, kickoff, now)) == Labels(due)
  {
    if due != [] {
      var init, m := due[..|due| - 1], due[|due| - 1];
      OnTimeLabels(init, kickoff, now);
      AppendReminder(OnTimeTrace(init, kickoff, now), ReminderTime(kickoff, m) - ClockAfter(init, kickoff, now), Label(m), now);
    }
  }

  /** The intended loop sleeps exactly until the clock reaches the last reminder. */
  lemma {:induction false} OnTimeSleep(due: seq<nat>, kickoff: int, now: int)
    ensures TotalSleep(OnTimeTrace(due, kickoff, now)) == ClockAfter(due, kickoff, now) - now
  {
    if due != [] {
      var init, m := due[..|due| - 1], due[|due| - 1];
      OnTimeSleep(init, kickoff, now);
      AppendReminder(OnTimeTrace(init, kickoff, now), ReminderTime(kickoff, m) - ClockAfter(init, kickoff, now), Label(m), now);
    }
  }

  /** With the clock advanced after each wait, every reminder goes out exactly
      at its reminder time. */
  lemma {:induction false} OnTimeTiming(due: seq<nat>, kickoff: int, now: int)
    ensures NotifyTimes(OnTimeTrace(due, kickoff, now), now) == ReminderTimes(due, kickoff)
  {
    if due != [] {
      var init, m := due[..|due| - 1], due[|due| - 1];
      OnTimeTiming(init, kickoff, now);
      OnTimeSleep(init, kickoff, now);
      AppendReminder(OnTimeTrace(init, kickoff, now), ReminderTime(kickoff, m) - ClockAfter(init, kickoff, now), Label(m), now);
    }
  }

  /** The leads shrink, so later reminders come later. */
  lemma LeadsDecrease()
    ensures forall i :: 0 <= i < |Leads| - 1 ==> Leads[i] > Leads[i + 1]
  {
  }

  /** Every sleep of the trace lasts at least a second. */
  predicate SleepsPositive(trace: seq<Event>) {
    forall k :: 0 <= k < |trace| && trace[k].Sleep? ==> trace[k].seconds > 0
  }

  lemma SleepsPositiveStep(trace: seq<Event>, wait: int, text: string)
    requires SleepsPositive(trace) && wait > 0
    ensures SleepsPositive(trace + [Sleep(wait), Notify(text)])
  {
  }

  /** Filtering one more lead appends it exactly when it is due. */
  lemma DueLeadsStep(leads: seq<nat>, i: nat, kickoff: int, now: int)
    requires i < |leads|
    ensures DueLeads(leads[..i + 1], kickoff, now) ==
            DueLeads(leads[..i], kickoff, now) + if ReminderTime(kickoff, leads[i]) > now then [leads[i]] else []
  {
    assert leads[..i + 1][..i] == leads[..i];
  }

  /** One more on-time reminder: a sleep from the clock to its reminder time. */
  lemma OnTimeStep(due: seq<nat>, m: nat, kickoff: int, now: int)
    ensures OnTimeTrace(due + [m], kickoff, now) ==
            OnTimeTrace(due, kickoff, now) + [Sleep(ReminderTime(kickoff, m) - ClockAfter(due, kickoff, now)), Notify(Label(m))]
    ensures ClockAfter(due + [m], kickoff, now) == ReminderTime(kickoff, m)
  {
    assert (due + [m])[..|due|] == due;
  }

  /** The intended loop: the clock is read again after each sleep, so each
      wait ends at the reminder time itself. The same reminders are sent as
      by the loop as written, each exactly at its reminder time. */
  method ScheduleMatchNotificationsOnTime(kickoff: int, now: int) returns (trace: seq<Event>)
    ensures trace == OnTimeTrace(DueLeads(Leads, kickoff, now), kickoff, now)
    ensures NotifiedLabels(trace) == NotifiedLabels(ScheduleResult(kickoff, now))
    ensures NotifyTimes(trace, now) == ReminderTimes(DueLeads(Leads, kickoff, now), kickoff)
    ensures SleepsPositive(trace)
  {
    var currentTime := now;
    trace := [];
    for i := 0 to |Leads|
      invariant trace == OnTimeTrace(DueLeads(Leads[..i], kickoff, now), kickoff, now)
      invariant currentTime == ClockAfter(DueLeads(Leads[..i], kickoff, now), kickoff, now)
      invariant currentTime >= now
      invariant i < |Leads| ==> currentTime == now || currentTime < ReminderTime(kickoff, Leads[i])
      invariant SleepsPositive(trace)
    {
      DueLeadsStep(Leads, i, kickoff, now);
      LeadsDecrease();
      var minutes := Leads[i];
      var notificationTime := ReminderTime(kickoff, minutes);
      if notificationTime > currentTime {
        var waitSeconds := notificationTime - currentTime;
        OnTimeStep(DueLeads(Leads[..i], kickoff, now), minutes, kickoff, now);
        SleepsPositiveStep(trace, waitSeconds, Label(minutes));
        trace := trace + [Sleep(waitSeconds), Notify(Label(minutes))];
        currentTime := currentTime + waitSeconds;
      }
    }
    assert Leads[..|Leads|] == Leads;
    OnTimeTiming(DueLeads(Leads, kickoff, now), kickoff, now);
    OnTimeLabels(DueLeads(Leads, kickoff, now), kickoff, now);
    AsWrittenLabels(DueLeads(Leads, kickoff, now), kickoff, now);
  }

  // ---------------------------------------------------------------------------
  // get_matches_from_football_data

  /** The match dict built for each fixture. */
  datatype Fixture = Fixture(
    homeTeam: Json,
    awayTeam: Json,
    date: Json,
    competition: Json,
    status: Json,
    source: string)

  const FootballDataTag: string := "Football-Data.org"

  /** The fields read from each fixture, in the order of the match dict. */
  const FieldPaths: seq<seq<string>> :=
    [["homeTeam", "name"], ["awayTeam", "name"], ["utcDate"], ["competition", "name"], ["status"]]

  /** The values at `paths`, in order; `None` when reading one of them raises. */
  function Fields(item: Json, paths: seq<seq<string>>): (r: Option<seq<Json>>)
    ensures r.Some? ==> |r.value| == |paths|
  {
    if paths == [] then Some([])
    else match (Path(item, paths[0]), Fields(item, paths[1..]))
      case (Some(v), Some(vs)) => Some([v] + vs)
      case _ => None
  }

  /** The fields can be read exactly when each path can, and hold the values
      at those paths. */
  lemma {:induction false} FieldsAll(item: Json, paths: seq<seq<string>>)
    ensures Fields(item, paths).Some? <==> forall k :: 0 <= k < |paths| ==> Path(item, paths[k]).Some?
    ensures Fields(item, paths).Some? ==>
              forall k :: 0 <= k < |paths| ==> Fields(item, paths).value[k] == Path(item, paths[k]).value
  {
    if paths != [] {
      FieldsAll(item, paths[1..]);
      assert forall k :: 1 <= k < |paths| ==> paths[1..][k - 1] == paths[k];
    }
  }

  /** One fixture of the response; `None` when a subscript raises. */
  function FixtureOf(item: Json): Option<Fixture> {
    match Fields(item, FieldPaths)
    case Some(vs) => Some(Fixture(vs[0], vs[1], vs[2], vs[3], vs[4], FootballDataTag))
    case None => None
  }

  /** A fixture is built exactly when all five fields can be read, from their
      values and the Football-Data.org tag. */
  lemma FixtureOfFields(item: Json)
    ensures FixtureOf(item).Some? <==> forall k :: 0 <= k < |FieldPaths| ==> Path(item, FieldPaths[k]).Some?
    ensures FixtureOf(item).Some? ==> FixtureOf(item).value == Fixture(
              Path(item, FieldPaths[0]).value, Path(item, FieldPaths[1]).value, Path(item, FieldPaths[2]).value,
              Path(item, FieldPaths[3]).value, Path(item, FieldPaths[4]).value, FootballDataTag)
  {
    FieldsAll(item, FieldPaths);
  }

  /** The inner `for match in data['matches']` loop: all fixtures in order, or
      the exception of the first one that fails. */
  function FixturesOf(items: seq<Json>): Option<seq<Fixture>> {
    MapOrFail(FixtureOf, items)
  }

  /** What `if 'matches' in data: for match in data['matches']` iterates over;
      `None` stands for the TypeError raised on the way. A dict without the
      key gives nothing to iterate. A list or string body passes the membership
      test only when it mentions "matches", and then fails the subscript. A
      number, boolean or null fails the test itself. A non-list value under
      the key is iterable only when empty (a non-empty dict or string yields
      strings, whose subscript raises). */
  function MatchList(data: Json): (r: Option<seq<Json>>)
    ensures data.JObj? && !HasKey(data, "matches") ==> r == Some([])
    ensures data.JObj? && HasKey(data, "matches") && Lookup(data.members, "matches").value.JArr? ==>
              r == Some(Lookup(data.members, "matches").value.items)
    ensures data.JArr? ==> (r.None? <==> JStr("matches") in data.items)
    ensures data.JStr? ==> (r.None? <==> Contains(data.s, "matches"))
    ensures (data.JNull? || data.JBool? || data.JNum?) ==> r.None?
    ensures r.Some? && !data.JObj? ==> r == Some([])
  {
    match data
    case JObj(members) =>
      (match Lookup(members, "matches")
       case None => Some([])
       case Some(JArr(items)) => Some(items)
       case Some(JObj(ms)) => if ms == [] then Some([]) else None
       case Some(JStr(s)) => if s == "" then Some([]) else None
       case Some(_) => None)
    case JArr(items) => if JStr("matches") in items then None else Some([])
    case JStr(s) => if Contains(s, "matches") then None else Some([])
    case _ => None
  }

  /** The API key `get_matches_from_football_data` requires: set and non-empty. */
  predicate HasApiKey(env: map<string, string>) {
    "FOOTBALL_DATA_API_KEY" in env && env["FOOTBALL_DATA_API_KEY"] != ""
  }

  /** The number of requests the loop of `get_matches_from_football_data` makes. */
  const Passes: nat := 10

  /** The fixtures one answered request appends to `all_matches`; `None`
      stands for the TypeError or KeyError raised on the way, which is not a
      `RequestException` and escapes the function. */
  function PassRecords(data: Json): Option<seq<Fixture>> {
    match MatchList(data)
    case None => None
    case Some(items) => FixturesOf(items)
  }

  /** One pass, item by item: it succeeds exactly when every item of the match
      list yields a fixture, and then holds one fixture per item, in order. */
  lemma PassRecordsExactly(data: Json)
    ensures PassRecords(data).Some? <==>
              MatchList(data).Some? &&
              forall i :: 0 <= i < |MatchList(data).value| ==> FixtureOf(MatchList(data).value[i]).Some?
    ensures PassRecords(data).Some? ==>
              |PassRecords(data).value| == |MatchList(data).value| &&
              forall i :: 0 <= i < |MatchList(data).value| ==>
                PassRecords(data).value[i] == FixtureOf(MatchList(data).value[i]).value
  {
  }

  /** Both results, concatenated; the first failure wins. */
  function Chain(a: Option<seq<Fixture>>, b: Option<seq<Fixture>>): Option<seq<Fixture>> {
    match a
    case None => None
    case Some(x) =>
      match b
      case None => None
      case Some(y) => Some(x + y)
  }

  /** The fixtures the passes answered by `responses` append, in order.
      `None` in `responses` is a request that raised a `RequestException` (a
      failed status or an undecodable body included): it is caught outside the
      loop, so it ends the passes and keeps what was appended before it. */
  function AllPasses(responses: seq<Option<Json>>): Option<seq<Fixture>>
    decreases |responses|
  {
    if responses == [] || responses[0].None? then Some([])
    else Chain(PassRecords(responses[0].value), AllPasses(responses[1..]))
  }

  /** The number of requests answered before the first one that raised. */
  function Answered(responses: seq<Option<Json>>): (n: nat)
    ensures n <= |responses|
    ensures forall p :: 0 <= p < n ==> responses[p].Some?
    ensures n < |responses| ==> responses[n].None?
    decreases |responses|
  {
    if responses == [] || responses[0].None? then 0 else 1 + Answered(responses[1..])
  }

  /** The passes split at any point before the first failed request: the
      fixtures of the first `k` passes come first, then those of the rest. */
  lemma {:induction false} PassesSplit(responses: seq<Option<Json>>, k: nat)
    requires k <= |responses| && forall p :: 0 <= p < k ==> responses[p].Some?
    ensures AllPasses(responses) == Chain(AllPasses(responses[..k]), AllPasses(responses[k..]))
    decreases k
  {
    if k == 0 {
      assert responses[..0] == [] && responses[0..] == responses;
      match AllPasses(responses)
      case None =>
      case Some(x) => assert [] + x == x;
    } else {
      var rest := responses[1..];
      PassesSplit(rest, k - 1);
      assert responses[..k][0] == responses[0] && responses[..k][1..] == rest[..k - 1];
      assert rest[k - 1..] == responses[k..];
      ChainAssociative(PassRecords(responses[0].value), AllPasses(rest[..k - 1]), AllPasses(rest[k - 1..]));
    }
  }

  lemma ChainAssociative(a: Option<seq<Fixture>>, b: Option<seq<Fixture>>, c: Option<seq<Fixture>>)
    ensures Chain(a, Chain(b, c)) == Chain(Chain(a, b), c)
  {
    if a.Some? && b.Some? && c.Some? {
      assert a.value + (b.value + c.value) == (a.value + b.value) + c.value;
    }
  }

  /** A request that raises ends the loop: the fixtures already appended are
      the result, and later responses play no part. */
  lemma RequestErrorKeepsEarlier(responses: seq<Option<Json>>, k: nat)
    requires k < |responses| && responses[k].None?
    requires forall p :: 0 <= p < k ==> responses[p].Some?
    ensures AllPasses(responses) == AllPasses(responses[..k])
  {
    PassesSplit(responses, k);
    match AllPasses(responses[..k])
    case None =>
    case Some(x) => assert x + [] == x;
  }

  /** One more answered pass appends its fixtures, or fails. */
  lemma PassesExtend(responses: seq<Option<Json>>, k: nat)
    requires k < |responses| && forall p :: 0 <= p <= k ==> responses[p].Some?
    ensures AllPasses(responses[..k + 1]) ==
              Chain(AllPasses(responses[..k]), Chain(PassRecords(responses[k].value), Some([])))
  {
    PassesSplit(responses[..k + 1], k);
    assert responses[..k + 1][..k] == responses[..k];
    assert responses[..k + 1][k..] == [responses[k]];
  }

  /** A pass that raises makes the whole function raise. */
  lemma PassFailsAll(responses: seq<Option<Json>>, k: nat)
    requires k < |responses| && forall p :: 0 <= p <= k ==> responses[p].Some?
    requires PassRecords(responses[k].value).None?
    ensures AllPasses(responses).None?
  {
    PassesSplit(responses, k);
    assert responses[k..][0] == responses[k];
  }

  /** The passes fail exactly when some pass answered before the first failed
      request raises. */
  lemma {:induction false} PassesFail(responses: seq<Option<Json>>)
    ensures AllPasses(responses).None? <==>
              exists p :: 0 <= p < Answered(responses) && responses[p].Some? && PassRecords(responses[p].value).None?
    decreases |responses|
  {
    if responses != [] && responses[0].Some? {
      var rest := responses[1..];
      PassesFail(rest);
      if AllPasses(responses).None? && PassRecords(responses[0].value).Some? {
        var p :| 0 <= p < Answered(rest) && rest[p].Some? && PassRecords(rest[p].value).None?;
        assert responses[p + 1] == rest[p];
      }
      if exists p :: 0 <= p < Answered(responses) && responses[p].Some? && PassRecords(responses[p].value).None? {
        var p :| 0 <= p < Answered(responses) && responses[p].Some? && PassRecords(responses[p].value).None?;
        if p > 0 {
          assert rest[p - 1] == responses[p];
        }
      }
    }
  }

  /** The result of `get_matches_from_football_data()`, given the responses
      to its ten requests; `None` stands for an exception that escapes it. */
  function FootballDataMatches(env: map<string, string>, responses: seq<Option<Json>>)
    : (r: Option<seq<Fixture>>)
    requires |responses| == Passes
    ensures !HasApiKey(env) || responses[0].None? ==> r == Some([])
    ensures r.None? <==>
              HasApiKey(env) &&
              exists p :: 0 <= p < Answered(responses) && responses[p].Some? && PassRecords(responses[p].value).None?
    ensures r.Some? && HasApiKey(env) && responses[0].Some? ==> PassRecords(responses[0].value).value <= r.value
  {
    PassesFail(responses);
    if !HasApiKey(env) then Some([])
    else
      PassesSplit(responses, if responses[0].Some? then 1 else 0);
      assert responses[..1] == [responses[0]];
      AllPasses(responses)
  }

  /** Every match the function returns is tagged with Football-Data.org. */
  lemma FootballDataTagged(env: map<string, string>, responses: seq<Option<Json>>)
    requires |responses| == Passes && FootballDataMatches(env, responses).Some?
    ensures forall i :: 0 <= i < |FootballDataMatches(env, responses).value| ==>
              FootballDataMatches(env, responses).value[i].source == FootballDataTag
  {
    if HasApiKey(env) {
      PassesTagged(responses);
    }
  }

  lemma {:induction false} PassesTagged(responses: seq<Option<Json>>)
    requires AllPasses(responses).Some?
    ensures forall i :: 0 <= i < |AllPasses(responses).value| ==> AllPasses(responses).value[i].source == FootballDataTag
    decreases |responses|
  {
    if responses != [] && responses[0].Some? {
      var data := responses[0].value;
      var fs := PassRecords(data).value;
      PassesTagged(responses[1..]);
      forall i | 0 <= i < |fs| ensures fs[i].source == FootballDataTag {
        FixtureOfFields(MatchList(data).value[i]);
      }
    }
  }

  /** The inner `for match in data['matches']` loop: appends the fixture of
      each item to `allMatches`, stopping (`ok` false) at the first item whose
      subscripts raise. */
  method AppendFixtures(allMatches: seq<Fixture>, items: seq<Json>) returns (ok: bool, result: seq<Fixture>)
    ensures ok <==> FixturesOf(items).Some?
    ensures ok ==> result == allMatches + FixturesOf(items).value
  {
    result := allMatches;
    ghost var added: seq<Fixture> := [];
    for i := 0 to |items|
      invariant FixturesOf(items[..i]) == Some(added)
      invariant result == allMatches + added
    {
      MapOrFailStep(FixtureOf, items, i, added);
      var matchInfo := FixtureOf(items[i]);
      if matchInfo.None? {
        return false, result;
      }
      result := result + [matchInfo.value];
      added := added + [matchInfo.value];
    }
    assert items[..|items|] == items;
    ok := true;
  }

  /** `get_matches_from_football_data()`: ten requests, each answered pass
      appending its fixtures to `all_matches`, a raised `RequestException`
      ending the loop with what was appended so far. */
  method GetMatchesFromFootballData(env: map<string, string>, responses: seq<Option<Json>>)
    returns (matches: Option<seq<Fixture>>)
    requires |responses| == Passes
    ensures matches == FootballDataMatches(env, responses)
  {
    if !HasApiKey(env) {
      return Some([]);
    }
    var allMatches: seq<Fixture> := [];
    for pass := 0 to Passes
      invariant forall p :: 0 <= p < pass ==> responses[p].Some?
      invariant AllPasses(responses[..pass]) == Some(allMatches)
    {
      if responses[pass].None? {
        RequestErrorKeepsEarlier(responses, pass);
        return Some(allMatches);
      }
      var data := responses[pass].value;
      var list := MatchList(data);
      if list.None? {
        PassFailsAll(responses, pass);
        return None;
      }
      var ok;
      ok, allMatches := AppendFixtures(allMatches, list.value);
      if !ok {
        PassFailsAll(responses, pass);
        return None;
      }
      assert PassRecords(data).value + [] == PassRecords(data).value;
      PassesExtend(responses, pass);
    }
    assert responses[..Passes] == responses;
    matches := Some(allMatches);
  }

  // ---------------------------------------------------------------------------
  // The ten passes repeat every fixture

  /** `n` copies of `fs`, one after another. */
  function Repeat(fs: seq<Fixture>, n: nat): (r: seq<Fixture>)
    ensures |r| == n * |fs|
  {
    if n == 0 then [] else fs + Repeat(fs, n - 1)
  }

  /** Each fixture occurs in `n` copies `n` times as often as in one. */
  lemma {:induction false} RepeatCount(fs: seq<Fixture>, n: nat)
    ensures forall x :: multiset(Repeat(fs, n))[x] == n * multiset(fs)[x]
    decreases n
  {
    if n > 0 {
      RepeatCount(fs, n - 1);
      assert multiset(Repeat(fs, n)) == multiset(fs) + multiset(Repeat(fs, n - 1));
      forall x ensures multiset(Repeat(fs, n))[x] == n * multiset(fs)[x] {
        assert n * multiset(fs)[x] == multiset(fs)[x] + (n - 1) * multiset(fs)[x];
      }
    }
  }

  /** Every answered pass repeating one response repeats its fixtures. */
  lemma {:induction false} SameResponse(data: Json, fs: seq<Fixture>, n: nat)
    requires PassRecords(data) == Some(fs)
    ensures AllPasses(seq(n, p => Some(data))) == Some(Repeat(fs, n))
    decreases n
  {
    if n > 0 {
      var rs := seq(n, p => Some(data));
      SameResponse(data, fs, n - 1);
      assert rs[1..] == seq(n - 1, p => Some(data));
    }
  }

  /** As written, the loop appends every pass's fixtures: when the ten
      requests return the same fixtures, the function returns each of them ten
      times, and each is then scheduled ten times. */
  lemma TenfoldFixtures(env: map<string, string>, data: Json)
    requires HasApiKey(env) && PassRecords(data).Some?
    ensures var fs, r := PassRecords(data).value, FootballDataMatches(env, seq(Passes, p => Some(data)));
      && r == Some(Repeat(fs, Passes))
      && |r.value| == Passes * |fs|
      && forall x :: multiset(r.value)[x] == Passes * multiset(fs)[x]
  {
    var fs := PassRecords(data).value;
    SameResponse(data, fs, Passes);
    RepeatCount(fs, Passes);
  }

  /** The evidently intended function: one request, whose match list yields
      one fixture per item, in order; no key or a failed request gives []. */
  function FootballDataMatchesOnce(env: map<string, string>, response: Option<Json>)
    : (r: Option<seq<Fixture>>)
    ensures !HasApiKey(env) || response.None? ==> r == Some([])
    ensures HasApiKey(env) && response.Some? ==>
              (r.None? <==> || MatchList(response.value).None?
                            || exists i :: 0 <= i < |MatchList(response.value).value| &&
                                 FixtureOf(MatchList(response.value).value[i]).None?)
    ensures HasApiKey(env) && response.Some? && r.Some? ==>
              var items := MatchList(response.value).value;
              |r.value| == |items| && forall i :: 0 <= i < |items| ==> r.value[i] == FixtureOf(items[i]).value
  {
    if !HasApiKey(env) then Some([])
    else match response
      case None => Some([])
      case Some(data) => PassRecords(data)
  }

  /** The corrected function is the loop cut to its first pass. */
  lemma OnceIsFirstPass(env: map<string, string>, responses: seq<Option<Json>>)
    requires |responses| == Passes && HasApiKey(env)
    ensures FootballDataMatchesOnce(env, responses[0]) == AllPasses(responses[..1])
  {
    assert responses[..1][1..] == [];
    match responses[0]
    case None =>
    case Some(data) =>
      match PassRecords(data)
      case None =>
      case Some(x) => assert x + [] == x;
  }
}

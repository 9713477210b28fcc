/**
 The two run modes and the entry point: the daily absence check, the daily streak post,
 and the dispatch from environment and command line to one of them and an exit code.

 The network is not modelled: a calendar fetch is given as its outcome (`None` for a
 request or parse error) and a webhook post as whether it was delivered. The clock is
 given as today's day ordinal and the two date labels it would format.
 */
module GrassChecker {
  import opened Wrappers
  import opened Calendar
  import opened Streak
  import opened Notifier
  import opened Config

  /** What one run did: whether it fetched the calendar, the posts it asked the webhook
      for, and the boolean it returned. */
  datatype Outcome = Outcome(fetched: bool, posts: seq<Notification>, success: bool)

  /**
   `check_and_notify`, given what `get_today_contributions` returned. Only a count of
   exactly 0 is a reason to post.
   */
  function CheckAndNotify(s: Settings, contributions: Option<int>, todayLabel: string,
                          delivered: bool): (o: Outcome)
    ensures !s.enableGrassCheck ==> !o.fetched && o.posts == [] && o.success
    ensures s.enableGrassCheck ==> o.fetched
    ensures |o.posts| <= 1
    ensures |o.posts| == 1 <==> s.enableGrassCheck && contributions == Some(0)
    ensures |o.posts| == 1 ==>
      && o.posts[0].mention
      && Contains(o.posts[0].message, todayLabel)
      && Content(s.discordUserId, o.posts[0])[..|s.discordUserId| + 4]
           == "<@" + s.discordUserId + "> "
      && (o.success <==> delivered)
    ensures !o.success <==>
      s.enableGrassCheck && (contributions.None? || (contributions == Some(0) && !delivered))
  {
    if !s.enableGrassCheck then Outcome(false, [], true)
    else match contributions
      case None => Outcome(true, [], false)
      case Some(n) =>
        if n == 0 then Outcome(true, [Notification(NoGrassMessage(todayLabel), true)], delivered)
        else Outcome(true, [], true)
  }

  /** `post_daily_streak`, given what `get_contribution_streak` returned. */
  function PostDailyStreak(s: Settings, streak: Option<nat>, yesterdayLabel: string,
                           delivered: bool): (o: Outcome)
    ensures !s.enableDailyStreak ==> !o.fetched && o.posts == [] && o.success
    ensures s.enableDailyStreak ==> o.fetched
    ensures |o.posts| <= 1
    ensures |o.posts| == 1 <==> s.enableDailyStreak && streak.Some?
    ensures |o.posts| == 1 ==>
      && !o.posts[0].mention
      && Content(s.discordUserId, o.posts[0]) == o.posts[0].message
      && Contains(o.posts[0].message, yesterdayLabel)
      && ReadStreak(yesterdayLabel, o.posts[0].message) == streak
      && (o.success <==> delivered)
    ensures !o.success <==> s.enableDailyStreak && (streak.None? || !delivered)
  {
    if !s.enableDailyStreak then Outcome(false, [], true)
    else match streak
      case None => Outcome(true, [], false)
      case Some(n) =>
        StreakMessageReadsBack(yesterdayLabel, n);
        Outcome(true, [Notification(StreakMessage(yesterdayLabel, n), false)], delivered)
  }

  /** The mode token: the first command-line argument after the program name, "check"
      when there is none. */
  function Mode(argv: seq<string>): (mode: string)
    ensures mode == "daily-streak" <==> |argv| > 1 && argv[1] == "daily-streak"
  {
    if |argv| > 1 then argv[1] else "check"
  }

  /**
   `main`: load the settings (exit 1 before anything else when a required value is
   missing or empty), run the mode the command line selects, exit 0 exactly when it
   succeeded.
   */
  method Dispatch(env: Env, argv: seq<string>, calendar: Option<seq<Week>>, today: int,
                  todayLabel: string, yesterdayLabel: string, delivered: bool)
    returns (exitCode: int, o: Outcome)
    ensures exitCode == 0 || exitCode == 1
    ensures LoadSettings(env).None? ==> exitCode == 1 && o == Outcome(false, [], false)
    ensures LoadSettings(env).Some? ==> (exitCode == 0 <==> o.success)
    ensures LoadSettings(env).Some? && Mode(argv) != "daily-streak" ==>
      o == CheckAndNotify(LoadSettings(env).value, TodayContributions(calendar, today),
                          todayLabel, delivered)
    ensures LoadSettings(env).Some? && Mode(argv) == "daily-streak" ==>
      exists streak: Option<nat> ::
        && o == PostDailyStreak(LoadSettings(env).value, streak, yesterdayLabel, delivered)
        && (LoadSettings(env).value.enableDailyStreak ==>
              && (streak.None? <==> calendar.None?)
              && (streak.Some? ==> IsStreak(Collect(AllDays(calendar.value)), today, streak.value)))
  {
    var settings := LoadSettings(env);
    if settings.None? {
      return 1, Outcome(false, [], false);
    }
    var s := settings.value;
    if Mode(argv) == "daily-streak" {
      var streak: Option<nat> := None;
      if s.enableDailyStreak {
        streak := ContributionStreak(calendar, today);
      }
      o := PostDailyStreak(s, streak, yesterdayLabel, delivered);
    } else {
      o := CheckAndNotify(s, TodayContributions(calendar, today), todayLabel, delivered);
    }
    exitCode := if o.success then 0 else 1;
  }
}

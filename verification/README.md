# GitHub Grass Reporter — a Dafny model

The program checks a user's GitHub contribution calendar and reports on Discord. It runs in one of two modes:

- **check** (the default): if today has no contributions, post a reminder that mentions the user.
- **daily-streak**: post the number of consecutive days up to and including yesterday that have contributions. This post has no mention.

Configuration comes from six environment variables. The mode comes from the first command-line argument. The exit code is 0 on success and 1 otherwise.

This project models the program's decision and counting logic:

- **Calendar** (`calendar.dfy`):
  - the calendar as the GraphQL response delivers it: weeks of day records, each with an optional date and an optional count;
  - the loop that flattens it into a day → count map. Records with no, empty or non-ISO date are skipped, a missing count is 0, and a later record for a day overwrites an earlier one;
  - the first-match lookup of today's count. It gives 0 when no record matches, which is kept apart from the failure result `None`.
- **Streak** (`streak.dfy`): the backward walk from yesterday. It is written as a `while` loop with its invariant. Termination rests on the finite number of days with a positive count.
- **Decimal** (`decimal.dfy`): the decimal rendering of the streak inside the message. A parser shows the rendering is exact.
- **Notifier** (`notifier.dfy`):
  - the two message texts;
  - the post content, which is `<@id> ` followed by the message when the post mentions the user, and the bare message otherwise.
- **Config** (`config.dfy`): the environment variables, the toggle parsing and the required-variable check.
- **GrassChecker** (`grass_checker.dfy`): the two mode decision tables and the entry point that dispatches between them.

Dates are day ordinals. Python's `date.isoformat()` is injective, so a map keyed by ordinal behaves like the Python code's dictionary keyed by ISO string. "One day earlier" is subtraction by one. Today's ordinal and the two date labels that `strftime` would produce are parameters. A calendar fetch is given as its outcome: `None` for a request or parse error, otherwise the decoded weeks. A webhook post is given as whether it was delivered.

## Model

| member | source | states |
|---|---|---|
| Calendar.FlattenCalendar | grass_checker.py:86-91 | The nested week/day loop builds the map that the fold `Collect` builds. The map's keys are exactly the dates some record carries, and each key holds the count of the last record with that date (0 when that record has no count). |
| Calendar.CollectFlattens | grass_checker.py:86-91 | Proves, by induction over the records, that the flattening keeps exactly the dated records and that the last record for a date wins. |
| Calendar.FirstCountFinds | grass_checker.py:180-185 | The lookup returns the count of the first record dated today, and 0 when no record is dated today. |
| Calendar.TodayContributions | grass_checker.py:170-192 | The result is `None` exactly when the fetch failed. A successful fetch with no record for today gives `Some(0)`, not failure. Otherwise the result is the first matching record's count. |
| Calendar.LookupAgreesWithFlatten | grass_checker.py:180-185 | When no two records share today's date, the first-match lookup and the last-wins flattening give the same count. Absence reads as 0 in both. |
| Calendar.LookupIsFirstFlattenIsLast | grass_checker.py:180-185 | For any calendar where the first and the last record dated today carry different counts, the lookup reports the first record's count, the flattening reports the last, and the two differ. |
| Streak.CountStreak | grass_checker.py:94-120 | Each of the `n` days before today has a positive count. The day before them is absent or has count ≤ 0. Today is never examined. `n` is at most the number of days with a positive count. The loop terminates. |
| Streak.StreakUnique | grass_checker.py:102-117 | At most one `n` meets that characterisation, so the streak is determined by the map and today. |
| Streak.InactiveYesterdayMeansZero | grass_checker.py:102-117 | If yesterday is absent or has count ≤ 0, the streak is 0. |
| Streak.StreakIgnoresTodayOnward | grass_checker.py:96-105 | Two maps that agree on every day before today have the same streak. Today and later days play no part. |
| Streak.FiveDayExample | grass_checker.py:102-117 | Five active days before today followed by a gap (absent or 0) give a streak of exactly 5. |
| Streak.ContributionStreak | grass_checker.py:78-127 | The result is `None` exactly when the fetch failed. Otherwise it is the streak of the flattened calendar. |
| Decimal.Render | grass_checker.py:248 | The streak's text is non-empty, all digits, and has no leading zero unless the streak is 0. |
| Decimal.ParseRender | grass_checker.py:248 | Parsing the rendered digits gives back the number. |
| Decimal.RenderInjective | grass_checker.py:248 | Different streaks render as different texts. |
| Notifier.Content | grass_checker.py:205-210 | The content ends with the message. Its length grows by the length of the mention token plus a space exactly when a mention is asked for, and in that case it starts with `<@id> `. |
| Notifier.NoGrassMessage | grass_checker.py:279-281 | The reminder contains today's date label. |
| Notifier.StreakMessage | grass_checker.py:245-248 | The streak post contains yesterday's date label and the decimal streak. |
| Notifier.StreakMessageReadsBack | grass_checker.py:248 | The streak value read back out of a streak post equals the streak it was built from. |
| Config.LowerIsCaseInsensitive | grass_checker.py:303-304 | Lower-casing a value gives a lower-case word exactly when the value spells that word with any letters in upper case. |
| Config.ToggleSpelling | grass_checker.py:303-304 | An unset toggle is on. A set toggle is on exactly when it spells "true", "1" or "yes" in any case. |
| Config.LoadSettings | grass_checker.py:297-326 | There are no settings exactly when one of the four required variables is unset or empty. Otherwise the settings carry the variables' values and the parsed toggles. |
| GrassChecker.CheckAndNotify | grass_checker.py:264-291 | When disabled: no fetch, no post, success. When enabled, the calendar is fetched. Exactly one post happens, with a mention, exactly when the count is `Some(0)`; it contains today's label, its posted content starts with `<@` + the configured user id + `> `, and the result is the send result. The result is failure exactly when the fetch failed or the post was not delivered. |
| GrassChecker.PostDailyStreak | grass_checker.py:231-255 | When disabled: no fetch, no post, success. When enabled, the calendar is fetched. Exactly one post happens, without a mention, exactly when a streak was obtained; its posted content is the bare message, it contains yesterday's label, and reading it back gives the streak. The result is failure exactly when the streak is `None` or the post was not delivered. |
| GrassChecker.Mode | grass_checker.py:329 | The streak mode is selected exactly when the first argument is `daily-streak`. No argument, or any other argument, selects the check mode. |
| GrassChecker.Dispatch | grass_checker.py:294-338 | A missing or empty required variable gives exit 1 with no fetch and no post. Otherwise the selected mode runs on today's lookup or on the streak of the flattened calendar, and the exit code is 0 exactly when that mode succeeded. |

## Left out

- HTTP: the GraphQL request, its headers and query text, `raise_for_status` and the webhook request. They are network I/O, so each fetch is an `Option` outcome and each post a `delivered` flag. A failed fetch stands for both the request-error and the parse-error paths.
- JSON decoding and the `.get` chain down to `weeks` (grass_checker.py:78-83). The model starts from decoded weeks. A week whose `contributionDays` key is absent reads as an empty week. A `contributionDays` that is present but `null` is not modelled. In the Python code:
  - on the streak path, it raises `TypeError` at grass_checker.py:88, and the whole streak becomes `None` (125-127);
  - on the check path, it raises `TypeError` at grass_checker.py:181 only when that week comes before today's first record, or in any week when no record is dated today, and the result is `None` (190-192). A `null` list in a later week is never read, so the count is returned as usual.
- Any `null` object on the path down to a day record raises `AttributeError`, which the Python code does not catch, so the process crashes rather than returning `None`. This covers `data`, `user`, `contributionsCollection` and `contributionCalendar` (grass_checker.py:81-83, 176-178), and a `null` week or day entry (88-89; and 181-182 on the check path when it comes before today's first record, or anywhere when no record is dated today). Nothing is posted and the exit code is 1, which is what `Dispatch` gives for a failed fetch in either mode.
- A count that is present but JSON `null`. The model's count is either absent (0) or an integer. In the Python code:
  - on the streak path, when the last record for a walked day has a `null` count (a later record for the same date overwrites it, grass_checker.py:91), `None > 0` raises `TypeError`, and the whole streak becomes `None` (grass_checker.py:111, 125-127);
  - on the check path, a first record for today with a `null` count makes `get_today_contributions` return `None` without any exception (grass_checker.py:183), and `check_and_notify` then reports a fetch failure (272-274).
- Dates that are non-empty but not ISO (`Other`): the Python code stores them in its dictionary under a key that no lookup ever uses. The model leaves them out of the map, which cannot change any count it reports.
- `str.lower()` is modelled on the ASCII letters only. This is exact for membership in {"true", "1", "yes"}, because no other character lower-cases to one of those letters.
- The clock, the fixed UTC+9 zone and `strftime`: today's ordinal and the two date labels are independent parameters, and the model does not relate the labels to `today`. The Python code reads the clock once for the date it looks up and again for the label (grass_checker.py:96 and 246 in streak mode, 173 and 280 in check mode), so around midnight the two can name different days; leaving the labels unrelated covers that mismatch in both modes.
- Gregorian calendar arithmetic behind `timedelta(days=1)`: on ordinals it is subtraction by one.
- Debug and error `print`s, `os.getenv`, `sys.argv` and `sys.exit`. These are I/O. Environment values are `Option<string>`, the arguments are a `seq<string>`, and the exit code is a result.

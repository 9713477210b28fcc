/**
 The webhook side: the two message texts the program posts and the content string of a
 post, which prefixes the chat mention token when a mention is asked for.
 */
module Notifier {
  import opened Wrappers
  import opened Decimal

  /** One webhook post the program asks for: its message and whether it mentions the user. */
  datatype Notification = Notification(message: string, mention: bool)

  /** The `content` field of the post for `n`: the mention token, a space and the message
      when `n.mention` holds, the bare message otherwise. */
  function Content(userId: string, n: Notification): (c: string)
    ensures |c| == |n.message| + (if n.mention then |userId| + 4 else 0)
    ensures c[|c| - |n.message|..] == n.message
    ensures n.mention ==> c[..|userId| + 4] == "<@" + userId + "> "
  {
    if n.mention then "<@" + userId + "> " + n.message else n.message
  }

  ghost predicate Contains(s: string, t: string) {
    exists i, j :: 0 <= i <= j <= |s| && s[i..j] == t
  }

  const NoGrassLead := "\U{1F331} "
  const NoGrassTail := "の草が生えていません！今日もコミットしましょう！"

  /** The reminder sent when today has no contributions; `todayLabel` is today's date as
      the clock formats it. */
  function NoGrassMessage(todayLabel: string): (msg: string)
    ensures Contains(msg, todayLabel)
  {
    var msg := NoGrassLead + todayLabel + NoGrassTail;
    assert msg[|NoGrassLead|..|NoGrassLead| + |todayLabel|] == todayLabel;
    msg
  }

  const StreakLead := "\U{1F4CA} "
  const StreakMid := "までの連続コントリビュート: **"
  const StreakTail := "** 日"

  /** The daily streak post; `yesterdayLabel` is yesterday's date as the clock formats it. */
  function StreakMessage(yesterdayLabel: string, streak: nat): (msg: string)
    ensures Contains(msg, yesterdayLabel)
    ensures Contains(msg, Render(streak))
  {
    var head := StreakLead + yesterdayLabel + StreakMid;
    var msg := head + Render(streak) + StreakTail;
    assert msg[|StreakLead|..|StreakLead| + |yesterdayLabel|] == yesterdayLabel;
    assert msg[|head|..|head| + |Render(streak)|] == Render(streak);
    msg
  }

  /** Reads the streak value back out of a streak post for the given date label. */
  function ReadStreak(yesterdayLabel: string, msg: string): Option<nat> {
    var head := StreakLead + yesterdayLabel + StreakMid;
    if |msg| >= |head| + |StreakTail| && msg[..|head|] == head
       && msg[|msg| - |StreakTail|..] == StreakTail
    then
      var digits := msg[|head|..|msg| - |StreakTail|];
      if |digits| > 0 && AllDigits(digits) then Some(Parse(digits)) else None
    else None
  }

  /** A streak post carries its value exactly: reading it back gives the streak. */
  lemma StreakMessageReadsBack(yesterdayLabel: string, streak: nat)
    ensures ReadStreak(yesterdayLabel, StreakMessage(yesterdayLabel, streak)) == Some(streak)
  {
    var head := StreakLead + yesterdayLabel + StreakMid;
    var msg := StreakMessage(yesterdayLabel, streak);
    assert msg == head + Render(streak) + StreakTail;
    assert msg[..|head|] == head;
    assert msg[|msg| - |StreakTail|..] == StreakTail;
    assert msg[|head|..|msg| - |StreakTail|] == Render(streak);
    ParseRender(streak);
  }
}

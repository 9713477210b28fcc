/**
 The process configuration: four required settings and two feature toggles, read from
 the environment. Environment values arrive as `Option<string>` (`None` when unset).
 */
module Config {
  import opened Wrappers

  /** The six environment variables the program reads. */
  datatype Env = Env(
    githubUsername: Option<string>,
    githubToken: Option<string>,
    discordWebhookUrl: Option<string>,
    discordUserId: Option<string>,
    enableGrassCheck: Option<string>,
    enableDailyStreak: Option<string>)

  /** The settings a checker is constructed with. */
  datatype Settings = Settings(
    githubUsername: string,
    githubToken: string,
    discordWebhookUrl: string,
    discordUserId: string,
    enableGrassCheck: bool,
    enableDailyStreak: bool)

  function LowerChar(c: char): char {
    if 'A' <= c <= 'Z' then (c as int + 32) as char else c
  }

  function UpperChar(c: char): char {
    if 'a' <= c <= 'z' then (c as int - 32) as char else c
  }

  /** `str.lower()` on the ASCII letters; every other character is kept. */
  function Lower(s: string): string {
    seq(|s|, i requires 0 <= i < |s| => LowerChar(s[i]))
  }

  /** A toggle reads true when its lower-cased value, "true" when unset, is one of
      "true", "1" or "yes". */
  function Toggle(v: Option<string>): bool {
    Lower(v.GetOr("true")) in {"true", "1", "yes"}
  }

  /** `s` spells `word` with any of its letters in upper case. */
  ghost predicate SpellsIgnoringCase(s: string, word: string) {
    |s| == |word| && forall i :: 0 <= i < |s| ==> s[i] == word[i] || s[i] == UpperChar(word[i])
  }

  ghost predicate LowerWord(word: string) {
    forall i :: 0 <= i < |word| ==> 'a' <= word[i] <= 'z' || '0' <= word[i] <= '9'
  }

  /** For a word of lower-case letters and digits, lower-casing is matching without case. */
  lemma LowerIsCaseInsensitive(s: string, word: string)
    requires LowerWord(word)
    ensures Lower(s) == word <==> SpellsIgnoringCase(s, word)
  {
  }

  /** A set toggle is on exactly when it spells "true", "1" or "yes" in any case; an
      unset toggle is on. */
  lemma ToggleSpelling(v: Option<string>)
    ensures v.None? ==> Toggle(v)
    ensures v.Some? ==>
      (Toggle(v) <==> SpellsIgnoringCase(v.value, "true") || SpellsIgnoringCase(v.value, "1")
                      || SpellsIgnoringCase(v.value, "yes"))
  {
    if v.None? {
      assert Lower("true") == "true";
    } else {
      LowerIsCaseInsensitive(v.value, "true");
      LowerIsCaseInsensitive(v.value, "1");
      LowerIsCaseInsensitive(v.value, "yes");
    }
  }

  /** Python truthiness of an environment value: set and non-empty. */
  predicate Present(v: Option<string>) {
    v.Some? && v.value != ""
  }

  /** The required-variable check and construction of the settings. */
  function LoadSettings(env: Env): (r: Option<Settings>)
    ensures r.None? <==>
      !Present(env.githubUsername) || !Present(env.githubToken)
      || !Present(env.discordWebhookUrl) || !Present(env.discordUserId)
    ensures r.Some? ==>
      && r.value.githubUsername == env.githubUsername.value && r.value.githubUsername != ""
      && r.value.githubToken == env.githubToken.value && r.value.githubToken != ""
      && r.value.discordWebhookUrl == env.discordWebhookUrl.value && r.value.discordWebhookUrl != ""
      && r.value.discordUserId == env.discordUserId.value && r.value.discordUserId != ""
      && (r.value.enableGrassCheck <==> Toggle(env.enableGrassCheck))
      && (r.value.enableDailyStreak <==> Toggle(env.enableDailyStreak))
  {
    var grassCheck := Toggle(env.enableGrassCheck);
    var dailyStreak := Toggle(env.enableDailyStreak);
    if Present(env.githubUsername) && Present(env.githubToken)
       && Present(env.discordWebhookUrl) && Present(env.discordUserId)
    then
      Some(Settings(env.githubUsername.value, env.githubToken.value,
                    env.discordWebhookUrl.value, env.discordUserId.value,
                    grassCheck, dailyStreak))
    else None
  }
}

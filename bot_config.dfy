/** The start-up check of main.py: the eight settings are read from the
    environment, each defaulting to the empty string except the bot token,
    whose default is "8", and the script stops with a ValueError when any of
    them is empty. */
module BotConfig {

  /** The environment variables read, in the order of the check. */
  const RequiredVars: seq<string> := [
    "TWITTERAPI_IO_KEY",
    "CLAUDE_API_KEY",
    "TELEGRAM_BOT_TOKEN",
    "TELEGRAM_CHAT_ID",
    "TWEEPY_API_KEY",
    "TWEEPY_API_SECRET",
    "TWEEPY_ACCESS_TOKEN",
    "TWEEPY_ACCESS_SECRET"
  ]

  /** The default `os.environ.get` falls back to for a variable. */
  function DefaultFor(name: string): string
  {
    if name == "TELEGRAM_BOT_TOKEN" then "8" else ""
  }

  /** `os.environ.get(name, default)`. */
  function EnvGet(env: map<string, string>, name: string): string
  {
    if name in env then env[name] else DefaultFor(name)
  }

  datatype Config = Config(
    scrapeApiKey: string,
    claudeApiKey: string,
    telegramBotToken: string,
    telegramChatId: string,
    tweepyApiKey: string,
    tweepyApiSecret: string,
    tweepyAccessToken: string,
    tweepyAccessSecret: string)

  /** The settings in the order of `RequiredVars`. */
  function Settings(c: Config): seq<string>
  {
    [c.scrapeApiKey, c.claudeApiKey, c.telegramBotToken, c.telegramChatId,
     c.tweepyApiKey, c.tweepyApiSecret, c.tweepyAccessToken, c.tweepyAccessSecret]
  }

  /** The script starts with its configuration, or raises the ValueError. */
  datatype Startup = Started(config: Config) | ConfigError

  /** Lines 35-46 of main.py. */
  function LoadConfig(env: map<string, string>): (s: Startup)
    ensures s.ConfigError? <==> exists i :: 0 <= i < |RequiredVars| && EnvGet(env, RequiredVars[i]) == ""
    ensures s.Started? ==>
      forall i :: 0 <= i < |RequiredVars| ==> Settings(s.config)[i] == EnvGet(env, RequiredVars[i]) != ""
  {
    var c := Config(
      EnvGet(env, RequiredVars[0]), EnvGet(env, RequiredVars[1]),
      EnvGet(env, RequiredVars[2]), EnvGet(env, RequiredVars[3]),
      EnvGet(env, RequiredVars[4]), EnvGet(env, RequiredVars[5]),
      EnvGet(env, RequiredVars[6]), EnvGet(env, RequiredVars[7]));
    assert forall i :: 0 <= i < |RequiredVars| ==> Settings(c)[i] == EnvGet(env, RequiredVars[i]);
    if "" in Settings(c) then ConfigError else Started(c)
  }

  /** An unset bot token does not stop the start-up: its default "8" is not
      empty, so with the other seven variables set to non-empty values the
      script starts, with "8" as the token. */
  lemma DefaultTokenPasses(env: map<string, string>)
    requires "TELEGRAM_BOT_TOKEN" !in env
    requires forall name :: name in RequiredVars && name != "TELEGRAM_BOT_TOKEN" ==> name in env && env[name] != ""
    ensures LoadConfig(env).Started? && LoadConfig(env).config.telegramBotToken == "8"
  {
    assert forall i :: 0 <= i < |RequiredVars| ==> EnvGet(env, RequiredVars[i]) != "" by {
      forall i | 0 <= i < |RequiredVars|
        ensures EnvGet(env, RequiredVars[i]) != ""
      {
        assert RequiredVars[i] in RequiredVars;
      }
    }
  }

  /** A variable that is set to the empty string stops the start-up, whatever
      the other variables are, the bot token included. */
  lemma EmptyVariableFails(env: map<string, string>, name: string)
    requires name in RequiredVars && name in env && env[name] == ""
    ensures LoadConfig(env).ConfigError?
  {
    var i :| 0 <= i < |RequiredVars| && RequiredVars[i] == name;
    assert EnvGet(env, RequiredVars[i]) == "";
  }
}

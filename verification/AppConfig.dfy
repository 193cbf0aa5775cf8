/**
 The configuration record, its typed values, and `set_daemon_enabled`: read, check, edit, check
 again, and only then write.
 */
module AppConfig {
  import opened Wrappers
  import opened Text
  import opened ConfigParser
  import opened ConfigEditor
  import opened ConfigTheorems

  datatype Config = Config(
    analyticsEnabled: bool, analyticsEndpoint: string,
    upgradeAuto: string, upgradeChannel: string, upgradeIntervalSeconds: nat, upgradeFunctionsBase: string,
    daemonEnabled: bool, searchSemantic: Option<bool>)

  const DEFAULT := Config(
    true, "https://cli.ctx.rs/functions/v1/analytics",
    "apply", "stable", 24 * 60 * 60, "https://cli.ctx.rs/functions/v1",
    false, None)

  // ---------------------------------------------------------------- typed values

  function ParseBool(raw: string): Option<bool> {
    match Trim(raw)
    case "true" => Some(true)
    case "false" => Some(false)
    case _ => None
  }

  function ParseString(raw: string): Option<string> {
    var s := Trim(raw);
    if |s| >= 2 && ((s[0] == '"' && s[|s| - 1] == '"') || (s[0] == '\'' && s[|s| - 1] == '\'')) then
      Some(s[1..|s| - 1])
    else None
  }

  function ParseNonEmpty(raw: string): Option<string> {
    match ParseString(raw)
    case Some(s) => if Trim(s) == [] then None else Some(s)
    case None => None
  }

  function LowerChar(c: char): char {
    if 'A' <= c <= 'Z' then c - 'A' + 'a' else c
  }

  function Lower(s: string): string {
    seq(|s|, i requires 0 <= i < |s| => LowerChar(s[i]))
  }

  function ParseAuto(raw: string): Option<string> {
    match ParseNonEmpty(raw)
    case Some(s) => if Lower(s) in {"apply", "off"} then Some(Lower(s)) else None
    case None => None
  }

  const U64_MAX: nat := 0xFFFF_FFFF_FFFF_FFFF

  function Digits(s: string): Option<nat> {
    if s == [] then Some(0)
    else
      var c := s[|s| - 1];
      match Digits(s[..|s| - 1])
      case Some(n) => if '0' <= c <= '9' then Some(10 * n + (c - '0') as nat) else None
      case None => None
  }

  function ParseU64(raw: string): Option<nat> {
    var s := Trim(raw);
    var digits := if s != [] && s[0] == '+' then s[1..] else s;
    if digits == [] then None
    else match Digits(digits)
      case Some(n) => if n <= U64_MAX then Some(n) else None
      case None => None
  }

  // ---------------------------------------------------------------- loading

  predicate Acceptable(key: string, raw: string) {
    match key
    case "analytics.enabled" => ParseBool(raw).Some?
    case "analytics.endpoint" => ParseNonEmpty(raw).Some?
    case "upgrade.auto" => ParseAuto(raw).Some?
    case "upgrade.channel" => ParseNonEmpty(raw).Some?
    case "upgrade.interval_hours" => ParseU64(raw).Some?
    case "upgrade.interval_seconds" => ParseU64(raw).Some?
    case "upgrade.functions_base" => ParseNonEmpty(raw).Some?
    case "daemon.enabled" => ParseBool(raw).Some?
    case "search.semantic" => ParseBool(raw).Some?
    case _ => false
  }

  function Get<T>(raws: map<string, string>, key: string, parse: string -> Option<T>, default: T): T {
    if key in raws then parse(raws[key]).UnwrapOr(default) else default
  }

  /** Keys are applied in ascending order, so an interval in seconds overrides one in hours. */
  function Interval(raws: map<string, string>): nat {
    var hours := Get<nat>(raws, "upgrade.interval_hours", ParseU64, 24);
    var fromHours := if hours * 3600 > U64_MAX then U64_MAX else hours * 3600;
    Get<nat>(raws, "upgrade.interval_seconds", ParseU64, fromHours)
  }

  /** `apply_values` on the default configuration: every key must be known and its value well typed. */
  function Load(raws: map<string, string>): Option<Config> {
    if forall k :: k in raws ==> Acceptable(k, raws[k]) then
      Some(Config(
        Get(raws, "analytics.enabled", ParseBool, DEFAULT.analyticsEnabled),
        Get(raws, "analytics.endpoint", ParseNonEmpty, DEFAULT.analyticsEndpoint),
        Get(raws, "upgrade.auto", ParseAuto, DEFAULT.upgradeAuto),
        Get(raws, "upgrade.channel", ParseNonEmpty, DEFAULT.upgradeChannel),
        Interval(raws),
        Get(raws, "upgrade.functions_base", ParseNonEmpty, DEFAULT.upgradeFunctionsBase),
        Get(raws, "daemon.enabled", ParseBool, DEFAULT.daemonEnabled),
        if "search.semantic" in raws then ParseBool(raws["search.semantic"]) else DEFAULT.searchSemantic))
    else None
  }

  /** The configuration a file's text stands for, when it is valid. */
  function LoadText(text: string): Option<Config> {
    match Parse(text)
    case Ok(values) => Load(Raws(values))
    case Err(_) => None
  }

  /** What the caller must look at before the edit: no definition of the key outside the first block. */
  ghost predicate Editable(text: string) {
    Parse(text).Ok? &&
    var m := Parse(text).value;
    DAEMON_KEY in m ==> ConfigLaws.InFirstBlock(Items(Lines(text)), "daemon", m[DAEMON_KEY].line - 1)
  }

  const DAEMON_KEY := "daemon.enabled"

  lemma {:induction false} OtherKeys()
    ensures DAEMON_KEY !in {
      "analytics.enabled", "analytics.endpoint", "upgrade.auto", "upgrade.channel", "upgrade.interval_hours",
      "upgrade.interval_seconds", "upgrade.functions_base", "search.semantic"}
  {
  }

  lemma {:induction false} DaemonValue(enabled: bool)
    ensures ParseBool(Raw(enabled)) == Some(enabled)
    ensures Acceptable(DAEMON_KEY, Raw(enabled))
  {
  }

  lemma {:induction false} LoadWithDaemon(raws: map<string, string>, enabled: bool)
    requires Load(raws).Some?
    ensures Load(raws[DAEMON_KEY := Raw(enabled)]) == Some(Load(raws).value.(daemonEnabled := enabled))
  {
    var raws' := raws[DAEMON_KEY := Raw(enabled)];
    OtherKeys();
    DaemonValue(enabled);
    forall k | k in raws'
      ensures Acceptable(k, raws'[k])
    {
      if k != DAEMON_KEY {
        assert k in raws && raws'[k] == raws[k];
      }
    }
  }

  lemma {:induction false} DaemonNames()
    ensures PlainName("daemon") && PlainName("enabled")
    ensures FullKey("daemon", "enabled") == DAEMON_KEY
  {
    assert "daemon" + "." + "enabled" == DAEMON_KEY;
  }

  /**
   For every valid file: the edited file is valid iff the key is not defined outside the first
   `[daemon]` block, and then it stands for the same configuration with the daemon switched as
   asked, and can be edited again.
   */
  lemma {:induction false} EditedConfig(text: string, enabled: bool)
    requires LoadText(text).Some?
    ensures
      var edited := Edit(text, "daemon", "enabled", enabled);
      && (LoadText(edited).Some? <==> Editable(text))
      && (LoadText(edited).Some? ==>
            LoadText(edited) == Some(LoadText(text).value.(daemonEnabled := enabled)) && Editable(edited))
  {
    DaemonNames();
    EditCommutesWithParse(text, "daemon", "enabled", enabled);
    LoadWithDaemon(Raws(Parse(text).value), enabled);
  }

  lemma {:induction false} OneLine(text: string, key: string, raw: string)
    requires text != [] && '\n' !in text && Classify(text) == Entry(key, raw)
    ensures Items(Lines(text)) == [Entry(key, raw)]
    ensures Parse(text) == Ok(map[key := ConfigValue(raw, 1)])
  {
    assert Lines(text) == [text];
    var items := Items([text]);
    assert items == [Classify(text)];
    assert ParseFrom(items, 1, "", map[key := ConfigValue(raw, 1)]) == Ok(map[key := ConfigValue(raw, 1)]);
  }

  /** A valid file the edit refuses: the key written with its dot, outside any block. */
  lemma {:induction false} DottedKeyRefused()
    ensures
      var text := "daemon.enabled = true";
      && LoadText(text).Some? && !Editable(text)
      && forall enabled :: LoadText(Edit(text, "daemon", "enabled", enabled)).None?
  {
    var text := "daemon.enabled = true";
    assert text == Render(DAEMON_KEY, true);
    EntryLine(DAEMON_KEY, true);
    DaemonValue(true);
    OneLine(text, DAEMON_KEY, "true");
    forall enabled {
      EditedConfig(text, enabled);
    }
  }

  /** `config.toml` in the data directory; `None` while there is no such file. */
  class ConfigFile {
    var text: Option<string>

    method SetDaemonEnabled(enabled: bool) returns (ok: bool)
      modifies this
      ensures ok <==> LoadText(old(text.UnwrapOr(""))).Some? && Editable(old(text.UnwrapOr("")))
      ensures !ok ==> text == old(text)
      ensures ok ==>
        && text.Some? && Editable(text.value)
        && LoadText(text.value) == Some(LoadText(old(text.UnwrapOr(""))).value.(daemonEnabled := enabled))
    {
      var before := text.UnwrapOr("");
      var parsed := ParseTomlSubset(before);
      if parsed.Err? || Load(Raws(parsed.value)).None? {
        return false;
      }
      EditedConfig(before, enabled);
      var updated := SetTomlBool(before, "daemon", "enabled", enabled);
      parsed := ParseTomlSubset(updated);
      if parsed.Err? || Load(Raws(parsed.value)).None? {
        return false;
      }
      text := Some(updated);
      return true;
    }
  }
}

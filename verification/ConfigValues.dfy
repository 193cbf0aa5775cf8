/**
 The values of the configuration file: what the configuration takes from each key, and the loop that
 applies them one by one.
 */
module ConfigValues {
  import opened Wrappers
  import opened Text
  import opened AppConfig

  // ---------------------------------------------------------------- what loading means

  /** The text in quotes, single or double, between white space. */
  predicate IsQuoted(raw: string, text: string) {
    Trim(raw) == "\"" + text + "\"" || Trim(raw) == "'" + text + "'"
  }

  lemma {:induction false} StringMeans(raw: string, text: string)
    ensures ParseString(raw) == Some(text) <==> IsQuoted(raw, text)
  {
    var s := Trim(raw);
    if IsQuoted(raw, text) {
      assert s[1..|s| - 1] == text;
    }
    if ParseString(raw) == Some(text) {
      assert s == [s[0]] + text + [s[|s| - 1]];
    }
  }

  /** A switch: absent, or "true" or "false". */
  predicate SwitchIs(raws: map<string, string>, key: string, default: bool, value: bool) {
    if key in raws then Trim(raws[key]) == (if value then "true" else "false") else value == default
  }

  /** A text: absent, or quoted and not blank. */
  predicate TextIs(raws: map<string, string>, key: string, default: string, value: string) {
    if key in raws then IsQuoted(raws[key], value) && Trim(value) != [] else value == default
  }

  /** A number of hours or seconds. */
  predicate NumberIs(raws: map<string, string>, key: string, n: nat) {
    key in raws && ParseU64(raws[key]) == Some(n)
  }

  lemma {:induction false} SwitchMeans(raws: map<string, string>, key: string, default: bool)
    requires key in raws ==> ParseBool(raws[key]).Some?
    ensures SwitchIs(raws, key, default, Get(raws, key, ParseBool, default))
  {
  }

  lemma {:induction false} TextMeans(raws: map<string, string>, key: string, default: string)
    requires key in raws ==> ParseNonEmpty(raws[key]).Some?
    ensures TextIs(raws, key, default, Get(raws, key, ParseNonEmpty, default))
  {
    if key in raws {
      StringMeans(raws[key], ParseNonEmpty(raws[key]).value);
    }
  }

  const KNOWN_KEYS: set<string> := {
    "analytics.enabled", "analytics.endpoint", "upgrade.auto", "upgrade.channel", "upgrade.interval_hours",
    "upgrade.interval_seconds", "upgrade.functions_base", "daemon.enabled", "search.semantic"}

  lemma {:induction false} AcceptableKey(raws: map<string, string>, key: string)
    requires Load(raws).Some? && key in raws
    ensures Acceptable(key, raws[key])
  {
  }

  lemma {:induction false} KnownKey(key: string, raw: string)
    requires Acceptable(key, raw)
    ensures key in KNOWN_KEYS
  {
  }

  lemma {:induction false} SwitchOf(raws: map<string, string>, key: string, default: bool)
    requires Load(raws).Some? && (key == "analytics.enabled" || key == "daemon.enabled" || key == "search.semantic")
    ensures key in raws ==> ParseBool(raws[key]).Some?
    ensures SwitchIs(raws, key, default, Get(raws, key, ParseBool, default))
  {
    if key in raws {
      AcceptableKey(raws, key);
    }
    SwitchMeans(raws, key, default);
  }

  lemma {:induction false} TextOf(raws: map<string, string>, key: string, default: string)
    requires Load(raws).Some?
    requires key == "analytics.endpoint" || key == "upgrade.channel" || key == "upgrade.functions_base"
    ensures TextIs(raws, key, default, Get(raws, key, ParseNonEmpty, default))
  {
    if key in raws {
      AcceptableKey(raws, key);
    }
    TextMeans(raws, key, default);
  }

  lemma {:induction false} AutoOf(raws: map<string, string>)
    requires Load(raws).Some?
    ensures
      var c := Load(raws).value;
      c.upgradeAuto in {"apply", "off"} && (c.upgradeAuto != "apply" ==>
        "upgrade.auto" in raws && exists text :: IsQuoted(raws["upgrade.auto"], text) && Lower(text) == "off")
  {
    if "upgrade.auto" in raws {
      AcceptableKey(raws, "upgrade.auto");
      var text := ParseNonEmpty(raws["upgrade.auto"]).value;
      StringMeans(raws["upgrade.auto"], text);
    }
  }

  /** What a configuration takes from the values of a file, key by key. */
  lemma {:induction false} LoadMeans(raws: map<string, string>)
    requires Load(raws).Some?
    ensures raws.Keys <= KNOWN_KEYS
    ensures
      var c := Load(raws).value;
      && SwitchIs(raws, "analytics.enabled", true, c.analyticsEnabled)
      && TextIs(raws, "analytics.endpoint", DEFAULT.analyticsEndpoint, c.analyticsEndpoint)
      && TextIs(raws, "upgrade.channel", "stable", c.upgradeChannel)
      && TextIs(raws, "upgrade.functions_base", DEFAULT.upgradeFunctionsBase, c.upgradeFunctionsBase)
      && SwitchIs(raws, "daemon.enabled", false, c.daemonEnabled)
      && (c.searchSemantic.None? <==> "search.semantic" !in raws)
      && (c.searchSemantic.Some? ==> SwitchIs(raws, "search.semantic", false, c.searchSemantic.value))
    ensures
      var c := Load(raws).value;
      c.upgradeAuto in {"apply", "off"} && (c.upgradeAuto != "apply" ==>
        "upgrade.auto" in raws && exists text :: IsQuoted(raws["upgrade.auto"], text) && Lower(text) == "off")
    ensures
      var seconds := Load(raws).value.upgradeIntervalSeconds;
      && (forall n: nat :: NumberIs(raws, "upgrade.interval_seconds", n) ==> seconds == n)
      && (forall n: nat :: NumberIs(raws, "upgrade.interval_hours", n) && "upgrade.interval_seconds" !in raws ==>
            seconds == if n * 3600 <= U64_MAX then n * 3600 else U64_MAX)
      && ("upgrade.interval_seconds" !in raws && "upgrade.interval_hours" !in raws ==> seconds == 86400)
  {
    forall key | key in raws
      ensures key in KNOWN_KEYS
    {
      AcceptableKey(raws, key);
      KnownKey(key, raws[key]);
    }
    SwitchOf(raws, "analytics.enabled", true);
    TextOf(raws, "analytics.endpoint", DEFAULT.analyticsEndpoint);
    TextOf(raws, "upgrade.channel", "stable");
    TextOf(raws, "upgrade.functions_base", DEFAULT.upgradeFunctionsBase);
    SwitchOf(raws, "daemon.enabled", false);
    SwitchOf(raws, "search.semantic", false);
    AutoOf(raws);
  }

  function Digit(d: nat): char
    requires d < 10
  {
    '0' + d as char
  }

  function Decimal(n: nat): (s: string)
    ensures s != [] && forall i :: 0 <= i < |s| ==> '0' <= s[i] <= '9'
  {
    if n < 10 then [Digit(n)] else Decimal(n / 10) + [Digit(n % 10)]
  }

  lemma {:induction false} DigitsOfDecimal(n: nat)
    ensures Digits(Decimal(n)) == Some(n)
  {
    var s := Decimal(n);
    if n < 10 {
      assert s[..|s| - 1] == [];
    } else {
      DigitsOfDecimal(n / 10);
      assert s[..|s| - 1] == Decimal(n / 10);
    }
  }

  /** A number written out in decimal is read back, unless it is too large for 64 bits. */
  lemma {:induction false} DecimalReadsBack(n: nat)
    ensures ParseU64(Decimal(n)) == if n <= U64_MAX then Some(n) else None
  {
    var s := Decimal(n);
    DigitsOfDecimal(n);
    assert TrimStart(s) == s && TrimEnd(s) == s;
  }

  // ---------------------------------------------------------------- applying the values in order

  /** A value applied to the configuration, whatever was applied before. */
  function Applied(c: Config, key: string, raw: string): Option<Config> {
    match key
    case "analytics.enabled" =>
      (match ParseBool(raw) case Some(b) => Some(c.(analyticsEnabled := b)) case None => None)
    case "analytics.endpoint" =>
      (match ParseNonEmpty(raw) case Some(t) => Some(c.(analyticsEndpoint := t)) case None => None)
    case "upgrade.auto" =>
      (match ParseAuto(raw) case Some(t) => Some(c.(upgradeAuto := t)) case None => None)
    case "upgrade.channel" =>
      (match ParseNonEmpty(raw) case Some(t) => Some(c.(upgradeChannel := t)) case None => None)
    case "upgrade.interval_hours" =>
      (match ParseU64(raw)
       case Some(n) => Some(c.(upgradeIntervalSeconds := if n * 3600 > U64_MAX then U64_MAX else n * 3600))
       case None => None)
    case "upgrade.interval_seconds" =>
      (match ParseU64(raw) case Some(n) => Some(c.(upgradeIntervalSeconds := n)) case None => None)
    case "upgrade.functions_base" =>
      (match ParseNonEmpty(raw) case Some(t) => Some(c.(upgradeFunctionsBase := t)) case None => None)
    case "daemon.enabled" =>
      (match ParseBool(raw) case Some(b) => Some(c.(daemonEnabled := b)) case None => None)
    case "search.semantic" =>
      (match ParseBool(raw) case Some(b) => Some(c.(searchSemantic := Some(b))) case None => None)
    case _ => None
  }

  /** The order of strings in an ordered map: by the first character that differs. */
  predicate Below(a: string, b: string) {
    b != [] && (a == [] || a[0] < b[0] || (a[0] == b[0] && Below(a[1..], b[1..])))
  }

  /** The entries of an ordered map as it yields them. */
  ghost predicate Ascending(entries: seq<(string, string)>) {
    forall i, j :: 0 <= i < j < |entries| ==> Below(entries[i].0, entries[j].0)
  }

  function MapOf(entries: seq<(string, string)>): map<string, string> {
    if entries == [] then map[]
    else MapOf(entries[..|entries| - 1])[entries[|entries| - 1].0 := entries[|entries| - 1].1]
  }

  lemma {:induction false} KeysOfMap(entries: seq<(string, string)>, key: string)
    ensures key in MapOf(entries) <==> exists i :: 0 <= i < |entries| && entries[i].0 == key
  {
    if entries != [] {
      var n := |entries| - 1;
      KeysOfMap(entries[..n], key);
      if key in MapOf(entries[..n]) {
        var i :| 0 <= i < n && entries[..n][i].0 == key;
        assert entries[i].0 == key;
      }
    }
  }

  lemma {:induction false} NotBelow(a: string)
    ensures !Below(a, a)
  {
    if a != [] {
      NotBelow(a[1..]);
    }
  }

  lemma {:induction false} BelowBehind(prefix: string, a: string, b: string)
    ensures Below(prefix + a, prefix + b) <==> Below(a, b)
  {
    if prefix == [] {
      assert prefix + a == a && prefix + b == b;
    } else {
      BelowBehind(prefix[1..], a, b);
      assert (prefix + a)[1..] == prefix[1..] + a && (prefix + b)[1..] == prefix[1..] + b;
    }
  }

  lemma {:induction false} HoursBelowSeconds()
    ensures !Below("upgrade.interval_seconds", "upgrade.interval_hours")
  {
    BelowBehind("upgrade.interval_", "seconds", "hours");
    SecondsKey();
    HoursKey();
  }

  lemma {:induction false} SecondsKey()
    ensures "upgrade.interval_" + "seconds" == "upgrade.interval_seconds"
  {
  }

  lemma {:induction false} HoursKey()
    ensures "upgrade.interval_" + "hours" == "upgrade.interval_hours"
  {
  }

  /** The last entry of an ordered map is new, and no interval in seconds comes before one in hours. */
  lemma {:induction false} LastIsNew(entries: seq<(string, string)>)
    requires entries != [] && Ascending(entries)
    ensures
      var init, key := MapOf(entries[..|entries| - 1]), entries[|entries| - 1].0;
      key !in init && (key == "upgrade.interval_hours" ==> "upgrade.interval_seconds" !in init)
  {
    var n := |entries| - 1;
    KeysOfMap(entries[..n], entries[n].0);
    NotBelow(entries[n].0);
    KeysOfMap(entries[..n], "upgrade.interval_seconds");
    HoursBelowSeconds();
  }

  lemma {:induction false} AcceptedOneMore(raws: map<string, string>, key: string, raw: string)
    requires key !in raws && Load(raws).Some?
    ensures Load(raws[key := raw]).Some? <==> Acceptable(key, raw)
    ensures Acceptable(key, raw) <==> Applied(Load(raws).value, key, raw).Some?
  {
    var more := raws[key := raw];
    assert forall k :: k in raws ==> more[k] == raws[k];
    assert key in more && more[key] == raw;
  }

  lemma {:induction false} GetOneMore<T>(raws: map<string, string>, key: string, raw: string, k: string,
                                         parse: string -> Option<T>, default: T)
    ensures Get(raws[key := raw], k, parse, default) ==
            if k == key then parse(raw).UnwrapOr(default) else Get(raws, k, parse, default)
  {
  }

  lemma {:induction false} IntervalOneMore(raws: map<string, string>, key: string, raw: string)
    requires key !in raws && Acceptable(key, raw)
    requires key == "upgrade.interval_hours" ==> "upgrade.interval_seconds" !in raws
    ensures key == "upgrade.interval_hours" ==>
      Interval(raws[key := raw]) == if ParseU64(raw).value * 3600 > U64_MAX then U64_MAX else ParseU64(raw).value * 3600
    ensures key == "upgrade.interval_seconds" ==> Interval(raws[key := raw]) == ParseU64(raw).value
    ensures key != "upgrade.interval_hours" && key != "upgrade.interval_seconds" ==> Interval(raws[key := raw]) == Interval(raws)
  {
  }

  lemma {:induction false} LoadOneMore(raws: map<string, string>, key: string, raw: string)
    requires key !in raws && Load(raws).Some? && Load(raws[key := raw]).Some?
    requires key == "upgrade.interval_hours" ==> "upgrade.interval_seconds" !in raws
    ensures Load(raws[key := raw]) == Applied(Load(raws).value, key, raw)
  {
    var more := raws[key := raw];
    AcceptedOneMore(raws, key, raw);
    GetOneMore(raws, key, raw, "analytics.enabled", ParseBool, DEFAULT.analyticsEnabled);
    GetOneMore(raws, key, raw, "analytics.endpoint", ParseNonEmpty, DEFAULT.analyticsEndpoint);
    GetOneMore(raws, key, raw, "upgrade.auto", ParseAuto, DEFAULT.upgradeAuto);
    GetOneMore(raws, key, raw, "upgrade.channel", ParseNonEmpty, DEFAULT.upgradeChannel);
    GetOneMore(raws, key, raw, "upgrade.functions_base", ParseNonEmpty, DEFAULT.upgradeFunctionsBase);
    GetOneMore(raws, key, raw, "daemon.enabled", ParseBool, DEFAULT.daemonEnabled);
    IntervalOneMore(raws, key, raw);
    assert "search.semantic" in more <==> "search.semantic" in raws || key == "search.semantic";
  }

  /** One step of the loop below: the value is applied, or is wrong and stays so. */
  lemma {:induction false} AppliedNext(entries: seq<(string, string)>, i: nat, config: Config)
    requires Ascending(entries) && i < |entries| && Load(MapOf(entries[..i])) == Some(config)
    ensures
      var applied := Applied(config, entries[i].0, entries[i].1);
      if applied.Some? then Load(MapOf(entries[..i + 1])) == applied else Load(MapOf(entries)).None?
  {
    var raws := MapOf(entries[..i]);
    assert entries[..i + 1][..i] == entries[..i];
    LastIsNew(entries[..i + 1]);
    AcceptedOneMore(raws, entries[i].0, entries[i].1);
    if Applied(config, entries[i].0, entries[i].1).Some? {
      LoadOneMore(raws, entries[i].0, entries[i].1);
    } else {
      WrongStays(entries, i + 1);
    }
  }

  /** `apply_values`: one value after the other, in the order of the map, up to the first that is wrong. */
  method ApplyValues(entries: seq<(string, string)>) returns (config: Option<Config>)
    requires Ascending(entries)
    ensures config == Load(MapOf(entries))
  {
    config := Some(DEFAULT);
    for i := 0 to |entries|
      invariant config.Some? && config == Load(MapOf(entries[..i]))
    {
      AppliedNext(entries, i, config.value);
      config := Applied(config.value, entries[i].0, entries[i].1);
      if config.None? {
        return;
      }
    }
    assert entries[..|entries|] == entries;
  }

  lemma {:induction false} WrongWithMore(raws: map<string, string>, key: string, raw: string)
    requires key !in raws && Load(raws).None?
    ensures Load(raws[key := raw]).None?
  {
    var k :| k in raws && !Acceptable(k, raws[k]);
    assert k in raws[key := raw] && raws[key := raw][k] == raws[k];
  }

  /** A wrong value is not made good by later ones. */
  lemma {:induction false} WrongStays(entries: seq<(string, string)>, n: nat)
    requires Ascending(entries) && n <= |entries| && Load(MapOf(entries[..n])).None?
    ensures Load(MapOf(entries)).None?
    decreases |entries|
  {
    if n == |entries| {
      assert entries[..n] == entries;
    } else {
      var last := |entries| - 1;
      assert entries[..last][..n] == entries[..n];
      WrongStays(entries[..last], n);
      LastIsNew(entries);
      var raws, key := MapOf(entries[..last]), entries[last].0;
      WrongWithMore(raws, key, entries[last].1);
    }
  }
}

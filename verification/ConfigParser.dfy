/**
 The TOML subset of the configuration file: comment stripping and parsing, each as the loop the
 program runs and as the function that specifies it.
 */
module ConfigParser {
  import opened Wrappers
  import opened Text

  // ---------------------------------------------------------------- comments

  /** Where a position stands with respect to quotes; `Escaped` follows a backslash in double quotes. */
  datatype Quote = Bare | Single | Double | Escaped

  function Next(q: Quote, c: char): Quote {
    match q
    case Escaped => Double
    case Double => if c == '\\' then Escaped else if c == '"' then Bare else Double
    case Single => if c == '\'' then Bare else Single
    case Bare => if c == '"' then Double else if c == '\'' then Single else Bare
  }

  function QuoteAt(line: string, i: nat): Quote
    requires i <= |line|
  {
    if i == 0 then Bare else Next(QuoteAt(line, i - 1), line[i - 1])
  }

  predicate CommentAt(line: string, i: nat)
    requires i < |line|
  {
    line[i] == '#' && QuoteAt(line, i) == Bare
  }

  /** The first number sign outside quotes at or after `from`, or the length of the line. */
  function CommentStart(line: string, from: nat): (i: nat)
    requires from <= |line|
    ensures from <= i <= |line|
    ensures i < |line| ==> CommentAt(line, i)
    ensures forall j :: from <= j < i ==> !CommentAt(line, j)
    decreases |line| - from
  {
    if from == |line| || CommentAt(line, from) then from else CommentStart(line, from + 1)
  }

  function Uncommented(line: string): string {
    line[..CommentStart(line, 0)]
  }

  method StripComment(line: string) returns (r: string)
    ensures r == Uncommented(line)
  {
    var inSingleQuote, inDoubleQuote, escaped := false, false, false;
    for index := 0 to |line|
      invariant CommentStart(line, 0) == CommentStart(line, index)
      invariant inSingleQuote <==> QuoteAt(line, index) == Single
      invariant inDoubleQuote <==> QuoteAt(line, index) in {Double, Escaped}
      invariant escaped <==> QuoteAt(line, index) == Escaped
    {
      var ch := line[index];
      if inDoubleQuote {
        if escaped {
          escaped := false;
          continue;
        }
        match ch {
          case '\\' => escaped := true;
          case '"' => inDoubleQuote := false;
          case _ =>
        }
        continue;
      }
      if inSingleQuote {
        if ch == '\'' {
          inSingleQuote := false;
        }
        continue;
      }
      match ch {
        case '#' => return line[..index];
        case '"' => inDoubleQuote := true;
        case '\'' => inSingleQuote := true;
        case _ =>
      }
    }
    return line;
  }

  lemma {:induction false} QuoteAtPrefix(a: string, b: string, i: nat)
    requires i <= |a|
    ensures QuoteAt(a + b, i) == QuoteAt(a, i)
  {
    if i > 0 {
      QuoteAtPrefix(a, b, i - 1);
    }
  }

  /** A line as the configuration code looks at it: without its comment and the surrounding space. */
  function Clean(line: string): string {
    Trim(Uncommented(line))
  }

  /** A carriage return left at the end of a line by a missing final line feed is invisible. */
  lemma {:induction false} CleanStripCr(line: string)
    ensures Clean(StripCr(line)) == Clean(line)
  {
    if line != [] && line[|line| - 1] == '\r' {
      var s := line[..|line| - 1];
      assert line == s + "\r";
      forall j | 0 <= j < |s|
        ensures CommentAt(s, j) == CommentAt(line, j)
      {
        QuoteAtPrefix(s, "\r", j);
      }
      if CommentStart(s, 0) == |s| {
        assert Uncommented(line) == line && Uncommented(s) == s;
        TrimAppend(s, '\r');
      } else {
        var n, m := CommentStart(s, 0), CommentStart(line, 0);
        assert CommentAt(line, n);
        assert m <= n && !(m < n);
        assert line[..n] == s[..n];
      }
    }
  }

  // ---------------------------------------------------------------- lines

  /** What one line means to the parser; the raw value of an entry stays unparsed. */
  datatype Item =
    | Blank
    | Header(name: string)
    | Entry(key: string, raw: string)
    | Malformed(fault: Fault)

  datatype Fault = InvalidHeader | EmptyHeader | MissingEquals | EmptyKey

  function Classify(line: string): Item {
    var c := Clean(line);
    if c == [] then Blank
    else if c[0] == '[' then
      if c[|c| - 1] != ']' then Malformed(InvalidHeader)
      else
        var name := Trim(c[1..|c| - 1]);
        if name == [] then Malformed(EmptyHeader) else Header(name)
    else match SplitOnce(c, '=')
      case None => Malformed(MissingEquals)
      case Some((key, value)) =>
        if Trim(key) == [] then Malformed(EmptyKey) else Entry(Trim(key), Trim(value))
  }

  function FullKey(section: string, key: string): string {
    if section == [] then key else section + "." + key
  }

  function Items(lines: seq<string>): seq<Item> {
    seq(|lines|, i requires 0 <= i < |lines| => Classify(lines[i]))
  }

  // ---------------------------------------------------------------- parsing

  /** `line` counts from one, as the program's error messages do. */
  datatype ConfigValue = ConfigValue(raw: string, line: nat)

  datatype ConfigError =
    | BadLine(fault: Fault, line: nat)
    | DuplicateKey(key: string, line: nat, first: nat)

  type Values = map<string, ConfigValue>

  function ParseFrom(items: seq<Item>, i: nat, section: string, values: Values): Result<Values, ConfigError>
    requires i <= |items|
    decreases |items| - i
  {
    if i == |items| then Ok(values)
    else match items[i]
      case Blank => ParseFrom(items, i + 1, section, values)
      case Header(name) => ParseFrom(items, i + 1, name, values)
      case Malformed(fault) => Err(BadLine(fault, i + 1))
      case Entry(key, raw) =>
        var fullKey := FullKey(section, key);
        if fullKey in values then Err(DuplicateKey(fullKey, i + 1, values[fullKey].line))
        else ParseFrom(items, i + 1, section, values[fullKey := ConfigValue(raw, i + 1)])
  }

  function Parse(text: string): Result<Values, ConfigError> {
    ParseFrom(Items(Lines(text)), 0, "", map[])
  }

  method ParseTomlSubset(text: string) returns (r: Result<Values, ConfigError>)
    ensures r == Parse(text)
  {
    var lines := Lines(text);
    ghost var items := Items(lines);
    var section := "";
    var values: Values := map[];
    for index := 0 to |lines|
      invariant Parse(text) == ParseFrom(items, index, section, values)
    {
      var lineNumber := index + 1;
      var line := StripComment(lines[index]);
      line := Trim(line);
      assert line == Clean(lines[index]) && items[index] == Classify(lines[index]);
      if line == [] {
        continue;
      }
      if line[0] == '[' {
        if line[|line| - 1] != ']' {
          return Err(BadLine(InvalidHeader, lineNumber));
        }
        section := Trim(line[1..|line| - 1]);
        if section == [] {
          return Err(BadLine(EmptyHeader, lineNumber));
        }
        continue;
      }
      var pair := SplitOnce(line, '=');
      if pair.None? {
        return Err(BadLine(MissingEquals, lineNumber));
      }
      var key := Trim(pair.value.0);
      if key == [] {
        return Err(BadLine(EmptyKey, lineNumber));
      }
      var fullKey := if section == [] then key else section + "." + key;
      var value := ConfigValue(Trim(pair.value.1), lineNumber);
      if fullKey in values {
        return Err(DuplicateKey(fullKey, lineNumber, values[fullKey].line));
      }
      values := values[fullKey := value];
    }
    return Ok(values);
  }

  // ---------------------------------------------------------------- what a successful parse means

  predicate AllGood(items: seq<Item>) {
    forall i :: 0 <= i < |items| ==> !items[i].Malformed?
  }

  function SectionAfter(items: seq<Item>, section: string): string {
    if items == [] then section
    else SectionAfter(items[1..], if items[0].Header? then items[0].name else section)
  }

  /** The definitions a list of lines makes, in order. */
  function Defs(items: seq<Item>, section: string): seq<(string, string)> {
    if items == [] then []
    else match items[0]
      case Header(name) => Defs(items[1..], name)
      case Entry(key, raw) => [(FullKey(section, key), raw)] + Defs(items[1..], section)
      case _ => Defs(items[1..], section)
  }

  function KeysOf(defs: seq<(string, string)>): seq<string> {
    seq(|defs|, i requires 0 <= i < |defs| => defs[i].0)
  }

  predicate Distinct(keys: seq<string>) {
    forall i, j :: 0 <= i < j < |keys| ==> keys[i] != keys[j]
  }

  function ToMap(defs: seq<(string, string)>): map<string, string> {
    if defs == [] then map[] else map[defs[0].0 := defs[0].1] + ToMap(defs[1..])
  }

  function Raws(values: Values): map<string, string> {
    map k | k in values :: values[k].raw
  }

  lemma {:induction false} DistinctCons(k: string, keys: seq<string>)
    ensures Distinct([k] + keys) <==> k !in keys && Distinct(keys)
  {
    var all := [k] + keys;
    if Distinct(all) {
      assert forall i, j :: 0 <= i < j < |keys| ==> keys[i] == all[i + 1] && keys[j] == all[j + 1];
      assert forall j :: 0 <= j < |keys| ==> keys[j] == all[j + 1];
      assert forall j :: 0 <= j < |keys| ==> all[0] != keys[j];
    }
  }

  lemma {:induction false} MapAssoc(p: map<string, string>, q: map<string, string>, r: map<string, string>)
    ensures p + (q + r) == p + q + r
  {
  }

  lemma {:induction false} RawsUpdate(values: Values, k: string, value: ConfigValue)
    ensures Raws(values[k := value]) == Raws(values) + map[k := value.raw]
  {
  }

  lemma {:induction false} KeysOfCons(d: (string, string), defs: seq<(string, string)>)
    ensures KeysOf([d] + defs) == [d.0] + KeysOf(defs)
    ensures ToMap([d] + defs) == map[d.0 := d.1] + ToMap(defs)
    ensures Distinct(KeysOf([d] + defs)) <==> d.0 !in KeysOf(defs) && Distinct(KeysOf(defs))
  {
    assert ([d] + defs)[1..] == defs;
    DistinctCons(d.0, KeysOf(defs));
  }

  lemma {:induction false} AllGoodCons(items: seq<Item>, i: nat)
    requires i < |items|
    ensures items[i..][0] == items[i] && items[i..][1..] == items[i + 1..]
    ensures AllGood(items[i..]) <==> !items[i].Malformed? && AllGood(items[i + 1..])
  {
  }

  /** A parse succeeds iff every line is well formed and no key repeats; its map is then the definitions'. */
  lemma {:induction false} ParseFromMeaning(items: seq<Item>, i: nat, section: string, values: Values)
    requires i <= |items|
    ensures
      var defs := Defs(items[i..], section);
      var r := ParseFrom(items, i, section, values);
      && (r.Ok? <==> AllGood(items[i..]) && Distinct(KeysOf(defs)) && forall k :: k in KeysOf(defs) ==> k !in values)
      && (r.Ok? ==> Raws(r.value) == Raws(values) + ToMap(defs))
    decreases |items| - i
  {
    if i < |items| {
      AllGoodCons(items, i);
      match items[i]
      case Blank => ParseFromMeaning(items, i + 1, section, values);
      case Header(name) => ParseFromMeaning(items, i + 1, name, values);
      case Malformed(fault) =>
      case Entry(key, raw) =>
        var k := FullKey(section, key);
        var defs := Defs(items[i + 1..], section);
        KeysOfCons((k, raw), defs);
        if k !in values {
          var value := ConfigValue(raw, i + 1);
          ParseFromMeaning(items, i + 1, section, values[k := value]);
          RawsUpdate(values, k, value);
          MapAssoc(Raws(values), map[k := raw], ToMap(defs));
        }
    }
  }

  lemma {:induction false} ParseMeaning(text: string)
    ensures
      var items := Items(Lines(text));
      var defs := Defs(items, "");
      && (Parse(text).Ok? <==> AllGood(items) && Distinct(KeysOf(defs)))
      && (Parse(text).Ok? ==> Raws(Parse(text).value) == ToMap(defs))
  {
    var items := Items(Lines(text));
    ParseFromMeaning(items, 0, "", map[]);
    assert items[0..] == items;
    assert Raws(map[]) == map[];
  }

  /** The section in force at line `i`. */
  function SectionAt(items: seq<Item>, i: nat): string
    requires i <= |items|
  {
    if i == 0 then ""
    else if items[i - 1].Header? then items[i - 1].name
    else SectionAt(items, i - 1)
  }

  /** Line `i` defines the key `k`. */
  predicate DefinesAt(items: seq<Item>, i: nat, k: string)
    requires i < |items|
  {
    items[i].Entry? && k == FullKey(SectionAt(items, i), items[i].key)
  }

  ghost predicate LineNumbersFit(items: seq<Item>, n: nat, values: Values)
    requires n <= |items|
  {
    && (forall k :: k in values ==> 1 <= values[k].line <= n && DefinesAt(items, values[k].line - 1, k))
    && (forall k, i :: 0 <= i < n && DefinesAt(items, i, k) ==> k in values && values[k].line == i + 1)
  }

  lemma {:induction false} ParsedLineNumbers(items: seq<Item>, i: nat, values: Values)
    requires i <= |items|
    requires LineNumbersFit(items, i, values)
    requires ParseFrom(items, i, SectionAt(items, i), values).Ok?
    ensures LineNumbersFit(items, |items|, ParseFrom(items, i, SectionAt(items, i), values).value)
    decreases |items| - i
  {
    if i < |items| {
      var values' := if items[i].Entry?
        then values[FullKey(SectionAt(items, i), items[i].key) := ConfigValue(items[i].raw, i + 1)] else values;
      assert LineNumbersFit(items, i + 1, values');
      ParsedLineNumbers(items, i + 1, values');
    }
  }

  /** The line number kept with each value is the line that defines the key, and no other line does. */
  lemma {:induction false} LineNumbersPointAtDefinitions(text: string)
    requires Parse(text).Ok?
    ensures LineNumbersFit(Items(Lines(text)), |Lines(text)|, Parse(text).value)
  {
    var items := Items(Lines(text));
    ParsedLineNumbers(items, 0, map[]);
  }
}

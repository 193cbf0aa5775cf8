/**
 The theorems about the configuration file as text, and the file operation built on them.
 */
module ConfigTheorems {
  import opened Wrappers
  import opened Text
  import opened ConfigParser
  import opened ConfigEditor
  import opened ConfigLaws

  // ---------------------------------------------------------------- the lines the editor writes

  /** A name that needs no quoting, such as `daemon` or `enabled`. */
  predicate PlainName(s: string) {
    s != [] && forall i :: 0 <= i < |s| ==> !IsSpace(s[i]) && s[i] !in "#'\"[]="
  }

  function Raw(enabled: bool): string {
    if enabled then "true" else "false"
  }

  lemma {:induction false} TrimNothing(s: string)
    requires s != [] && !IsSpace(s[0]) && !IsSpace(s[|s| - 1])
    ensures Trim(s) == s
  {
  }

  lemma {:induction false} CleanNothing(s: string)
    requires s != [] && !IsSpace(s[0]) && !IsSpace(s[|s| - 1]) && '#' !in s
    ensures Clean(s) == s
  {
  }

  lemma {:induction false} HeaderLine(section: string)
    requires PlainName(section)
    ensures Classify("[" + section + "]") == Header(section)
    ensures '\n' !in "[" + section + "]"
  {
    var c := "[" + section + "]";
    assert forall i :: 0 <= i < |section| ==> c[i + 1] == section[i];
    CleanNothing(c);
    TrimNothing(section);
    assert c[1..|c| - 1] == section;
  }

  lemma {:induction false} RenderedLine(key: string, enabled: bool)
    requires PlainName(key)
    ensures Clean(Render(key, enabled)) == Render(key, enabled)
    ensures '\n' !in Render(key, enabled)
    ensures Render(key, enabled)[0] == key[0] != '['
  {
  }

  lemma {:induction false} SplitRendered(key: string, enabled: bool)
    requires PlainName(key)
    ensures SplitOnce(Render(key, enabled), '=') == Some((key + " ", " " + Raw(enabled)))
  {
    var c := Render(key, enabled);
    var n := |key|;
    assert c == key + " = " + Raw(enabled);
    assert forall i :: 0 <= i < n ==> c[i] == key[i];
    assert c[n] == ' ' && c[n + 1] == '=';
    assert IndexOf(c, '=', 0) == n + 1;
    assert c[..n + 1] == key + " ";
    assert c[n + 2..] == " " + Raw(enabled);
  }

  lemma {:induction false} TrimmedSides(key: string, enabled: bool)
    requires PlainName(key)
    ensures Trim(key + " ") == key && Trim(" " + Raw(enabled)) == Raw(enabled)
  {
    TrimAppend(key, ' ');
    TrimNothing(key);
    var v := " " + Raw(enabled);
    assert v[1..] == Raw(enabled);
    assert TrimStart(v) == TrimStart(Raw(enabled));
    TrimNothing(Raw(enabled));
  }

  lemma {:induction false} EntryLine(key: string, enabled: bool)
    requires PlainName(key)
    ensures Classify(Render(key, enabled)) == Entry(key, Raw(enabled))
    ensures '\n' !in Render(key, enabled)
  {
    RenderedLine(key, enabled);
    SplitRendered(key, enabled);
    TrimmedSides(key, enabled);
  }

  lemma {:induction false} BlankLine()
    ensures Classify("") == Blank
  {
  }

  // ---------------------------------------------------------------- from edited lines back to lines

  function Gap(lines: seq<string>): seq<Item> {
    if lines == [] || Trim(lines[|lines| - 1]) == [] then [] else [Blank]
  }

  lemma {:induction false} ItemsOfAppendedBlock(lines: seq<string>, section: string, rendered: string)
    ensures
      Items(AppendBlock(lines, section, rendered)) ==
        Items(lines) + Gap(lines) + [Classify("[" + section + "]")] + [Classify(rendered)]
  {
    BlankLine();
    var kept := if lines == [] || Trim(lines[|lines| - 1]) == [] then lines else lines + [""];
    assert Items(kept) == Items(lines) + Gap(lines);
    assert Items(kept + ["[" + section + "]"]) == Items(kept) + [Classify("[" + section + "]")];
  }

  lemma {:induction false} ItemsOfInserted(lines: seq<string>, i: nat, rendered: string)
    requires i <= |lines|
    ensures Items(lines[..i] + [rendered] + lines[i..]) == Items(lines)[..i] + [Classify(rendered)] + Items(lines)[i..]
  {
  }

  lemma {:induction false} ItemsOfReplaced(lines: seq<string>, i: nat, rendered: string)
    requires i < |lines|
    ensures Items(lines[i := rendered]) == Items(lines)[i := Classify(rendered)]
  {
  }

  /** The edited lines read as the edited items. */
  lemma {:induction false} EditedLinesAreEditedItems(lines: seq<string>, section: string, key: string, enabled: bool)
    requires PlainName(section) && PlainName(key) && AllGood(Items(lines))
    ensures
      Items(EditLines(lines, section, key, Render(key, enabled)))
        == EditItems(Items(lines), section, key, Raw(enabled), Gap(lines))
  {
    EditorSeesWhatTheParserSees(lines);
    var rendered := Render(key, enabled);
    EntryLine(key, enabled);
    match Locate(Views(lines), section, key) {
      case Replace(i) => ItemsOfReplaced(lines, i, rendered);
      case Insert(i) => ItemsOfInserted(lines, i, rendered);
      case Append =>
        HeaderLine(section);
        ItemsOfAppendedBlock(lines, section, rendered);
    }
  }

  lemma {:induction false} NoNewlineAppend(a: seq<string>, line: string, b: seq<string>)
    requires NoNewline(a) && '\n' !in line && NoNewline(b)
    ensures NoNewline(a + [line] + b)
  {
  }

  lemma {:induction false} EditedLinesHaveNoNewline(lines: seq<string>, section: string, key: string, rendered: string)
    requires NoNewline(lines) && '\n' !in "[" + section + "]" && '\n' !in rendered
    ensures NoNewline(EditLines(lines, section, key, rendered))
  {
    match Locate(Views(lines), section, key) {
      case Replace(i) =>
      case Insert(i) =>
        NoNewlineAppend(lines[..i], rendered, lines[i..]);
      case Append =>
        AppendedBlockHasNoNewline(lines, section, rendered);
    }
  }

  lemma {:induction false} AppendedBlockHasNoNewline(lines: seq<string>, section: string, rendered: string)
    requires NoNewline(lines) && '\n' !in "[" + section + "]" && '\n' !in rendered
    ensures NoNewline(AppendBlock(lines, section, rendered))
  {
    var kept := if lines == [] || Trim(lines[|lines| - 1]) == [] then lines else lines + [""];
    NoNewlineAppend(kept, "[" + section + "]", [rendered]);
  }

  /** `b` is `a`, or `a` without a blank line at its end. */
  ghost predicate SameButLastBlank(a: seq<Item>, b: seq<Item>) {
    b == a || b + [Blank] == a
  }

  lemma {:induction false} ClassifyStripCr(line: string)
    ensures Classify(StripCr(line)) == Classify(line)
  {
    CleanStripCr(line);
  }

  lemma {:induction false} ItemsOfStripCrs(lines: seq<string>)
    ensures Items(StripCrs(lines)) == Items(lines)
  {
    forall i | 0 <= i < |lines|
      ensures Classify(StripCr(lines[i])) == Classify(lines[i])
    {
      ClassifyStripCr(lines[i]);
    }
  }

  /** What ends every line with a line feed ends up ending with one. */
  lemma {:induction false} TrailingNewline(lines: seq<string>)
    requires lines != [] && NoNewline(lines)
    ensures
      var n := |lines| - 1;
      EnsureTrailingNewline(Join(lines)) == Unlines(if lines[n] == [] && n > 0 then lines[..n] else lines)
  {
    var n := |lines| - 1;
    JoinIsUnlinesButLast(lines);
    if lines[n] == [] && n > 0 {
      JoinIsUnlinesButLast(lines[..n]);
    } else if lines[n] != [] {
      assert Join(lines)[|Join(lines)| - 1] == lines[n][|lines[n]| - 1];
    }
  }

  lemma {:induction false} ItemsOfBlankLast(lines: seq<string>)
    requires lines != [] && lines[|lines| - 1] == []
    ensures Items(lines) == Items(lines[..|lines| - 1]) + [Blank]
  {
  }

  /** Joining lines and splitting the result keeps their items, except for one blank line at the end. */
  lemma {:induction false} JoinThenSplit(lines: seq<string>)
    requires lines != [] && NoNewline(lines)
    ensures SameButLastBlank(Items(lines), Items(Lines(EnsureTrailingNewline(Join(lines)))))
  {
    var n := |lines| - 1;
    TrailingNewline(lines);
    if lines[n] == [] && n > 0 {
      LinesOfUnlines(lines[..n]);
      ItemsOfStripCrs(lines[..n]);
      ItemsOfBlankLast(lines);
    } else {
      LinesOfUnlines(lines);
      ItemsOfStripCrs(lines);
    }
  }

  lemma {:induction false} TrailingBlankIsIgnored(a: seq<Item>, b: seq<Item>)
    requires SameButLastBlank(a, b)
    ensures AllGood(a) <==> AllGood(b)
    ensures Defs(a, "") == Defs(b, "")
  {
    if b != a {
      DefsOfQuietTail(b, [Blank]);
      assert AllGood(b) ==> AllGood(a);
      if AllGood(a) {
        forall i | 0 <= i < |b|
          ensures !b[i].Malformed?
        {
          assert a[i] == b[i];
        }
      }
    }
  }

  lemma {:induction false} BlockSurvivesTrailingBlank(a: seq<Item>, b: seq<Item>, section: string, i: nat)
    requires SameButLastBlank(a, b) && InFirstBlock(a, section, i) && a[i].Entry?
    ensures i < |b| && b[i] == a[i] && InFirstBlock(b, section, i) && SectionAt(b, i) == SectionAt(a, i)
  {
    var h: nat :| FirstBlockHeader(a, section, h) && h < i < |a| && NoHeader(a, h + 1, i + 1);
    if b != a {
      assert a[..i + 1] == b[..i + 1] && a[..h] == b[..h];
      assert forall j :: 0 <= j <= i ==> a[j] == b[j];
      SectionAtPrefix(a, b, i);
      assert FirstBlockHeader(b, section, h) && NoHeader(b, h + 1, i + 1);
    }
  }

  // ---------------------------------------------------------------- the theorems

  /** A definition made in the first block of a section is a definition of `section.key`. */
  lemma {:induction false} DefinitionInBlock(items: seq<Item>, section: string, key: string, i: nat)
    requires section != "" && InFirstBlock(items, section, i) && DefinesAt(items, i, FullKey(section, key))
    ensures items[i].Entry? && items[i].key == key
  {
    var h: nat :| FirstBlockHeader(items, section, h) && h < i < |items| && NoHeader(items, h + 1, i + 1);
    SectionAtInBlock(items, h, i);
    var k := items[i].key;
    assert FullKey(section, k) == FullKey(section, key);
    assert FullKey(section, k)[|section| + 1..] == k && FullKey(section, key)[|section| + 1..] == key;
  }

  /** The same for any definitions found, line by line, among the items. */
  lemma {:induction false} ReplacesIffDefinedInBlock(items: seq<Item>, m: Values, section: string, key: string)
    requires section != "" && LineNumbersFit(items, |items|, m)
    ensures
      var full := FullKey(section, key);
      Locate(ItemViews(items), section, key).Replace? <==>
        full in m && InFirstBlock(items, section, m[full].line - 1)
  {
    var full := FullKey(section, key);
    LocatedLine(items, section, key);
    match Locate(ItemViews(items), section, key) {
      case Replace(i) => assert DefinesAt(items, i, full);
      case Append =>
      case Insert(_) =>
        if full in m && InFirstBlock(items, section, m[full].line - 1) {
          DefinitionInBlock(items, section, key, m[full].line - 1);
        }
    }
  }

  /** The editor replaces a line iff the parsed key already lives in the first block of its section. */
  lemma {:induction false} ReplacesIffInFirstBlock(text: string, section: string, key: string)
    requires PlainName(section) && Parse(text).Ok?
    ensures
      var items := Items(Lines(text));
      var m := Parse(text).value;
      var full := FullKey(section, key);
      Locate(ItemViews(items), section, key).Replace? <==>
        full in m && InFirstBlock(items, section, m[full].line - 1)
  {
    LineNumbersPointAtDefinitions(text);
    ReplacesIffDefinedInBlock(Items(Lines(text)), Parse(text).value, section, key);
  }

  lemma {:induction false} EditedTextIsEditedItems(text: string, section: string, key: string, enabled: bool)
    requires PlainName(section) && PlainName(key)
    requires AllGood(Items(Lines(text)))
    ensures SameButLastBlank(
      EditItems(Items(Lines(text)), section, key, Raw(enabled), Gap(Lines(text))),
      Items(Lines(Edit(text, section, key, enabled))))
  {
    var lines := Lines(text);
    LinesHaveNoNewline(text);
    HeaderLine(section);
    EntryLine(key, enabled);
    EditedLinesHaveNoNewline(lines, section, key, Render(key, enabled));
    EditedLinesAreEditedItems(lines, section, key, enabled);
    JoinThenSplit(EditLines(lines, section, key, Render(key, enabled)));
  }

  /**
   Editing commutes with parsing. For every text that parses, the edited text parses iff the key is
   not defined outside the first block of its section; it then parses to the same raw values with
   just this key set, and the key now lives in that block.
   */
  lemma {:induction false} EditCommutesWithParse(text: string, section: string, key: string, enabled: bool)
    requires PlainName(section) && PlainName(key)
    requires Parse(text).Ok?
    ensures
      var m := Parse(text).value;
      var edited := Edit(text, section, key, enabled);
      var full := FullKey(section, key);
      && (Parse(edited).Ok? <==> (full in m ==> InFirstBlock(Items(Lines(text)), section, m[full].line - 1)))
      && (Parse(edited).Ok? ==>
            var m' := Parse(edited).value;
            && full in m' && Raws(m') == Raws(m)[full := Raw(enabled)]
            && InFirstBlock(Items(Lines(edited)), section, m'[full].line - 1))
  {
    var lines := Lines(text);
    var items := Items(lines);
    var full := FullKey(section, key);
    var text' := Edit(text, section, key, enabled);
    var items' := Items(Lines(text'));
    var target := EditItems(items, section, key, Raw(enabled), Gap(lines));
    ParseMeaning(text);
    ParseMeaning(text');
    ReplacesIffInFirstBlock(text, section, key);
    EditedTextIsEditedItems(text, section, key, enabled);
    TrailingBlankIsIgnored(target, items');
    EditedGood(items, section, key, Raw(enabled), Gap(lines));
    EditedDefs(items, section, key, Raw(enabled), Gap(lines));
    assert full in Parse(text).value <==> full in Raws(Parse(text).value);
    if Parse(text').Ok? {
      EditedLineIsInFirstBlock(items, section, key, Raw(enabled), Gap(lines));
      var i := EditedLine(items, section, key, Gap(lines));
      BlockSurvivesTrailingBlank(target, items', section, i);
      LineNumbersPointAtDefinitions(text');
      assert DefinesAt(items', i, full);
    }
  }
}

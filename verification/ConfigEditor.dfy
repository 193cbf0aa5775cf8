/**
 The in-place editor of the configuration file: the single pass over the lines with its flags, and
 the description of the edit it refines.
 */
module ConfigEditor {
  import opened Wrappers
  import opened Text
  import opened ConfigParser

  // ---------------------------------------------------------------- where the edit goes

  /** The editor's view of a cleaned line: the section it opens, or the key it would assign. */
  datatype View = Opens(section: string) | Assigns(key: string) | Other

  function ViewOf(c: string): View {
    if c != [] && c[0] == '[' && c[|c| - 1] == ']' then
      Opens(if |c| >= 2 then Trim(c[1..|c| - 1]) else [])
    else match SplitOnce(c, '=')
      case None => Other
      case Some((key, _)) => Assigns(Trim(key))
  }

  function Views(lines: seq<string>): seq<View> {
    seq(|lines|, i requires 0 <= i < |lines| => ViewOf(Clean(lines[i])))
  }

  /** The first header at or after `from`. */
  function NextHeader(views: seq<View>, from: nat): (i: nat)
    requires from <= |views|
    ensures from <= i <= |views|
    ensures i < |views| ==> views[i].Opens?
    ensures forall j :: from <= j < i ==> !views[j].Opens?
    decreases |views| - from
  {
    if from == |views| || views[from].Opens? then from else NextHeader(views, from + 1)
  }

  /** The first line equal to `v` in `[from, end)`, or `end`. */
  function Find(views: seq<View>, v: View, from: nat, end: nat): (i: nat)
    requires from <= end <= |views|
    ensures from <= i <= end
    ensures i < end ==> views[i] == v
    ensures forall j :: from <= j < i ==> views[j] != v
    decreases end - from
  {
    if from == end || views[from] == v then from else Find(views, v, from + 1, end)
  }

  datatype Place = Replace(index: nat) | Insert(index: nat) | Append

  /** The lines in front of every header belong to the nameless section. */
  function Preamble(views: seq<View>, section: string): (n: nat)
    ensures n <= |views|
  {
    if section == "" then NextHeader(views, 0) else 0
  }

  /**
   Only the first block of the section counts (and, for the nameless section, the lines in front of
   any header): the key is replaced there, or goes to the end of the block, or to a new block.
   */
  function Locate(views: seq<View>, section: string, key: string): (p: Place)
    ensures p.Replace? ==> p.index < |views|
    ensures p.Insert? ==> p.index <= |views|
  {
    var preamble := Preamble(views, section);
    var k := Find(views, Assigns(key), 0, preamble);
    if k < preamble then Replace(k)
    else
      var start := Find(views, Opens(section), 0, |views|);
      if start == |views| then Append
      else
        var end := NextHeader(views, start + 1);
        var k := Find(views, Assigns(key), start + 1, end);
        if k < end then Replace(k) else Insert(end)
  }

  // ---------------------------------------------------------------- the edited text

  function Render(key: string, enabled: bool): string {
    key + " = " + (if enabled then "true" else "false")
  }

  function EnsureTrailingNewline(text: string): string {
    if text != [] && text[|text| - 1] == '\n' then text else text + "\n"
  }

  function AppendBlock(lines: seq<string>, section: string, rendered: string): seq<string> {
    (if lines == [] || Trim(lines[|lines| - 1]) == [] then lines else lines + [""])
    + ["[" + section + "]"] + [rendered]
  }

  function EditLines(lines: seq<string>, section: string, key: string, rendered: string): (edited: seq<string>)
    ensures edited != []
  {
    match Locate(Views(lines), section, key)
    case Replace(i) => lines[i := rendered]
    case Insert(i) => lines[..i] + [rendered] + lines[i..]
    case Append => AppendBlock(lines, section, rendered)
  }

  function Edit(text: string, section: string, key: string, enabled: bool): string {
    EnsureTrailingNewline(Join(EditLines(Lines(text), section, key, Render(key, enabled))))
  }

  // ---------------------------------------------------------------- the loop refines the description

  /** What the pass knows when it reaches line `index`. */
  ghost predicate Scanned(views: seq<View>, section: string, key: string,
                          index: nat, current: string, start: Option<nat>)
    requires index <= |views|
  {
    var preamble := Preamble(views, section);
    match start
    case None =>
      && Find(views, Opens(section), 0, |views|) >= index
      && (current == section <==> section == "" && index <= preamble)
      && Find(views, Assigns(key), 0, preamble) >= if index < preamble then index else preamble
    case Some(start) =>
      && current == section
      && Find(views, Assigns(key), 0, preamble) == preamble
      && Find(views, Opens(section), 0, |views|) == start < index <= NextHeader(views, start + 1)
      && Find(views, Assigns(key), start + 1, NextHeader(views, start + 1)) >= index
  }

  lemma {:induction false} ScanHeader(views: seq<View>, section: string, key: string, index: nat, current: string, start: Option<nat>)
    requires index < |views| && views[index].Opens?
    requires Scanned(views, section, key, index, current, start)
    requires start.Some? ==> current != section
    ensures
      var name := views[index].section;
      Scanned(views, section, key, index + 1, name, if name == section then Some(index) else start)
  {
  }

  lemma {:induction false} ScanOther(views: seq<View>, section: string, key: string, index: nat, current: string, start: Option<nat>)
    requires index < |views| && !views[index].Opens?
    requires Scanned(views, section, key, index, current, start)
    requires current == section ==> views[index] != Assigns(key)
    ensures Scanned(views, section, key, index + 1, current, start)
  {
  }

  lemma {:induction false} ScanKey(views: seq<View>, section: string, key: string, index: nat, start: Option<nat>)
    requires index < |views| && views[index] == Assigns(key)
    requires Scanned(views, section, key, index, section, start)
    ensures Locate(views, section, key) == Replace(index)
  {
  }

  lemma {:induction false} ScanEnd(views: seq<View>, section: string, key: string, index: nat, current: string, start: Option<nat>)
    requires index <= |views|
    requires index < |views| ==> views[index].Opens? && start.Some?
    requires Scanned(views, section, key, index, current, start)
    ensures Locate(views, section, key) == if start.None? then Append else Insert(index)
    ensures start.Some? ==> start.value < index
  {
  }

  /** The section a cleaned line opens, if it is a header. */
  method HeaderOf(line: string) returns (name: Option<string>)
    ensures name == if ViewOf(line).Opens? then Some(ViewOf(line).section) else None
  {
    if line != [] && line[0] == '[' && line[|line| - 1] == ']' {
      return Some(Trim(line[1..|line| - 1]));
    }
    return None;
  }

  /** The key a cleaned line assigns, if it is no header. */
  method KeyOf(line: string) returns (key: Option<string>)
    requires !ViewOf(line).Opens?
    ensures ViewOf(line) == if key.Some? then Assigns(key.value) else Other
  {
    var pair := SplitOnce(line, '=');
    return if pair.Some? then Some(Trim(pair.value.0)) else None;
  }

  /** The pass over the lines, up to the line it edits. */
  method FindPlace(lines: seq<string>, section: string, key: string) returns (place: Place)
    ensures place == Locate(Views(lines), section, key)
  {
    ghost var views := Views(lines);
    var currentSection := "";
    var sectionStart: Option<nat> := None;
    var insertBefore := |lines|;
    var index := 0;
    while index < |lines|
      invariant 0 <= index <= |lines| == |views|
      invariant insertBefore == |lines|
      invariant Scanned(views, section, key, index, currentSection, sectionStart)
    {
      var line := StripComment(lines[index]);
      line := Trim(line);
      assert views[index] == ViewOf(line);
      var header := HeaderOf(line);
      if header.Some? {
        if sectionStart.Some? && currentSection == section {
          insertBefore := index;
          break;
        }
        ScanHeader(views, section, key, index, currentSection, sectionStart);
        currentSection := header.value;
        if currentSection == section {
          sectionStart := Some(index);
          insertBefore := |lines|;
        }
        index := index + 1;
        continue;
      }
      if currentSection == section {
        var lineKey := KeyOf(line);
        if lineKey.Some? && lineKey.value == key {
          ScanKey(views, section, key, index, sectionStart);
          return Replace(index);
        }
      }
      ScanOther(views, section, key, index, currentSection, sectionStart);
      index := index + 1;
    }
    ScanEnd(views, section, key, index, currentSection, sectionStart);
    match sectionStart {
      case Some(start) =>
        return Insert(if insertBefore < start + 1 then start + 1 else insertBefore);
      case None =>
        return Append;
    }
  }

  method SetTomlBool(text: string, section: string, key: string, enabled: bool) returns (r: string)
    ensures r == Edit(text, section, key, enabled)
  {
    var rendered := Render(key, enabled);
    var lines := Lines(text);
    var place := FindPlace(lines, section, key);
    match place {
      case Replace(index) =>
        lines := lines[index := rendered];
      case Insert(insertAt) =>
        lines := lines[..insertAt] + [rendered] + lines[insertAt..];
      case Append =>
        if lines != [] && Trim(lines[|lines| - 1]) != [] {
          lines := lines + [""];
        }
        lines := lines + ["[" + section + "]"];
        lines := lines + [rendered];
    }
    return EnsureTrailingNewline(Join(lines));
  }
}

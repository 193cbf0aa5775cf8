/**
 Editing the text and updating the parsed map are the same thing. The proof works on the items of the
 lines: an edit adds one definition to, or changes one definition of, the list the parser collects.
 */
module ConfigLaws {
  import opened Wrappers
  import opened Text
  import opened ConfigParser
  import opened ConfigEditor

  // ---------------------------------------------------------------- definitions of concatenated lines

  lemma {:induction false} DefsAppend(a: seq<Item>, b: seq<Item>, section: string)
    ensures Defs(a + b, section) == Defs(a, section) + Defs(b, SectionAfter(a, section))
  {
    if a == [] {
      assert a + b == b;
    } else {
      assert (a + b)[1..] == a[1..] + b;
      DefsAppend(a[1..], b, if a[0].Header? then a[0].name else section);
    }
  }

  lemma {:induction false} SectionAfterSnoc(a: seq<Item>, x: Item, section: string)
    ensures SectionAfter(a + [x], section) == if x.Header? then x.name else SectionAfter(a, section)
  {
    if a != [] {
      assert (a + [x])[1..] == a[1..] + [x];
      SectionAfterSnoc(a[1..], x, if a[0].Header? then a[0].name else section);
    } else {
      assert (a + [x])[1..] == [];
    }
  }

  lemma {:induction false} SectionAtIsSectionAfter(items: seq<Item>, i: nat)
    requires i <= |items|
    ensures SectionAt(items, i) == SectionAfter(items[..i], "")
  {
    if i > 0 {
      SectionAtIsSectionAfter(items, i - 1);
      assert items[..i] == items[..i - 1] + [items[i - 1]];
      SectionAfterSnoc(items[..i - 1], items[i - 1], "");
    }
  }

  lemma {:induction false} DefsSplit(items: seq<Item>, i: nat)
    requires i <= |items|
    ensures Defs(items, "") == Defs(items[..i], "") + Defs(items[i..], SectionAt(items, i))
  {
    assert items == items[..i] + items[i..];
    DefsAppend(items[..i], items[i..], "");
    SectionAtIsSectionAfter(items, i);
  }

  lemma {:induction false} ToMapAppend(a: seq<(string, string)>, b: seq<(string, string)>)
    ensures ToMap(a + b) == ToMap(a) + ToMap(b)
  {
    if a == [] {
      assert a + b == b;
    } else {
      var d := a[0];
      assert (a + b)[1..] == a[1..] + b && (a + b)[0] == d;
      ToMapAppend(a[1..], b);
      MapAssoc(map[d.0 := d.1], ToMap(a[1..]), ToMap(b));
    }
  }

  lemma {:induction false} ToMapKeys(defs: seq<(string, string)>)
    ensures forall k :: k in ToMap(defs) <==> k in KeysOf(defs)
  {
    if defs != [] {
      ToMapKeys(defs[1..]);
      assert KeysOf(defs) == [defs[0].0] + KeysOf(defs[1..]);
    }
  }

  lemma {:induction false} DistinctInsert(a: seq<string>, k: string, b: seq<string>)
    ensures Distinct(a + [k] + b) <==> Distinct(a + b) && k !in a + b
  {
    var with, without := a + [k] + b, a + b;
    if Distinct(with) {
      forall i, j | 0 <= i < j < |without|
        ensures without[i] != without[j]
      {
        assert without[i] == with[if i < |a| then i else i + 1];
        assert without[j] == with[if j < |a| then j else j + 1];
      }
      forall i | 0 <= i < |without|
        ensures without[i] != k
      {
        assert without[i] == with[if i < |a| then i else i + 1] && with[|a|] == k;
      }
    }
    if Distinct(without) && k !in without {
      forall i, j | 0 <= i < j < |with|
        ensures with[i] != with[j]
      {
        assert i != |a| ==> with[i] == without[if i < |a| then i else i - 1];
        assert j != |a| ==> with[j] == without[if j < |a| then j else j - 1];
      }
    }
  }

  lemma {:induction false} MapInsert(p: map<string, string>, k: string, v: string, q: map<string, string>)
    requires k !in p + q
    ensures p + map[k := v] + q == (p + q)[k := v]
  {
  }

  lemma {:induction false} ToMapOne(d: (string, string))
    ensures ToMap([d]) == map[d.0 := d.1]
  {
  }

  lemma {:induction false} ToMapMiddle(a: seq<(string, string)>, d: (string, string), b: seq<(string, string)>)
    ensures ToMap(a + [d] + b) == ToMap(a) + map[d.0 := d.1] + ToMap(b)
  {
    ToMapAppend(a + [d], b);
    ToMapAppend(a, [d]);
    ToMapOne(d);
  }

  /** One more definition: the keys stay distinct iff the key is new, and then the map gains it. */
  lemma {:induction false} InsertDef(a: seq<(string, string)>, k: string, v: string, b: seq<(string, string)>)
    requires Distinct(KeysOf(a + b))
    ensures Distinct(KeysOf(a + [(k, v)] + b)) <==> k !in ToMap(a + b)
    ensures k !in ToMap(a + b) ==> ToMap(a + [(k, v)] + b) == ToMap(a + b)[k := v]
  {
    assert KeysOf(a + [(k, v)] + b) == KeysOf(a) + [k] + KeysOf(b);
    assert KeysOf(a + b) == KeysOf(a) + KeysOf(b);
    DistinctInsert(KeysOf(a), k, KeysOf(b));
    ToMapKeys(a + b);
    if k !in ToMap(a + b) {
      ToMapMiddle(a, (k, v), b);
      ToMapAppend(a, b);
      MapInsert(ToMap(a), k, v, ToMap(b));
    }
  }

  /** One definition changed: the keys are as they were, and the map takes the new value. */
  lemma {:induction false} ReplaceDef(a: seq<(string, string)>, k: string, u: string, v: string, b: seq<(string, string)>)
    requires Distinct(KeysOf(a + [(k, u)] + b))
    ensures Distinct(KeysOf(a + [(k, v)] + b))
    ensures ToMap(a + [(k, v)] + b) == ToMap(a + [(k, u)] + b)[k := v]
  {
    assert KeysOf(a + [(k, u)] + b) == KeysOf(a) + [k] + KeysOf(b);
    assert KeysOf(a + b) == KeysOf(a) + KeysOf(b);
    DistinctInsert(KeysOf(a), k, KeysOf(b));
    InsertDef(a, k, u, b);
    InsertDef(a, k, v, b);
  }

  // ---------------------------------------------------------------- the edit on items

  /** Line `i` lies in the first block of the section. */
  ghost predicate InFirstBlock(items: seq<Item>, section: string, i: int) {
    exists h: nat :: FirstBlockHeader(items, section, h) && h < i < |items| && NoHeader(items, h + 1, i + 1)
  }

  ghost predicate FirstBlockHeader(items: seq<Item>, section: string, h: nat) {
    h < |items| && items[h] == Header(section) && Header(section) !in items[..h]
  }

  ghost predicate NoHeader(items: seq<Item>, from: nat, end: nat) {
    end <= |items| && forall j :: from <= j < end ==> !items[j].Header?
  }

  function ItemView(item: Item): View {
    match item
    case Header(name) => Opens(name)
    case Entry(key, _) => Assigns(key)
    case _ => Other
  }

  function ItemViews(items: seq<Item>): seq<View> {
    seq(|items|, i requires 0 <= i < |items| => ItemView(items[i]))
  }

  /** On lines the parser accepts, the editor sees what the parser sees. */
  lemma {:induction false} EditorSeesWhatTheParserSees(lines: seq<string>)
    requires AllGood(Items(lines))
    ensures Views(lines) == ItemViews(Items(lines))
  {
  }

  /** The edit on items; `gap` is the blank line that may precede an appended block. */
  function EditItems(items: seq<Item>, section: string, key: string, raw: string, gap: seq<Item>): seq<Item> {
    match Locate(ItemViews(items), section, key)
    case Replace(i) => items[i := Entry(key, raw)]
    case Insert(i) => items[..i] + [Entry(key, raw)] + items[i..]
    case Append => items + gap + [Header(section)] + [Entry(key, raw)]
  }

  function EditedLine(items: seq<Item>, section: string, key: string, gap: seq<Item>): nat {
    match Locate(ItemViews(items), section, key)
    case Replace(i) => i
    case Insert(i) => i
    case Append => |items| + |gap| + 1
  }

  lemma {:induction false} SectionAtInBlock(items: seq<Item>, h: nat, i: nat)
    requires h < i <= |items| && items[h].Header? && NoHeader(items, h + 1, i)
    ensures SectionAt(items, i) == items[h].name
  {
    if i > h + 1 {
      SectionAtInBlock(items, h, i - 1);
    }
  }

  lemma {:induction false} SectionAtPrefix(a: seq<Item>, b: seq<Item>, i: nat)
    requires i <= |a| && i <= |b| && a[..i] == b[..i]
    ensures SectionAt(a, i) == SectionAt(b, i)
  {
    SectionAtIsSectionAfter(a, i);
    SectionAtIsSectionAfter(b, i);
  }

  /** Where the edit lands: in the first block of the section, so that it defines the full key. */
  lemma {:induction false} EditedLineIsInFirstBlock(items: seq<Item>, section: string, key: string, raw: string, gap: seq<Item>)
    requires section != "" && gap in {[], [Blank]}
    ensures
      var edited := EditItems(items, section, key, raw, gap);
      var i := EditedLine(items, section, key, gap);
      && i < |edited| && InFirstBlock(edited, section, i) && edited[i] == Entry(key, raw)
      && SectionAt(edited, i) == section
  {
    var views := ItemViews(items);
    var edited := EditItems(items, section, key, raw, gap);
    var i := EditedLine(items, section, key, gap);
    var h := Find(views, Opens(section), 0, |views|);
    if h == |views| {
      forall j | 0 <= j < |items|
        ensures items[j] != Header(section)
      {
        assert views[j] != Opens(section);
      }
      assert edited[i - 1] == Header(section);
      assert FirstBlockHeader(edited, section, i - 1);
      assert NoHeader(edited, i, i + 1);
      SectionAtInBlock(edited, i - 1, i);
    } else {
      var end := NextHeader(views, h + 1);
      assert h < i <= end;
      forall j | h < j < end
        ensures !items[j].Header?
      {
        assert !views[j].Opens?;
      }
      forall j | 0 <= j < h
        ensures items[j] != Header(section)
      {
        assert views[j] != Opens(section);
      }
      assert views[h] == Opens(section);
      assert edited[..i] == items[..i] && edited[h] == items[h];
      assert FirstBlockHeader(edited, section, h);
      assert NoHeader(edited, h + 1, i + 1);
      SectionAtInBlock(edited, h, i);
    }
  }

  lemma {:induction false} DefsAround(items: seq<Item>, i: nat)
    requires i < |items| && items[i].Entry?
    ensures
      var section := SectionAt(items, i);
      Defs(items, "") ==
        Defs(items[..i], "") + [(FullKey(section, items[i].key), items[i].raw)] + Defs(items[i + 1..], section)
  {
    DefsSplit(items, i);
    assert items[i..][1..] == items[i + 1..];
  }

  lemma {:induction false} FirstBlockFound(items: seq<Item>, section: string)
    requires section != ""
    ensures
      var views := ItemViews(items);
      var h := Find(views, Opens(section), 0, |views|);
      && |views| == |items|
      && (h < |views| ==> FirstBlockHeader(items, section, h) && NoHeader(items, h + 1, NextHeader(views, h + 1)))
      && (forall g: nat :: g < |items| && FirstBlockHeader(items, section, g) ==> g == h)
  {
    var views := ItemViews(items);
    assert forall j :: 0 <= j < |items| ==> views[j] == ItemView(items[j]);
  }

  /** In the first block, a line of the section lies before the next header. */
  lemma {:induction false} WithinFirstBlock(items: seq<Item>, section: string, h: nat, j: nat)
    requires section != "" && InFirstBlock(items, section, j)
    requires h == Find(ItemViews(items), Opens(section), 0, |ItemViews(items)|)
    ensures h < j < |items| && h < |items| && j < NextHeader(ItemViews(items), h + 1)
  {
    FirstBlockFound(items, section);
    var views := ItemViews(items);
    var g: nat :| FirstBlockHeader(items, section, g) && g < j < |items| && NoHeader(items, g + 1, j + 1);
    assert forall j :: 0 <= j < |items| ==> views[j] == ItemView(items[j]);
  }

  /** Locating a key inside a block means that the line carries it and the block is the section's. */
  lemma {:induction false} LocatedLine(items: seq<Item>, section: string, key: string)
    requires section != ""
    ensures
      match Locate(ItemViews(items), section, key)
      case Replace(i) =>
        items[i].Entry? && items[i].key == key && SectionAt(items, i) == section && InFirstBlock(items, section, i)
      case Insert(i) =>
        && SectionAt(items, i) == section
        && forall j :: InFirstBlock(items, section, j) ==> ItemView(items[j]) != Assigns(key)
      case Append => forall j :: !InFirstBlock(items, section, j)
  {
    var views := ItemViews(items);
    var h := Find(views, Opens(section), 0, |views|);
    FirstBlockFound(items, section);
    match Locate(views, section, key) {
      case Replace(i) =>
        assert NoHeader(items, h + 1, i + 1);
        assert views[i] == ItemView(items[i]);
        SectionAtInBlock(items, h, i);
      case Insert(i) =>
        SectionAtInBlock(items, h, i);
        forall j | InFirstBlock(items, section, j)
          ensures ItemView(items[j]) != Assigns(key)
        {
          WithinFirstBlock(items, section, h, j);
          assert views[j] == ItemView(items[j]);
        }
      case Append =>
    }
  }

  /** The effect of an edit on the list of definitions `before`, giving `after`. */
  ghost predicate AddsOne(before: seq<(string, string)>, after: seq<(string, string)>, full: string, raw: string) {
    && (Distinct(KeysOf(after)) <==> full !in ToMap(before))
    && (Distinct(KeysOf(after)) ==> ToMap(after) == ToMap(before)[full := raw])
  }

  lemma {:induction false} ReplacedDefs(items: seq<Item>, i: nat, raw: string)
    requires i < |items| && items[i].Entry? && Distinct(KeysOf(Defs(items, "")))
    ensures
      var full := FullKey(SectionAt(items, i), items[i].key);
      var after := Defs(items[i := Entry(items[i].key, raw)], "");
      Distinct(KeysOf(after)) && ToMap(after) == ToMap(Defs(items, ""))[full := raw]
  {
    var edited := items[i := Entry(items[i].key, raw)];
    var section := SectionAt(items, i);
    SectionAtPrefix(items, edited, i);
    DefsAround(items, i);
    DefsAround(edited, i);
    assert edited[..i] == items[..i] && edited[i + 1..] == items[i + 1..];
    ReplaceDef(Defs(items[..i], ""), FullKey(section, items[i].key), items[i].raw, raw, Defs(items[i + 1..], section));
  }

  lemma {:induction false} InsertedDefs(items: seq<Item>, i: nat, key: string, raw: string)
    requires i <= |items| && Distinct(KeysOf(Defs(items, "")))
    ensures
      AddsOne(Defs(items, ""), Defs(items[..i] + [Entry(key, raw)] + items[i..], ""),
              FullKey(SectionAt(items, i), key), raw)
  {
    var edited := items[..i] + [Entry(key, raw)] + items[i..];
    var section := SectionAt(items, i);
    SectionAtPrefix(items, edited, i);
    DefsSplit(items, i);
    DefsAround(edited, i);
    assert edited[..i] == items[..i] && edited[i + 1..] == items[i..];
    InsertDef(Defs(items[..i], ""), FullKey(section, key), raw, Defs(items[i..], section));
  }

  /** Lines without entries can be appended without any effect. */
  lemma {:induction false} DefsOfQuietTail(items: seq<Item>, tail: seq<Item>)
    requires forall i :: 0 <= i < |tail| ==> !tail[i].Entry?
    ensures Defs(items + tail, "") == Defs(items, "")
  {
    DefsAppend(items, tail, "");
    NoDefs(tail, SectionAfter(items, ""));
  }

  lemma {:induction false} NoDefs(items: seq<Item>, section: string)
    requires forall i :: 0 <= i < |items| ==> !items[i].Entry?
    ensures Defs(items, section) == []
  {
    if items != [] {
      NoDefs(items[1..], if items[0].Header? then items[0].name else section);
    }
  }

  lemma {:induction false} EditedGood(items: seq<Item>, section: string, key: string, raw: string, gap: seq<Item>)
    requires AllGood(items) && gap in {[], [Blank]}
    ensures AllGood(EditItems(items, section, key, raw, gap))
  {
  }

  /** The heart of the matter: what the edit does to the list of definitions. */
  lemma {:induction false} EditedDefs(items: seq<Item>, section: string, key: string, raw: string, gap: seq<Item>)
    requires Distinct(KeysOf(Defs(items, "")))
    requires section != "" && gap in {[], [Blank]}
    ensures
      var edited := EditItems(items, section, key, raw, gap);
      var full := FullKey(section, key);
      var before, after := Defs(items, ""), Defs(edited, "");
      && (Distinct(KeysOf(after)) <==>
            Locate(ItemViews(items), section, key).Replace? || full !in ToMap(before))
      && (Distinct(KeysOf(after)) ==> ToMap(after) == ToMap(before)[full := raw])
  {
    LocatedLine(items, section, key);
    match Locate(ItemViews(items), section, key) {
      case Replace(i) =>
        ReplacedDefs(items, i, raw);
      case Insert(i) =>
        InsertedDefs(items, i, key, raw);
      case Append =>
        var tail := gap + [Header(section)];
        var longer := items + tail;
        DefsOfQuietTail(items, tail);
        assert SectionAt(longer, |longer|) == section;
        InsertedDefs(longer, |longer|, key, raw);
        assert longer[..|longer|] + [Entry(key, raw)] + longer[|longer|..] == EditItems(items, section, key, raw, gap);
    }
  }
}

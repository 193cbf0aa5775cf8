/**
 What importing one claimed file stores. Payload fields are taken as already decoded, or as having failed
 to decode; the store is a list of accepted archives and a rule for what it accepts next.
 */
module SpoolArchive {
  import opened Wrappers

  const CAPTURE_SCHEMA_VERSION := 1

  type Item = nat

  /** The records, and side by side the ten other lists of an archive. */
  datatype Archive = Archive(records: seq<Item>, others: seq<(nat, Item)>)

  datatype FileError = InvalidJsonLine(line: nat) | UnsupportedSchemaVersion(version: nat) | InvalidPayload | Rejected

  /** `Record` covers both a "record" object and a payload that has record fields itself. */
  datatype Payload =
    | Nested(archive: Result<Archive, FileError>)
    | Record(record: Result<Item, FileError>)
    | Neither

  datatype Envelope = Envelope(version: nat, payload: Payload)

  datatype Line = Blank | Malformed | Json(envelope: Envelope)

  // ---------------------------------------------------------------- reading the lines

  predicate LineOk(line: Line) {
    line.Blank? || (line.Json? && line.envelope.version == CAPTURE_SCHEMA_VERSION)
  }

  predicate AllOk(lines: seq<Line>) {
    forall i :: 0 <= i < |lines| ==> LineOk(lines[i])
  }

  function Envelopes(lines: seq<Line>): seq<Envelope> {
    if lines == [] then []
    else
      Envelopes(lines[..|lines| - 1])
      + if lines[|lines| - 1].Json? then [lines[|lines| - 1].envelope] else []
  }

  /** `read_jsonl`: all the envelopes, or the first line that is wrong. */
  method ReadJsonl(lines: seq<Line>) returns (r: Result<seq<Envelope>, FileError>)
    ensures r.Ok? <==> AllOk(lines)
    ensures r.Ok? ==> r.value == Envelopes(lines)
    ensures r.Err? ==> exists k ::
      && 0 <= k < |lines| && AllOk(lines[..k]) && !LineOk(lines[k])
      && r.error == if lines[k].Json? then UnsupportedSchemaVersion(lines[k].envelope.version) else InvalidJsonLine(k + 1)
  {
    var envelopes: seq<Envelope> := [];
    var lineNumber := 0;
    while lineNumber < |lines|
      invariant 0 <= lineNumber <= |lines|
      invariant AllOk(lines[..lineNumber]) && envelopes == Envelopes(lines[..lineNumber])
    {
      var line := lines[lineNumber];
      assert lines[..lineNumber + 1][..lineNumber] == lines[..lineNumber];
      lineNumber := lineNumber + 1;
      match line {
        case Blank =>
        case Malformed =>
          return Err(InvalidJsonLine(lineNumber));
        case Json(envelope) =>
          if envelope.version != CAPTURE_SCHEMA_VERSION {
            return Err(UnsupportedSchemaVersion(envelope.version));
          }
          envelopes := envelopes + [envelope];
      }
    }
    assert lines[..|lines|] == lines;
    r := Ok(envelopes);
  }

  // ---------------------------------------------------------------- archives

  function Joined(a: Archive, b: Archive): Archive {
    Archive(a.records + b.records, a.others + b.others)
  }

  const EMPTY := Archive([], [])

  /** What one envelope contributes. */
  function Contribution(e: Envelope): Result<Archive, FileError> {
    if e.version != CAPTURE_SCHEMA_VERSION then Err(UnsupportedSchemaVersion(e.version))
    else
      match e.payload
      case Nested(archive) => archive
      case Record(Ok(record)) => Ok(Archive([record], []))
      case Record(Err(error)) => Err(error)
      case Neither => Ok(EMPTY)
  }

  function JoinedResult(a: Result<Archive, FileError>, b: Result<Archive, FileError>): Result<Archive, FileError> {
    match (a, b)
    case (Err(error), _) => Err(error)
    case (Ok(_), Err(error)) => Err(error)
    case (Ok(x), Ok(y)) => Ok(Joined(x, y))
  }

  function ArchiveOf(envelopes: seq<Envelope>): Result<Archive, FileError> {
    if envelopes == [] then Ok(EMPTY)
    else JoinedResult(ArchiveOf(envelopes[..|envelopes| - 1]), Contribution(envelopes[|envelopes| - 1]))
  }

  lemma {:induction false} JoinedAssociates(a: Archive, b: Archive, c: Archive)
    ensures Joined(Joined(a, b), c) == Joined(a, Joined(b, c))
    ensures Joined(a, EMPTY) == a == Joined(EMPTY, a)
  {
  }

  lemma {:induction false} ResultsAssociate(a: Result<Archive, FileError>, b: Result<Archive, FileError>,
                                            c: Result<Archive, FileError>)
    ensures JoinedResult(JoinedResult(a, b), c) == JoinedResult(a, JoinedResult(b, c))
    ensures JoinedResult(a, Ok(EMPTY)) == a == JoinedResult(Ok(EMPTY), a)
  {
    if a.Ok? {
      JoinedAssociates(a.value, a.value, a.value);
      if b.Ok? && c.Ok? {
        JoinedAssociates(a.value, b.value, c.value);
      }
    }
  }

  /** The archive of a list in two parts is the archives of the parts, joined; the first error wins. */
  lemma {:induction false} ArchiveOfAppend(a: seq<Envelope>, b: seq<Envelope>)
    ensures ArchiveOf(a + b) == JoinedResult(ArchiveOf(a), ArchiveOf(b))
    decreases |b|
  {
    if b == [] {
      assert a + b == a;
      ResultsAssociate(ArchiveOf(a), Ok(EMPTY), Ok(EMPTY));
    } else {
      var init, last := b[..|b| - 1], b[|b| - 1];
      ArchiveOfAppend(a, init);
      assert (a + b)[..|a + b| - 1] == a + init && (a + b)[|a + b| - 1] == last;
      ResultsAssociate(ArchiveOf(a), ArchiveOf(init), Contribution(last));
    }
  }

  /** The records, and the members of the other lists, that an envelope brings. */
  predicate Brings(e: Envelope, archive: Archive) {
    match e.payload
    case Nested(nested) => nested == Ok(archive)
    case Record(record) => record.Ok? && archive == Archive([record.value], [])
    case Neither => archive == Archive([], [])
  }

  /** The archive of envelopes holds what each of them brings, whole and in its place, and nothing else. */
  lemma {:induction false} ArchiveHoldsAll(envelopes: seq<Envelope>, i: nat) returns (before: Archive, own: Archive, after: Archive)
    requires i < |envelopes| && ArchiveOf(envelopes).Ok?
    ensures ArchiveOf(envelopes[..i]) == Ok(before) && Brings(envelopes[i], own)
    ensures ArchiveOf(envelopes[i + 1..]) == Ok(after)
    ensures ArchiveOf(envelopes).value.records == before.records + own.records + after.records
    ensures ArchiveOf(envelopes).value.others == before.others + own.others + after.others
  {
    var e := envelopes[i];
    ArchiveOfOne(e);
    ArchiveOfAppend(envelopes[..i], [e]);
    ArchiveOfAppend(envelopes[..i] + [e], envelopes[i + 1..]);
    assert envelopes == envelopes[..i] + [e] + envelopes[i + 1..];
    before, own, after :=
      ArchiveOf(envelopes[..i]).value, Contribution(e).value, ArchiveOf(envelopes[i + 1..]).value;
  }

  lemma {:induction false} ArchiveOfOne(e: Envelope)
    ensures ArchiveOf([e]) == Contribution(e)
  {
    assert [e][..0] == [];
    ResultsAssociate(Contribution(e), Ok(EMPTY), Ok(EMPTY));
  }

  /** `archive_from_envelopes`. */
  method ArchiveFromEnvelopes(envelopes: seq<Envelope>) returns (r: Result<Archive, FileError>)
    ensures r == ArchiveOf(envelopes)
  {
    var records: seq<Item> := [];
    var others: seq<(nat, Item)> := [];
    for i := 0 to |envelopes|
      invariant ArchiveOf(envelopes[..i]) == Ok(Archive(records, others))
    {
      var envelope := envelopes[i];
      assert envelopes[..i + 1][..i] == envelopes[..i];
      assert envelopes == envelopes[..i + 1] + envelopes[i + 1..];
      ArchiveOfAppend(envelopes[..i + 1], envelopes[i + 1..]);
      assert records + [] == records && others + [] == others;
      if envelope.version != CAPTURE_SCHEMA_VERSION {
        return Err(UnsupportedSchemaVersion(envelope.version));
      }
      match envelope.payload {
        case Nested(archive) =>
          if archive.Err? {
            return Err(archive.error);
          }
          records := records + archive.value.records;
          others := others + archive.value.others;
        case Record(record) =>
          if record.Err? {
            return Err(record.error);
          }
          records := records + [record.value];
        case Neither =>
      }
    }
    assert envelopes[..|envelopes|] == envelopes;
    r := Ok(Archive(records, others));
  }

  // ---------------------------------------------------------------- the store

  /** One archive for each envelope, in order. */
  function Singles(envelopes: seq<Envelope>): seq<Archive>
    requires forall i :: 0 <= i < |envelopes| ==> Contribution(envelopes[i]).Ok?
  {
    seq(|envelopes|, i requires 0 <= i < |envelopes| => Contribution(envelopes[i]).value)
  }

  ghost predicate AllContribute(envelopes: seq<Envelope>) {
    forall i :: 0 <= i < |envelopes| ==> Contribution(envelopes[i]).Ok?
  }

  predicate Fails(envelope: Envelope, stored: seq<Archive>, accepts: (seq<Archive>, Archive) -> bool) {
    Contribution(envelope).Err? || !accepts(stored, Contribution(envelope).value)
  }

  /** What a list of envelopes adds to a store: the archives before the first that fails. */
  function Kept(envelopes: seq<Envelope>, stored: seq<Archive>, accepts: (seq<Archive>, Archive) -> bool): (kept: seq<Archive>)
    ensures |kept| <= |envelopes|
    decreases |envelopes|
  {
    if envelopes == [] || Fails(envelopes[0], stored, accepts) then []
    else
      var archive := Contribution(envelopes[0]).value;
      [archive] + Kept(envelopes[1..], stored + [archive], accepts)
  }

  lemma {:induction false} KeptUpTo(envelopes: seq<Envelope>, stored: seq<Archive>, accepts: (seq<Archive>, Archive) -> bool, i: nat)
    requires i <= |Kept(envelopes, stored, accepts)|
    ensures var kept := Kept(envelopes, stored, accepts);
      && (i < |kept| ==> !Fails(envelopes[i], stored + kept[..i], accepts) && Contribution(envelopes[i]) == Ok(kept[i]))
      && (i == |kept| < |envelopes| ==> Fails(envelopes[i], stored + kept[..i], accepts))
    decreases |envelopes|
  {
    var kept := Kept(envelopes, stored, accepts);
    if i == 0 {
      assert stored + kept[..0] == stored;
    } else {
      var rest := Kept(envelopes[1..], stored + [kept[0]], accepts);
      KeptUpTo(envelopes[1..], stored + [kept[0]], accepts, i - 1);
      assert kept == [kept[0]] + rest;
      Shift(stored, kept, i);
    }
  }

  lemma {:induction false} Shift(stored: seq<Archive>, kept: seq<Archive>, i: nat)
    requires 0 < i <= |kept|
    ensures stored + [kept[0]] + kept[1..][..i - 1] == stored + kept[..i]
  {
  }

  function RecordsIn(archives: seq<Archive>): nat {
    if archives == [] then 0 else RecordsIn(archives[..|archives| - 1]) + |archives[|archives| - 1].records|
  }

  /** The archive of envelopes that all contribute holds the records of their archives. */
  lemma {:induction false} ArchiveOfContributing(envelopes: seq<Envelope>)
    requires forall i :: 0 <= i < |envelopes| ==> Contribution(envelopes[i]).Ok?
    ensures ArchiveOf(envelopes).Ok? && |ArchiveOf(envelopes).value.records| == RecordsIn(Singles(envelopes))
  {
    if envelopes != [] {
      var init := envelopes[..|envelopes| - 1];
      ArchiveOfContributing(init);
      assert Singles(envelopes)[..|envelopes| - 1] == Singles(init);
    }
  }

  /** What is kept is the envelopes before the first that fails, one archive each. */
  lemma {:induction false} KeptIsAPrefix(envelopes: seq<Envelope>, stored: seq<Archive>, accepts: (seq<Archive>, Archive) -> bool)
    ensures var kept := Kept(envelopes, stored, accepts);
      var prefix := envelopes[..|kept|];
      && AllContribute(prefix) && kept == Singles(prefix)
      && ArchiveOf(prefix).Ok? && |ArchiveOf(prefix).value.records| == RecordsIn(kept)
      && (|kept| < |envelopes| ==> Fails(envelopes[|kept|], stored + kept, accepts))
  {
    var kept := Kept(envelopes, stored, accepts);
    forall i | 0 <= i < |kept|
      ensures Contribution(envelopes[..|kept|][i]) == Ok(kept[i])
    {
      KeptUpTo(envelopes, stored, accepts, i);
    }
    KeptUpTo(envelopes, stored, accepts, |kept|);
    assert kept[..|kept|] == kept;
    ArchiveOfContributing(envelopes[..|kept|]);
  }

  class Store {
    var archives: seq<Archive>
    const accepts: (seq<Archive>, Archive) -> bool

    constructor (accepts: (seq<Archive>, Archive) -> bool)
      ensures archives == [] && this.accepts == accepts
    {
      archives := [];
      this.accepts := accepts;
    }

    /** `import_envelope`: one transaction. */
    method ImportEnvelope(envelope: Envelope) returns (r: Result<nat, FileError>)
      modifies this`archives
      ensures r.Ok? <==> Contribution(envelope).Ok? && accepts(old(archives), Contribution(envelope).value)
      ensures r.Ok? ==> archives == old(archives) + [Contribution(envelope).value]
      ensures r.Ok? ==> r.value == |Contribution(envelope).value.records|
      ensures r.Err? ==> archives == old(archives)
    {
      ArchiveOfOne(envelope);
      var archive := ArchiveFromEnvelopes([envelope]);
      if archive.Err? {
        return Err(archive.error);
      }
      if !accepts(archives, archive.value) {
        return Err(Rejected);
      }
      archives := archives + [archive.value];
      r := Ok(|archive.value.records|);
    }

    /**
     `import_processing_file`. A file that imports has all its envelopes stored in order and counts the
     records of their archive. One that fails keeps the envelopes before the first that has no archive or
     is rejected, and nothing at all iff a line is wrong or that envelope is the first.
     */
    method ImportProcessingFile(lines: seq<Line>) returns (r: Result<nat, FileError>)
      modifies this`archives
      ensures archives == old(archives) + if AllOk(lines) then Kept(Envelopes(lines), old(archives), accepts) else []
      ensures r.Ok? <==> AllOk(lines) && |Kept(Envelopes(lines), old(archives), accepts)| == |Envelopes(lines)|
      ensures r.Ok? ==>
        && AllContribute(Envelopes(lines)) && archives == old(archives) + Singles(Envelopes(lines))
        && ArchiveOf(Envelopes(lines)).Ok? && r.value == |ArchiveOf(Envelopes(lines)).value.records|
      ensures AllOk(lines) && r.Err? ==> exists k ::
        && 0 <= k < |Envelopes(lines)| && AllContribute(Envelopes(lines)[..k])
        && archives == old(archives) + Singles(Envelopes(lines)[..k])
        && Fails(Envelopes(lines)[k], archives, accepts)
      ensures r.Err? ==>
        (archives == old(archives) <==> AllOk(lines) ==> Fails(Envelopes(lines)[0], old(archives), accepts))
    {
      var read := ReadJsonl(lines);
      if read.Err? {
        return Err(read.error);
      }
      r := ImportEnvelopes(read.value);
      KeptIsAPrefix(read.value, old(archives), accepts);
      assert r.Ok? ==> read.value[..|read.value|] == read.value;
    }

    /** The envelopes of one file, until one fails. */
    method ImportEnvelopes(envelopes: seq<Envelope>) returns (r: Result<nat, FileError>)
      modifies this`archives
      ensures var kept := Kept(envelopes, old(archives), accepts);
        && archives == old(archives) + kept
        && (r.Ok? <==> |kept| == |envelopes|)
        && (r.Ok? ==> r.value == RecordsIn(kept))
    {
      ghost var kept := Kept(envelopes, archives, accepts);
      var records := 0;
      for i := 0 to |envelopes|
        invariant i <= |kept| && archives == old(archives) + kept[..i] && records == RecordsIn(kept[..i])
      {
        KeptUpTo(envelopes, old(archives), accepts, i);
        var counts := ImportEnvelope(envelopes[i]);
        if counts.Err? {
          assert kept[..i] == kept;
          return Err(counts.error);
        }
        assert kept[..i + 1][..i] == kept[..i];
        records := records + counts.value;
      }
      assert kept[..|envelopes|] == kept;
      r := Ok(records);
    }
  }

  /** A failed file that keeps its first envelope: the second carries a record that cannot be read. */
  lemma {:induction false} FailedFileKeepsItsStart(record: Item)
    ensures
      var envelopes := [Envelope(1, Record(Ok(record))), Envelope(1, Record(Err(InvalidPayload)))];
      Kept(envelopes, [], (stored, archive) => true) == [Archive([record], [])]
  {
    var first, second := Envelope(1, Record(Ok(record))), Envelope(1, Record(Err(InvalidPayload)));
    assert [first, second][1..] == [second];
  }
}

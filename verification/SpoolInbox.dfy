/**
 One process at work on the inbox: `import_spool`, `spool_counts` and `retry_failed_spool_files`, with the
 summaries they return. What the store makes of a file is a parameter, and so are the files that another
 importer claims between this one's listing and its claim.
 */
module SpoolInbox {
  import opened Wrappers
  import opened SpoolNames
  import opened Sorting

  datatype Entry = File(text: string) | Other

  type Entries = map<string, Entry>

  datatype Outcome = Imported(records: nat) | Refused(error: string)

  datatype Failure = Failure(path: string, error: string)

  /** `SpoolImportSummary`. */
  datatype Summary = Summary(processed: nat, skipped: nat, records: nat, failed: nat, failures: seq<Failure>)

  /** `SpoolCounts`. */
  datatype Counts = Counts(pending: nat, tmp: nat, processing: nat, done: nat, failed: nat)

  datatype SpoolError = InvalidPath(name: string) | NotFound(name: string)

  /** A directory listing: every name once, in any order. */
  ghost predicate Lists(listing: seq<string>, entries: Entries) {
    && (forall n :: n in listing <==> n in entries)
    && (forall i, j :: 0 <= i < j < |listing| ==> listing[i] != listing[j])
  }

  /** The order of paths. */
  predicate NotAfter(a: string, b: string) {
    a == [] || (b != [] && (a[0] < b[0] || (a[0] == b[0] && NotAfter(a[1..], b[1..]))))
  }

  function Renamed(entries: Entries, from: string, dest: string): Entries
    requires from in entries
  {
    (entries - {from})[dest := entries[from]]
  }

  /** The state a listed file ends in: claimed elsewhere, or moved on by this importer. */
  function Target(outcome: Outcome): Class {
    if outcome.Imported? then Done else Failed
  }

  /** What one importer leaves of the files `names`, when others claim those in `taken` before it can. */
  function After(entries: Entries, names: seq<string>, taken: set<string>, store: (string, Entry) -> Outcome): Entries {
    if names == [] then entries
    else
      var n := names[|names| - 1];
      var e := After(entries, names[..|names| - 1], taken, store);
      if n !in e then e
      else
        var claimed := Renamed(e, n, At(n, Processing));
        if n in taken then claimed else Renamed(claimed, At(n, Processing), At(n, Target(store(n, e[n]))))
  }

  /** The summary it returns. */
  function Report(entries: Entries, names: seq<string>, taken: set<string>, store: (string, Entry) -> Outcome): Summary {
    if names == [] then Summary(0, 0, 0, 0, [])
    else
      var n := names[|names| - 1];
      var r := Report(entries, names[..|names| - 1], taken, store);
      var e := After(entries, names[..|names| - 1], taken, store);
      if n in taken || n !in e then r.(skipped := r.skipped + 1)
      else
        match store(n, e[n])
        case Imported(records) => r.(processed := r.processed + 1, records := r.records + records)
        case Refused(error) =>
          r.(processed := r.processed + 1, failed := r.failed + 1,
             failures := r.failures + [Failure(At(n, Failed), error)])
  }

  /** What retrying the failed files of a listing leaves, and what it reports. */
  function Retried(entries: Entries, listing: seq<string>): (Entries, Result<nat, SpoolError>) {
    if listing == [] then (entries, Ok(0))
    else
      var name := listing[|listing| - 1];
      var (e, r) := Retried(entries, listing[..|listing| - 1]);
      match (r, StripSuffix(name, FAILED))
      case (Err(_), _) => (e, r)
      case (_, None) => (e, r)
      case (Ok(k), Some(base)) =>
        if !IsBase(base) then (e, r)
        else if base in e then (e, Err(InvalidPath(base)))
        else if name !in e then (e, Err(NotFound(name)))
        else (Renamed(e, name, base) - {AppendSuffix(name, ERROR_JSON)}, Ok(k + 1))
  }

  const ERROR_JSON := ".error.json"

  function CountClass(listing: seq<string>, c: Class): nat {
    if listing == [] then 0
    else CountClass(listing[..|listing| - 1], c) + if ClassOf(listing[|listing| - 1]) == Some(c) then 1 else 0
  }

  function CountsOf(listing: seq<string>): Counts {
    Counts(CountClass(listing, Pending), CountClass(listing, Tmp), CountClass(listing, Processing),
           CountClass(listing, Done), CountClass(listing, Failed))
  }

  class Inbox {
    var entries: Entries

    constructor (initial: Entries)
      ensures entries == initial
    {
      entries := initial;
    }

    /** `pending_spool_files`. */
    method PendingFiles(listing: seq<string>) returns (r: Result<seq<string>, SpoolError>)
      requires Lists(listing, entries)
      ensures r.Ok? ==> forall n :: n in r.value <==> n in entries && IsBase(n)
      ensures r.Ok? ==> OrderedBy(r.value, NotAfter) && NoRepeats(r.value)
      ensures r.Ok? <==> forall n :: n in entries && IsBase(n) ==> entries[n].File?
      ensures r.Err? ==> r.error.InvalidPath? && r.error.name in entries && entries[r.error.name].Other?
    {
      var files: seq<string> := [];
      for i := 0 to |listing|
        invariant forall n :: n in files <==> n in listing[..i] && IsBase(n)
        invariant forall n :: n in files ==> entries[n].File?
        invariant NoRepeats(files)
      {
        if IsBase(listing[i]) {
          if entries[listing[i]].Other? {
            return Err(InvalidPath(listing[i]));
          }
          assert listing[i] !in listing[..i];
          files := files + [listing[i]];
        }
      }
      SortedNames(files);
      r := Ok(SortBy(files, NotAfter));
    }

    /** Another process claims a file. */
    method OtherClaims(name: string)
      modifies this
      ensures entries == if name in old(entries) then Renamed(old(entries), name, At(name, Processing)) else old(entries)
    {
      if name in entries {
        entries := Renamed(entries, name, At(name, Processing));
      }
    }

    /** `claim_pending_file`. */
    method ClaimPending(name: string) returns (r: Result<string, SpoolError>)
      modifies this
      ensures r.Ok? <==> name in old(entries) && old(entries)[name].File?
      ensures r.Ok? ==> r.value == At(name, Processing) && entries == Renamed(old(entries), name, r.value)
      ensures r.Err? ==> entries == old(entries) && (r.error == NotFound(name) <==> name !in entries)
    {
      if name !in entries {
        return Err(NotFound(name));
      }
      if entries[name].Other? {
        return Err(InvalidPath(name));
      }
      var processing := AppendSuffix(name, PROCESSING);
      entries := Renamed(entries, name, processing);
      r := Ok(processing);
    }

    /** Moves a claimed file to the state the import earned it. */
    method MoveOn(processing: string, suffix: string) returns (dest: string)
      requires processing in entries && StatePath(processing, suffix).Some?
      modifies this
      ensures StatePath(processing, suffix) == Some(dest) && entries == Renamed(old(entries), processing, dest)
    {
      dest := StatePath(processing, suffix).value;
      entries := Renamed(entries, processing, dest);
    }

    /**
     `import_spool`: it stops before touching anything if a pending name is no regular file; otherwise
     every pending file is processed or skipped, and every failure reported.
     */
    method ImportSpool(listing: seq<string>, taken: set<string>, store: (string, Entry) -> Outcome)
      returns (r: Result<Summary, SpoolError>, ghost names: seq<string>)
      requires Lists(listing, entries)
      modifies this
      ensures r.Ok? <==> forall n :: n in old(entries) && IsBase(n) ==> old(entries)[n].File?
      ensures r.Err? ==> entries == old(entries)
      ensures r.Ok? ==>
        && NoRepeats(names) && (forall n :: n in names <==> n in old(entries) && IsBase(n))
        && entries == After(old(entries), names, taken, store) && r.value == Report(old(entries), names, taken, store)
        && r.value.processed + r.value.skipped == |names| && |r.value.failures| == r.value.failed
    {
      var files := PendingFiles(listing);
      names := [];
      if files.Err? {
        return Err(files.error), names;
      }
      names := files.value;
      Accounting(entries, names, taken, store);
      var summary := ImportFiles(files.value, taken, store);
      r := Ok(summary);
    }

    /** `import_spool`, after its listing. */
    method ImportFiles(names: seq<string>, taken: set<string>, store: (string, Entry) -> Outcome)
      returns (summary: Summary)
      requires NoRepeats(names) && forall n :: n in names ==> IsBase(n) && n in entries && entries[n].File?
      modifies this
      ensures entries == After(old(entries), names, taken, store)
      ensures summary == Report(old(entries), names, taken, store)
    {
      summary := Summary(0, 0, 0, 0, []);
      for i := 0 to |names|
        invariant entries == After(old(entries), names[..i], taken, store)
        invariant summary == Report(old(entries), names[..i], taken, store)
      {
        var name := names[i];
        assert names[..i + 1][..i] == names[..i];
        NotReached(old(entries), names, i, taken, store);
        summary := ImportOne(name, taken, store, summary);
      }
      assert names[..|names|] == names;
    }

    method ImportOne(name: string, taken: set<string>, store: (string, Entry) -> Outcome, so_far: Summary)
      returns (summary: Summary)
      requires name in entries && entries[name].File? && IsBase(name)
      modifies this
      ensures entries == (
        var claimed := Renamed(old(entries), name, At(name, Processing));
        if name in taken then claimed
        else Renamed(claimed, At(name, Processing), At(name, Target(store(name, old(entries)[name])))))
      ensures summary ==
        if name in taken then so_far.(skipped := so_far.skipped + 1)
        else
          match store(name, old(entries)[name])
          case Imported(records) => so_far.(processed := so_far.processed + 1, records := so_far.records + records)
          case Refused(error) =>
            so_far.(processed := so_far.processed + 1, failed := so_far.failed + 1,
                    failures := so_far.failures + [Failure(At(name, Failed), error)])
    {
      summary := so_far;
      if name in taken {
        OtherClaims(name);
      }
      var claim := ClaimPending(name);
      if claim.Err? {
        StatePathOfProcessing(name, "");
        NotItsOwnSuffix(name);
        summary := summary.(skipped := summary.skipped + 1);
        return;
      }
      var processing := claim.value;
      var outcome := store(name, entries[processing]);
      StatePathOfProcessing(name, Suffix(Done));
      StatePathOfProcessing(name, Suffix(Failed));
      NotItsOwnSuffix(name);
      match outcome {
        case Imported(records) =>
          var done := MoveOn(processing, Suffix(Done));
          summary := summary.(processed := summary.processed + 1, records := summary.records + records);
        case Refused(error) =>
          var failed := MoveOn(processing, Suffix(Failed));
          summary := summary.(processed := summary.processed + 1, failed := summary.failed + 1,
                              failures := summary.failures + [Failure(failed, error)]);
      }
    }

    /** `spool_counts`. */
    method SpoolCounts(listing: seq<string>) returns (counts: Counts)
      ensures counts == CountsOf(listing)
    {
      counts := Counts(0, 0, 0, 0, 0);
      for i := 0 to |listing|
        invariant counts == CountsOf(listing[..i])
      {
        var name := listing[i];
        assert listing[..i + 1][..i] == listing[..i];
        if EndsWith(name, ".jsonl") {
          counts := counts.(pending := counts.pending + 1);
        } else if EndsWith(name, ".jsonl.tmp") {
          counts := counts.(tmp := counts.tmp + 1);
        } else if EndsWith(name, ".jsonl.processing") {
          counts := counts.(processing := counts.processing + 1);
        } else if EndsWith(name, ".jsonl.done") {
          counts := counts.(done := counts.done + 1);
        } else if EndsWith(name, ".jsonl.failed") {
          counts := counts.(failed := counts.failed + 1);
        }
      }
      assert listing[..|listing|] == listing;
    }

    /** `retry_failed_spool_files`. */
    method RetryFailed(listing: seq<string>) returns (r: Result<nat, SpoolError>)
      modifies this
      ensures (entries, r) == Retried(old(entries), listing)
    {
      var retried := 0;
      for i := 0 to |listing|
        invariant (entries, Ok(retried)) == Retried(old(entries), listing[..i])
      {
        var name := listing[i];
        assert listing[..i + 1][..i] == listing[..i];
        var pending := StripSuffix(name, FAILED);
        if pending.None? || !IsBase(pending.value) {
          continue;
        }
        if pending.value in entries || name !in entries {
          r := Err(if pending.value in entries then InvalidPath(pending.value) else NotFound(name));
          StopsThere(old(entries), listing, i + 1);
          return;
        }
        entries := Renamed(entries, name, pending.value) - {AppendSuffix(name, ERROR_JSON)};
        retried := retried + 1;
      }
      assert listing[..|listing|] == listing;
      r := Ok(retried);
    }
  }

  // ---------------------------------------------------------------- the listing

  lemma {:induction false} NotAfterTotal(a: string, b: string)
    ensures NotAfter(a, b) || NotAfter(b, a)
    decreases |a|
  {
    if a != [] && b != [] && a[0] == b[0] {
      NotAfterTotal(a[1..], b[1..]);
    }
  }

  lemma {:induction false} NotAfterTransitive(a: string, b: string, c: string)
    requires NotAfter(a, b) && NotAfter(b, c)
    ensures NotAfter(a, c)
    decreases |a|
  {
    if a != [] && a[0] == b[0] == c[0] {
      NotAfterTransitive(a[1..], b[1..], c[1..]);
    }
  }

  lemma {:induction false} SortedNames(names: seq<string>)
    requires NoRepeats(names)
    ensures var sorted := SortBy(names, NotAfter);
      OrderedBy(sorted, NotAfter) && NoRepeats(sorted) && forall n :: n in sorted <==> n in names
  {
    forall a, b
      ensures NotAfter(a, b) || NotAfter(b, a)
    {
      NotAfterTotal(a, b);
    }
    forall a, b, c | NotAfter(a, b) && NotAfter(b, c)
      ensures NotAfter(a, c)
    {
      NotAfterTransitive(a, b, c);
    }
    SortOrders(names, NotAfter);
    SortKeepsMembers(names, NotAfter);
  }

  // ---------------------------------------------------------------- imports

  lemma {:induction false} NotItsOwnSuffix(name: string)
    requires IsBase(name)
    ensures At(name, Processing) != name
  {
  }

  function Lookup(entries: Entries, name: string): Option<Entry> {
    if name in entries then Some(entries[name]) else None
  }

  /** Importing some files leaves every name of any other file alone. */
  lemma {:induction false} OthersUntouched(entries: Entries, names: seq<string>, taken: set<string>,
                                           store: (string, Entry) -> Outcome, base: string, c: Class)
    requires IsBase(base) && base !in names && forall n :: n in names ==> IsBase(n)
    ensures Lookup(After(entries, names, taken, store), At(base, c)) == Lookup(entries, At(base, c))
  {
    if names != [] {
      var n := names[|names| - 1];
      OthersUntouched(entries, names[..|names| - 1], taken, store, base, c);
      NamesAreDistinct(n, Pending, base, c);
      NamesAreDistinct(n, Processing, base, c);
      NamesAreDistinct(n, Done, base, c);
      NamesAreDistinct(n, Failed, base, c);
      assert At(n, Pending) == n;
    }
  }

  lemma {:induction false} NotReached(entries: Entries, names: seq<string>, i: nat, taken: set<string>,
                                      store: (string, Entry) -> Outcome)
    requires i < |names| && NoRepeats(names) && forall n :: n in names ==> IsBase(n)
    ensures Lookup(After(entries, names[..i], taken, store), names[i]) == Lookup(entries, names[i])
  {
    assert names[i] !in names[..i];
    OthersUntouched(entries, names[..i], taken, store, names[i], Pending);
    assert At(names[i], Pending) == names[i];
  }

  /** How a file `entry` has been moved on: claimed elsewhere, or to the state this importer's attempt earned it. */
  ghost predicate MovedOn(after: Entries, n: string, entry: Entry, taken: set<string>, store: (string, Entry) -> Outcome) {
    && n !in after
    && (n in taken ==> Lookup(after, At(n, Processing)) == Some(entry))
    && (n !in taken ==> At(n, Processing) !in after && Lookup(after, At(n, Target(store(n, entry)))) == Some(entry))
  }

  lemma {:induction false} MovesOnOne(entries: Entries, n: string, taken: set<string>, store: (string, Entry) -> Outcome)
    requires IsBase(n) && n in entries
    ensures MovedOn(After(entries, [n], taken, store), n, entries[n], taken, store)
  {
    assert At(n, Pending) == n && [n][..0] == [];
    NamesAreDistinct(n, Pending, n, Processing);
    NamesAreDistinct(n, Pending, n, Done);
    NamesAreDistinct(n, Pending, n, Failed);
    NamesAreDistinct(n, Processing, n, Done);
    NamesAreDistinct(n, Processing, n, Failed);
  }

  lemma {:induction false} StaysMovedOn(entries: Entries, name: string, taken: set<string>,
                                        store: (string, Entry) -> Outcome, n: string, entry: Entry)
    requires IsBase(name) && IsBase(n) && n != name && MovedOn(entries, n, entry, taken, store)
    ensures MovedOn(After(entries, [name], taken, store), n, entry, taken, store)
  {
    StepElsewhere(entries, name, taken, store, n, Pending);
    StepElsewhere(entries, name, taken, store, n, Processing);
    StepElsewhere(entries, name, taken, store, n, Target(store(n, entry)));
    assert At(n, Pending) == n;
  }

  /** Every listed file ends, unaltered, in one state, and no longer waits. */
  lemma {:induction false} EachIsMovedOn(entries: Entries, names: seq<string>, taken: set<string>,
                                         store: (string, Entry) -> Outcome, n: string)
    requires NoRepeats(names) && forall m :: m in names ==> IsBase(m) && m in entries
    requires n in names
    ensures MovedOn(After(entries, names, taken, store), n, entries[n], taken, store)
  {
    var before, last := names[..|names| - 1], names[|names| - 1];
    var step := After(entries, before, taken, store);
    LastOrEarlier(names, n);
    OneMore(entries, names, taken, store);
    if n == last {
      NotReached(entries, names, |names| - 1, taken, store);
      MovesOnOne(step, n, taken, store);
    } else {
      EachIsMovedOn(entries, before, taken, store, n);
      StaysMovedOn(step, last, taken, store, n, entries[n]);
    }
  }

  lemma {:induction false} OneMore(entries: Entries, names: seq<string>, taken: set<string>,
                                   store: (string, Entry) -> Outcome)
    requires names != []
    ensures After(entries, names, taken, store)
         == After(After(entries, names[..|names| - 1], taken, store), [names[|names| - 1]], taken, store)
  {
  }

  lemma {:induction false} StepElsewhere(entries: Entries, name: string, taken: set<string>,
                                         store: (string, Entry) -> Outcome, n: string, c: Class)
    requires IsBase(name) && IsBase(n) && n != name
    ensures Lookup(After(entries, [name], taken, store), At(n, c)) == Lookup(entries, At(n, c))
  {
    OthersUntouched(entries, [name], taken, store, n, c);
  }

  function Taken(names: seq<string>, taken: set<string>): nat {
    if names == [] then 0
    else Taken(names[..|names| - 1], taken) + if names[|names| - 1] in taken then 1 else 0
  }

  /** Every listed file is accounted for: processed or skipped; each failed one is reported, with its name. */
  lemma {:induction false} Accounting(entries: Entries, names: seq<string>, taken: set<string>,
                                      store: (string, Entry) -> Outcome)
    requires NoRepeats(names) && forall n :: n in names ==> IsBase(n) && n in entries
    ensures var r := Report(entries, names, taken, store);
      && r.processed + r.skipped == |names| && r.skipped == Taken(names, taken)
      && |r.failures| == r.failed <= r.processed
  {
    if names != [] {
      var k := |names| - 1;
      Accounting(entries, names[..k], taken, store);
      NotReached(entries, names, k, taken, store);
    }
  }

  /** The failures reported are the files that ended as failed. */
  lemma {:induction false} FailuresAreTheFailed(entries: Entries, names: seq<string>, taken: set<string>,
                                                store: (string, Entry) -> Outcome, n: string)
    requires NoRepeats(names) && forall m :: m in names ==> IsBase(m) && m in entries
    requires n in names
    ensures (exists f :: f in Report(entries, names, taken, store).failures && f.path == At(n, Failed))
      <==> n !in taken && store(n, entries[n]).Refused?
  {
    var k := |names| - 1;
    assert names == names[..k] + [names[k]];
    var before, r := Report(entries, names[..k], taken, store), Report(entries, names, taken, store);
    NotReached(entries, names, k, taken, store);
    if n == names[k] {
      OnlyListedFail(entries, names[..k], taken, store, n);
      if n !in taken && store(n, entries[n]).Refused? {
        assert r.failures[|r.failures| - 1].path == At(n, Failed);
      } else {
        assert r.failures == before.failures;
      }
    } else {
      FailuresAreTheFailed(entries, names[..k], taken, store, n);
      NamesAreDistinct(n, Failed, names[k], Failed);
      if f :| f in before.failures && f.path == At(n, Failed) {
        assert f in r.failures;
      }
    }
  }

  lemma {:induction false} OnlyListedFail(entries: Entries, names: seq<string>, taken: set<string>,
                                          store: (string, Entry) -> Outcome, n: string)
    requires IsBase(n) && n !in names && forall m :: m in names ==> IsBase(m)
    ensures forall f :: f in Report(entries, names, taken, store).failures ==> f.path != At(n, Failed)
  {
    if names != [] {
      OnlyListedFail(entries, names[..|names| - 1], taken, store, n);
      NamesAreDistinct(n, Failed, names[|names| - 1], Failed);
    }
  }

  // ---------------------------------------------------------------- counts

  /** No name is counted twice: the five counts add up to the names that belong to some class. */
  lemma {:induction false} CountsAreDisjoint(listing: seq<string>)
    ensures var c := CountsOf(listing);
      c.pending + c.tmp + c.processing + c.done + c.failed == CountKnown(listing)
  {
    if listing != [] {
      CountsAreDisjoint(listing[..|listing| - 1]);
    }
  }

  function CountKnown(listing: seq<string>): nat {
    if listing == [] then 0
    else CountKnown(listing[..|listing| - 1]) + if ClassOf(listing[|listing| - 1]).Some? then 1 else 0
  }

  // ---------------------------------------------------------------- retries

  lemma {:induction false} StopsThere(entries: Entries, listing: seq<string>, i: nat)
    requires i <= |listing| && Retried(entries, listing[..i]).1.Err?
    ensures Retried(entries, listing) == Retried(entries, listing[..i])
    decreases |listing|
  {
    if i == |listing| {
      assert listing[..i] == listing;
    } else {
      var k := |listing| - 1;
      assert listing[..k][..i] == listing[..i];
      StopsThere(entries, listing[..k], i);
    }
  }

  /** The failed files of a listing. */
  function FailedBases(listing: seq<string>): set<string> {
    if listing == [] then {}
    else
      var name := listing[|listing| - 1];
      FailedBases(listing[..|listing| - 1])
      + match StripSuffix(name, FAILED) case Some(base) => (if IsBase(base) then {base} else {}) case None => {}
  }

  lemma {:induction false} FailedNameOf(name: string, base: string)
    ensures StripSuffix(name, FAILED) == Some(base) <==> name == At(base, Failed)
  {
    RetryFindsBase(base);
  }

  lemma {:induction false} LastOrEarlier<T>(s: seq<T>, x: T)
    requires s != []
    ensures x in s <==> x in s[..|s| - 1] || x == s[|s| - 1]
  {
  }

  lemma {:induction false} FailedNames(listing: seq<string>, base: string)
    requires IsBase(base)
    ensures base in FailedBases(listing) <==> At(base, Failed) in listing
  {
    if listing != [] {
      var k := |listing| - 1;
      FailedNames(listing[..k], base);
      FailedNameOf(listing[k], base);
      LastOrEarlier(listing, At(base, Failed));
    }
  }

  /** The sidecar of a failed file is no file of any capture. */
  lemma {:induction false} SidecarApart(base: string, b: string, c: Class)
    requires IsBase(base) && IsBase(b)
    ensures AppendSuffix(At(base, Failed), ERROR_JSON) != At(b, c)
  {
    LastChars(b, c);
    var sidecar := AppendSuffix(At(base, Failed), ERROR_JSON);
    assert sidecar[|sidecar| - 1] == 'n';
  }

  lemma {:induction false} RetriesLast(entries: Entries, listing: seq<string>, base: string)
    requires listing != [] && listing[|listing| - 1] == At(base, Failed) && IsBase(base)
    requires At(base, Failed) !in listing[..|listing| - 1]
    requires var (e, r) := Retried(entries, listing[..|listing| - 1]);
      r == Ok(|FailedBases(listing[..|listing| - 1])|) && At(base, Failed) in e && base !in e
    ensures Retried(entries, listing) == (
      Renamed(Retried(entries, listing[..|listing| - 1]).0, At(base, Failed), base)
      - {AppendSuffix(At(base, Failed), ERROR_JSON)}, Ok(|FailedBases(listing)|))
  {
    RetryFindsBase(base);
    FailedNames(listing[..|listing| - 1], base);
    assert FailedBases(listing) == FailedBases(listing[..|listing| - 1]) + {base};
    assert base !in FailedBases(listing[..|listing| - 1]);
    assert |FailedBases(listing)| == |FailedBases(listing[..|listing| - 1])| + 1;
  }

  lemma {:induction false} SkipsLast(entries: Entries, listing: seq<string>)
    requires listing != []
    requires var stripped := StripSuffix(listing[|listing| - 1], FAILED); stripped.None? || !IsBase(stripped.value)
    ensures Retried(entries, listing) == Retried(entries, listing[..|listing| - 1])
    ensures FailedBases(listing) == FailedBases(listing[..|listing| - 1])
    ensures forall b :: IsBase(b) ==> At(b, Failed) != listing[|listing| - 1]
  {
    forall b | IsBase(b)
      ensures At(b, Failed) != listing[|listing| - 1]
    {
      RetryFindsBase(b);
    }
  }

  /** What a retry leaves under the names of `b`. */
  ghost predicate RestoredAt(entries: Entries, listing: seq<string>, e: Entries, b: string) {
    && Lookup(e, b) == (if At(b, Failed) in listing then Lookup(entries, At(b, Failed)) else Lookup(entries, b))
    && Lookup(e, At(b, Failed)) == (if At(b, Failed) in listing then None else Lookup(entries, At(b, Failed)))
    && forall c :: c !in {Pending, Failed} ==> Lookup(e, At(b, c)) == Lookup(entries, At(b, c))
  }

  /**
   Where no failed capture is also pending, a retry reports as many files as had failed and makes each of
   them, and nothing else, pending again as it was.
   */
  lemma {:induction false} RetryRestores(entries: Entries, listing: seq<string>, b: string)
    requires NoRepeats(listing) && IsBase(b) && Retryable(entries, listing)
    ensures Retried(entries, listing).1 == Ok(|FailedBases(listing)|)
    ensures RestoredAt(entries, listing, Retried(entries, listing).0, b)
    decreases |listing|
  {
    if listing != [] {
      var before, name := listing[..|listing| - 1], listing[|listing| - 1];
      RetryableBefore(entries, listing);
      RetryRestores(entries, before, b);
      LastOrEarlier(listing, At(b, Failed));
      var stripped := StripSuffix(name, FAILED);
      if stripped.Some? && IsBase(stripped.value) {
        var base := stripped.value;
        FailedNameOf(name, base);
        LastOrEarlier(listing, At(base, Failed));
        RetryRestores(entries, before, base);
        RetriesLast(entries, listing, base);
        RestoreOne(Retried(entries, before).0, base, b);
        NamesAreDistinct(b, Failed, base, Failed);
      } else {
        SkipsLast(entries, listing);
      }
    }
  }

  /** Every failed capture listed is there, and none of them is also pending. */
  ghost predicate Retryable(entries: Entries, listing: seq<string>) {
    forall base :: IsBase(base) && At(base, Failed) in listing ==> At(base, Failed) in entries && base !in entries
  }

  lemma {:induction false} RetryableBefore(entries: Entries, listing: seq<string>)
    requires listing != [] && NoRepeats(listing) && Retryable(entries, listing)
    ensures NoRepeats(listing[..|listing| - 1]) && Retryable(entries, listing[..|listing| - 1])
    ensures listing[|listing| - 1] !in listing[..|listing| - 1]
  {
  }

  lemma {:induction false} RestoreOne(e: Entries, base: string, b: string)
    requires IsBase(base) && IsBase(b) && At(base, Failed) in e && base !in e
    ensures var after := Renamed(e, At(base, Failed), base) - {AppendSuffix(At(base, Failed), ERROR_JSON)};
      && Lookup(after, b) == (if b == base then Lookup(e, At(b, Failed)) else Lookup(e, b))
      && Lookup(after, At(b, Failed)) == (if b == base then None else Lookup(e, At(b, Failed)))
      && forall c :: c !in {Pending, Failed} ==> Lookup(after, At(b, c)) == Lookup(e, At(b, c))
  {
    assert At(b, Pending) == b && At(base, Pending) == base;
    forall c
      ensures At(b, c) != AppendSuffix(At(base, Failed), ERROR_JSON)
      ensures At(b, c) == base <==> b == base && c == Pending
      ensures At(b, c) == At(base, Failed) <==> b == base && c == Failed
    {
      SidecarApart(base, b, c);
      NamesAreDistinct(b, c, base, Pending);
      NamesAreDistinct(b, c, base, Failed);
    }
    assert At(b, Pending) != AppendSuffix(At(base, Failed), ERROR_JSON);
  }
}

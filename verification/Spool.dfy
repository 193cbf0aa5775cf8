/**
 The capture spool as a state machine over a directory: writers, importers and retries interleave, each
 moving files by atomic renames that would overwrite. The names are the real ones.
 */
module Spool {
  import opened Wrappers
  import opened SpoolNames

  type Pid = nat

  /** `todo` holds the listed names a process has still to look at; a listing may be out of date. */
  datatype Proc =
    | Writer(base: string)                                  // its temporary file is open
    | Importer(todo: seq<string>)
    | Checked(todo: seq<string>, base: string)              // seen as a regular file, not yet claimed
    | Importing(todo: seq<string>, base: string)            // claimed: the file is "processing"
    | Imported(todo: seq<string>, base: string, ok: bool)   // not yet moved on
    | Retrier(todo: seq<string>)
    | RetryChecked(todo: seq<string>, base: string)         // no pending file seen, not yet renamed
    | Gone

  /**
   The directory and the processes; the rest is history: where each base name was last moved, who moved
   it there, what was written, and how often it became pending, was claimed, and was imported.
   */
  datatype State = State(
    files: map<string, string>, procs: map<Pid, Proc>,
    place: map<string, Class>, mover: map<string, Pid>, written: map<string, string>,
    entered: map<string, nat>, claimed: map<string, nat>, stored: map<string, nat>)

  const INITIAL := State(map[], map[], map[], map[], map[], map[], map[], map[])

  datatype Action =
    | Create(p: Pid, base: string)
    | Write(p: Pid, text: string)
    | Abandon(p: Pid)
    | Finish(p: Pid)
    | StartImport(p: Pid, listed: seq<string>)
    | Check(p: Pid)
    | Claim(p: Pid)
    | Import(p: Pid, ok: bool)
    | Settle(p: Pid)
    | EndImport(p: Pid)
    | StartRetry(p: Pid, listed: seq<string>)
    | RetryCheck(p: Pid)
    | RetryRename(p: Pid)
    | EndRetry(p: Pid)

  predicate Enabled(s: State, a: Action) {
    match a
    // a fresh random id makes every base name new
    case Create(p, base) => p !in s.procs && IsBase(base) && base !in s.place
    case StartImport(p, listed) => p !in s.procs && AllBases(listed)
    case StartRetry(p, _) => p !in s.procs
    case Write(p, _) => p in s.procs && s.procs[p].Writer?
    case Abandon(p) => p in s.procs && s.procs[p].Writer?
    case Finish(p) => p in s.procs && s.procs[p].Writer?
    case Check(p) => p in s.procs && s.procs[p].Importer? && s.procs[p].todo != []
    case EndImport(p) => p in s.procs && s.procs[p].Importer? && s.procs[p].todo == []
    case Claim(p) => p in s.procs && s.procs[p].Checked?
    case Import(p, _) => p in s.procs && s.procs[p].Importing?
    case Settle(p) => p in s.procs && s.procs[p].Imported?
    case RetryCheck(p) => p in s.procs && s.procs[p].Retrier? && s.procs[p].todo != []
    case EndRetry(p) => p in s.procs && s.procs[p].Retrier? && s.procs[p].todo == []
    case RetryRename(p) => p in s.procs && s.procs[p].RetryChecked?
  }

  /** `fs::rename`: whatever has the new name is overwritten. */
  function Rename(files: map<string, string>, from: string, dest: string): map<string, string>
    requires from in files
  {
    (files - {from})[dest := files[from]]
  }

  function Bump(m: map<string, nat>, base: string): map<string, nat> {
    m[base := 1 + Count(m, base)]
  }

  function Count(m: map<string, nat>, b: string): nat {
    if b in m then m[b] else 0
  }

  /** A process renames a file of `base`; the history follows. */
  function Move(s: State, p: Pid, base: string, from: Class, dest: Class): State
    requires At(base, from) in s.files
  {
    s.(files := Rename(s.files, At(base, from), At(base, dest)), place := s.place[base := dest],
       mover := s.mover[base := p],
       entered := if dest == Pending then Bump(s.entered, base) else s.entered,
       claimed := if dest == Processing then Bump(s.claimed, base) else s.claimed)
  }

  /** The renames, and from where to where. */
  predicate Renames(a: Action) {
    a.Finish? || a.Claim? || a.Settle? || a.RetryRename?
  }

  function From(a: Action): Class
    requires Renames(a)
  {
    match a
    case Finish(_) => Tmp
    case Claim(_) => Pending
    case Settle(_) => Processing
    case RetryRename(_) => Failed
  }

  function Dest(s: State, a: Action): Class
    requires Enabled(s, a) && Renames(a)
  {
    match a
    case Finish(_) => Pending
    case Claim(_) => Processing
    case Settle(p) => if s.procs[p].ok then Done else Failed
    case RetryRename(_) => Pending
  }

  /** A rename whose file is there. */
  predicate Moves(s: State, a: Action)
    requires Enabled(s, a)
  {
    Renames(a) && At(s.procs[a.p].base, From(a)) in s.files
  }

  /** What an action does to the directory. */
  function Effect(s: State, a: Action): State
    requires Enabled(s, a)
  {
    if Moves(s, a) then Move(s, a.p, s.procs[a.p].base, From(a), Dest(s, a))
    else
      match a
      case Create(p, base) =>
        s.(files := s.files[At(base, Tmp) := ""], place := s.place[base := Tmp], mover := s.mover[base := p],
           written := s.written[base := ""])
      case Write(p, text) =>
        var base := s.procs[p].base;
        if At(base, Tmp) in s.files && base in s.written then
          s.(files := s.files[At(base, Tmp) := s.files[At(base, Tmp)] + text],
             written := s.written[base := s.written[base] + text])
        else s
      case Import(p, ok) => if ok then s.(stored := Bump(s.stored, s.procs[p].base)) else s
      case _ => s
  }

  /** What the process does next. */
  function Then(s: State, a: Action): Proc
    requires Enabled(s, a)
  {
    match a
    case Create(_, base) => Writer(base)
    case Write(p, _) => s.procs[p]
    case StartImport(_, listed) => Importer(listed)
    case Check(p) =>
      var todo := s.procs[p].todo;
      if At(todo[0], Pending) in s.files then Checked(todo[1..], todo[0]) else Importer(todo[1..])
    case Claim(p) =>
      var Checked(todo, base) := s.procs[p];
      if Moves(s, a) then Importing(todo, base) else Importer(todo)   // NotFound: skipped
    case Import(p, ok) =>
      Imported(s.procs[p].todo, s.procs[p].base, ok)
    case Settle(p) => if Moves(s, a) then Importer(s.procs[p].todo) else Gone   // the error ends the import
    case StartRetry(_, listed) => Retrier(listed)
    case RetryCheck(p) => ThenRetry(s, s.procs[p].todo[0], s.procs[p].todo[1..])
    case RetryRename(p) => if Moves(s, a) then Retrier(s.procs[p].todo) else Gone   // NotFound ends the retry
    case Abandon(_) => Gone
    case Finish(_) => Gone
    case EndImport(_) => Gone
    case EndRetry(_) => Gone
  }

  function ThenRetry(s: State, name: string, todo: seq<string>): Proc {
    match StripSuffix(name, FAILED)
    case None => Retrier(todo)
    case Some(base) =>
      if !IsBase(base) then Retrier(todo)
      else if At(base, Pending) in s.files then Gone   // refused
      else RetryChecked(todo, base)
  }

  function Do(s: State, a: Action): State
    requires Enabled(s, a)
  {
    Effect(s, a).(procs := s.procs[a.p := Then(s, a)])
  }

  // ---------------------------------------------------------------- the invariant

  /** The directory holds, for every base name used, exactly one file: where it was moved last, unaltered. */
  ghost predicate FilesFit(files: map<string, string>, place: map<string, Class>, written: map<string, string>) {
    && (forall b :: b in place ==> IsBase(b) && b in written)
    && (forall b, c :: IsBase(b) && At(b, c) in files ==> b in place && place[b] == c && files[At(b, c)] == written[b])
    && (forall b :: b in place ==> At(b, place[b]) in files)
    && |files| == |place|
  }

  /** The base name a process has to itself, and where the file is meanwhile. */
  function Owns(proc: Proc): Option<(string, Class)> {
    match proc
    case Writer(base) => Some((base, Tmp))
    case Importing(_, base) => Some((base, Processing))
    case Imported(_, base, _) => Some((base, Processing))
    case _ => None
  }

  predicate Owner(s: State, p: Pid, base: string, c: Class) {
    p in s.procs && Owns(s.procs[p]) == Some((base, c))
  }

  /** Open and claimed files belong to one process, and every claimed file belongs to one. */
  ghost predicate OwnersFit(s: State) {
    && (forall p, b, c :: Owner(s, p, b, c) ==> b in s.place && s.place[b] == c && b in s.mover && s.mover[b] == p)
    && (forall b :: b in s.place && s.place[b] == Processing ==> b in s.mover && Owner(s, s.mover[b], b, Processing))
  }

  predicate AllBases(names: seq<string>) {
    forall i :: 0 <= i < |names| ==> IsBase(names[i])
  }

  /** The names a process goes by are base names. */
  predicate Named(proc: Proc) {
    match proc
    case Importer(todo) => AllBases(todo)
    case Checked(todo, base) => IsBase(base) && AllBases(todo)
    case Importing(todo, base) => IsBase(base) && AllBases(todo)
    case Imported(todo, base, _) => IsBase(base) && AllBases(todo)
    case RetryChecked(_, base) => IsBase(base)
    case Writer(base) => IsBase(base)
    case _ => true
  }

  ghost predicate NamesFit(s: State) {
    forall p :: p in s.procs ==> Named(s.procs[p])
  }

  /** A file is claimed once each time it becomes pending, unless it still is. */
  ghost predicate ClaimsFit(s: State) {
    forall b :: Count(s.entered, b) == Count(s.claimed, b) + if b in s.place && s.place[b] == Pending then 1 else 0
  }

  predicate SettlingOk(s: State, b: string) {
    && b in s.place && s.place[b] == Processing && b in s.mover && s.mover[b] in s.procs
    && s.procs[s.mover[b]].Imported? && s.procs[s.mover[b]].ok
  }

  predicate Stored(s: State, b: string) {
    Count(s.stored, b) == if (b in s.place && s.place[b] == Done) || SettlingOk(s, b) then 1 else 0
  }

  /** A file is imported successfully once if it is done or about to be, and not at all otherwise. */
  ghost predicate StoredFits(s: State) {
    forall b :: Stored(s, b)
  }

  ghost predicate Inv(s: State) {
    FilesFit(s.files, s.place, s.written) && OwnersFit(s) && NamesFit(s) && ClaimsFit(s) && StoredFits(s)
  }

  // ---------------------------------------------------------------- the directory stays in order

  lemma {:induction false} NameOf(b: string, c: Class, x: string, y: Class)
    requires IsBase(b) && IsBase(x)
    ensures At(b, c) == At(x, y) <==> b == x && c == y
  {
    NamesAreDistinct(b, c, x, y);
  }

  lemma {:induction false} NewKeyCounts<V>(m: map<string, V>, k: string, v: V)
    requires k !in m
    ensures |m[k := v]| == |m| + 1
  {
  }

  lemma {:induction false} RenameKeepsCount(files: map<string, string>, from: string, dest: string)
    requires from in files && dest !in files
    ensures |Rename(files, from, dest)| == |files|
  {
  }

  lemma {:induction false} MoveKeepsFiles(s: State, p: Pid, base: string, from: Class, dest: Class)
    requires FilesFit(s.files, s.place, s.written) && IsBase(base) && At(base, from) in s.files && from != dest
    ensures
      var s' := Move(s, p, base, from, dest);
      FilesFit(s'.files, s'.place, s'.written) && base in s.place && s.place[base] == from
  {
    var s' := Move(s, p, base, from, dest);
    forall b, c | IsBase(b) && At(b, c) in s'.files
      ensures b in s'.place && s'.place[b] == c && s'.files[At(b, c)] == s'.written[b]
    {
      NameOf(b, c, base, from);
      NameOf(b, c, base, dest);
    }
    forall b | b in s'.place
      ensures At(b, s'.place[b]) in s'.files
    {
      NameOf(b, s'.place[b], base, from);
    }
    NameOf(base, from, base, dest);
    RenameKeepsCount(s.files, At(base, from), At(base, dest));
    assert s'.place.Keys == s.place.Keys;
  }

  lemma {:induction false} CreateKeepsFiles(s: State, base: string)
    requires FilesFit(s.files, s.place, s.written) && IsBase(base) && base !in s.place
    ensures FilesFit(s.files[At(base, Tmp) := ""], s.place[base := Tmp], s.written[base := ""])
  {
    var files', place', written' := s.files[At(base, Tmp) := ""], s.place[base := Tmp], s.written[base := ""];
    forall b, c | IsBase(b) && At(b, c) in files'
      ensures b in place' && place'[b] == c && files'[At(b, c)] == written'[b]
    {
      NameOf(b, c, base, Tmp);
    }
    NewKeyCounts(s.files, At(base, Tmp), "");
    NewKeyCounts(s.place, base, Tmp);
  }

  lemma {:induction false} WriteKeepsFiles(s: State, base: string, text: string)
    requires FilesFit(s.files, s.place, s.written) && IsBase(base) && At(base, Tmp) in s.files
    ensures base in s.written
    ensures FilesFit(s.files[At(base, Tmp) := s.files[At(base, Tmp)] + text], s.place,
                     s.written[base := s.written[base] + text])
  {
    var files' := s.files[At(base, Tmp) := s.files[At(base, Tmp)] + text];
    var written' := s.written[base := s.written[base] + text];
    forall b, c | IsBase(b) && At(b, c) in files'
      ensures b in s.place && s.place[b] == c && files'[At(b, c)] == written'[b]
    {
      NameOf(b, c, base, Tmp);
    }
    assert files'.Keys == s.files.Keys;
  }

  lemma {:induction false} FilesStep(s: State, a: Action)
    requires FilesFit(s.files, s.place, s.written) && NamesFit(s) && Enabled(s, a)
    ensures FilesFit(Do(s, a).files, Do(s, a).place, Do(s, a).written)
  {
    if Moves(s, a) {
      assert Named(s.procs[a.p]);
      MoveKeepsFiles(s, a.p, s.procs[a.p].base, From(a), Dest(s, a));
    } else if a.Create? {
      CreateKeepsFiles(s, a.base);
    } else if a.Write? {
      var base := s.procs[a.p].base;
      assert Named(s.procs[a.p]);
      if At(base, Tmp) in s.files {
        WriteKeepsFiles(s, base, a.text);
      }
    }
  }

  // ---------------------------------------------------------------- owners

  /** An owner finds its file where it left it. */
  lemma {:induction false} OwnersFind(s: State, p: Pid, b: string, c: Class)
    requires FilesFit(s.files, s.place, s.written) && OwnersFit(s) && Owner(s, p, b, c)
    ensures b in s.place && s.place[b] == c && At(b, c) in s.files && b in s.written && b in s.mover && s.mover[b] == p
    ensures s.files[At(b, c)] == s.written[b] && IsBase(b)
  {
  }

  /** A process that renames nothing takes no file, and gives up no claimed one. */
  lemma {:induction false} KeepsItsOwn(s: State, a: Action)
    requires Enabled(s, a) && !Moves(s, a) && !a.Create?
    requires FilesFit(s.files, s.place, s.written) && OwnersFit(s)
    ensures Owns(Then(s, a)).None? || (a.p in s.procs && Owns(Then(s, a)) == Owns(s.procs[a.p]))
    ensures forall b :: Owner(s, a.p, b, Processing) ==> Owns(Then(s, a)) == Some((b, Processing))
  {
    if a.Settle? {
      OwnersFind(s, a.p, s.procs[a.p].base, Processing);
    }
  }

  lemma {:induction false} SameOwners(s: State, s': State, p: Pid, proc: Proc)
    requires OwnersFit(s) && s'.place == s.place && s'.mover == s.mover && s'.procs == s.procs[p := proc]
    requires Owns(proc).None? || (p in s.procs && Owns(proc) == Owns(s.procs[p]))
    requires forall b :: Owner(s, p, b, Processing) ==> Owns(proc) == Some((b, Processing))
    ensures OwnersFit(s')
  {
    forall q, b, c | Owner(s', q, b, c)
      ensures b in s.place && s.place[b] == c && b in s.mover && s.mover[b] == q
    {
      assert Owner(s, q, b, c);
    }
    forall b | b in s.place && s.place[b] == Processing
      ensures b in s.mover && Owner(s', s.mover[b], b, Processing)
    {
      assert Owner(s, s.mover[b], b, Processing);
    }
  }

  lemma {:induction false} NewOwner(s: State, s': State, p: Pid, proc: Proc, base: string, dest: Class)
    requires OwnersFit(s) && s'.procs == s.procs[p := proc]
    requires s'.place == s.place[base := dest] && s'.mover == s.mover[base := p]
    requires forall q, c :: Owner(s, q, base, c) ==> q == p
    requires forall b, c :: Owner(s, p, b, c) ==> b == base
    requires Owns(proc) in {None, Some((base, dest))} && (dest == Processing ==> Owns(proc).Some?)
    ensures OwnersFit(s')
  {
    forall q, b, c | Owner(s', q, b, c)
      ensures b in s'.place && s'.place[b] == c && b in s'.mover && s'.mover[b] == q
    {
      assert q != p ==> Owner(s, q, b, c);
    }
    forall b | b in s'.place && s'.place[b] == Processing
      ensures b in s'.mover && Owner(s', s'.mover[b], b, Processing)
    {
      assert b != base ==> Owner(s, s.mover[b], b, Processing);
    }
  }

  /** Whoever moves a file is its owner, or it has none. */
  lemma {:induction false} OnlyTheMoverOwns(s: State, a: Action, p: Pid, c: Class)
    requires Enabled(s, a) && (a.Create? || Moves(s, a))
    requires FilesFit(s.files, s.place, s.written) && NamesFit(s) && OwnersFit(s)
    requires Owner(s, p, if a.Create? then a.base else s.procs[a.p].base, c)
    ensures p == a.p
  {
    if Moves(s, a) {
      var base := s.procs[a.p].base;
      assert Named(s.procs[a.p]);
      assert s.place[base] == From(a) == c;
      if a.Finish? {
        assert Owner(s, a.p, base, Tmp);
      } else if a.Settle? {
        assert Owner(s, a.p, base, Processing);
      }
    }
  }

  /** The file an action creates or renames, and the state it is in after. */
  function Subject(s: State, a: Action): (string, Class)
    requires Enabled(s, a) && (a.Create? || Renames(a))
  {
    if a.Create? then (a.base, Tmp) else (s.procs[a.p].base, Dest(s, a))
  }

  lemma {:induction false} MoverOwns(s: State, a: Action)
    requires Enabled(s, a) && (a.Create? || Moves(s, a))
    ensures forall b, c :: Owner(s, a.p, b, c) ==> b == Subject(s, a).0
    ensures Owns(Then(s, a)) in {None, Some(Subject(s, a))}
    ensures Subject(s, a).1 == Processing ==> Owns(Then(s, a)).Some?
    ensures Do(s, a).place == s.place[Subject(s, a).0 := Subject(s, a).1]
    ensures Do(s, a).mover == s.mover[Subject(s, a).0 := a.p]
  {
  }

  lemma {:induction false} OwnersMove(s: State, a: Action)
    requires Enabled(s, a) && (a.Create? || Moves(s, a))
    requires FilesFit(s.files, s.place, s.written) && NamesFit(s) && OwnersFit(s)
    ensures OwnersFit(Do(s, a))
  {
    var base, dest := Subject(s, a).0, Subject(s, a).1;
    forall q, c | Owner(s, q, base, c)
      ensures q == a.p
    {
      OnlyTheMoverOwns(s, a, q, c);
    }
    MoverOwns(s, a);
    NewOwner(s, Do(s, a), a.p, Then(s, a), base, dest);
  }

  /** Actions that neither create nor rename leave the directory's layout alone. */
  lemma {:induction false} LayoutKept(s: State, a: Action)
    requires Enabled(s, a) && !Moves(s, a) && !a.Create?
    ensures var s' := Do(s, a);
      && s'.place == s.place && s'.mover == s.mover && s'.entered == s.entered && s'.claimed == s.claimed
      && s'.procs == s.procs[a.p := Then(s, a)]
  {
  }

  lemma {:induction false} OwnersKeep(s: State, a: Action)
    requires Enabled(s, a) && !Moves(s, a) && !a.Create?
    requires FilesFit(s.files, s.place, s.written) && OwnersFit(s)
    ensures OwnersFit(Do(s, a))
  {
    var s' := Do(s, a);
    LayoutKept(s, a);
    KeepsItsOwn(s, a);
    SameOwners(s, s', a.p, Then(s, a));
  }

  lemma {:induction false} OwnersStep(s: State, a: Action)
    requires Enabled(s, a) && FilesFit(s.files, s.place, s.written) && NamesFit(s) && OwnersFit(s)
    ensures OwnersFit(Do(s, a))
  {
    if a.Create? || Moves(s, a) {
      OwnersMove(s, a);
    } else {
      OwnersKeep(s, a);
    }
  }

  // ---------------------------------------------------------------- names

  lemma {:induction false} NamesStep(s: State, a: Action)
    requires Enabled(s, a) && NamesFit(s)
    ensures NamesFit(Do(s, a))
  {
    assert a.p in s.procs ==> Named(s.procs[a.p]);
    assert Named(Then(s, a));
  }

  // ---------------------------------------------------------------- counts

  lemma {:induction false} MoveClaims(s: State, p: Pid, base: string, from: Class, dest: Class)
    requires ClaimsFit(s) && At(base, from) in s.files && base in s.place && s.place[base] == from
    requires from == Pending <==> dest == Processing
    ensures ClaimsFit(Move(s, p, base, from, dest))
  {
    assert Count(s.entered, base) == Count(s.claimed, base) + if from == Pending then 1 else 0;
  }

  lemma {:induction false} ClaimsMove(s: State, a: Action)
    requires Enabled(s, a) && Moves(s, a) && FilesFit(s.files, s.place, s.written) && NamesFit(s) && ClaimsFit(s)
    ensures ClaimsFit(Do(s, a))
  {
    var base := s.procs[a.p].base;
    assert Named(s.procs[a.p]);
    assert base in s.place && s.place[base] == From(a);
    MoveClaims(s, a.p, base, From(a), Dest(s, a));
    var m := Move(s, a.p, base, From(a), Dest(s, a));
    assert Do(s, a) == m.(procs := Do(s, a).procs);
  }

  lemma {:induction false} ClaimsStep(s: State, a: Action)
    requires Enabled(s, a) && FilesFit(s.files, s.place, s.written) && NamesFit(s) && ClaimsFit(s)
    ensures ClaimsFit(Do(s, a))
  {
    if Moves(s, a) {
      ClaimsMove(s, a);
    } else if a.Create? {
      assert Count(s.entered, a.base) == Count(s.claimed, a.base);
    } else {
      LayoutKept(s, a);
    }
  }

  /** A mover leaves the other processes' files, and the counts, alone. */
  lemma {:induction false} StoredElsewhere(s: State, a: Action, b: string)
    requires Enabled(s, a) && Moves(s, a) && OwnersFit(s) && Stored(s, b)
    requires b != s.procs[a.p].base
    ensures Stored(Do(s, a), b)
  {
    MoverOwns(s, a);
    assert Do(s, a).stored == s.stored;
    if b in s.place && s.place[b] == Processing {
      assert Owner(s, s.mover[b], b, Processing);
      assert s.mover[b] != a.p;
    }
  }

  lemma {:induction false} StoredMoved(s: State, a: Action)
    requires Enabled(s, a) && Moves(s, a) && OwnersFit(s)
    requires s.procs[a.p].base in s.place && s.place[s.procs[a.p].base] == From(a)
    requires Stored(s, s.procs[a.p].base)
    ensures Stored(Do(s, a), s.procs[a.p].base)
  {
    MoverOwns(s, a);
    if a.Settle? {
      assert Owner(s, a.p, s.procs[a.p].base, Processing);
    }
  }

  lemma {:induction false} StoredMove(s: State, a: Action, b: string)
    requires Enabled(s, a) && Moves(s, a) && FilesFit(s.files, s.place, s.written) && NamesFit(s) && OwnersFit(s)
    requires Stored(s, b)
    ensures Stored(Do(s, a), b)
  {
    if b == s.procs[a.p].base {
      assert Named(s.procs[a.p]);
      StoredMoved(s, a);
    } else {
      StoredElsewhere(s, a, b);
    }
  }

  lemma {:induction false} StoredImport(s: State, a: Action, b: string)
    requires a.Import? && Enabled(s, a) && OwnersFit(s) && Stored(s, b)
    ensures Stored(Do(s, a), b)
  {
    LayoutKept(s, a);
    assert Owner(s, a.p, s.procs[a.p].base, Processing);
    if b in s.place && s.place[b] == Processing {
      assert Owner(s, s.mover[b], b, Processing);
    }
  }

  lemma {:induction false} StoredKeep(s: State, a: Action, b: string)
    requires Enabled(s, a) && !Moves(s, a) && !a.Create? && !a.Import?
    requires FilesFit(s.files, s.place, s.written) && OwnersFit(s) && Stored(s, b)
    ensures Stored(Do(s, a), b)
  {
    var s' := Do(s, a);
    LayoutKept(s, a);
    assert s'.stored == s.stored;
    if b in s.place && s.place[b] == Processing {
      assert Owner(s, s.mover[b], b, Processing);
      KeepsItsOwn(s, a);
      assert s.mover[b] != a.p;
    }
  }

  lemma {:induction false} StoredCreate(s: State, a: Action, b: string)
    requires a.Create? && Enabled(s, a) && OwnersFit(s) && Stored(s, b)
    ensures Stored(Do(s, a), b)
  {
  }

  lemma {:induction false} StoredStep(s: State, a: Action)
    requires Enabled(s, a) && FilesFit(s.files, s.place, s.written) && NamesFit(s) && OwnersFit(s) && StoredFits(s)
    ensures StoredFits(Do(s, a))
  {
    forall b
      ensures Stored(Do(s, a), b)
    {
      assert Stored(s, b);
      if Moves(s, a) {
        StoredMove(s, a, b);
      } else if a.Create? {
        StoredCreate(s, a, b);
      } else if a.Import? {
        StoredImport(s, a, b);
      } else {
        StoredKeep(s, a, b);
      }
    }
  }

  // ---------------------------------------------------------------- every interleaving

  lemma {:induction false} Inductive(s: State, a: Action)
    requires Inv(s) && Enabled(s, a)
    ensures Inv(Do(s, a))
  {
    FilesStep(s, a);
    OwnersStep(s, a);
    NamesStep(s, a);
    ClaimsStep(s, a);
    StoredStep(s, a);
  }

  ghost predicate Runs(s: State, actions: seq<Action>, s': State)
    decreases |actions|
  {
    if actions == [] then s' == s
    else Enabled(s, actions[0]) && Runs(Do(s, actions[0]), actions[1..], s')
  }

  ghost predicate Reachable(s: State) {
    exists actions :: Runs(INITIAL, actions, s)
  }

  lemma {:induction false} RunKeepsInv(s: State, actions: seq<Action>, s': State)
    requires Inv(s) && Runs(s, actions, s')
    ensures Inv(s')
    decreases |actions|
  {
    if actions != [] {
      Inductive(s, actions[0]);
      RunKeepsInv(Do(s, actions[0]), actions[1..], s');
    }
  }

  lemma {:induction false} ReachableInv(s: State)
    requires Reachable(s)
    ensures Inv(s)
  {
    var actions :| Runs(INITIAL, actions, s);
    RunKeepsInv(INITIAL, actions, s);
  }

  /** Every capture is in exactly one of the five states, as it was written, and there is no other file. */
  lemma {:induction false} OneFilePerCapture(s: State, b: string)
    requires Reachable(s) && b in s.place
    ensures forall c :: At(b, c) in s.files <==> c == s.place[b]
    ensures b in s.written && s.files[At(b, s.place[b])] == s.written[b]
    ensures |s.files| == |s.place|
  {
    ReachableInv(s);
  }

  /** Two processes never hold the same file, and every claimed file is held. */
  lemma {:induction false} ClaimIsExclusive(s: State, b: string)
    requires Reachable(s)
    ensures forall p, c, q, d :: Owner(s, p, b, c) && Owner(s, q, b, d) ==> p == q && c == d
    ensures At(b, Processing) in s.files && IsBase(b) ==> exists p :: Owner(s, p, b, Processing)
  {
    ReachableInv(s);
    forall p, c, q, d | Owner(s, p, b, c) && Owner(s, q, b, d)
      ensures p == q && c == d
    {
      OwnersFind(s, p, b, c);
      OwnersFind(s, q, b, d);
    }
    if At(b, Processing) in s.files && IsBase(b) {
      assert Owner(s, s.mover[b], b, Processing);
    }
  }

  /** Claims never outnumber the times the file became pending, and lag behind only while it is pending. */
  lemma {:induction false} ClaimedOncePerPending(s: State, b: string)
    requires Reachable(s) && IsBase(b)
    ensures Count(s.claimed, b) <= Count(s.entered, b) <= Count(s.claimed, b) + 1
    ensures Count(s.entered, b) == Count(s.claimed, b) + 1 <==> At(b, Pending) in s.files
  {
    ReachableInv(s);
    assert Count(s.entered, b) == Count(s.claimed, b) + if b in s.place && s.place[b] == Pending then 1 else 0;
  }

  /** No capture is imported successfully twice, however often it was retried, and every done one was once. */
  lemma {:induction false} ImportedOnce(s: State, b: string)
    requires Reachable(s) && IsBase(b)
    ensures Count(s.stored, b) <= 1
    ensures At(b, Done) in s.files ==> Count(s.stored, b) == 1
    ensures At(b, Pending) in s.files || At(b, Failed) in s.files ==> Count(s.stored, b) == 0
  {
    ReachableInv(s);
    assert Stored(s, b);
  }

  /** No rename overwrites a file, and those of a writer and of a claimed file always find it. */
  lemma {:induction false} RenamesAreSafe(s: State, a: Action)
    requires Reachable(s) && Enabled(s, a) && Renames(a)
    ensures Moves(s, a) ==> At(s.procs[a.p].base, Dest(s, a)) !in s.files
    ensures a.Finish? || a.Settle? ==> Moves(s, a)
  {
    ReachableInv(s);
    var base := s.procs[a.p].base;
    assert Named(s.procs[a.p]);
    if a.Finish? {
      OwnersFind(s, a.p, base, Tmp);
    } else if a.Settle? {
      OwnersFind(s, a.p, base, Processing);
    }
  }

  /** A new writer's temporary name is free, so creating it exclusively succeeds. */
  lemma {:induction false} CreateIsSafe(s: State, p: Pid, base: string)
    requires Reachable(s) && Enabled(s, Create(p, base))
    ensures At(base, Tmp) !in s.files
  {
    ReachableInv(s);
  }

  /** The capture `b` is published in `s` and, as it was written, in `t`. */
  predicate StaysPublished(s: State, t: State, b: string) {
    && b in s.place && b in s.written && b in t.place && b in t.written
    && t.place[b] != Tmp && t.written[b] == s.written[b] && (s.place[b] == Done ==> t.place[b] == Done)
  }

  lemma {:induction false} MoveKeepsPublished(s: State, a: Action, b: string)
    requires Inv(s) && Enabled(s, a) && Moves(s, a)
    requires b in s.place && s.place[b] != Tmp && b in s.written
    ensures StaysPublished(s, Do(s, a), b)
  {
    MoverOwns(s, a);
    assert Do(s, a).written == s.written;
    assert Named(s.procs[a.p]);
    assert s.place[s.procs[a.p].base] == From(a);
  }

  lemma {:induction false} WriteKeepsPublished(s: State, a: Action, b: string)
    requires Inv(s) && Enabled(s, a) && a.Write?
    requires b in s.place && s.place[b] != Tmp && b in s.written
    ensures StaysPublished(s, Do(s, a), b)
  {
    LayoutKept(s, a);
    assert Owner(s, a.p, s.procs[a.p].base, Tmp);
  }

  lemma {:induction false} StepKeepsPublished(s: State, a: Action, b: string)
    requires Inv(s) && Enabled(s, a)
    requires b in s.place && s.place[b] != Tmp && b in s.written
    ensures StaysPublished(s, Do(s, a), b)
  {
    if Moves(s, a) {
      MoveKeepsPublished(s, a, b);
    } else if a.Create? {
      MoverOwns(s, a);
    } else if a.Write? {
      WriteKeepsPublished(s, a, b);
    } else {
      LayoutKept(s, a);
    }
  }

  /** Whatever else happens, a published capture stays in the spool unaltered, and a done one stays done. */
  lemma {:induction false} PublishedIsKept(s: State, actions: seq<Action>, s': State, b: string)
    requires Inv(s) && Runs(s, actions, s') && b in s.place && s.place[b] != Tmp
    ensures b in s'.place && s'.place[b] != Tmp && At(b, s'.place[b]) in s'.files
    ensures s'.files[At(b, s'.place[b])] == s.files[At(b, s.place[b])]
    ensures s.place[b] == Done ==> s'.place[b] == Done
    decreases |actions|
  {
    if actions != [] {
      var t := Do(s, actions[0]);
      StepKeepsPublished(s, actions[0], b);
      Inductive(s, actions[0]);
      PublishedIsKept(t, actions[1..], s', b);
    }
  }

  lemma {:induction false} NoneIsClaimed(s: State, b: string)
    requires OwnersFit(s) && b in s.place && forall p :: p in s.procs ==> s.procs[p].Gone?
    ensures s.place[b] != Processing
  {
  }

  /** Once every process has ended, no capture is left claimed: each waits, is done, or has failed. */
  lemma {:induction false} QuietSpool(s: State, b: string)
    requires Reachable(s) && b in s.place && forall p :: p in s.procs ==> s.procs[p].Gone?
    ensures s.place[b] != Processing
    ensures Count(s.stored, b) == if s.place[b] == Done then 1 else 0
  {
    ReachableInv(s);
    NoneIsClaimed(s, b);
    assert Stored(s, b);
  }
}

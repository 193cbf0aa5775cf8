/**
 The hook-sync coalescing protocol as a state machine: any number of request, worker and locked-exec
 processes interleave over pending markers, working files, failure markers and one file lock.
 */
module HookSync {
  import opened Wrappers

  datatype Source = Claude | Codex | QwenCode

  type Pid = nat

  /** Where a worker stands. `todo` lists the markers of the current scan still to be claimed. */
  datatype Pc =
    | Waiting                                                  // blocked on the lock
    | Debouncing                                               // lock held, sleeping
    | Scanning(cycle: nat, seen: set<Source>)                  // listing; `seen` was pending at its start
    | Claiming(cycle: nat, todo: seq<Source>)
    | Claimed(cycle: nat, todo: seq<Source>, source: Source)   // marker renamed, import not yet started
    | Importing(cycle: nat, todo: seq<Source>, source: Source)
    | Clearing(cycle: nat, todo: seq<Source>, source: Source)  // import succeeded, failure marker not yet removed
    | Cleaning(cycle: nat, todo: seq<Source>, source: Source)  // the same, working file left
    | Recording(cycle: nat, source: Source)                    // import failed, working file left
    | Releasing

  datatype Proc =
    | Requester(source: Source)          // a request whose temporary file is written
    | Spawner(source: Source)            // its marker is published, its worker not yet started
    | Worker(pc: Pc, claimed: bool)      // `claimed`: it has renamed at least one marker
    | Exec                               // locked-exec, holding the lock
    | Gone

  /**
   `requested`, `begun` and `outcome` are history: times on one clock, and how the import of a source that
   ended last, other than by an exception, has ended.
   */
  datatype State = State(
    pending: set<Source>, working: set<(Pid, nat, Source)>, failed: set<Source>,
    lock: Option<Pid>, procs: map<Pid, Proc>,
    now: nat, requested: map<Source, nat>, begun: map<Source, nat>, outcome: map<Source, bool>)

  const INITIAL := State({}, {}, {}, None, map[], 0, map[], map[], map[])

  datatype Action =
    | Request(p: Pid, source: Source)
    | StartWorker(p: Pid)
    | StartExec(p: Pid)
    | Publish(p: Pid)
    | SpawnDetached(p: Pid, child: Pid)
    | SpawnForeground(p: Pid)
    | Acquire(p: Pid)
    | BeginScan(p: Pid)
    | EndScan(p: Pid, found: set<Source>)
    | Claim(p: Pid)
    | FinishScan(p: Pid)
    | BeginImport(p: Pid)
    | ImportOk(p: Pid)
    | ImportFailed(p: Pid)
    | ImportRaises(p: Pid)
    | ClearMarker(p: Pid)
    | RemoveWorking(p: Pid)
    | RecordFailure(p: Pid)
    | Release(p: Pid)
    | EndExec(p: Pid)

  function Sorted(found: set<Source>): (todo: seq<Source>)
    ensures forall s :: s in todo <==> s in found
    ensures todo == [] <==> found == {}
    ensures forall i, j :: 0 <= i < j < |todo| ==> todo[i] != todo[j]
    ensures |todo| <= 3
  {
    assert forall s :: s in found ==> s == Claude || s == Codex || s == QwenCode;
    (if Claude in found then [Claude] else [])
    + (if Codex in found then [Codex] else [])
    + (if QwenCode in found then [QwenCode] else [])
  }

  predicate At(s: State, p: Pid) {
    p in s.procs && s.procs[p].Worker?
  }

  predicate Enabled(s: State, a: Action) {
    match a
    case Request(p, _) => p !in s.procs
    case StartWorker(p) => p !in s.procs
    case StartExec(p) => p !in s.procs
    case Publish(p) => p in s.procs && s.procs[p].Requester?
    case SpawnDetached(p, child) => p in s.procs && s.procs[p].Spawner? && child !in s.procs
    case SpawnForeground(p) => p in s.procs && s.procs[p].Spawner?
    case Acquire(p) => At(s, p) && s.procs[p].pc.Waiting? && s.lock.None?
    case BeginScan(p) => At(s, p) && s.procs[p].pc.Debouncing?
    // a listing shows every marker that is there throughout, and may show one that arrives meanwhile
    case EndScan(p, found) =>
      At(s, p) && s.procs[p].pc.Scanning? && s.procs[p].pc.seen <= found <= s.procs[p].pc.seen + s.pending
    case Claim(p) => At(s, p) && s.procs[p].pc.Claiming? && s.procs[p].pc.todo != []
    case FinishScan(p) => At(s, p) && s.procs[p].pc.Claiming? && s.procs[p].pc.todo == []
    case BeginImport(p) => At(s, p) && s.procs[p].pc.Claimed?
    case ImportOk(p) => At(s, p) && s.procs[p].pc.Importing?
    case ImportFailed(p) => At(s, p) && s.procs[p].pc.Importing?
    case ImportRaises(p) => At(s, p) && s.procs[p].pc.Importing?
    case ClearMarker(p) => At(s, p) && s.procs[p].pc.Clearing?
    case RemoveWorking(p) => At(s, p) && s.procs[p].pc.Cleaning?
    case RecordFailure(p) => At(s, p) && s.procs[p].pc.Recording?
    case Release(p) => At(s, p) && s.procs[p].pc.Releasing?
    case EndExec(p) => p in s.procs && s.procs[p].Exec?
  }

  function Goto(s: State, p: Pid, pc: Pc): State
    requires At(s, p)
  {
    s.(procs := s.procs[p := s.procs[p].(pc := pc)])
  }

  function Do(s: State, a: Action): State
    requires Enabled(s, a)
  {
    match a
    case Request(p, source) => s.(procs := s.procs[p := Requester(source)])
    case StartWorker(p) => s.(procs := s.procs[p := Worker(Waiting, false)])
    case StartExec(p) =>
      if s.lock.None? then s.(lock := Some(p), procs := s.procs[p := Exec])
      else s.(procs := s.procs[p := Gone])      // exit code 75, nothing run
    case Publish(p) =>
      var source := s.procs[p].source;
      s.(pending := s.pending + {source}, procs := s.procs[p := Spawner(source)],
         requested := s.requested[source := s.now], now := s.now + 1)
    case SpawnDetached(p, child) => s.(procs := s.procs[p := Gone][child := Worker(Waiting, false)])
    case SpawnForeground(p) => s.(procs := s.procs[p := Worker(Waiting, false)])
    case Acquire(p) => Goto(s, p, Debouncing).(lock := Some(p))
    case BeginScan(p) => Goto(s, p, Scanning(0, s.pending))
    case EndScan(p, found) =>
      Goto(s, p, if found == {} then Releasing else Claiming(s.procs[p].pc.cycle, Sorted(found)))
    case Claim(p) =>
      var Claiming(cycle, todo) := s.procs[p].pc;
      var source, rest := todo[0], todo[1..];
      if source in s.pending then
        s.(pending := s.pending - {source}, working := s.working + {(p, cycle, source)},
           procs := s.procs[p := Worker(Claimed(cycle, rest, source), true)])
      else Goto(s, p, Claiming(cycle, rest))    // FileNotFoundError: next marker
    case FinishScan(p) =>
      Goto(s, p, if s.procs[p].pc.cycle == 0 then Scanning(1, s.pending) else Releasing)
    case BeginImport(p) =>
      var Claimed(cycle, todo, source) := s.procs[p].pc;
      Goto(s, p, Importing(cycle, todo, source)).(begun := s.begun[source := s.now], now := s.now + 1)
    case ImportOk(p) =>
      var Importing(cycle, todo, source) := s.procs[p].pc;
      Goto(s, p, Clearing(cycle, todo, source)).(outcome := s.outcome[source := true])
    case ImportFailed(p) =>
      var Importing(cycle, _, source) := s.procs[p].pc;
      Goto(s, p, Recording(cycle, source)).(outcome := s.outcome[source := false])
    case ImportRaises(p) => Goto(s, p, Releasing)   // an exception leaves the worker through `finally`
    case ClearMarker(p) =>
      var Clearing(cycle, todo, source) := s.procs[p].pc;
      Goto(s, p, Cleaning(cycle, todo, source)).(failed := s.failed - {source})
    case RemoveWorking(p) =>
      var Cleaning(cycle, todo, source) := s.procs[p].pc;
      Goto(s, p, Claiming(cycle, todo)).(working := s.working - {(p, cycle, source)})
    case RecordFailure(p) =>
      var Recording(cycle, source) := s.procs[p].pc;
      Goto(s, p, Releasing).(working := s.working - {(p, cycle, source)}, failed := s.failed + {source})
    case Release(p) => s.(lock := None, procs := s.procs[p := Gone])
    case EndExec(p) => s.(lock := None, procs := s.procs[p := Gone])
  }

  // ---------------------------------------------------------------- the invariant

  predicate Holding(proc: Proc) {
    proc.Exec? || (proc.Worker? && !proc.pc.Waiting?)
  }

  /** The lock is held by exactly the process that believes to hold it. */
  ghost predicate LockInv(s: State) {
    && (forall p :: p in s.procs && Holding(s.procs[p]) ==> s.lock == Some(p))
    && (s.lock.Some? ==> s.lock.value in s.procs && Holding(s.procs[s.lock.value]))
  }

  function Todo(pc: Pc): seq<Source> {
    if pc.Claiming? || pc.Claimed? || pc.Importing? || pc.Clearing? || pc.Cleaning? then pc.todo else []
  }

  /** What a worker has listed and not yet claimed is pending, each marker once. */
  predicate TodoFits(s: State, proc: Proc) {
    proc.Worker? ==>
      var todo := Todo(proc.pc);
      && (forall i :: 0 <= i < |todo| ==> todo[i] in s.pending)
      && (forall i, j :: 0 <= i < j < |todo| ==> todo[i] != todo[j])
      && |todo| <= 3
      && (proc.pc.Scanning? ==> proc.pc.seen <= s.pending)
  }

  predicate HasClaim(pc: Pc) {
    pc.Claimed? || pc.Importing? || pc.Clearing? || pc.Cleaning? || pc.Recording?
  }

  predicate FlagFits(proc: Proc) {
    proc.Worker? ==>
      && (proc.pc.Waiting? || proc.pc.Debouncing? ==> !proc.claimed)
      && (HasClaim(proc.pc) ==> proc.claimed)
      && (!proc.claimed && proc.pc.Claiming? ==> proc.pc.todo != [])
  }

  predicate WellPlaced(s: State, proc: Proc) {
    TodoFits(s, proc) && FlagFits(proc)
  }

  /** Nobody but the lock holder removes markers, so what a worker has listed stays there for it. */
  ghost predicate PlaceInv(s: State) {
    forall p :: p in s.procs ==> WellPlaced(s, s.procs[p])
  }

  /** A process that has yet to claim something, unless its listing has already come up empty. */
  predicate Token(proc: Proc) {
    || proc.Spawner?
    || (proc.Worker? && !proc.claimed && !proc.pc.Releasing? && !(proc.pc.Scanning? && proc.pc.seen == {}))
  }

  function Tokens(procs: map<Pid, Proc>): set<Pid> {
    set p | p in procs && Token(procs[p])
  }

  /** Pending markers never outnumber the processes that have claimed nothing. */
  ghost predicate TokenInv(s: State) {
    |s.pending| <= |Tokens(s.procs)|
  }

  predicate AboutToImport(s: State, source: Source) {
    s.lock.Some? && At(s, s.lock.value)
    && s.procs[s.lock.value].pc.Claimed? && s.procs[s.lock.value].pc.source == source
  }

  predicate Begun(s: State, source: Source)
    requires source in s.requested
  {
    source in s.begun && s.requested[source] < s.begun[source]
  }

  /** A request is pending, or claimed and about to be imported, or an import has begun after it. */
  ghost predicate RequestInv(s: State) {
    forall source :: source in s.requested ==>
      && s.requested[source] < s.now
      && (source in s.pending || AboutToImport(s, source) || Begun(s, source))
  }

  /** The lock holder's import of the source has ended, and the failure marker is about to follow. */
  predicate Settling(s: State, source: Source) {
    && s.lock.Some? && At(s, s.lock.value)
    && (s.procs[s.lock.value].pc.Clearing? || s.procs[s.lock.value].pc.Recording?)
    && s.procs[s.lock.value].pc.source == source
  }

  predicate LastFailed(s: State, source: Source) {
    source in s.outcome && !s.outcome[source]
  }

  /** The failure marker tells how the import that ended last has ended, or is just being set to do so. */
  ghost predicate MarkerInv(s: State) {
    && (forall source :: !Settling(s, source) ==> (source in s.failed <==> LastFailed(s, source)))
    && (forall source :: Settling(s, source) ==> (LastFailed(s, source) <==> s.procs[s.lock.value].pc.Recording?))
  }

  predicate OwnsWorking(proc: Proc, cycle: nat, source: Source) {
    proc.Worker? && HasClaim(proc.pc)
    && proc.pc.cycle == cycle && proc.pc.source == source
  }

  /** The working file a worker is going to remove or rename is there. */
  ghost predicate WorkingInv(s: State) {
    forall p: Pid, cycle: nat, source :: p in s.procs && OwnsWorking(s.procs[p], cycle, source) ==> (p, cycle, source) in s.working
  }

  ghost predicate Inv(s: State) {
    LockInv(s) && PlaceInv(s) && TokenInv(s) && RequestInv(s) && MarkerInv(s) && WorkingInv(s)
  }

  // ---------------------------------------------------------------- every step keeps it

  lemma {:induction false} LockStep(s: State, a: Action)
    requires LockInv(s) && Enabled(s, a)
    ensures LockInv(Do(s, a))
  {
  }

  lemma {:induction false} PlaceStepSelf(s: State, a: Action)
    requires a.p in s.procs ==> WellPlaced(s, s.procs[a.p])
    requires Enabled(s, a)
    ensures a.p in Do(s, a).procs && FlagFits(Do(s, a).procs[a.p])
  {
  }

  lemma {:induction false} TodoStepClaim(s: State, a: Action)
    requires a.Claim? && Enabled(s, a) && WellPlaced(s, s.procs[a.p])
    ensures a.p in Do(s, a).procs && TodoFits(Do(s, a), Do(s, a).procs[a.p])
  {
  }

  lemma {:induction false} TodoStepOther(s: State, a: Action)
    requires a.p in s.procs ==> WellPlaced(s, s.procs[a.p])
    requires Enabled(s, a) && !a.Claim?
    ensures a.p in Do(s, a).procs && TodoFits(Do(s, a), Do(s, a).procs[a.p])
  {
    if a.EndScan? {
      assert forall i :: 0 <= i < |Sorted(a.found)| ==> Sorted(a.found)[i] in a.found;
    }
  }

  lemma {:induction false} TodoStepSelf(s: State, a: Action)
    requires a.p in s.procs ==> WellPlaced(s, s.procs[a.p])
    requires Enabled(s, a)
    ensures a.p in Do(s, a).procs && TodoFits(Do(s, a), Do(s, a).procs[a.p])
  {
    if a.Claim? {
      TodoStepClaim(s, a);
    } else {
      TodoStepOther(s, a);
    }
  }

  lemma {:induction false} PlaceStepOther(s: State, a: Action, p: Pid)
    requires LockInv(s) && PlaceInv(s) && Enabled(s, a)
    requires p in Do(s, a).procs && p != a.p
    ensures WellPlaced(Do(s, a), Do(s, a).procs[p])
  {
    if p in s.procs {
      assert WellPlaced(s, s.procs[p]);
      assert Do(s, a).procs[p] == s.procs[p];
    }
  }

  lemma {:induction false} PlaceStep(s: State, a: Action)
    requires LockInv(s) && PlaceInv(s) && Enabled(s, a)
    ensures PlaceInv(Do(s, a))
  {
    forall p | p in Do(s, a).procs
      ensures WellPlaced(Do(s, a), Do(s, a).procs[p])
    {
      if p == a.p {
        PlaceStepSelf(s, a);
        TodoStepSelf(s, a);
      } else {
        PlaceStepOther(s, a, p);
      }
    }
  }

  lemma {:induction false} TokensUpdate(procs: map<Pid, Proc>, p: Pid, proc: Proc)
    ensures Tokens(procs[p := proc]) == if Token(proc) then Tokens(procs) + {p} else Tokens(procs) - {p}
  {
  }

  /** Steps of one process that leave the pending markers alone. */
  predicate KeepsMarkers(a: Action) {
    !a.Publish? && !a.Claim? && !a.SpawnDetached?
  }

  lemma {:induction false} TokenKept(s: State, a: Action)
    requires a.p in s.procs ==> WellPlaced(s, s.procs[a.p])
    requires Enabled(s, a) && KeepsMarkers(a)
    ensures Do(s, a).pending == s.pending
    ensures Do(s, a).procs == s.procs[a.p := Do(s, a).procs[a.p]]
    ensures a.p in s.procs && Token(s.procs[a.p]) ==> Token(Do(s, a).procs[a.p]) || s.pending == {}
  {
  }

  lemma {:induction false} TokenPublish(s: State, a: Action)
    requires a.Publish? && Enabled(s, a) && TokenInv(s)
    ensures TokenInv(Do(s, a))
  {
    TokensUpdate(s.procs, a.p, Do(s, a).procs[a.p]);
  }

  lemma {:induction false} TokenClaim(s: State, a: Action)
    requires a.Claim? && Enabled(s, a) && TokenInv(s) && WellPlaced(s, s.procs[a.p])
    ensures TokenInv(Do(s, a))
  {
    assert s.procs[a.p].pc.todo[0] in s.pending;
    TokensUpdate(s.procs, a.p, Do(s, a).procs[a.p]);
  }

  lemma {:induction false} TokenSpawn(s: State, a: Action)
    requires a.SpawnDetached? && Enabled(s, a) && TokenInv(s)
    ensures TokenInv(Do(s, a))
  {
    TokensUpdate(s.procs, a.p, Gone);
    TokensUpdate(s.procs[a.p := Gone], a.child, Worker(Waiting, false));
  }

  lemma {:induction false} TokenOther(s: State, a: Action)
    requires a.p in s.procs ==> WellPlaced(s, s.procs[a.p])
    requires Enabled(s, a) && KeepsMarkers(a) && TokenInv(s)
    ensures TokenInv(Do(s, a))
  {
    TokenKept(s, a);
    TokensUpdate(s.procs, a.p, Do(s, a).procs[a.p]);
    if s.pending != {} {
      assert Tokens(s.procs) <= Tokens(Do(s, a).procs);
      SubsetSize(Tokens(s.procs), Tokens(Do(s, a).procs));
    }
  }

  lemma {:induction false} TokenStep(s: State, a: Action)
    requires PlaceInv(s) && TokenInv(s) && Enabled(s, a)
    ensures TokenInv(Do(s, a))
  {
    assert a.p in s.procs ==> WellPlaced(s, s.procs[a.p]);
    match a {
      case Publish(_) => TokenPublish(s, a);
      case Claim(_) => TokenClaim(s, a);
      case SpawnDetached(_, _) => TokenSpawn(s, a);
      case _ => TokenOther(s, a);
    }
  }

  lemma {:induction false} RequestStep(s: State, a: Action)
    requires LockInv(s) && PlaceInv(s) && RequestInv(s) && Enabled(s, a)
    ensures RequestInv(Do(s, a))
  {
    var s' := Do(s, a);
    forall source | source in s'.requested
      ensures s'.requested[source] < s'.now
      ensures source in s'.pending || AboutToImport(s', source) || Begun(s', source)
    {
      if source in s.requested {
        assert s.requested[source] < s.now;
      }
    }
  }

  /** Only the lock holder ends an import or touches a failure marker. */
  lemma {:induction false} OthersLeaveMarkers(s: State, a: Action)
    requires LockInv(s) && Enabled(s, a) && s.lock != Some(a.p)
    ensures Do(s, a).failed == s.failed && Do(s, a).outcome == s.outcome
    ensures s.lock.Some? ==>
      Do(s, a).lock == s.lock && Do(s, a).procs[s.lock.value] == s.procs[s.lock.value]
    ensures forall source :: Settling(Do(s, a), source) ==> Settling(s, source)
    ensures forall source :: Settling(s, source) ==> Settling(Do(s, a), source)
  {
  }

  /** Steps that end an import or touch a failure marker. */
  predicate Marks(a: Action) {
    a.ImportOk? || a.ImportFailed? || a.ClearMarker? || a.RecordFailure?
  }

  lemma {:induction false} HolderLeavesMarkers(s: State, a: Action)
    requires Enabled(s, a) && s.lock == Some(a.p) && !Marks(a)
    ensures Do(s, a).failed == s.failed && Do(s, a).outcome == s.outcome
    ensures forall source :: !Settling(s, source) && !Settling(Do(s, a), source)
  {
  }

  /** The holder settles what it has just imported, and with one step. */
  lemma {:induction false} HolderMarks(s: State, a: Action, source: Source)
    requires MarkerInv(s) && Enabled(s, a) && s.lock == Some(a.p) && Marks(a)
    ensures var s' := Do(s, a);
      && (!Settling(s', source) ==> (source in s'.failed <==> LastFailed(s', source)))
      && (Settling(s', source) ==> (LastFailed(s', source) <==> s'.procs[s'.lock.value].pc.Recording?))
  {
    assert Settling(s, source) ==> (LastFailed(s, source) <==> s.procs[a.p].pc.Recording?);
  }

  lemma {:induction false} MarkerStep(s: State, a: Action)
    requires LockInv(s) && MarkerInv(s) && Enabled(s, a)
    ensures MarkerInv(Do(s, a))
  {
    var s' := Do(s, a);
    forall source
      ensures !Settling(s', source) ==> (source in s'.failed <==> LastFailed(s', source))
      ensures Settling(s', source) ==> (LastFailed(s', source) <==> s'.procs[s'.lock.value].pc.Recording?)
    {
      if s.lock != Some(a.p) {
        OthersLeaveMarkers(s, a);
      } else if Marks(a) {
        HolderMarks(s, a, source);
      } else {
        HolderLeavesMarkers(s, a);
      }
    }
  }

  lemma {:induction false} WorkingStep(s: State, a: Action)
    requires LockInv(s) && WorkingInv(s) && Enabled(s, a)
    ensures WorkingInv(Do(s, a))
  {
  }

  lemma {:induction false} Inductive(s: State, a: Action)
    requires Inv(s) && Enabled(s, a)
    ensures Inv(Do(s, a))
  {
    LockStep(s, a);
    PlaceStep(s, a);
    TokenStep(s, a);
    RequestStep(s, a);
    MarkerStep(s, a);
    WorkingStep(s, a);
  }

  // ---------------------------------------------------------------- whole runs

  ghost predicate Runs(s: State, actions: seq<Action>, s': State)
    decreases |actions|
  {
    if actions == [] then s' == s
    else Enabled(s, actions[0]) && Runs(Do(s, actions[0]), actions[1..], s')
  }

  ghost predicate Reachable(s: State) {
    exists actions :: Runs(INITIAL, actions, s)
  }

  lemma {:induction false} RunKeepsInv(s: State, actions: seq<Action>, s': State)
    requires Inv(s) && Runs(s, actions, s')
    ensures Inv(s')
    decreases |actions|
  {
    if actions != [] {
      Inductive(s, actions[0]);
      RunKeepsInv(Do(s, actions[0]), actions[1..], s');
    }
  }

  lemma {:induction false} ReachableInv(s: State)
    requires Reachable(s)
    ensures Inv(s)
  {
    var actions :| Runs(INITIAL, actions, s);
    RunKeepsInv(INITIAL, actions, s);
  }

  /** No process is left that could still claim, import or start anything. */
  ghost predicate Quiet(s: State) {
    forall p :: p in s.procs ==> s.procs[p].Gone?
  }

  /** No request is lost: when all is quiet nothing is pending and every source was imported since. */
  lemma {:induction false} NoLostRequest(s: State)
    requires Reachable(s) && Quiet(s)
    ensures s.pending == {}
    ensures forall source :: source in s.requested ==> Begun(s, source)
  {
    ReachableInv(s);
    assert Tokens(s.procs) == {};
  }

  /** Workers that have claimed nothing, and requests that are about to start one. */
  function Unclaimed(procs: map<Pid, Proc>): set<Pid> {
    set p | p in procs && (procs[p].Spawner? || (procs[p].Worker? && !procs[p].claimed))
  }

  /**
   In between, every pending marker has a process of its own that has claimed nothing: even when a
   worker stops at a failed import and leaves the rest of its listing behind.
   */
  lemma {:induction false} PendingHasWorkers(s: State)
    requires Reachable(s)
    ensures |s.pending| <= |Unclaimed(s.procs)|
  {
    ReachableInv(s);
    SubsetSize(Tokens(s.procs), Unclaimed(s.procs));
  }

  lemma {:induction false} SubsetSize<T>(a: set<T>, b: set<T>)
    requires a <= b
    ensures |a| <= |b|
  {
    if x :| x in a {
      SubsetSize(a - {x}, b - {x});
    }
  }

  /** One import at a time, and never while locked-exec runs its command. */
  lemma {:induction false} OneImportAtATime(s: State, p: Pid, q: Pid)
    requires Reachable(s) && At(s, p) && s.procs[p].pc.Importing?
    requires q in s.procs && (s.procs[q].Exec? || (At(s, q) && s.procs[q].pc.Importing?))
    ensures p == q
  {
    ReachableInv(s);
  }

  /**
   The failure marker is there iff the import of the source that ended last has failed: always, except
   between the end of an import and the lock holder's next step; so whenever the lock is free, and for
   all other sources even then.
   */
  lemma {:induction false} FailureMarkerTruth(s: State, source: Source)
    requires Reachable(s)
    ensures !Settling(s, source) ==> (source in s.failed <==> LastFailed(s, source))
    ensures s.lock.None? ==> (source in s.failed <==> LastFailed(s, source))
    ensures Settling(s, source) ==> (LastFailed(s, source) <==> s.procs[s.lock.value].pc.Recording?)
  {
    ReachableInv(s);
  }

  /** A listed marker is never gone when its turn comes, nor is a working file when it must move on. */
  lemma {:induction false} RenamesSucceed(s: State, p: Pid)
    requires Reachable(s) && At(s, p)
    ensures s.procs[p].pc.Claiming? && s.procs[p].pc.todo != [] ==> s.procs[p].pc.todo[0] in s.pending
    ensures s.procs[p].pc.Recording? ==> (p, s.procs[p].pc.cycle, s.procs[p].pc.source) in s.working
  {
    ReachableInv(s);
    assert WellPlaced(s, s.procs[p]);
    if s.procs[p].pc.Recording? {
      assert OwnsWorking(s.procs[p], s.procs[p].pc.cycle, s.procs[p].pc.source);
    }
  }

  // ---------------------------------------------------------------- every request is served

  /** An upper bound on the steps a process, and the worker it may start, still takes. */
  function Rank(proc: Proc): nat {
    match proc
    case Requester(_) => 39
    case Spawner(_) => 38
    case Exec => 1
    case Gone => 0
    case Worker(pc, _) =>
      match pc
      case Waiting => 37
      case Debouncing => 36
      case Scanning(cycle, _) => if cycle == 0 then 35 else 18
      case Claiming(cycle, todo) => Round(cycle) + 5 * |todo|
      case Claimed(cycle, todo, _) => Round(cycle) + 5 * |todo| + 4
      case Importing(cycle, todo, _) => Round(cycle) + 5 * |todo| + 3
      case Clearing(cycle, todo, _) => Round(cycle) + 5 * |todo| + 2
      case Cleaning(cycle, todo, _) => Round(cycle) + 5 * |todo| + 1
      case Recording(_, _) => 2
      case Releasing => 1
  }

  function Round(cycle: nat): nat {
    if cycle == 0 then 19 else 2
  }

  ghost function Sum(procs: map<Pid, Proc>, ps: set<Pid>): nat
    requires ps <= procs.Keys
    decreases ps
  {
    if ps == {} then 0
    else
      var p :| p in ps;
      Rank(procs[p]) + Sum(procs, ps - {p})
  }

  lemma {:induction false} SumWithout(procs: map<Pid, Proc>, ps: set<Pid>, p: Pid)
    requires ps <= procs.Keys && p in ps
    ensures Sum(procs, ps) == Rank(procs[p]) + Sum(procs, ps - {p})
    decreases ps
  {
    var q :| q in ps && Sum(procs, ps) == Rank(procs[q]) + Sum(procs, ps - {q});
    if q != p {
      SumWithout(procs, ps - {q}, p);
      SumWithout(procs, ps - {p}, q);
      assert ps - {q} - {p} == ps - {p} - {q};
    }
  }

  lemma {:induction false} SumAgree(a: map<Pid, Proc>, b: map<Pid, Proc>, ps: set<Pid>)
    requires ps <= a.Keys && ps <= b.Keys
    requires forall p :: p in ps ==> a[p] == b[p]
    ensures Sum(a, ps) == Sum(b, ps)
    decreases ps
  {
    if p :| p in ps {
      SumWithout(a, ps, p);
      SumWithout(b, ps, p);
      SumAgree(a, b, ps - {p});
    }
  }

  ghost function Work(procs: map<Pid, Proc>): nat {
    Sum(procs, procs.Keys)
  }

  lemma {:induction false} WorkUpdate(procs: map<Pid, Proc>, p: Pid, proc: Proc)
    ensures Work(procs[p := proc]) + (if p in procs then Rank(procs[p]) else 0) == Work(procs) + Rank(proc)
  {
    var procs' := procs[p := proc];
    SumWithout(procs', procs'.Keys, p);
    assert procs'.Keys - {p} == procs.Keys - {p};
    SumAgree(procs, procs', procs.Keys - {p});
    if p in procs {
      SumWithout(procs, procs.Keys, p);
    } else {
      assert procs.Keys - {p} == procs.Keys;
    }
  }

  /** Steps of processes that exist, as opposed to arrivals from outside. */
  predicate Internal(a: Action) {
    !a.Request? && !a.StartWorker? && !a.StartExec?
  }

  lemma {:induction false} OnlyItsProcess(s: State, a: Action)
    requires Enabled(s, a) && Internal(a) && !a.SpawnDetached?
    ensures a.p in s.procs && a.p in Do(s, a).procs
    ensures Do(s, a).procs == s.procs[a.p := Do(s, a).procs[a.p]]
  {
  }

  lemma {:induction false} RankFalls(s: State, a: Action)
    requires a.p in s.procs ==> WellPlaced(s, s.procs[a.p])
    requires Enabled(s, a) && Internal(a) && !a.SpawnDetached?
    ensures a.p in s.procs && a.p in Do(s, a).procs
    ensures Rank(Do(s, a).procs[a.p]) < Rank(s.procs[a.p])
  {
  }

  lemma {:induction false} WorkFalls(s: State, a: Action)
    requires Inv(s) && Enabled(s, a) && Internal(a)
    ensures Work(Do(s, a).procs) < Work(s.procs)
  {
    assert a.p in s.procs ==> WellPlaced(s, s.procs[a.p]);
    if a.SpawnDetached? {
      WorkUpdate(s.procs, a.p, Gone);
      WorkUpdate(s.procs[a.p := Gone], a.child, Worker(Waiting, false));
    } else {
      RankFalls(s, a);
      OnlyItsProcess(s, a);
      WorkUpdate(s.procs, a.p, Do(s, a).procs[a.p]);
    }
  }

  function NextAction(p: Pid, proc: Proc): Action {
    match proc
    case Requester(_) => Publish(p)
    case Spawner(_) => SpawnForeground(p)
    case Exec => EndExec(p)
    case Gone => EndExec(p)
    case Worker(pc, _) =>
      match pc
      case Waiting => Acquire(p)
      case Debouncing => BeginScan(p)
      case Scanning(_, seen) => EndScan(p, seen)
      case Claiming(_, todo) => if todo == [] then FinishScan(p) else Claim(p)
      case Claimed(_, _, _) => BeginImport(p)
      case Importing(_, _, _) => ImportOk(p)
      case Clearing(_, _, _) => ClearMarker(p)
      case Cleaning(_, _, _) => RemoveWorking(p)
      case Recording(_, _) => RecordFailure(p)
      case Releasing => Release(p)
  }

  /** While any process is left, some process can take a step. */
  lemma {:induction false} NoDeadlock(s: State, p: Pid)
    requires Inv(s) && p in s.procs && !s.procs[p].Gone?
    ensures exists a :: Internal(a) && Enabled(s, a)
  {
    var mover := if s.lock.Some? then s.lock.value else p;
    var a := NextAction(mover, s.procs[mover]);
    assert Internal(a) && Enabled(s, a);
  }

  lemma {:induction false} InternalRunIsBounded(s: State, actions: seq<Action>, s': State)
    requires Inv(s) && Runs(s, actions, s')
    requires forall i :: 0 <= i < |actions| ==> Internal(actions[i])
    ensures |actions| + Work(s'.procs) <= Work(s.procs)
    decreases |actions|
  {
    if actions != [] {
      WorkFalls(s, actions[0]);
      Inductive(s, actions[0]);
      InternalRunIsBounded(Do(s, actions[0]), actions[1..], s');
    }
  }

  /**
   Liveness under any scheduling: from every reachable state a run without new arrivals is at most
   `Work` steps long, and where it cannot go on every request has been served.
   */
  lemma {:induction false} EveryRequestIsServed(s: State, actions: seq<Action>, s': State)
    requires Reachable(s) && Runs(s, actions, s')
    requires forall i :: 0 <= i < |actions| ==> Internal(actions[i])
    ensures |actions| <= Work(s.procs)
    ensures (forall a :: Internal(a) ==> !Enabled(s', a)) ==>
      && s'.pending == {}
      && forall source :: source in s'.requested ==> Begun(s', source)
  {
    ReachableInv(s);
    InternalRunIsBounded(s, actions, s');
    RunKeepsInv(s, actions, s');
    if forall a :: Internal(a) ==> !Enabled(s', a) {
      forall p | p in s'.procs
        ensures s'.procs[p].Gone?
      {
        if !s'.procs[p].Gone? {
          NoDeadlock(s', p);
        }
      }
      assert Tokens(s'.procs) == {};
    }
  }
}

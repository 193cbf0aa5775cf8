/** What `spool_counts` reports of a spool that any interleaving of its processes has left. */
module SpoolLaws {
  import opened Wrappers
  import opened SpoolNames
  import opened Spool
  import opened SpoolInbox
  import opened Sorting

  /** The captures in one state. */
  function InClass(s: State, c: Class): set<string> {
    set b | b in s.place && s.place[b] == c
  }

  function NamesIn(place: map<string, Class>): set<string> {
    set b | b in place :: At(b, place[b])
  }

  lemma {:induction false} DistinctNames(place: map<string, Class>)
    requires forall b :: b in place ==> IsBase(b)
    ensures |NamesIn(place)| == |place|
    decreases |place|
  {
    if place != map[] {
      var b :| b in place;
      var rest := place - {b};
      DistinctNames(rest);
      assert rest.Keys == place.Keys - {b};
      forall x | x in rest
        ensures At(x, rest[x]) != At(b, place[b])
      {
        NamesAreDistinct(x, rest[x], b, place[b]);
      }
      NamesWith(place, b);
    }
  }

  lemma {:induction false} NamesWith(place: map<string, Class>, b: string)
    requires b in place
    ensures NamesIn(place) == NamesIn(place - {b}) + {At(b, place[b])}
  {
    var rest := place - {b};
    forall n
      ensures n in NamesIn(place) <==> n in NamesIn(rest) || n == At(b, place[b])
    {
      if n in NamesIn(place) {
        var x :| x in place && n == At(x, place[x]);
        assert x == b || x in rest;
      }
      if n in NamesIn(rest) {
        var x :| x in rest && n == At(x, rest[x]);
        assert x in place;
      }
    }
  }

  lemma {:induction false} SameSize(a: set<string>, b: set<string>)
    requires a <= b && |a| == |b|
    ensures a == b
  {
    assert |b - a| == |b| - |a|;
  }

  /** The directory holds the spool's files and no others. */
  lemma {:induction false} FilesAreNames(s: State)
    requires Inv(s)
    ensures s.files.Keys == NamesIn(s.place)
  {
    DistinctNames(s.place);
    assert NamesIn(s.place) <= s.files.Keys;
    assert |s.files.Keys| == |s.files|;
    SameSize(NamesIn(s.place), s.files.Keys);
  }

  /** The names of a listing that a test accepts, counted and collected. */
  function CountIf(listing: seq<string>, test: string -> bool): nat {
    if listing == [] then 0
    else CountIf(listing[..|listing| - 1], test) + if test(listing[|listing| - 1]) then 1 else 0
  }

  function Accepted(listing: seq<string>, test: string -> bool): set<string> {
    set n | n in listing && test(n)
  }

  lemma {:induction false} CountIsSize(listing: seq<string>, test: string -> bool)
    requires NoRepeats(listing)
    ensures CountIf(listing, test) == |Accepted(listing, test)|
  {
    if listing != [] {
      var before, last := listing[..|listing| - 1], listing[|listing| - 1];
      CountIsSize(before, test);
      assert last !in before;
      forall n
        ensures n in Accepted(listing, test) <==> n in Accepted(before, test) || (n == last && test(last))
      {
        LastOrEarlier(listing, n);
      }
      assert Accepted(listing, test) == Accepted(before, test) + if test(last) then {last} else {};
    }
  }

  lemma {:induction false} CountsByTest(listing: seq<string>, c: Class, test: string -> bool)
    requires forall n :: n in listing ==> (test(n) <==> ClassOf(n) == Some(c))
    ensures CountClass(listing, c) == CountIf(listing, test)
  {
    if listing != [] {
      CountsByTest(listing[..|listing| - 1], c, test);
    }
  }

  /** A name of the spool belongs to the class its capture is in. */
  lemma {:induction false} ClassOfFile(s: State, n: string)
    requires Inv(s) && n in s.files
    ensures exists b :: b in s.place && n == At(b, s.place[b]) && ClassOf(n) == Some(s.place[b])
  {
    FilesAreNames(s);
    var b :| b in s.place && n == At(b, s.place[b]);
    CountedInItsClass(b, s.place[b]);
  }

  /** The names of the captures in one state. */
  function NamesOf(s: State, c: Class): set<string> {
    NamesIn(map b | b in InClass(s, c) :: c)
  }

  lemma {:induction false} OneNameEach(s: State, c: Class)
    requires Inv(s)
    ensures |NamesOf(s, c)| == |InClass(s, c)|
    ensures NamesOf(s, c) <= s.files.Keys
  {
    var part := map b | b in InClass(s, c) :: c;
    DistinctNames(part);
    assert part.Keys == InClass(s, c);
    forall n | n in NamesIn(part)
      ensures n in s.files
    {
      var b :| b in part && n == At(b, part[b]);
      assert s.place[b] == c;
    }
  }

  lemma {:induction false} NamedInItsClass(s: State, n: string, c: Class)
    requires Inv(s) && n in s.files
    ensures n in NamesOf(s, c) <==> ClassOf(n) == Some(c)
  {
    ClassOfFile(s, n);
    var b :| b in s.place && n == At(b, s.place[b]) && ClassOf(n) == Some(s.place[b]);
    NameHere(s, n, b, c, map x | x in InClass(s, c) :: c);
  }

  lemma {:induction false} CountOfSet(listing: seq<string>, c: Class, names: set<string>)
    requires NoRepeats(listing)
    requires forall n :: n in listing ==> (n in names <==> ClassOf(n) == Some(c))
    requires forall n :: n in names ==> n in listing
    ensures CountClass(listing, c) == |names|
  {
    var test := n => n in names;
    CountsByTest(listing, c, test);
    CountIsSize(listing, test);
    assert Accepted(listing, test) == names;
  }

  lemma {:induction false} CountsFit(s: State, listing: seq<string>, c: Class)
    requires Inv(s) && NoRepeats(listing) && forall n :: n in listing <==> n in s.files
    ensures CountClass(listing, c) == |NamesOf(s, c)|
  {
    OneNameEach(s, c);
    forall n | n in listing
      ensures n in NamesOf(s, c) <==> ClassOf(n) == Some(c)
    {
      NamedInItsClass(s, n, c);
    }
    CountOfSet(listing, c, NamesOf(s, c));
  }

  /** The counts are those of the captures in each state, whatever has happened in the spool. */
  lemma {:induction false} CountsAreTrue(s: State, listing: seq<string>, c: Class)
    requires Reachable(s) && NoRepeats(listing) && forall n :: n in listing <==> n in s.files
    ensures CountClass(listing, c) == |InClass(s, c)|
  {
    ReachableInv(s);
    CountsFit(s, listing, c);
    OneNameEach(s, c);
  }

  lemma {:induction false} NameHere(s: State, n: string, b: string, c: Class, part: map<string, Class>)
    requires Inv(s) && b in s.place && n == At(b, s.place[b]) && part == map x | x in InClass(s, c) :: c
    ensures n in NamesIn(part) <==> s.place[b] == c
  {
    if n in NamesIn(part) {
      var x :| x in part && n == At(x, part[x]);
      NamesAreDistinct(x, c, b, s.place[b]);
    }
    if s.place[b] == c {
      assert b in part;
    }
  }

  lemma {:induction false} DisjointSizes(a: set<string>, b: set<string>)
    requires a !! b
    ensures |a + b| == |a| + |b|
  {
  }

  lemma {:induction false} InSomeClass(s: State)
    ensures forall b :: b in s.place <==>
      || b in InClass(s, Pending) || b in InClass(s, Tmp) || b in InClass(s, Processing)
      || b in InClass(s, Done) || b in InClass(s, Failed)
  {
  }

  lemma {:induction false} ClassesAddUp(s: State)
    ensures |InClass(s, Pending)| + |InClass(s, Tmp)| + |InClass(s, Processing)| + |InClass(s, Done)|
      + |InClass(s, Failed)| == |s.place|
  {
    var two := InClass(s, Pending) + InClass(s, Tmp);
    var more := InClass(s, Processing) + InClass(s, Done);
    DisjointSizes(InClass(s, Pending), InClass(s, Tmp));
    DisjointSizes(InClass(s, Processing), InClass(s, Done));
    DisjointSizes(two, more);
    DisjointSizes(two + more, InClass(s, Failed));
    InSomeClass(s);
    assert s.place.Keys == two + more + InClass(s, Failed);
  }

  /** Every capture is counted once. */
  lemma {:induction false} CountsAddUp(s: State, listing: seq<string>)
    requires Reachable(s) && NoRepeats(listing) && forall n :: n in listing <==> n in s.files
    ensures var c := CountsOf(listing);
      c.pending + c.tmp + c.processing + c.done + c.failed == |s.place|
  {
    CountsAreTrue(s, listing, Pending);
    CountsAreTrue(s, listing, Tmp);
    CountsAreTrue(s, listing, Processing);
    CountsAreTrue(s, listing, Done);
    CountsAreTrue(s, listing, Failed);
    ClassesAddUp(s);
  }
}

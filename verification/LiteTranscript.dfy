/** Which events of a session each transcript mode shows. A reference to an event is its position. */
module LiteTranscript {
  import opened Wrappers

  datatype Role = User | Assistant | System | OtherRole

  datatype Event = Event(isMessage: bool, role: Option<Role>)

  datatype Mode = Log | Full | Lite

  predicate IsMessage(e: Event) {
    e.isMessage && e.role in {Some(User), Some(Assistant), Some(System)}
  }

  predicate IsUser(e: Event) {
    e.isMessage && e.role == Some(User)
  }

  predicate IsAssistant(e: Event) {
    e.isMessage && e.role == Some(Assistant)
  }

  predicate Increasing(s: seq<nat>) {
    forall i, j :: 0 <= i < j < |s| ==> s[i] < s[j]
  }

  predicate Below(s: seq<nat>, n: nat) {
    forall k :: 0 <= k < |s| ==> s[k] < n
  }

  lemma {:induction false} Append(s: seq<nat>, x: nat)
    requires Increasing(s) && Below(s, x)
    ensures Increasing(s + [x]) && Below(s + [x], x + 1)
    ensures forall j :: j in s + [x] <==> j in s || j == x
  {
  }

  predicate NoUserBetween(events: seq<Event>, j: nat, q: nat)
    requires q <= |events|
  {
    forall u :: j < u < q ==> !IsUser(events[u])
  }

  /** Another assistant message follows `j` before the next user message, among the first `n` events. */
  ghost predicate Superseded(events: seq<Event>, j: nat, n: nat)
    requires n <= |events|
  {
    exists q :: j < q < n && IsAssistant(events[q]) && NoUserBetween(events, j, q)
  }

  /** Every user message, and the last assistant message before each and before the end. */
  ghost predicate Kept(events: seq<Event>, j: nat, n: nat)
    requires j < n <= |events|
  {
    IsUser(events[j]) || (IsAssistant(events[j]) && !Superseded(events, j, n))
  }

  // ---------------------------------------------------------------- the loop

  /** After `n` events: what is kept of them is selected or pending, and a user message comes last. */
  ghost predicate Selecting(events: seq<Event>, n: nat, selected: seq<nat>, pending: Option<nat>)
    requires n <= |events|
  {
    && Increasing(selected) && Below(selected, n)
    && (selected != [] ==> IsUser(events[selected[|selected| - 1]]))
    && (forall j :: 0 <= j < n ==> (j in selected || pending == Some(j) <==> Kept(events, j, n)))
    && (pending.Some? ==>
          && pending.value < n && Below(selected, pending.value)
          && IsAssistant(events[pending.value]) && NoUserBetween(events, pending.value, n))
  }

  lemma {:induction false} SameSuperseded(events: seq<Event>, j: nat, n: nat)
    requires n < |events| && !IsAssistant(events[n])
    ensures Superseded(events, j, n + 1) == Superseded(events, j, n)
  {
  }

  lemma {:induction false} NotKept(events: seq<Event>, n: nat, selected: seq<nat>, pending: Option<nat>)
    requires n < |events| && Selecting(events, n, selected, pending)
    requires !IsUser(events[n]) && !IsAssistant(events[n])
    ensures Selecting(events, n + 1, selected, pending)
  {
  }

  lemma {:induction false} UserSelected(events: seq<Event>, n: nat, selected: seq<nat>, pending: Option<nat>)
    requires n < |events| && Selecting(events, n, selected, pending) && IsUser(events[n])
    ensures Selecting(events, n + 1, (if pending.Some? then selected + [pending.value] else selected) + [n], None)
  {
    var before := if pending.Some? then selected + [pending.value] else selected;
    var selected' := before + [n];
    if pending.Some? {
      Append(selected, pending.value);
    }
    Append(before, n);
    forall j | 0 <= j < n + 1
      ensures j in selected' <==> Kept(events, j, n + 1)
    {
      SameSuperseded(events, j, n);
      assert j < n ==> (Kept(events, j, n + 1) <==> Kept(events, j, n));
    }
  }

  lemma {:induction false} AssistantPending(events: seq<Event>, n: nat, selected: seq<nat>, pending: Option<nat>)
    requires n < |events| && Selecting(events, n, selected, pending) && IsAssistant(events[n])
    ensures Selecting(events, n + 1, selected, Some(n))
  {
  }

  /** `lite_transcript_events`. */
  method LiteTranscriptEvents(events: seq<Event>) returns (selected: seq<nat>)
    ensures Increasing(selected)
    ensures forall j :: j in selected <==> 0 <= j < |events| && Kept(events, j, |events|)
  {
    selected := [];
    var pending: Option<nat> := None;
    for n := 0 to |events|
      invariant Selecting(events, n, selected, pending)
    {
      if IsUser(events[n]) {
        UserSelected(events, n, selected, pending);
        if pending.Some? {
          selected := selected + [pending.value];
          pending := None;
        }
        selected := selected + [n];
      } else if IsAssistant(events[n]) {
        AssistantPending(events, n, selected, pending);
        pending := Some(n);
      } else {
        NotKept(events, n, selected, pending);
      }
    }
    if pending.Some? {
      Append(selected, pending.value);
      selected := selected + [pending.value];
    }
  }

  /** `selected_transcript_events`. */
  method SelectedTranscriptEvents(events: seq<Event>, mode: Mode) returns (selected: seq<nat>)
    ensures Increasing(selected)
    ensures forall j :: j in selected <==> 0 <= j < |events| && Shown(events, j, mode)
  {
    match mode {
      case Lite =>
        selected := LiteTranscriptEvents(events);
      case Log =>
        selected := seq(|events|, n => n);
        forall j | 0 <= j < |events|
          ensures j in selected
        {
          assert selected[j] == j;
        }
      case Full =>
        selected := [];
        for n := 0 to |events|
          invariant Increasing(selected) && Below(selected, n)
          invariant forall j :: j in selected <==> 0 <= j < n && IsMessage(events[j])
        {
          if IsMessage(events[n]) {
            Append(selected, n);
            selected := selected + [n];
          }
        }
    }
  }

  ghost predicate Shown(events: seq<Event>, j: nat, mode: Mode)
    requires j < |events|
  {
    match mode
    case Log => true
    case Full => IsMessage(events[j])
    case Lite => Kept(events, j, |events|)
  }

  // ---------------------------------------------------------------- what a lite transcript is

  /** There is one such selection: order and membership determine it. */
  lemma {:induction false} SelectionIsUnique(a: seq<nat>, b: seq<nat>)
    requires Increasing(a) && Increasing(b) && forall j :: j in a <==> j in b
    ensures a == b
    decreases |a|
  {
    assert a != [] ==> a[0] in b;
    assert b != [] ==> b[0] in a;
    if a != [] {
      LeastIsFirst(a, b[0]);
      LeastIsFirst(b, a[0]);
      TailMembers(a);
      TailMembers(b);
      SelectionIsUnique(a[1..], b[1..]);
      assert a == [a[0]] + a[1..] && b == [b[0]] + b[1..];
    }
  }

  lemma {:induction false} LeastIsFirst(s: seq<nat>, x: nat)
    requires Increasing(s) && x in s
    ensures s[0] <= x
  {
  }

  lemma {:induction false} TailMembers(s: seq<nat>)
    requires Increasing(s) && s != []
    ensures Increasing(s[1..]) && forall j :: j in s[1..] <==> j in s && j != s[0]
  {
  }

  function Picked(events: seq<Event>, selected: seq<nat>): seq<Event>
    requires forall k :: 0 <= k < |selected| ==> selected[k] < |events|
  {
    seq(|selected|, k requires 0 <= k < |selected| => events[selected[k]])
  }

  ghost predicate IsLite(events: seq<Event>, selected: seq<nat>) {
    && Increasing(selected)
    && (forall k :: 0 <= k < |selected| ==> selected[k] < |events|)
    && (forall j :: j in selected <==> 0 <= j < |events| && Kept(events, j, |events|))
  }

  /** A user message lies between two assistant messages when the first is kept. */
  lemma {:induction false} Separated(events: seq<Event>, j: nat, q: nat) returns (u: nat)
    requires j < q < |events| && IsAssistant(events[j]) && IsAssistant(events[q]) && Kept(events, j, |events|)
    ensures j < u < q && IsUser(events[u]) && Kept(events, u, |events|)
  {
    assert !NoUserBetween(events, j, q);
    u :| j < u < q && IsUser(events[u]);
  }

  lemma {:induction false} NothingBetween(s: seq<nat>, k: nat, x: nat)
    requires Increasing(s) && k + 1 < |s| && x in s
    ensures x <= s[k] || s[k + 1] <= x
  {
  }

  /** Each user message is preceded by at most one assistant message: no two assistant messages are adjacent. */
  lemma {:induction false} AssistantsAlternate(events: seq<Event>, selected: seq<nat>, k: nat)
    requires IsLite(events, selected) && k + 1 < |selected| && IsAssistant(events[selected[k]])
    ensures IsUser(events[selected[k + 1]])
  {
    var j, q := selected[k], selected[k + 1];
    assert j in selected && q in selected && j < q;
    if IsAssistant(events[q]) {
      var u := Separated(events, j, q);
      NothingBetween(selected, k, u);
    }
  }

  lemma {:induction false} AllKept(events: seq<Event>, selected: seq<nat>, k: nat)
    requires IsLite(events, selected) && k < |selected|
    ensures Kept(Picked(events, selected), k, |selected|)
  {
    var picked := Picked(events, selected);
    assert selected[k] in selected;
    if k + 1 < |selected| && IsAssistant(picked[k]) {
      AssistantsAlternate(events, selected, k);
      assert IsUser(picked[k + 1]);
      assert forall q :: k + 1 < q < |selected| ==> !NoUserBetween(picked, k, q);
    }
  }

  /** A lite transcript of a lite transcript is the same transcript. */
  lemma {:induction false} LiteIsIdempotent(events: seq<Event>, selected: seq<nat>, again: seq<nat>)
    requires IsLite(events, selected) && IsLite(Picked(events, selected), again)
    ensures Picked(Picked(events, selected), again) == Picked(events, selected)
  {
    var all := seq(|selected|, k => k);
    forall k | 0 <= k < |selected|
      ensures k in all && k in again
    {
      AllKept(events, selected, k);
      assert all[k] == k;
    }
    SelectionIsUnique(again, all);
  }

  /** What the lite mode shows, the full mode shows, and what that shows, the log shows. */
  lemma {:induction false} ModesNest(events: seq<Event>, j: nat)
    requires j < |events|
    ensures Shown(events, j, Lite) ==> Shown(events, j, Full)
    ensures Shown(events, j, Full) ==> Shown(events, j, Log)
  {
  }
}

/**
 The shuffle with dup() (src/base3/file_descriptor_shuffle.cc),
 which may return any descriptor that is not open.
 */
module FileDescriptorTable {
  import opened FileDescriptorShuffle
  import opened FileDescriptorRuns

  // ----- What every run gives -----

  /** Parallel assignment by a finished run. */
  ghost predicate Assigned(a: Arcs, t0: Table, temps: seq<int>) {
    forall p :: 0 <= p < |a| ==> Lookup(AtEnd(a, t0, temps), a[p].dest) == Lookup(t0, a[p].source)
  }

  /** How many temporaries the last loop closes. */
  function Remembered(temps: seq<int>): nat {
    Min(|temps|, 16)
  }

  /** Descriptors that no arc mentions keep their objects, in every run. */
  lemma OthersUnchanged(a: Arcs, t0: Table, temps: seq<int>, fd: int)
    requires Injective(a) && SourcesOpen(a, t0) && IsRun(a, t0, |a|, temps)
    requires fd in t0 && fd !in Mentioned(a)
    ensures Lookup(AtEnd(a, t0, temps), fd) == Lookup(t0, fd)
  {
    hide After, IsRun, SourcesOpen, Injective, Carried, SameOrigin, OwnOrOverwritten, DestsStayOpen, FlagsJustified;
    RunKeeps(a, t0, |a|, temps, |a|);
    RunUses(a, t0, |a|, temps);
    assert temps[..|temps|] == temps;
    assert fd !in temps;
  }

  /** The arcs close the flagged sources that are no destinations, once each, in every run. */
  lemma ClosesInRun(a: Arcs, t0: Table, temps: seq<int>)
    requires Injective(a) && SourcesOpen(a, t0) && IdentitiesKept(a) && IsRun(a, t0, |a|, temps)
    ensures ClosesOf(a, t0, temps) == multiset(FlaggedSources(a) - Dests(a)) + multiset(temps[..Remembered(temps)])
  {
    hide After, IsRun, SourcesOpen, IdentitiesKept, Injective, FlaggedSources, Dests;
    RunKeeps(a, t0, |a|, temps, |a|);
    assert ClosedSet(a, |a|) == FlaggedSources(a) - Dests(a);
  }

  // ----- What dup() gives when the list is covered -----

  /** The open descriptors at the end, temporaries that were not remembered included. */
  ghost predicate OpenAsDue(a: Arcs, t0: Table, temps: seq<int>) {
    AtEnd(a, t0, temps).Keys
    == t0.Keys + Dests(a) - (FlaggedSources(a) - Dests(a)) + Elements(temps[Remembered(temps)..])
  }

  lemma EarlyAtEnd(a: Arcs, t0: Table, temps: seq<int>, n: nat)
    requires Injective(a) && SourcesOpen(a, t0) && IdentitiesKept(a) && Covered(a, t0, n) && IsRun(a, t0, |a|, temps)
    ensures forall p :: 0 <= p < |temps| && p < n ==> temps[p] !in Dests(a)
    ensures |temps| <= n ==> |temps| == Duplications(a, |a|)
  {
    hide IsRun, SourcesOpen, IdentitiesKept, Injective, Covered, Duplications, Dests, After;
    EarlyRun(a, t0, temps, |a|, n);
    RunUses(a, t0, |a|, temps);
    assert temps[..|temps|] == temps;
  }

  lemma DoneAtEnd(a: Arcs, t0: Table, temps: seq<int>)
    requires Injective(a) && SourcesOpen(a, t0) && IdentitiesKept(a) && IsRun(a, t0, |a|, temps)
    ensures
      var t := After(a, t0, |a|, temps).table;
      Finished(a, t0, t, |a|) && Balanced(a, t0, t, |a|, temps)
  {
    hide *;
    RunKeeps(a, t0, |a|, temps, |a|);
    RunUses(a, t0, |a|, temps);
    assert temps[..|temps|] == temps;
    DoneParts(a, t0, After(a, t0, |a|, temps), temps);
  }

  lemma DoneParts(a: Arcs, t0: Table, s: RunState, temps: seq<int>)
    requires Done(a, t0, s.m, s.table, |a|, temps, s.closed)
    ensures Finished(a, t0, s.table, |a|) && Balanced(a, t0, s.table, |a|, temps)
  {
  }

  lemma AssignedAtEnd(a: Arcs, t0: Table, temps: seq<int>)
    requires Finished(a, t0, After(a, t0, |a|, temps).table, |a|)
    requires forall p :: 0 <= p < Remembered(temps) ==> temps[p] !in Dests(a)
    ensures Assigned(a, t0, temps)
  {
    hide After;
    forall p | 0 <= p < |a|
      ensures Lookup(AtEnd(a, t0, temps), a[p].dest) == Lookup(t0, a[p].source)
    {
      DestIn(a, p);
      assert a[p].dest !in Elements(temps[..Remembered(temps)]);
    }
  }

  lemma OpenAtEndOfRun(a: Arcs, t0: Table, temps: seq<int>)
    requires
      var t := After(a, t0, |a|, temps).table;
      Finished(a, t0, t, |a|) && Balanced(a, t0, t, |a|, temps)
    requires forall p :: 0 <= p < Remembered(temps) ==> temps[p] !in Dests(a)
    ensures OpenAsDue(a, t0, temps)
  {
    hide After;
    var t, n := After(a, t0, |a|, temps).table, Remembered(temps);
    var due := t0.Keys + Dests(a) - (FlaggedSources(a) - Dests(a));
    assert ClosedSet(a, |a|) == FlaggedSources(a) - Dests(a);
    forall fd
      ensures fd in temps <==> fd in Elements(temps[..n]) || fd in Elements(temps[n..])
      ensures fd in Elements(temps[..n]) ==> fd !in due && fd !in Elements(temps[n..])
      ensures fd in Elements(temps[n..]) ==> fd in t
      ensures fd !in temps ==> (fd in t <==> fd in due)
    {
      assert temps == temps[..n] + temps[n..];
    }
  }

  /** The run has carried out the list, and nothing else. */
  ghost predicate WellDone(a: Arcs, t0: Table, temps: seq<int>) {
    && Assigned(a, t0, temps) && OpenAsDue(a, t0, temps)
    && (|temps| <= 16 || Covered(a, t0, |a|) ==> |temps| == Duplications(a, |a|))
  }

  /** When the early temporaries are covered, any run does what it should. */
  lemma CoveredRunsWell(a: Arcs, t0: Table, temps: seq<int>)
    requires Injective(a) && SourcesOpen(a, t0) && IdentitiesKept(a) && Covered(a, t0, 16)
    requires IsRun(a, t0, |a|, temps)
    ensures WellDone(a, t0, temps)
  {
    hide IsRun, SourcesOpen, IdentitiesKept, Injective, Covered, Duplications, Dests, After, Finished, Balanced,
         Assigned, OpenAsDue;
    EarlyAtEnd(a, t0, temps, 16);
    DoneAtEnd(a, t0, temps);
    AssignedAtEnd(a, t0, temps);
    OpenAtEndOfRun(a, t0, temps);
    if Covered(a, t0, |a|) {
      EarlyAtEnd(a, t0, temps, |a|);
      FewTemps(a, t0, |a|, temps);
    }
  }

  lemma {:induction false} FewTemps(a: Arcs, t0: Table, i: nat, temps: seq<int>)
    requires i <= |a| && IsRun(a, t0, |a|, temps)
    ensures After(a, t0, i, temps).used <= i && (i == |a| ==> |temps| <= |a|)
  {
    hide Round;
    if i > 0 {
      FewTemps(a, t0, i - 1, temps);
      RoundUsed(After(a, t0, i - 1, temps), i - 1, temps);
    }
  }

  // ----- When dup() breaks the list -----

  lemma FreshName(used: set<int>) returns (f: int)
    ensures f >= 0 && f !in used
  {
    FreshDescriptorExists(used);
    f :| f >= 0 && f !in used;
  }

  /** Any run can be continued with any descriptors that are not open. */
  lemma RunStep(a: Arcs, t0: Table, n: nat, temps: seq<int>, x: int) returns (longer: seq<int>)
    requires SourcesOpen(a, t0) && IsRun(a, t0, n, temps) && n < |a|
    requires x >= 0 && x !in After(a, t0, n, temps).table
    ensures IsRun(a, t0, n + 1, longer)
    ensures longer == temps + if NeedsTemp(After(a, t0, n, temps).m, n) then [x] else []
  {
    var s := After(a, t0, n, temps);
    RunKeepsOpen(a, t0, n, temps, n);
    RunUses(a, t0, n, temps);
    hide After, IsRun;
    longer := temps + if NeedsTemp(s.m, n) then [x] else [];
    assert CanRound(s, n, longer);
    hide CanRound;
    RunMore(a, t0, n, temps, longer[|temps|..]);
    assert temps + longer[|temps|..] == longer;
  }

  /** It can be continued to the end, with temporaries outside any given set. */
  lemma {:induction false} RunOn(a: Arcs, t0: Table, n: nat, temps: seq<int>, n': nat, avoid: set<int>)
    returns (longer: seq<int>)
    requires SourcesOpen(a, t0) && IsRun(a, t0, n, temps) && n <= n' <= |a|
    ensures IsRun(a, t0, n', longer) && temps <= longer
    ensures forall p :: |temps| <= p < |longer| ==> longer[p] !in avoid
    decreases n' - n
  {
    hide After, IsRun, SourcesOpen;
    longer := temps;
    if n < n' {
      var x := FreshName(After(a, t0, n, temps).table.Keys + avoid);
      var more := RunStep(a, t0, n, temps, x);
      longer := RunOn(a, t0, n + 1, more, n', avoid);
    }
  }

  /** A temporary among the first sixteen is closed at the end. */
  lemma EarlyTempCloses(a: Arcs, t0: Table, temps: seq<int>, p: nat)
    requires p < |temps| && p < 16
    ensures temps[p] !in AtEnd(a, t0, temps)
  {
    hide After;
    var n := Min(|temps|, 16);
    assert temps[..n][p] == temps[p];
  }

  /** A destination that is not open may be handed out as a temporary; it is then closed at the end. */
  lemma UncoveredRun(a: Arcs, t0: Table, i: nat, k: nat) returns (temps: seq<int>)
    requires Injective(a) && SourcesOpen(a, t0) && i < k < |a| && Overwrites(a, i)
    requires a[k].dest !in t0 && a[k].dest >= 0 && Duplications(a, i) < 16
    ensures IsRun(a, t0, |a|, temps) && a[k].dest !in AtEnd(a, t0, temps)
  {
    hide AtEnd, After, IsRun, SourcesOpen, Overwrites, Injective, Duplications, Mentioned, NeedsTemp;
    var d := a[k].dest;
    RunBegins(a, t0);
    var before := RunOn(a, t0, 0, [], i, Mentioned(a));
    NotYetOpen(a, t0, i, before, k);
    var more := RunStep(a, t0, i, before, d);
    temps := RunOn(a, t0, i + 1, more, |a|, {});
    assert temps[|before|] == more[|before|] == d;
    EarlyTempCloses(a, t0, temps, |before|);
  }

  lemma NotYetOpen(a: Arcs, t0: Table, i: nat, temps: seq<int>, k: nat)
    requires Injective(a) && SourcesOpen(a, t0) && i < k < |a| && Overwrites(a, i) && a[k].dest !in t0
    requires IsRun(a, t0, i, temps) && forall p :: 0 <= p < |temps| ==> temps[p] !in Mentioned(a)
    ensures
      var s := After(a, t0, i, temps);
      a[k].dest !in s.table && NeedsTemp(s.m, i) && |temps| == Duplications(a, i)
  {
    var s := After(a, t0, i, temps);
    FreshRun(a, t0, Mentioned(a), i, temps, i);
    RunUses(a, t0, i, temps);
    hide After, IsRun;
    assert temps[..s.used] == temps;
    RoundCount(a, s.m, i, Elements(temps));
    MentionedAt(a, k);
    HomeOfDest(a, k);
    assert a[k].dest !in Elements(temps);
    assert Lookup(s.table, a[k].dest) == EntryAfter(a, t0, i, a[k].dest);
  }

  /** Without the condition on identity arcs a destination is lost even when all temporaries are fresh. */
  lemma UnkeptRun(a: Arcs, t0: Table) returns (temps: seq<int>)
    requires Injective(a) && SourcesOpen(a, t0) && !IdentitiesKept(a)
    ensures IsRun(a, t0, |a|, temps) && !Assigned(a, t0, temps)
    ensures After(a, t0, |a|, temps).closed != multiset(FlaggedSources(a) - Dests(a))
  {
    temps := FreshRunExists(a, t0);
    hide AtEnd, After, IsRun, SourcesOpen, IdentitiesKept, Injective, Final, FlaggedSources, Dests, DiscardedSet;
    RunAsSpecified(a, t0, Mentioned(a), temps);
    ParallelAssignmentIff(a, t0);
    ClosesIff(a);
    SetsDiffer(DiscardedSet(a), FlaggedSources(a) - Dests(a));
    var p :| 0 <= p < |a| && Final(a, t0, a[p].dest) != Lookup(t0, a[p].source);
    MentionedAt(a, p);
    assert a[p].dest !in temps;
  }

  lemma SetsDiffer(x: set<int>, y: set<int>)
    ensures multiset(x) == multiset(y) ==> x == y
  {
    if multiset(x) == multiset(y) {
      forall e
        ensures e in x <==> e in y
      {
        assert e in x <==> e in multiset(x);
        assert e in y <==> e in multiset(y);
      }
    }
  }

  lemma FreshRunExists(a: Arcs, t0: Table) returns (temps: seq<int>)
    requires SourcesOpen(a, t0)
    ensures IsRun(a, t0, |a|, temps) && forall p :: 0 <= p < |temps| ==> temps[p] !in Mentioned(a)
  {
    hide After, SourcesOpen, Mentioned;
    RunBegins(a, t0);
    temps := RunOn(a, t0, 0, [], |a|, Mentioned(a));
  }

  ghost predicate AssignedByRun(a: Arcs, t0: Table, temps: seq<int>) {
    IsRun(a, t0, |a|, temps) ==> Assigned(a, t0, temps)
  }

  /** With dup() as it is, every run is a parallel assignment for exactly these lists. */
  lemma DupSafeIff(a: Arcs, t0: Table)
    requires Injective(a) && SourcesOpen(a, t0)
    ensures (forall temps :: AssignedByRun(a, t0, temps)) <==> IdentitiesKept(a) && Covered(a, t0, 16)
  {
    hide IsRun, AtEnd, IdentitiesKept, SourcesOpen, Duplications, Overwrites, Injective;
    if !IdentitiesKept(a) {
      var temps := UnkeptRun(a, t0);
      assert !AssignedByRun(a, t0, temps);
    } else if Covered(a, t0, 16) {
      forall temps
        ensures AssignedByRun(a, t0, temps)
      {
        if IsRun(a, t0, |a|, temps) {
          CoveredRunsWell(a, t0, temps);
        }
      }
    } else {
      var i, k :| 0 <= i < k < |a| && Overwrites(a, i) && Duplications(a, i) < 16
                  && a[k].dest !in t0 && a[k].dest >= 0;
      var temps := UncoveredRun(a, t0, i, k);
      SourceIsOpen(a, t0, k);
      assert Lookup(AtEnd(a, t0, temps), a[k].dest) != Lookup(t0, a[k].source);
      assert !AssignedByRun(a, t0, temps);
    }
  }

  ghost predicate ClosedByRun(a: Arcs, t0: Table, temps: seq<int>) {
    IsRun(a, t0, |a|, temps) ==> After(a, t0, |a|, temps).closed == multiset(FlaggedSources(a) - Dests(a))
  }

  /** What the arcs close is right in every run for exactly these lists, whatever dup() returns. */
  lemma DupClosesIff(a: Arcs, t0: Table)
    requires Injective(a) && SourcesOpen(a, t0)
    ensures (forall temps :: ClosedByRun(a, t0, temps)) <==> IdentitiesKept(a)
  {
    hide IsRun, After, IdentitiesKept, SourcesOpen, Injective, FlaggedSources, Dests;
    if IdentitiesKept(a) {
      forall temps
        ensures ClosedByRun(a, t0, temps)
      {
        if IsRun(a, t0, |a|, temps) {
          RunKeeps(a, t0, |a|, temps, |a|);
          assert ClosedSet(a, |a|) == FlaggedSources(a) - Dests(a);
        }
      }
    } else {
      var temps := UnkeptRun(a, t0);
      assert !ClosedByRun(a, t0, temps);
    }
  }

  lemma SourceIsOpen(a: Arcs, t0: Table, k: nat)
    requires SourcesOpen(a, t0) && k < |a|
    ensures Lookup(t0, a[k].source).Open?
  {
  }

  /** A list that breaks it: descriptors 0 to 3 are open, and dup(1) returns 4, a destination still to come. */
  lemma DupLosesDestination(f: OpenFile) returns (temps: seq<int>)
    ensures
      var a, t0 := [InjectionArc(3, 1, false), InjectionArc(1, 4, false)], map[0 := f, 1 := f, 2 := f, 3 := f];
      IsRun(a, t0, |a|, temps) && Lookup(AtEnd(a, t0, temps), 4) == Closed
  {
    var a, t0 := [InjectionArc(3, 1, false), InjectionArc(1, 4, false)], map[0 := f, 1 := f, 2 := f, 3 := f];
    assert a[1].source == a[0].dest;
    assert Overwrites(a, 0) && Duplications(a, 0) == 0;
    temps := UncoveredRun(a, t0, 0, 1);
  }

  /**
   A closed source may be handed out as a temporary. Descriptors 0 to 3 are open, dup(1) returns 4, and
   the last arc moves that to 5, although 4 was closed; 4 is then closed twice.
   */
  lemma ClosedSourceTaken(f: OpenFile)
    ensures
      var a := [InjectionArc(3, 1, false), InjectionArc(1, 7, false), InjectionArc(4, 5, true)];
      var t0 := map[0 := f, 1 := f, 2 := f, 3 := f];
      IsRun(a, t0, |a|, [4]) && Lookup(AtEnd(a, t0, [4]), 5) == Open(f) && ClosesOf(a, t0, [4])[4] == 2
  {
    var a := [InjectionArc(3, 1, false), InjectionArc(1, 7, false), InjectionArc(4, 5, true)];
    var t0 := map[0 := f, 1 := f, 2 := f, 3 := f];
    var b := [a[0], InjectionArc(4, 7, false), a[2]];
    var t1 := t0[4 := f];
    FirstArc(a, b, t0, t1);
    SecondArc(b, t1);
    ThirdArc(b, t1[7 := f]);
    assert After(a, t0, 1, [4]) == Round(After(a, t0, 0, [4]), 0, [4]);
    assert After(a, t0, 2, [4]) == Round(After(a, t0, 1, [4]), 1, [4]);
    hide Round, CanRound;
  }

  lemma FirstArc(a: Arcs, b: Arcs, t0: Table, t1: Table)
    requires a == [InjectionArc(3, 1, false), InjectionArc(1, 7, false), InjectionArc(4, 5, true)]
    requires b == [a[0], InjectionArc(4, 7, false), a[2]] && t0.Keys == {0, 1, 2, 3} && t1 == t0[4 := t0[1]] && t0[1] == t0[3]
    ensures CanRound(RunState(a, t0, 0, multiset{}), 0, [4])
    ensures Round(RunState(a, t0, 0, multiset{}), 0, [4]) == RunState(b, t1, 1, multiset{})
  {
    assert Diverted(a, 0, 1);
    assert ScanTo(a, 0, 2, 4) == b;
    assert ScanTo(a, 0, 3, 4) == b;
    assert t1[1 := t1[3]] == t1;
  }

  lemma SecondArc(b: Arcs, t1: Table)
    requires b == [InjectionArc(3, 1, false), InjectionArc(4, 7, false), InjectionArc(4, 5, true)] && 4 in t1
    ensures CanRound(RunState(b, t1, 1, multiset{}), 1, [4])
    ensures Round(RunState(b, t1, 1, multiset{}), 1, [4]) == RunState(b, t1[7 := t1[4]], 1, multiset{})
  {
    assert !NeedsTemp(b, 1);
    assert ScanTo(b, 1, 3, -1) == b;
  }

  lemma ThirdArc(b: Arcs, t2: Table)
    requires b == [InjectionArc(3, 1, false), InjectionArc(4, 7, false), InjectionArc(4, 5, true)] && 4 in t2
    ensures CanRound(RunState(b, t2, 1, multiset{}), 2, [4])
    ensures Round(RunState(b, t2, 1, multiset{}), 2, [4]) == RunState(b, t2[5 := t2[4]] - {4}, 1, multiset{4})
  {
    assert !NeedsTemp(b, 2);
  }

  // ----- ShuffleFileDescriptors -----

  /** With nothing reserved, the delegate is the descriptor table of the process. */
  method ShuffleFileDescriptors(m: array<InjectionArc>, table: Table)
    returns (ok: bool, delegate: InjectionDelegate, ghost temps: seq<int>, ghost rounds: nat)
    requires Injective(m[..])
    modifies m
    ensures ok <==> !delegate.failed
    ensures SourcesOpen(old(m[..]), table) ==> (ok <==> !delegate.refused)
    ensures !ok ==> Failed(old(m[..]), table, rounds, temps, delegate.table, multiset{}, delegate.closes)
    ensures ok ==> IsRun(old(m[..]), table, m.Length, temps) && delegate.table == AtEnd(old(m[..]), table, temps)
    ensures ok ==> delegate.closes == ClosesOf(old(m[..]), table, temps)
    ensures ok && SourcesOpen(old(m[..]), table) && IdentitiesKept(old(m[..])) && Covered(old(m[..]), table, 16) ==>
              WellDone(old(m[..]), table, temps)
  {
    ghost var a := m[..];
    hide *;
    delegate := new InjectionDelegate(table, {});
    ok, temps, rounds := PerformInjectiveMultimapDestructive(m, delegate);
    if ok && SourcesOpen(a, table) && IdentitiesKept(a) && Covered(a, table, 16) {
      CoveredRunsWell(a, table, temps);
    }
  }
}

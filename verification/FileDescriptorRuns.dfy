/**
 What every run of the shuffle keeps (src/base3/file_descriptor_shuffle.cc),
 whichever closed descriptors serve as temporaries.
 */
module FileDescriptorRuns {
  import opened FileDescriptorShuffle

  // ----- One round -----

  ghost predicate IsRound(m: Arcs, t: Table, m': Arcs, t': Table, i: int, temp: int) {
    && 0 <= i < |m| && Scanned(m, m', i, |m|, temp) && t' == TableStep(t, temp, m'[i])
    && (temp != -1 <==> NeedsTemp(m, i))
    && (temp != -1 ==> temp >= 0 && temp !in t && m[i].dest in t)
    && (forall k :: 0 <= k < |m| && i <= k ==> m[k].source in t)
  }

  lemma RoundIs(s: RunState, i: int, temps: seq<int>)
    requires CanRound(s, i, temps) && OpenSources(s, i)
    ensures
      var s', temp := Round(s, i, temps), TempFor(s, i, temps);
      && IsRound(s.m, s.table, s'.m, s'.table, i, temp)
      && s'.used == s.used + (if temp != -1 then 1 else 0) && s'.closed == s.closed + ClosedBy(s'.m[i])
      && (temp != -1 ==> s.used < |temps| && temp == temps[s.used])
  {
    hide Scanned, ScanAll, TableStep;
    ScanAllIs(s.m, i, TempFor(s, i, temps));
    ScanAllKeeps(s.m, i, TempFor(s, i, temps));
  }

  lemma TableAfter(m: Arcs, t: Table, m': Arcs, t': Table, i: int, temp: int, fd: int)
    requires IsRound(m, t, m', t', i, temp)
    ensures Lookup(t', fd) ==
            if fd == m[i].dest then Lookup(t, m[i].source)
            else if temp != -1 && fd == temp then Lookup(t, m[i].dest)
            else if m'[i].close && fd == m[i].source then Closed
            else Lookup(t, fd)
  {
    hide NeedsTemp, Released;
    assert m[i].source in t && m'[i].source == m[i].source && m'[i].dest == m[i].dest;
  }

  lemma ArcAfter(m: Arcs, t: Table, m': Arcs, t': Table, i: int, temp: int, k: int)
    requires IsRound(m, t, m', t', i, temp) && i < k < |m|
    ensures m'[k] == ScannedArc(m, i, k, temp) && m'[k].dest == m[k].dest
    ensures Diverted(m, i, k) ==> temp != -1 && m'[k].source == temp
    ensures !Diverted(m, i, k) ==> m'[k].source == m[k].source && (temp != -1 ==> m[k].source != temp)
  {
    if Diverted(m, i, k) {
      assert NeedsTemp(m, i);
    }
  }

  /** An arc that closes its source is the last one to have to do with it. */
  lemma LastBusiness(m: Arcs, t: Table, m': Arcs, t': Table, i: int, temp: int, k: int)
    requires IsRound(m, t, m', t', i, temp) && i < k < |m| && m'[i].close
    ensures m[i].close && m[k].source != m[i].source && m[k].dest != m[i].source
  {
    hide NeedsTemp, TableStep;
    assert !Released(m, i, |m|);
  }

  // ----- Where the objects are -----

  /** Each remaining arc still finds the object that its source had at the start. */
  ghost predicate Carried(a: Arcs, t0: Table, m: Arcs, t: Table, i: int) {
    && |m| == |a|
    && forall k :: 0 <= k < |a| && i <= k ==>
         m[k].dest == a[k].dest && Lookup(t, m[k].source) == Lookup(t0, a[k].source)
  }

  lemma CarriedStep(a: Arcs, t0: Table, m: Arcs, t: Table, m': Arcs, t': Table, i: int, temp: int)
    requires Carried(a, t0, m, t, i) && IsRound(m, t, m', t', i, temp)
    ensures Carried(a, t0, m', t', i + 1)
  {
    forall k | i < k < |a|
      ensures m'[k].dest == a[k].dest && Lookup(t', m'[k].source) == Lookup(t0, a[k].source)
    {
      ArcAfter(m, t, m', t', i, temp, k);
      TableAfter(m, t, m', t', i, temp, m'[k].source);
      if m'[i].close {
        LastBusiness(m, t, m', t', i, temp, k);
      }
      hide NeedsTemp, TableStep, Scanned;
    }
    assert |m'| == |a|;
  }

  /** Arcs that read the same descriptor were given the same source. */
  ghost predicate SameOrigin(a: Arcs, m: Arcs, i: int)
    requires |m| == |a|
  {
    forall j, k :: 0 <= j < |a| && i <= j && 0 <= k < |a| && i <= k && m[j].source == m[k].source ==>
      a[j].source == a[k].source
  }

  lemma SameOriginStep(a: Arcs, m: Arcs, t: Table, m': Arcs, t': Table, i: int, temp: int)
    requires |m| == |a| == |m'| && SameOrigin(a, m, i) && IsRound(m, t, m', t', i, temp)
    ensures SameOrigin(a, m', i + 1)
  {
    forall j, k | i < j < |a| && i < k < |a| && m'[j].source == m'[k].source
      ensures a[j].source == a[k].source
    {
      ArcAfter(m, t, m', t', i, temp, j);
      ArcAfter(m, t, m', t', i, temp, k);
    }
  }

  /** An arc reads its own source until that is overwritten. */
  predicate OwnOrOverwritten(a: Arcs, m: Arcs, i: int)
    requires |m| == |a|
  {
    forall k :: 0 <= k < |a| && i <= k ==> m[k].source == a[k].source || 0 <= Home(a, a[k].source) < i
  }

  lemma OwnStep(a: Arcs, t0: Table, m: Arcs, t: Table, m': Arcs, t': Table, i: int, temp: int)
    requires Injective(a) && Carried(a, t0, m, t, i) && IsRound(m, t, m', t', i, temp)
    requires |m'| == |a| && OwnOrOverwritten(a, m, i)
    ensures OwnOrOverwritten(a, m', i + 1)
  {
    HomeOfDest(a, i);
    forall k | i < k < |a|
      ensures m'[k].source == a[k].source || 0 <= Home(a, a[k].source) < i + 1
    {
      ArcAfter(m, t, m', t', i, temp, k);
    }
  }

  /** Destinations that are open at the start are open until their arc is carried out. */
  predicate DestsStayOpen(a: Arcs, t0: Table, t: Table, i: int) {
    forall k :: 0 <= k < |a| && i <= k && a[k].dest in t0 ==> a[k].dest in t
  }

  lemma DestsStayOpenStep(a: Arcs, t0: Table, m: Arcs, t: Table, m': Arcs, t': Table, i: int, temp: int)
    requires Carried(a, t0, m, t, i) && IsRound(m, t, m', t', i, temp) && DestsStayOpen(a, t0, t, i)
    ensures DestsStayOpen(a, t0, t', i + 1)
  {
    forall k | i < k < |a| && a[k].dest in t0
      ensures a[k].dest in t'
    {
      TableAfter(m, t, m', t', i, temp, a[k].dest);
      if m'[i].close {
        LastBusiness(m, t, m', t', i, temp, k);
      }
    }
  }

  /** Descriptors that no arc mentions keep their objects and are not handed out. */
  ghost predicate Undisturbed(a: Arcs, t0: Table, t: Table, temps: seq<int>) {
    && (forall fd :: fd in t0 && fd !in Mentioned(a) ==> Lookup(t, fd) == Lookup(t0, fd))
    && (forall p :: 0 <= p < |temps| && temps[p] in t0 ==> temps[p] in Mentioned(a))
  }

  lemma UndisturbedStep(a: Arcs, t0: Table, m: Arcs, t: Table, m': Arcs, t': Table, i: int, temp: int, temps: seq<int>)
    requires Carried(a, t0, m, t, i) && IsRound(m, t, m', t', i, temp) && Undisturbed(a, t0, t, temps)
    requires m[i].close ==> m[i].source == a[i].source
    ensures Undisturbed(a, t0, t', Extended(temps, temp))
  {
    MentionedAt(a, i);
    assert m'[i].close ==> m[i].close;
    forall fd | fd in t0 && fd !in Mentioned(a)
      ensures Lookup(t', fd) == Lookup(t0, fd)
    {
      TableAfter(m, t, m', t', i, temp, fd);
      assert Lookup(t, fd) == Lookup(t0, fd);
    }
    hide IsRound, Carried;
    assert temp != -1 && temp in t0 ==> temp in Mentioned(a);
  }

  // ----- Where the close requests are -----

  /** Arc k may ask for the close: an arc with its source did, and none in between overwrites that. */
  predicate Requested(a: Arcs, k: int)
    requires 0 <= k < |a|
  {
    exists p :: 0 <= p <= k && a[p].close && a[p].source == a[k].source && NoneWrites(a, a[k].source, p, k)
  }

  predicate NoneWrites(a: Arcs, fd: int, p: int, k: int)
    requires 0 <= p <= k < |a|
  {
    forall q :: p < q <= k ==> a[q].dest != fd
  }

  ghost predicate FlagsJustified(a: Arcs, m: Arcs, i: int)
    requires |m| == |a|
  {
    forall k :: 0 <= k < |a| && i <= k && m[k].close ==> m[k].source == a[k].source && Requested(a, k)
  }

  lemma FlagsJustifiedStep(a: Arcs, t0: Table, m: Arcs, t: Table, m': Arcs, t': Table, i: int, temp: int)
    requires Carried(a, t0, m, t, i) && IsRound(m, t, m', t', i, temp) && |m'| == |a|
    requires SameOrigin(a, m, i) && FlagsJustified(a, m, i)
    ensures FlagsJustified(a, m', i + 1)
  {
    forall k | i < k < |a| && m'[k].close
      ensures m'[k].source == a[k].source && Requested(a, k)
    {
      ArcAfter(m, t, m', t', i, temp, k);
      if !m[k].close {
        RequestMoves(a, m, i, k);
      }
    }
  }

  lemma RequestMoves(a: Arcs, m: Arcs, i: int, k: int)
    requires |m| == |a| && 0 <= i < k < |a| && (forall j :: i <= j < |a| ==> m[j].dest == a[j].dest)
    requires SameOrigin(a, m, i) && FlagsJustified(a, m, i)
    requires m[i].close && m[k].source == m[i].source != m[k].dest && !Released(m, i, k)
    ensures a[k].source == m[k].source && Requested(a, k)
  {
    assert a[k].source == a[i].source == m[i].source;
    var p :| 0 <= p <= i && a[p].close && a[p].source == a[i].source && NoneWrites(a, a[i].source, p, i);
    forall q | p < q <= k
      ensures a[q].dest != a[k].source
    {
      if q > i {
        assert m[q].dest == a[q].dest;
      }
    }
    assert NoneWrites(a, a[k].source, p, k);
  }

  // ----- Finished destinations -----

  predicate NoFlagOnFinished(a: Arcs, m: Arcs, i: int)
    requires |m| == |a|
  {
    forall k :: 0 <= k < |a| && i <= k && m[k].close ==> !(0 <= Home(a, m[k].source) < i)
  }

  /** An identity arc with a later flagged reader is what the condition excludes. */
  lemma NoFlagStep(a: Arcs, t0: Table, m: Arcs, t: Table, m': Arcs, t': Table, i: int, temp: int)
    requires Injective(a) && IdentitiesKept(a) && Carried(a, t0, m, t, i) && IsRound(m, t, m', t', i, temp) && |m'| == |a|
    requires SameOrigin(a, m, i) && FlagsJustified(a, m', i + 1) && NoFlagOnFinished(a, m, i)
    ensures NoFlagOnFinished(a, m', i + 1)
  {
    forall k | i < k < |a| && m'[k].close
      ensures !(0 <= Home(a, m'[k].source) < i + 1)
    {
      ArcAfter(m, t, m', t', i, temp, k);
      NotIdentity(a, i, k);
      SourceGone(a, t0, m, t, m', t', i, temp, k);
      hide IdentitiesKept, Requested, IsRound, SameOrigin, Carried;
    }
  }

  /** No arc reads its own source when that has just been overwritten, save by an identity. */
  lemma SourceGone(a: Arcs, t0: Table, m: Arcs, t: Table, m': Arcs, t': Table, i: int, temp: int, k: int)
    requires Carried(a, t0, m, t, i) && IsRound(m, t, m', t', i, temp) && SameOrigin(a, m, i)
    requires i < k < |a| && m'[k].source == a[k].source && !(a[i].source == a[i].dest == a[k].source)
    ensures m'[k].source != a[i].dest
  {
    ArcAfter(m, t, m', t', i, temp, k);
    hide Scanned, TableStep, NeedsTemp;
  }

  lemma NotIdentity(a: Arcs, i: int, k: int)
    requires IdentitiesKept(a) && 0 <= i < k < |a| && Requested(a, k)
    ensures !(a[i].source == a[i].dest == a[k].source)
  {
    hide IdentitiesKept, Requested;
    if a[i].source == a[i].dest == a[k].source {
      IdentityFlagged(a, i, k);
    }
  }

  lemma IdentityFlagged(a: Arcs, i: int, k: int)
    requires 0 <= i < k < |a| && a[i].source == a[i].dest == a[k].source && Requested(a, k)
    ensures !IdentitiesKept(a)
  {
    var p :| 0 <= p <= k && a[p].close && a[p].source == a[k].source && NoneWrites(a, a[k].source, p, k);
    assert p >= i;
  }

  ghost predicate Finished(a: Arcs, t0: Table, t: Table, i: int) {
    forall h :: 0 <= h < |a| && h < i ==> a[h].dest in t && Lookup(t, a[h].dest) == Lookup(t0, a[h].source)
  }

  lemma FinishedStep(a: Arcs, t0: Table, m: Arcs, t: Table, m': Arcs, t': Table, i: int, temp: int)
    requires Injective(a) && Carried(a, t0, m, t, i) && IsRound(m, t, m', t', i, temp)
    requires NoFlagOnFinished(a, m, i) && Finished(a, t0, t, i)
    ensures Finished(a, t0, t', i + 1)
  {
    forall h | 0 <= h < i + 1
      ensures a[h].dest in t' && Lookup(t', a[h].dest) == Lookup(t0, a[h].source)
    {
      HomeOfDest(a, h);
      TableAfter(m, t, m', t', i, temp, a[h].dest);
      assert m'[i].close ==> m[i].close;
    }
  }

  // ----- What is closed -----

  /** The flagged sources that are no destinations, as far as no arc from i on reads them. */
  function ClosedSet(a: Arcs, i: int): set<int> {
    set fd | fd in FlaggedSources(a) - Dests(a) && !SourceFrom(a, fd, i)
  }

  /** While such a source has readers, one of them carries the request. */
  ghost predicate RequestsKept(a: Arcs, m: Arcs, i: int) {
    forall fd :: fd in FlaggedSources(a) - Dests(a) && SourceFrom(a, fd, i) ==> Pending(m, fd, i)
  }

  lemma OwnReader(a: Arcs, m: Arcs, i: int, k: int)
    requires |m| == |a| && OwnOrOverwritten(a, m, i) && 0 <= k < |a| && i <= k && a[k].source !in Dests(a)
    ensures m[k].source == a[k].source
  {
    forall h | 0 <= h < |a|
      ensures a[h].dest in Dests(a)
    {
    }
  }

  lemma DestIn(a: Arcs, k: int)
    requires 0 <= k < |a|
    ensures a[k].dest in Dests(a)
  {
  }

  lemma RequestsKeptStep(a: Arcs, t0: Table, m: Arcs, t: Table, m': Arcs, t': Table, i: int, temp: int)
    requires Carried(a, t0, m, t, i) && IsRound(m, t, m', t', i, temp) && |m'| == |a|
    requires OwnOrOverwritten(a, m, i) && RequestsKept(a, m, i)
    ensures RequestsKept(a, m', i + 1)
  {
    forall fd | fd in FlaggedSources(a) - Dests(a) && SourceFrom(a, fd, i + 1)
      ensures Pending(m', fd, i + 1)
    {
      var r :| 0 <= r < |a| && i + 1 <= r && a[r].source == fd;
      assert SourceFrom(a, fd, i);
      OwnReader(a, m, i, r);
      RequestGoesOn(a, t0, m, t, m', t', i, temp, fd, r);
    }
  }

  lemma RequestGoesOn(a: Arcs, t0: Table, m: Arcs, t: Table, m': Arcs, t': Table, i: int, temp: int, fd: int, r: int)
    requires Carried(a, t0, m, t, i) && IsRound(m, t, m', t', i, temp) && |m'| == |a|
    requires fd !in Dests(a) && Pending(m, fd, i) && i < r < |a| && m[r].source == fd
    ensures Pending(m', fd, i + 1)
  {
    var k :| 0 <= k < |m| && i <= k && m[k].source == fd && m[k].close;
    if k == i {
      assert SourceFrom(m, fd, i + 1);
      k := FirstSource(m, fd, i + 1);
      forall j | i < j <= k
        ensures m[j].dest != fd
      {
        DestIn(a, j);
      }
    }
    DestIn(a, i);
    ArcAfter(m, t, m', t', i, temp, k);
    assert m'[k].source == fd && m'[k].close;
  }

  /** Arc i closes its source exactly when that is to be closed and has no later reader. */
  lemma ClosesOnce(a: Arcs, t0: Table, m: Arcs, t: Table, m': Arcs, t': Table, i: int, temp: int)
    requires Injective(a) && Carried(a, t0, m, t, i) && IsRound(m, t, m', t', i, temp) && |m'| == |a|
    requires SameOrigin(a, m, i) && OwnOrOverwritten(a, m, i) && FlagsJustified(a, m, i)
    requires NoFlagOnFinished(a, m, i) && RequestsKept(a, m, i)
    ensures
      m[i].source != m[i].dest && m'[i].close
      <==> a[i].source in FlaggedSources(a) - Dests(a) && !SourceFrom(a, a[i].source, i + 1)
    ensures m[i].source != m[i].dest && m'[i].close ==> m'[i].source == a[i].source
  {
    var fd := a[i].source;
    if m[i].source != m[i].dest && m'[i].close {
      CloseIsDue(a, t0, m, t, m', t', i, temp);
    }
    if fd in FlaggedSources(a) - Dests(a) && !SourceFrom(a, fd, i + 1) {
      DueIsClosed(a, t0, m, t, m', t', i, temp);
    }
  }

  lemma CloseIsDue(a: Arcs, t0: Table, m: Arcs, t: Table, m': Arcs, t': Table, i: int, temp: int)
    requires Injective(a) && Carried(a, t0, m, t, i) && IsRound(m, t, m', t', i, temp) && |m'| == |a|
    requires OwnOrOverwritten(a, m, i) && FlagsJustified(a, m, i) && NoFlagOnFinished(a, m, i)
    requires m[i].source != m[i].dest && m'[i].close
    ensures m'[i].source == a[i].source && a[i].source in FlaggedSources(a) - Dests(a)
    ensures !SourceFrom(a, a[i].source, i + 1)
  {
    var fd := a[i].source;
    assert m[i].close && m[i].source == fd && Requested(a, i);
    var p :| 0 <= p <= i && a[p].close && a[p].source == fd && NoneWrites(a, fd, p, i);
    assert fd in FlaggedSources(a);
    forall k | 0 <= k < |a|
      ensures a[k].dest != fd && (k > i ==> a[k].source != fd)
    {
      HomeOfDest(a, k);
      if k > i {
        LastBusiness(m, t, m', t', i, temp, k);
      }
    }
  }

  lemma DueIsClosed(a: Arcs, t0: Table, m: Arcs, t: Table, m': Arcs, t': Table, i: int, temp: int)
    requires Carried(a, t0, m, t, i) && IsRound(m, t, m', t', i, temp) && |m'| == |a|
    requires SameOrigin(a, m, i) && OwnOrOverwritten(a, m, i) && FlagsJustified(a, m, i) && RequestsKept(a, m, i)
    requires a[i].source in FlaggedSources(a) - Dests(a) && !SourceFrom(a, a[i].source, i + 1)
    ensures m[i].source != m[i].dest && m'[i].close
  {
    var fd := a[i].source;
    assert SourceFrom(a, fd, i);
    OwnReader(a, m, i, i);
    DestIn(a, i);
    var k :| 0 <= k < |m| && i <= k && m[k].source == fd && m[k].close;
    assert k == i;
    forall j | i < j < |m|
      ensures m[j].dest != fd && m[j].source != fd
    {
      DestIn(a, j);
      assert m[i].source == fd;
    }
  }

  lemma ClosedSetStep(a: Arcs, i: int)
    requires 0 <= i < |a|
    ensures ClosedSet(a, i + 1) == ClosedSet(a, i) +
            if a[i].source in FlaggedSources(a) - Dests(a) && !SourceFrom(a, a[i].source, i + 1) then {a[i].source} else {}
    ensures a[i].source !in ClosedSet(a, i)
  {
    assert SourceFrom(a, a[i].source, i);
    forall fd
      ensures !SourceFrom(a, fd, i + 1) ==> !SourceFrom(a, fd, i) || fd == a[i].source
      ensures !SourceFrom(a, fd, i) ==> !SourceFrom(a, fd, i + 1)
    {
    }
  }

  // ----- What is open -----

  /** Nothing is lost, and nothing is open beside the given table, destinations and temporaries. */
  ghost predicate Balanced(a: Arcs, t0: Table, t: Table, i: int, temps: seq<int>) {
    && (forall fd :: fd in t0 ==> fd in t || fd in ClosedSet(a, i))
    && (forall fd :: fd in t ==> fd in t0 || fd in Dests(a) || fd in temps)
    && (forall fd :: fd in ClosedSet(a, i) && fd in t ==> fd in temps)
    && (forall p :: 0 <= p < |temps| ==> temps[p] in t && (temps[p] in t0 ==> temps[p] in ClosedSet(a, i)))
    && (forall p, q :: 0 <= p < q < |temps| ==> temps[p] != temps[q])
  }

  /** Close requests are never for temporaries. */
  ghost predicate NoFlagOnTemps(a: Arcs, m: Arcs, i: int, temps: seq<int>)
    requires |m| == |a|
  {
    forall k :: 0 <= k < |a| && i <= k && m[k].close ==> m[k].source !in temps
  }

  lemma NoFlagOnTempsStep(a: Arcs, m: Arcs, t: Table, m': Arcs, t': Table, i: int, temp: int, temps: seq<int>)
    requires |m| == |a| == |m'| && IsRound(m, t, m', t', i, temp) && NoFlagOnTemps(a, m, i, temps)
    ensures NoFlagOnTemps(a, m', i + 1, Extended(temps, temp))
  {
    forall k | i < k < |a| && m'[k].close
      ensures m'[k].source !in Extended(temps, temp)
    {
      ArcAfter(m, t, m', t', i, temp, k);
    }
  }

  lemma BalancedStep(a: Arcs, t0: Table, m: Arcs, t: Table, m': Arcs, t': Table, i: int, temp: int, temps: seq<int>)
    requires Carried(a, t0, m, t, i) && IsRound(m, t, m', t', i, temp) && |m'| == |a|
    requires Balanced(a, t0, t, i, temps) && NoFlagOnTemps(a, m, i, temps)
    requires
      m[i].source != m[i].dest && m'[i].close
      <==> a[i].source in FlaggedSources(a) - Dests(a) && !SourceFrom(a, a[i].source, i + 1)
    requires m[i].source != m[i].dest && m'[i].close ==> m[i].source == a[i].source && m[i].close
    ensures Balanced(a, t0, t', i + 1, Extended(temps, temp))
  {
    var temps' := Extended(temps, temp);
    ClosedSetStep(a, i);
    DestIn(a, i);
    forall fd
      ensures fd in t' <==> fd == a[i].dest || (temp != -1 && fd == temp) || (fd in t && !(m'[i].close && fd == m[i].source))
    {
      TableAfter(m, t, m', t', i, temp, fd);
    }
    assert forall fd :: fd in ClosedSet(a, i + 1) ==> fd !in Dests(a);
    assert temp != -1 ==> temp !in t;
    hide IsRound, Carried, ClosedSet, FlaggedSources, Dests, SourceFrom;
  }

  // ----- Temporaries and destinations -----

  /** Arc i overwrites what a later arc is still to read. */
  predicate Overwrites(a: Arcs, i: int)
    requires 0 <= i < |a|
  {
    a[i].source != a[i].dest && SourceFrom(a, a[i].dest, i + 1)
  }

  /** Behind each arc that makes one of the first n temporaries, no destination can be handed out by dup(). */
  predicate Covered(a: Arcs, t0: Table, n: nat) {
    forall i, k :: 0 <= i < k < |a| && Overwrites(a, i) && Duplications(a, i) < n ==> a[k].dest in t0 || a[k].dest < 0
  }

  /** The first n temporaries are no destinations, and as long as there are no more, they are those of the specification. */
  ghost predicate EarlyTemps(a: Arcs, m: Arcs, i: nat, temps: seq<int>, n: nat)
    requires |m| == |a| && i <= |a|
  {
    && (forall p :: 0 <= p < |temps| && p < n ==> temps[p] !in Dests(a))
    && (|temps| <= n ==>
          && |temps| == Duplications(a, i)
          && forall k :: i <= k < |a| ==> m[k].source == a[k].source || m[k].source !in Dests(a))
  }

  lemma NeedsIff(a: Arcs, t0: Table, m: Arcs, t: Table, i: nat)
    requires Injective(a) && Carried(a, t0, m, t, i) && i < |a| && OwnOrOverwritten(a, m, i)
    requires forall k :: i <= k < |a| ==> m[k].source == a[k].source || m[k].source !in Dests(a)
    ensures NeedsTemp(m, i) <==> Overwrites(a, i)
  {
    DestIn(a, i);
    HomeOfDest(a, i);
    if Overwrites(a, i) {
      var k :| 0 <= k < |a| && i + 1 <= k && a[k].source == a[i].dest;
      assert m[k].source == a[i].dest && Diverted(m, i, k);
    }
  }

  /** A temporary that is made while the rest is covered is no destination. */
  lemma NoDest(a: Arcs, t0: Table, m: Arcs, t: Table, i: nat, temp: int, n: nat)
    requires i < |a| && Finished(a, t0, t, i) && DestsStayOpen(a, t0, t, i) && Covered(a, t0, n)
    requires Overwrites(a, i) && Duplications(a, i) < n && temp >= 0 && temp !in t && a[i].dest in t
    ensures temp !in Dests(a)
  {
    hide Overwrites, Duplications;
    forall k | 0 <= k < |a|
      ensures a[k].dest != temp
    {
    }
  }

  lemma EarlyTempsStep(a: Arcs, t0: Table, m: Arcs, t: Table, m': Arcs, t': Table, i: nat, temp: int,
                       temps: seq<int>, n: nat)
    requires Injective(a) && Carried(a, t0, m, t, i) && IsRound(m, t, m', t', i, temp) && |m'| == |a|
    requires OwnOrOverwritten(a, m, i) && DestsStayOpen(a, t0, t, i) && Finished(a, t0, t, i) && Covered(a, t0, n)
    requires EarlyTemps(a, m, i, temps, n)
    ensures EarlyTemps(a, m', i + 1, Extended(temps, temp), n)
  {
    if |temps| <= n {
      NeedsIff(a, t0, m, t, i);
      if temp != -1 && |temps| < n {
        NoDest(a, t0, m, t, i, temp, n);
      }
      forall k | i < k < |a| && |Extended(temps, temp)| <= n
        ensures m'[k].source == a[k].source || m'[k].source !in Dests(a)
      {
        ArcAfter(m, t, m', t', i, temp, k);
      }
    }
  }

  // ----- Whole runs -----

  /** Kept by every run, whatever the list. */
  ghost predicate Kept(a: Arcs, t0: Table, m: Arcs, t: Table, i: int, temps: seq<int>) {
    && Carried(a, t0, m, t, i) && SameOrigin(a, m, i) && OwnOrOverwritten(a, m, i) && DestsStayOpen(a, t0, t, i)
    && FlagsJustified(a, m, i) && Undisturbed(a, t0, t, temps)
  }

  lemma KeptStep(a: Arcs, t0: Table, m: Arcs, t: Table, m': Arcs, t': Table, i: int, temp: int, temps: seq<int>)
    requires Injective(a) && Kept(a, t0, m, t, i, temps) && IsRound(m, t, m', t', i, temp)
    ensures Kept(a, t0, m', t', i + 1, Extended(temps, temp))
  {
    CarriedStep(a, t0, m, t, m', t', i, temp);
    UndisturbedStep(a, t0, m, t, m', t', i, temp, temps);
    hide Carried, IsRound, SameOrigin, OwnOrOverwritten, DestsStayOpen, FlagsJustified, Undisturbed;
    assert |m'| == |a| by { SameLength(a, t0, m', t', i + 1); }
    SameOriginStep(a, m, t, m', t', i, temp);
    OwnStep(a, t0, m, t, m', t', i, temp);
    DestsStayOpenStep(a, t0, m, t, m', t', i, temp);
    FlagsJustifiedStep(a, t0, m, t, m', t', i, temp);
  }

  lemma SameLength(a: Arcs, t0: Table, m: Arcs, t: Table, i: int)
    requires Carried(a, t0, m, t, i)
    ensures |m| == |a|
  {
  }

  /** Kept when no identity arc loses its descriptor. */
  ghost predicate Done(a: Arcs, t0: Table, m: Arcs, t: Table, i: int, temps: seq<int>, closed: multiset<int>) {
    && |m| == |a|
    && NoFlagOnFinished(a, m, i) && Finished(a, t0, t, i) && RequestsKept(a, m, i)
    && NoFlagOnTemps(a, m, i, temps) && Balanced(a, t0, t, i, temps) && closed == multiset(ClosedSet(a, i))
  }

  lemma DoneAfter(a: Arcs, t0: Table, m: Arcs, t: Table, m': Arcs, t': Table, i: int, temp: int, temps: seq<int>,
                  closed: multiset<int>)
    requires Injective(a) && IdentitiesKept(a) && Kept(a, t0, m, t, i, temps) && Kept(a, t0, m', t', i + 1, Extended(temps, temp))
    requires IsRound(m, t, m', t', i, temp) && Done(a, t0, m, t, i, temps, closed)
    ensures Done(a, t0, m', t', i + 1, Extended(temps, temp), closed + ClosedBy(m'[i]))
  {
    hide IdentitiesKept, SameOrigin, OwnOrOverwritten, DestsStayOpen, FlagsJustified, Undisturbed, NoFlagOnFinished, Finished,
         RequestsKept, NoFlagOnTemps, Balanced, ClosedSet, NeedsTemp, TableStep, Released, SourceFrom, FlaggedSources, Dests;
    NoFlagStep(a, t0, m, t, m', t', i, temp);
    FinishedStep(a, t0, m, t, m', t', i, temp);
    RequestsKeptStep(a, t0, m, t, m', t', i, temp);
    NoFlagOnTempsStep(a, m, t, m', t', i, temp, temps);
    ClosesOnce(a, t0, m, t, m', t', i, temp);
    BalancedStep(a, t0, m, t, m', t', i, temp, temps);
    ClosedSetStep(a, i);
    assert m'[i].source == m[i].source && m'[i].dest == m[i].dest;
  }

  lemma AtStart(a: Arcs, t0: Table)
    requires SourcesOpen(a, t0)
    ensures Kept(a, t0, a, t0, 0, []) && Done(a, t0, a, t0, 0, [], multiset{})
  {
    forall k | 0 <= k < |a| && a[k].close
      ensures Requested(a, k)
    {
      assert NoneWrites(a, a[k].source, k, k);
    }
    forall fd | fd in FlaggedSources(a)
      ensures Pending(a, fd, 0) && SourceFrom(a, fd, 0)
    {
    }
    assert ClosedSet(a, 0) == {};
  }

  lemma FirstState(a: Arcs, t0: Table, temps: seq<int>)
    ensures After(a, t0, 0, temps) == RunState(a, t0, 0, multiset{}) && temps[..0] == []
  {
  }

  lemma {:induction false} RunKeeps(a: Arcs, t0: Table, n: nat, temps: seq<int>, i: nat)
    requires Injective(a) && SourcesOpen(a, t0) && IsRun(a, t0, n, temps) && i <= n <= |a|
    ensures
      var s := After(a, t0, i, temps);
      && s.used <= |temps| && Kept(a, t0, s.m, s.table, i, temps[..s.used])
      && (IdentitiesKept(a) ==> Done(a, t0, s.m, s.table, i, temps[..s.used], s.closed))
  {
    hide *;
    UsedGrows(a, t0, i, n, temps);
    RunUses(a, t0, n, temps);
    if i == 0 {
      FirstState(a, t0, temps);
      AtStart(a, t0);
    } else {
      RunKeeps(a, t0, n, temps, i - 1);
      var s, s' := After(a, t0, i - 1, temps), After(a, t0, i, temps);
      var temp := NextRound(a, t0, n, temps, i - 1);
      KeptStep(a, t0, s.m, s.table, s'.m, s'.table, i - 1, temp, temps[..s.used]);
      if IdentitiesKept(a) {
        DoneAfter(a, t0, s.m, s.table, s'.m, s'.table, i - 1, temp, temps[..s.used], s.closed);
      }
    }
  }

  lemma NextRound(a: Arcs, t0: Table, n: nat, temps: seq<int>, i: nat) returns (temp: int)
    requires SourcesOpen(a, t0) && IsRun(a, t0, n, temps) && i < n <= |a|
    ensures
      var s, s' := After(a, t0, i, temps), After(a, t0, i + 1, temps);
      && IsRound(s.m, s.table, s'.m, s'.table, i, temp) && |s.m| == |a| == |s'.m|
      && s.used <= |temps| && s'.used <= |temps| && temps[..s'.used] == Extended(temps[..s.used], temp)
      && s'.closed == s.closed + ClosedBy(s'.m[i])
  {
    hide *;
    UsedGrows(a, t0, i, n, temps);
    UsedGrows(a, t0, i + 1, n, temps);
    RunUses(a, t0, n, temps);
    RunGoesOn(a, t0, n, temps, i);
    var s := After(a, t0, i, temps);
    RunKeepsOpen(a, t0, n, temps, i);
    RoundIs(s, i, temps);
    temp := TempFor(s, i, temps);
    ExtendedPrefixes(temps, s.used, temp);
  }

  lemma ExtendedPrefixes(temps: seq<int>, used: nat, temp: int)
    requires used <= |temps| && (temp != -1 ==> used < |temps| && temps[used] == temp)
    ensures Extended(temps[..used], temp) == temps[..used + if temp != -1 then 1 else 0]
  {
  }

  lemma RunGoesOn(a: Arcs, t0: Table, n: nat, temps: seq<int>, i: nat)
    requires IsRun(a, t0, n, temps) && i < n
    ensures |a| == |After(a, t0, i, temps).m| && CanRound(After(a, t0, i, temps), i, temps)
    ensures After(a, t0, i + 1, temps) == Round(After(a, t0, i, temps), i, temps)
  {
    hide Round, CanRound;
  }

  lemma {:induction false} EarlyRun(a: Arcs, t0: Table, temps: seq<int>, i: nat, n: nat)
    requires Injective(a) && SourcesOpen(a, t0) && IdentitiesKept(a) && Covered(a, t0, n)
    requires IsRun(a, t0, |a|, temps) && i <= |a|
    ensures var s := After(a, t0, i, temps); s.used <= |temps| && EarlyTemps(a, s.m, i, temps[..s.used], n)
  {
    hide *;
    UsedGrows(a, t0, i, |a|, temps);
    RunUses(a, t0, |a|, temps);
    if i == 0 {
      EarlyAtStart(a, t0, temps, n);
    } else {
      EarlyRun(a, t0, temps, i - 1, n);
      RunKeeps(a, t0, |a|, temps, i - 1);
      var s, s' := After(a, t0, i - 1, temps), After(a, t0, i, temps);
      var temp := NextRound(a, t0, |a|, temps, i - 1);
      EarlyAfter(a, t0, s.m, s.table, s'.m, s'.table, i - 1, temp, temps[..s.used], n, s.closed);
    }
  }

  lemma EarlyAfter(a: Arcs, t0: Table, m: Arcs, t: Table, m': Arcs, t': Table, i: nat, temp: int,
                   temps: seq<int>, n: nat, closed: multiset<int>)
    requires Injective(a) && Kept(a, t0, m, t, i, temps) && Done(a, t0, m, t, i, temps, closed)
    requires IsRound(m, t, m', t', i, temp) && |m'| == |a| && Covered(a, t0, n) && EarlyTemps(a, m, i, temps, n)
    ensures EarlyTemps(a, m', i + 1, Extended(temps, temp), n)
  {
    hide IsRound, Carried, OwnOrOverwritten, Covered, EarlyTemps;
    assert i < |a| by { RoundBounds(m, t, m', t', i, temp); }
    EarlyTempsStep(a, t0, m, t, m', t', i, temp, temps, n);
  }

  lemma RoundBounds(m: Arcs, t: Table, m': Arcs, t': Table, i: int, temp: int)
    requires IsRound(m, t, m', t', i, temp)
    ensures 0 <= i < |m|
  {
  }

  lemma EarlyAtStart(a: Arcs, t0: Table, temps: seq<int>, n: nat)
    ensures var s := After(a, t0, 0, temps); s.used == 0 && EarlyTemps(a, s.m, 0, temps[..0], n)
  {
  }
}

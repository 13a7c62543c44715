/**
 In-place parallel assignment over a descriptor table
 (src/base3/file_descriptor_shuffle.cc).
 */
module FileDescriptorShuffle {
  import opened Basics

  // The table maps an open descriptor to the open file it refers to; the list of arcs is rewritten on the way.

  /** Identity of an open file; only equality matters. */
  type OpenFile = int

  type Table = map<int, OpenFile>

  datatype Entry = Closed | Open(file: OpenFile)

  function Lookup(table: Table, fd: int): Entry {
    if fd in table then Open(table[fd]) else Closed
  }

  datatype InjectionArc = InjectionArc(source: int, dest: int, close: bool)

  type Arcs = seq<InjectionArc>

  // ----- The delegate -----

  lemma FreshDescriptorExists(used: set<int>)
    ensures exists fd :: fd >= 0 && fd !in used
  {
    if |used| == 0 {
      assert 0 !in used;
    } else {
      var top := Greatest(used);
      var fd := if top < 0 then 0 else top + 1;
      assert fd >= 0 && fd !in used;
    }
  }

  lemma Greatest(s: set<int>) returns (top: int)
    requires |s| > 0
    ensures top in s && forall x :: x in s ==> x <= top
  {
    var x := Pick(s);
    top := x;
    if |s| > 1 {
      var rest := Greatest(s - {x});
      top := if rest > x then rest else x;
      assert forall y :: y in s ==> y == x || y in s - {x};
    } else {
      assert s == {x} by { assert |s - {x}| == 0; }
    }
  }

  /**
   The three operations on the descriptor table. Duplicate hands out a fresh
   descriptor: one that is not open and not in the reserved set, which is empty for
   dup(). Duplicate and Move may fail at any call, and fail on a descriptor that is
   not open.
   */
  class InjectionDelegate {
    var table: Table
    ghost var closes: multiset<int>  // every descriptor passed to Close so far
    ghost var failed: bool  // some call has returned false
    ghost var refused: bool  // some call has returned false on a descriptor that was open
    const reserved: set<int>

    constructor (table: Table, reserved: set<int>)
      ensures this.table == table && this.reserved == reserved && closes == multiset{}
      ensures !failed && !refused
    {
      this.table, this.reserved, this.closes := table, reserved, multiset{};
      failed, refused := false, false;
    }

    method Duplicate(fd: int) returns (ok: bool, result: int)
      modifies this
      ensures closes == old(closes)
      ensures !ok ==> table == old(table)
      ensures ok ==> fd in old(table) && result >= 0 && result !in old(table) && result !in reserved
      ensures ok ==> table == old(table)[result := old(table)[fd]]
      ensures failed == (old(failed) || !ok) && refused == (old(refused) || (!ok && fd in old(table)))
    {
      ok, result := *, -1;
      if fd !in table {
        ok := false;
      }
      failed, refused := failed || !ok, refused || (!ok && fd in table);
      if ok {
        FreshDescriptorExists(table.Keys + reserved);
        result :| result >= 0 && result !in table.Keys + reserved;
        table := table[result := table[fd]];
      }
    }

    method Move(src: int, dest: int) returns (ok: bool)
      modifies this
      ensures closes == old(closes)
      ensures !ok ==> table == old(table)
      ensures ok ==> src in old(table) && table == old(table)[dest := old(table)[src]]
      ensures failed == (old(failed) || !ok) && refused == (old(refused) || (!ok && src in old(table)))
    {
      ok := *;
      if src !in table {
        ok := false;
      }
      failed, refused := failed || !ok, refused || (!ok && src in table);
      if ok {
        table := table[dest := table[src]];
      }
    }

    method Close(fd: int)
      modifies this
      ensures table == old(table) - {fd}
      ensures closes == old(closes) + multiset{fd} && failed == old(failed) && refused == old(refused)
    {
      table := table - {fd};
      closes := closes + multiset{fd};
    }
  }

  // ----- What a run means, in terms of the arcs as they were given -----

  /** No two arcs have the same destination. */
  predicate Injective(a: Arcs) {
    forall p, q :: 0 <= p < q < |a| ==> a[p].dest != a[q].dest
  }

  function Mentioned(a: Arcs): set<int> {
    (set k | 0 <= k < |a| :: a[k].source) + (set k | 0 <= k < |a| :: a[k].dest)
  }

  lemma MentionedAt(a: Arcs, k: int)
    requires 0 <= k < |a|
    ensures a[k].source in Mentioned(a) && a[k].dest in Mentioned(a)
  {
  }

  /** The index of the arc whose destination is fd, or -1. */
  function Home(a: Arcs, fd: int): (h: int)
    ensures -1 <= h < |a|
    ensures h >= 0 ==> a[h].dest == fd
    ensures h == -1 ==> forall p :: 0 <= p < |a| ==> a[p].dest != fd
  {
    if a == [] then -1
    else if a[|a| - 1].dest == fd then |a| - 1
    else Home(a[..|a| - 1], fd)
  }

  lemma HomeOfDest(a: Arcs, p: int)
    requires Injective(a) && 0 <= p < |a|
    ensures Home(a, a[p].dest) == p
  {
  }

  /** Some arc at index i or later takes its object from fd. */
  predicate SourceFrom(a: Arcs, fd: int, i: int) {
    exists k :: 0 <= k < |a| && i <= k && a[k].source == fd
  }

  /** Some such arc asks for fd to be closed afterwards. */
  predicate FlaggedFrom(a: Arcs, fd: int, i: int) {
    exists k :: 0 <= k < |a| && i <= k && a[k].source == fd && a[k].close
  }

  /**
   The descriptor is a destination that the run destroys: its own arc is an
   identity, a later arc also reads it, and one of these asks for the close.
   */
  predicate Clobbered(a: Arcs, fd: int) {
    var h := Home(a, fd);
    h >= 0 && a[h].source == fd && SourceFrom(a, fd, h + 1) && FlaggedFrom(a, fd, h)
  }

  /** The descriptors that the run closes, temporaries apart. */
  predicate Discarded(a: Arcs, fd: int) {
    if Home(a, fd) >= 0 then Clobbered(a, fd) else FlaggedFrom(a, fd, 0)
  }

  function DiscardedSet(a: Arcs): set<int> {
    set fd | fd in Mentioned(a) && Discarded(a, fd)
  }

  /** The entry of fd after the first i arcs have been carried out. */
  function EntryAfter(a: Arcs, table: Table, i: int, fd: int): Entry {
    var h := Home(a, fd);
    if Discarded(a, fd) && !SourceFrom(a, fd, i) then Closed
    else if 0 <= h < i then Lookup(table, a[h].source)
    else Lookup(table, fd)
  }

  /** How many of the first i arcs need a temporary. */
  function Duplications(a: Arcs, i: nat): nat
    requires i <= |a|
  {
    if i == 0 then 0
    else Duplications(a, i - 1)
         + (if a[i - 1].source != a[i - 1].dest && SourceFrom(a, a[i - 1].dest, i) then 1 else 0)
  }

  // ----- One pass of the inner loop -----

  /** Arc j is about to lose its object because arc i overwrites it. */
  predicate Diverted(m: Arcs, i: int, j: int)
    requires 0 <= i < |m| && 0 <= j < |m|
  {
    m[i].source != m[i].dest && m[j].source == m[i].dest
  }

  /** Some later arc is. */
  predicate NeedsTemp(m: Arcs, i: int)
    requires 0 <= i < |m|
  {
    exists j :: i < j < |m| && Diverted(m, i, j)
  }

  predicate Released(m: Arcs, i: int, n: int)
    requires 0 <= i < n <= |m|
  {
    exists j :: i < j < n && (m[j].dest == m[i].source || m[j].source == m[i].source)
  }

  /** Arc j as the inner loop for arc i leaves it, temporary temp being in use. */
  function ScannedArc(m: Arcs, i: int, j: int, temp: int): InjectionArc
    requires 0 <= i < j < |m|
  {
    if Diverted(m, i, j) then InjectionArc(temp, m[j].dest, false)
    else if m[i].close && m[j].source == m[i].source && m[j].dest != m[i].source && !Released(m, i, j)
    then m[j].(close := true)
    else m[j]
  }

  ghost predicate Scanned(m: Arcs, m': Arcs, i: int, n: int, temp: int)
    requires 0 <= i < n <= |m|
  {
    && |m'| == |m|
    && m'[i] == m[i].(close := m[i].close && !Released(m, i, n))
    && (forall j :: i < j < n ==> m'[j] == ScannedArc(m, i, j, temp))
    && (forall j :: 0 <= j < i || n <= j < |m| ==> m'[j] == m[j])
  }

  const MAX_EXTRA_FDS: nat := 16

  /** What the body of the inner loop does to arcs i and j, in the order of the code. */
  function ScanOne(m: Arcs, i: int, j: int, temp: int): (m': Arcs)
    requires 0 <= i < j < |m|
    ensures |m'| == |m|
  {
    var source := if Diverted(m, i, j) then temp else m[j].source;
    var close := m[i].close && m[i].source != m[j].dest;
    m[i := m[i].(close := close && m[i].source != source)]
     [j := InjectionArc(source, m[j].dest, (!Diverted(m, i, j) && m[j].close) || (close && m[i].source == source))]
  }

  function ScanTo(m: Arcs, i: int, n: int, temp: int): (m': Arcs)
    requires 0 <= i < n <= |m|
    ensures |m'| == |m|
  {
    if n == i + 1 then m else ScanOne(ScanTo(m, i, n - 1, temp), i, n - 1, temp)
  }

  /** The whole inner loop. */
  function ScanAll(m: Arcs, i: int, temp: int): (m': Arcs)
    requires 0 <= i < |m|
    ensures |m'| == |m|
  {
    ScanTo(m, i, |m|, temp)
  }

  lemma {:induction false} ScanToKeeps(m: Arcs, i: int, n: int, temp: int)
    requires 0 <= i < n <= |m|
    ensures
      var m' := ScanTo(m, i, n, temp);
      && m'[i].source == m[i].source && m'[i].dest == m[i].dest
      && forall k :: n <= k < |m| ==> m'[k] == m[k]
  {
    if n > i + 1 {
      ScanToKeeps(m, i, n - 1, temp);
    }
  }

  /** A temporary that is not the source of arc i itself is as good as any other. */
  lemma {:induction false} ScanToIs(m: Arcs, i: int, n: int, temp: int)
    requires 0 <= i < n <= |m|
    requires temp != m[i].source || forall j :: i < j < n ==> !Diverted(m, i, j)
    ensures Scanned(m, ScanTo(m, i, n, temp), i, n, temp)
  {
    if n > i + 1 {
      ScanToIs(m, i, n - 1, temp);
      ScanToKeeps(m, i, n - 1, temp);
      ScannedMore(m, ScanTo(m, i, n - 1, temp), i, n - 1, temp);
    } else {
      assert !Released(m, i, n);
    }
  }

  lemma ScannedMore(m: Arcs, was: Arcs, i: int, j: int, temp: int)
    requires 0 <= i < j < |m| && Scanned(m, was, i, j, temp) && (Diverted(m, i, j) ==> temp != m[i].source)
    ensures Scanned(m, ScanOne(was, i, j, temp), i, j + 1, temp)
  {
    ReleasedNext(m, i, j);
    hide Released;
  }

  lemma ReleasedNext(m: Arcs, i: int, j: int)
    requires 0 <= i < j < |m|
    ensures Released(m, i, j + 1) <==> Released(m, i, j) || m[j].dest == m[i].source || m[j].source == m[i].source
  {
  }

  /** As long as no arc was diverted, the temporary does not matter. */
  lemma {:induction false} NoneDiverted(m: Arcs, i: int, n: int, temp: int, temp': int)
    requires 0 <= i < n <= |m| && forall j :: i < j < n ==> !Diverted(m, i, j)
    ensures ScanTo(m, i, n, temp) == ScanTo(m, i, n, temp')
  {
    if n > i + 1 {
      NoneDiverted(m, i, n - 1, temp, temp');
      ScanToKeeps(m, i, n - 1, temp);
      assert !Diverted(m, i, n - 1);
    }
  }

  method ScanArc(m: array<InjectionArc>, i: nat, j: nat, tempFd: int)
    requires i < j < m.Length
    modifies m
    ensures m[..] == ScanOne(old(m[..]), i, j, tempFd)
  {
    if m[i].source != m[i].dest && m[i].dest == m[j].source {
      m[j] := m[j].(source := tempFd, close := false);
    }
    if m[i].close && m[i].source == m[j].dest {
      m[i] := m[i].(close := false);
    }
    if m[i].close && m[i].source == m[j].source {
      m[i] := m[i].(close := false);
      m[j] := m[j].(close := true);
    }
  }

  /** A temporary for the descriptor, remembered while there is room. */
  method MakeTemp(fd: int, delegate: InjectionDelegate, extraFds: array<int>, nextExtra: nat)
    returns (ok: bool, tempFd: int, nextExtra': nat)
    requires extraFds.Length == MAX_EXTRA_FDS && nextExtra <= MAX_EXTRA_FDS
    modifies delegate, extraFds
    ensures delegate.closes == old(delegate.closes)
    ensures delegate.failed == (old(delegate.failed) || !ok)
    ensures delegate.refused == (old(delegate.refused) || (!ok && fd in old(delegate.table)))
    ensures nextExtra <= nextExtra' <= MAX_EXTRA_FDS
    ensures extraFds[..nextExtra] == old(extraFds[..nextExtra])
    ensures !ok ==> tempFd == -1 && delegate.table == old(delegate.table) && nextExtra' == nextExtra
    ensures ok ==>
              && tempFd >= 0 && tempFd !in old(delegate.table) && tempFd !in delegate.reserved
              && fd in old(delegate.table)
              && delegate.table == old(delegate.table)[tempFd := old(delegate.table)[fd]]
              && nextExtra' == (if nextExtra < MAX_EXTRA_FDS then nextExtra + 1 else nextExtra)
              && (nextExtra < MAX_EXTRA_FDS ==> extraFds[nextExtra] == tempFd)
  {
    nextExtra' := nextExtra;
    ok, tempFd := delegate.Duplicate(fd);
    if !ok {
      tempFd := -1;
    } else if nextExtra < MAX_EXTRA_FDS {
      extraFds[nextExtra] := tempFd;
      nextExtra' := nextExtra + 1;
    }
  }

  method ScanLaterArcs(m: array<InjectionArc>, i: nat, delegate: InjectionDelegate,
                       extraFds: array<int>, nextExtra: nat)
    returns (ok: bool, tempFd: int, nextExtra': nat)
    requires i < m.Length && extraFds.Length == MAX_EXTRA_FDS && nextExtra <= MAX_EXTRA_FDS
    modifies m, delegate, extraFds
    ensures delegate.closes == old(delegate.closes)
    ensures delegate.failed == (old(delegate.failed) || !ok)
    ensures delegate.refused == (old(delegate.refused) || (!ok && m[i].dest in old(delegate.table)))
    ensures !ok ==> NeedsTemp(old(m[..]), i) && m[i].dest == old(m[i].dest)
    ensures nextExtra' <= MAX_EXTRA_FDS
    ensures extraFds[..nextExtra] == old(extraFds[..nextExtra])
    ensures ok ==> m[..] == ScanAll(old(m[..]), i, tempFd)
    ensures ok && (tempFd == -1 || tempFd != m[i].source) ==> Scanned(old(m[..]), m[..], i, m.Length, tempFd)
    ensures tempFd == -1 ==> delegate.table == old(delegate.table) && nextExtra' == nextExtra
    ensures tempFd != -1 ==>
              && tempFd >= 0 && tempFd !in old(delegate.table) && tempFd !in delegate.reserved
              && m[i].dest in old(delegate.table)
              && delegate.table == old(delegate.table)[tempFd := old(delegate.table)[m[i].dest]]
              && nextExtra' == (if nextExtra < MAX_EXTRA_FDS then nextExtra + 1 else nextExtra)
              && (nextExtra < MAX_EXTRA_FDS ==> extraFds[nextExtra] == tempFd)
    ensures ok ==> (tempFd != -1 <==> NeedsTemp(old(m[..]), i))
  {
    ghost var m0 := m[..];
    tempFd, nextExtra', ok := -1, nextExtra, true;
    var isIdentity := m[i].source == m[i].dest;
    var j := i + 1;
    while j < m.Length
      invariant i < j <= m.Length && ok
      invariant delegate.closes == old(delegate.closes)
      invariant delegate.failed == old(delegate.failed) && delegate.refused == old(delegate.refused)
      invariant m[..] == ScanTo(m0, i, j, tempFd)
      invariant nextExtra' <= MAX_EXTRA_FDS
      invariant extraFds[..nextExtra] == old(extraFds[..nextExtra])
      invariant tempFd == -1 ==> delegate.table == old(delegate.table) && nextExtra' == nextExtra
      invariant tempFd != -1 ==>
                  && tempFd >= 0 && tempFd !in old(delegate.table) && tempFd !in delegate.reserved
                  && m[i].dest in old(delegate.table)
                  && delegate.table == old(delegate.table)[tempFd := old(delegate.table)[m[i].dest]]
                  && nextExtra' == (if nextExtra < MAX_EXTRA_FDS then nextExtra + 1 else nextExtra)
                  && (nextExtra < MAX_EXTRA_FDS ==> extraFds[nextExtra] == tempFd)
      invariant tempFd != -1 <==> exists l :: i < l < j && Diverted(m0, i, l)
    {
      ScanToKeeps(m0, i, j, tempFd);
      assert m[j] == m0[j] && m[i].source == m0[i].source && m[i].dest == m0[i].dest;
      assert Diverted(m0, i, j) <==> !isIdentity && m[i].dest == m[j].source;
      if !isIdentity && m[i].dest == m[j].source && tempFd == -1 {
        ok, tempFd, nextExtra' := MakeTemp(m[i].dest, delegate, extraFds, nextExtra);
        if !ok {
          return;
        }
        NoneDiverted(m0, i, j, -1, tempFd);
      }
      ScanArc(m, i, j, tempFd);
      j := j + 1;
    }
    ScanToKeeps(m0, i, j, tempFd);
    assert tempFd != -1 <==> NeedsTemp(m0, i);
    if tempFd == -1 || tempFd != m[i].source {
      ScanAllIs(m0, i, tempFd);
    }
  }

  lemma ScanAllIs(m: Arcs, i: int, temp: int)
    requires 0 <= i < |m| && (NeedsTemp(m, i) ==> temp != m[i].source)
    ensures Scanned(m, ScanAll(m, i, temp), i, |m|, temp)
  {
    ScanToIs(m, i, |m|, temp);
  }

  // ----- The outer loop -----

  /** Before arc i starts, arc k reads a temporary instead of its own source. */
  predicate Redirected(a: Arcs, k: int, i: int)
    requires 0 <= k < |a|
  {
    var h := Home(a, a[k].source);
    0 <= h < i && h < k && a[h].source != a[k].source
  }

  /** Some remaining arc reads fd and carries the request to close it. */
  predicate Pending(m: Arcs, fd: int, i: int) {
    exists k :: 0 <= k < |m| && i <= k && m[k].source == fd && m[k].close
  }

  ghost predicate SourcesInv(a: Arcs, m: Arcs, i: int, temps: set<int>) {
    && |m| == |a|
    && (forall k :: 0 <= k < |a| ==> m[k].dest == a[k].dest)
    && (forall k :: 0 <= k < |a| && i <= k ==>
          if Redirected(a, k, i) then m[k].source in temps && !m[k].close else m[k].source == a[k].source)
  }

  /** Where fd must survive or be closed, the close requests are where they should be. */
  ghost predicate FlagsInv(a: Arcs, m: Arcs, i: int)
    requires |m| == |a|
  {
    && (forall k :: 0 <= k < |a| && i <= k && Untouched(a, i, k) ==> m[k].close == a[k].close)
    && (forall fd :: Home(a, fd) < i && Tracked(a, fd)
          ==> (Pending(m, fd, i) <==> FlaggedFrom(a, fd, Home(a, fd)) && SourceFrom(a, fd, i)))
  }

  lemma NonIdentityAt(a: Arcs, m: Arcs, i: int, temps: set<int>)
    requires Injective(a) && 0 <= i < |a|
    requires temps !! Mentioned(a) && SourcesInv(a, m, i, temps)
    ensures m[i].source == m[i].dest <==> a[i].source == a[i].dest
    ensures m[i].source in temps ==> !m[i].close
  {
    MentionedAt(a, i);
    HomeOfDest(a, i);
  }

  lemma SourceStep(a: Arcs, m: Arcs, m': Arcs, i: int, temps: set<int>, temp: int, added: set<int>, k: int)
    requires Injective(a) && 0 <= i < k < |a|
    requires temps !! Mentioned(a) && SourcesInv(a, m, i, temps)
    requires Diverted(m, i, k) ==> temp in added && temp !in Mentioned(a)
    requires |m'| == |m| && m'[k] == ScannedArc(m, i, k, temp)
    ensures if Redirected(a, k, i + 1) then m'[k].source in temps + added && !m'[k].close
            else m'[k].source == a[k].source
  {
    MentionedAt(a, k);
    MentionedAt(a, i);
    HomeOfDest(a, i);
    NonIdentityAt(a, m, i, temps);
  }

  lemma SourcesStep(a: Arcs, m: Arcs, m': Arcs, i: int, temps: set<int>, temp: int, added: set<int>)
    requires Injective(a) && 0 <= i < |a|
    requires temps !! Mentioned(a) && SourcesInv(a, m, i, temps)
    requires forall k :: i < k < |a| && Diverted(m, i, k) ==> temp in added && temp !in Mentioned(a)
    requires Scanned(m, m', i, |m|, temp)
    ensures SourcesInv(a, m', i + 1, temps + added)
  {
    forall k | 0 <= k < |a| && i + 1 <= k
      ensures if Redirected(a, k, i + 1) then m'[k].source in temps + added && !m'[k].close
              else m'[k].source == a[k].source
    {
      SourceStep(a, m, m', i, temps, temp, added, k);
    }
    forall k | 0 <= k < |a|
      ensures m'[k].dest == a[k].dest
    {
      if k > i { assert m'[k] == ScannedArc(m, i, k, temp); }
    }
  }

  /** fd is never handed over to a temporary: it is no destination, or an identity. */
  predicate Tracked(a: Arcs, fd: int) {
    fd in Mentioned(a) && (Home(a, fd) >= 0 ==> a[Home(a, fd)].source == fd)
  }

  lemma TrackedSource(a: Arcs, m: Arcs, i: int, temps: set<int>, fd: int, k: int)
    requires temps !! Mentioned(a) && SourcesInv(a, m, i, temps)
    requires Tracked(a, fd) && 0 <= k < |a| && i <= k
    ensures m[k].source == fd <==> a[k].source == fd
  {
  }

  lemma FirstSource(a: Arcs, fd: int, i: int) returns (k: int)
    requires 0 <= i && SourceFrom(a, fd, i)
    ensures i <= k < |a| && a[k].source == fd
    ensures forall j :: i <= j < k ==> a[j].source != fd
  {
    k := i;
    while a[k].source != fd
      invariant i <= k < |a| && SourceFrom(a, fd, k)
      invariant forall j :: i <= j < k ==> a[j].source != fd
      decreases |a| - k
    {
      k := k + 1;
    }
  }

  /** Arcs that read a tracked fd keep reading it, and no later arc overwrites it. */
  lemma TrackedArc(a: Arcs, m: Arcs, i: int, temps: set<int>, fd: int, k: int)
    requires Injective(a) && 0 <= i <= k < |a|
    requires temps !! Mentioned(a) && SourcesInv(a, m, i, temps)
    requires Tracked(a, fd) && Home(a, fd) <= i
    ensures m[k].source == fd <==> a[k].source == fd
    ensures k > i ==> m[k].dest != fd
    ensures k > i && m[k].source == fd ==> !Diverted(m, i, k)
  {
    TrackedSource(a, m, i, temps, fd, k);
    HomeOfDest(a, k);
    NonIdentityAt(a, m, i, temps);
  }

  lemma PendingBefore(a: Arcs, m: Arcs, m': Arcs, i: int, temps: set<int>, temp: int, fd: int, k: int)
    requires Injective(a) && 0 <= i < k < |a|
    requires temps !! Mentioned(a) && SourcesInv(a, m, i, temps)
    requires |m'| == |m| && m'[k] == ScannedArc(m, i, k, temp)
    requires Diverted(m, i, k) ==> temp !in Mentioned(a)
    requires Tracked(a, fd) && Home(a, fd) <= i
    requires m'[k].source == fd && m'[k].close
    ensures Pending(m, fd, i) && a[k].source == fd
  {
    TrackedArc(a, m, i, temps, fd, k);
    if m[k].close {
      assert m[k].source == fd;
    } else {
      assert m[i].source == fd && m[i].close;
    }
  }

  lemma PendingAfter(a: Arcs, m: Arcs, m': Arcs, i: int, temps: set<int>, temp: int, fd: int, k: int)
    requires Injective(a) && 0 <= i <= k < |a|
    requires temps !! Mentioned(a) && SourcesInv(a, m, i, temps)
    requires Scanned(m, m', i, |m|, temp)
    requires Tracked(a, fd) && Home(a, fd) <= i
    requires m[k].source == fd && m[k].close && SourceFrom(a, fd, i + 1)
    ensures Pending(m', fd, i + 1)
  {
    if k > i {
      TrackedArc(a, m, i, temps, fd, k);
      assert m'[k] == ScannedArc(m, i, k, temp);
    } else {
      var next := FirstSource(a, fd, i + 1);
      TrackedArc(a, m, i, temps, fd, next);
      forall j | i < j < next
        ensures m[j].source != fd && m[j].dest != fd
      {
        TrackedArc(a, m, i, temps, fd, j);
      }
      assert !Released(m, i, next);
      assert m'[next] == ScannedArc(m, i, next, temp);
    }
  }

  /** Arc i hands its close request for fd to the next arc that reads fd. */
  lemma PendingStep(a: Arcs, m: Arcs, m': Arcs, i: int, temps: set<int>, temp: int, fd: int)
    requires Injective(a) && 0 <= i < |a|
    requires temps !! Mentioned(a) && SourcesInv(a, m, i, temps)
    requires Scanned(m, m', i, |m|, temp)
    requires forall k :: i < k < |a| && Diverted(m, i, k) ==> temp !in Mentioned(a)
    requires Tracked(a, fd) && Home(a, fd) <= i
    ensures Pending(m', fd, i + 1) <==> Pending(m, fd, i) && SourceFrom(a, fd, i + 1)
  {
    if Pending(m', fd, i + 1) {
      var k :| 0 <= k < |m'| && i + 1 <= k && m'[k].source == fd && m'[k].close;
      PendingBefore(a, m, m', i, temps, temp, fd, k);
    }
    if Pending(m, fd, i) && SourceFrom(a, fd, i + 1) {
      var k :| 0 <= k < |m| && i <= k && m[k].source == fd && m[k].close;
      PendingAfter(a, m, m', i, temps, temp, fd, k);
    }
  }

  lemma FlagsStep(a: Arcs, m: Arcs, m': Arcs, i: int, temps: set<int>, temp: int)
    requires Injective(a) && 0 <= i < |a|
    requires temps !! Mentioned(a) && SourcesInv(a, m, i, temps) && FlagsInv(a, m, i)
    requires Scanned(m, m', i, |m|, temp)
    requires forall k :: i < k < |a| && Diverted(m, i, k) ==> temp !in Mentioned(a)
    ensures FlagsInv(a, m', i + 1)
  {
    forall k | 0 <= k < |a| && i + 1 <= k && Untouched(a, i + 1, k)
      ensures m'[k].close == a[k].close
    {
      UntouchedStep(a, m, m', i, temps, temp, k);
    }
    forall fd | Home(a, fd) < i + 1 && Tracked(a, fd)
      ensures Pending(m', fd, i + 1) <==> FlaggedFrom(a, fd, Home(a, fd)) && SourceFrom(a, fd, i + 1)
    {
      PendingStep(a, m, m', i, temps, temp, fd);
      if Home(a, fd) == i {
        PendingAtHome(a, m, i, temps, fd);
      }
    }
  }

  /** The identity arc for the source of arc k is still to come, or is arc i itself. */
  predicate Untouched(a: Arcs, i: int, k: int)
    requires 0 <= k < |a|
  {
    var h := Home(a, a[k].source);
    i <= h <= k && 0 <= h && a[h].source == a[k].source
  }

  lemma UntouchedStep(a: Arcs, m: Arcs, m': Arcs, i: int, temps: set<int>, temp: int, k: int)
    requires Injective(a) && 0 <= i < k < |a|
    requires temps !! Mentioned(a) && SourcesInv(a, m, i, temps) && FlagsInv(a, m, i)
    requires Scanned(m, m', i, |m|, temp)
    requires Untouched(a, i + 1, k)
    ensures m'[k].close == a[k].close
  {
    HomeOfDest(a, i);
    var h := Home(a, a[k].source);
    assert m'[k] == ScannedArc(m, i, k, temp);
    assert m[h].dest == a[k].source == m[k].source;
    if h < k && m[i].source == m[k].source {
      assert Released(m, i, k);
    }
  }

  lemma PendingAtHome(a: Arcs, m: Arcs, i: int, temps: set<int>, fd: int)
    requires Injective(a) && 0 <= i < |a|
    requires temps !! Mentioned(a) && SourcesInv(a, m, i, temps) && FlagsInv(a, m, i)
    requires Tracked(a, fd) && Home(a, fd) == i
    ensures Pending(m, fd, i) <==> FlaggedFrom(a, fd, i)
  {
    forall k | i <= k < |a|
      ensures m[k].source == fd <==> a[k].source == fd
      ensures a[k].source == fd ==> m[k].close == a[k].close
    {
      TrackedSource(a, m, i, temps, fd, k);
      if a[k].source == fd { assert Untouched(a, i, k); }
    }
  }

  // ----- Closing -----

  /** The discarded descriptors that none of the arcs from i on still needs. */
  function DoneSet(a: Arcs, i: int): set<int> {
    set fd | fd in Mentioned(a) && Discarded(a, fd) && !SourceFrom(a, fd, i)
  }

  /** Arc i gives up its close request exactly when its source is still needed. */
  lemma ReleasedIff(a: Arcs, m: Arcs, i: int, temps: set<int>)
    requires Injective(a) && 0 <= i < |a|
    requires temps !! Mentioned(a) && SourcesInv(a, m, i, temps)
    requires m[i].source == a[i].source
    ensures Released(m, i, |m|) <==> Home(a, a[i].source) > i || SourceFrom(a, a[i].source, i + 1)
  {
    var fd, h := a[i].source, Home(a, a[i].source);
    MentionedAt(a, i);
    HomeOfDest(a, i);
    if h > i {
      assert m[h].dest == fd;
    } else {
      assert Tracked(a, fd);
      forall j | i < j < |a|
        ensures m[j].dest != fd && (m[j].source == fd <==> a[j].source == fd)
      {
        TrackedArc(a, m, i, temps, fd, j);
      }
    }
  }

  /** Arc i performs a close exactly when its source is discarded and read for the last time. */
  lemma CloseStep(a: Arcs, m: Arcs, i: int, temps: set<int>)
    requires Injective(a) && 0 <= i < |a|
    requires temps !! Mentioned(a) && SourcesInv(a, m, i, temps) && FlagsInv(a, m, i)
    ensures (a[i].source != a[i].dest && m[i].close && !Released(m, i, |m|))
            <==> (Discarded(a, a[i].source) && !SourceFrom(a, a[i].source, i + 1))
    ensures m[i].close ==> m[i].source == a[i].source
  {
    var fd, h := a[i].source, Home(a, a[i].source);
    MentionedAt(a, i);
    HomeOfDest(a, i);
    assert SourceFrom(a, fd, i);
    if m[i].source == fd {
      ReleasedIff(a, m, i, temps);
      if h < i {
        PendingLast(a, m, i, temps, fd);
      }
    }
  }

  lemma PendingLast(a: Arcs, m: Arcs, i: int, temps: set<int>, fd: int)
    requires Injective(a) && 0 <= i < |a|
    requires temps !! Mentioned(a) && SourcesInv(a, m, i, temps) && FlagsInv(a, m, i)
    requires a[i].source == m[i].source == fd && fd in Mentioned(a)
    requires Home(a, fd) < i && (Home(a, fd) >= 0 ==> a[Home(a, fd)].source == fd)
    ensures !SourceFrom(a, fd, i + 1) ==> (m[i].close <==> FlaggedFrom(a, fd, Home(a, fd)))
  {
    assert SourceFrom(a, fd, i);
    assert Tracked(a, fd);
    forall j | i < j < |a|
      ensures m[j].source == fd <==> a[j].source == fd
    {
      TrackedArc(a, m, i, temps, fd, j);
    }
    hide Mentioned, SourcesInv, Tracked;
  }

  // ----- The table -----

  ghost predicate TableInv(a: Arcs, t0: Table, m: Arcs, t: Table, i: int, temps: set<int>)
    requires |m| == |a|
  {
    && temps !! Mentioned(a) && temps !! t0.Keys && temps <= t.Keys
    && (forall fd :: fd !in temps ==> Lookup(t, fd) == EntryAfter(a, t0, i, fd))
    && (forall k :: 0 <= k < |a| && i <= k ==> Lookup(t, m[k].source) == Lookup(t0, a[k].source))
  }

  /** A descriptor that is neither open nor mentioned was not open at the start either. */
  lemma FreshAtStart(a: Arcs, t0: Table, m: Arcs, t: Table, i: int, temps: set<int>, fd: int)
    requires |m| == |a| && TableInv(a, t0, m, t, i, temps)
    requires fd !in t && fd !in Mentioned(a)
    ensures fd !in t0 && fd !in temps
  {
    forall k | 0 <= k < |a|
      ensures a[k].source != fd && a[k].dest != fd
    {
      MentionedAt(a, k);
    }
  }

  /** The entry that arc i is about to overwrite is still the original one. */
  lemma UnwrittenDest(a: Arcs, t0: Table, m: Arcs, t: Table, i: int, temps: set<int>)
    requires Injective(a) && 0 <= i < |a| == |m|
    requires TableInv(a, t0, m, t, i, temps) && a[i].source != a[i].dest
    ensures Lookup(t, a[i].dest) == Lookup(t0, a[i].dest)
  {
    MentionedAt(a, i);
    HomeOfDest(a, i);
  }

  function WithTemp(t: Table, temp: int, dest: int): Table {
    if temp != -1 && dest in t then t[temp := t[dest]] else t
  }

  /** The table after arc i: temporary, move and close, each when it takes place. */
  function TableStep(t: Table, temp: int, arc: InjectionArc): Table {
    var t1 := WithTemp(t, temp, arc.dest);
    var t2 := if arc.source != arc.dest && arc.source in t1 then t1[arc.dest := t1[arc.source]] else t1;
    if arc.source != arc.dest && arc.close then t2 - {arc.source} else t2
  }

  lemma EntryStep(a: Arcs, t0: Table, i: int, fd: int)
    requires Injective(a) && 0 <= i < |a|
    ensures fd == a[i].dest ==> EntryAfter(a, t0, i + 1, fd) == Lookup(t0, a[i].source)
    ensures fd != a[i].dest ==>
              EntryAfter(a, t0, i + 1, fd) ==
              if fd == a[i].source && Discarded(a, fd) && !SourceFrom(a, fd, i + 1) then Closed
              else EntryAfter(a, t0, i, fd)
  {
    HomeOfDest(a, i);
    if SourceFrom(a, fd, i) && !SourceFrom(a, fd, i + 1) {
      assert a[i].source == fd;
    }
    if SourceFrom(a, fd, i + 1) {
      assert SourceFrom(a, fd, i);
    }
  }

  /** Everything one round of the outer loop may rely on. */
  ghost predicate RoundPre(a: Arcs, t0: Table, m: Arcs, m': Arcs, t: Table, i: int, temps: set<int>, temp: int) {
    && Injective(a) && 0 <= i < |a|
    && temps !! Mentioned(a) && SourcesInv(a, m, i, temps) && FlagsInv(a, m, i)
    && TableInv(a, t0, m, t, i, temps)
    && Scanned(m, m', i, |m|, temp)
    && (temp != -1 <==> NeedsTemp(m, i))
    && (temp != -1 ==> temp !in t && temp !in Mentioned(a) && a[i].dest in t)
  }

  function Added(temp: int): set<int> {
    if temp == -1 then {} else {temp}
  }

  lemma TempsStep(a: Arcs, t0: Table, m: Arcs, m': Arcs, t: Table, i: int, temps: set<int>, temp: int)
    requires RoundPre(a, t0, m, m', t, i, temps, temp)
    ensures temps + Added(temp) !! Mentioned(a) && temps + Added(temp) !! t0.Keys && temps !! Added(temp)
    ensures temps + Added(temp) <= TableStep(t, temp, m'[i]).Keys
  {
    CloseStep(a, m, i, temps);
    MentionedAt(a, i);
    if temp != -1 {
      FreshAtStart(a, t0, m, t, i, temps, temp);
    }
  }

  lemma EntriesStep(a: Arcs, t0: Table, m: Arcs, m': Arcs, t: Table, i: int, temps: set<int>, temp: int, fd: int)
    requires RoundPre(a, t0, m, m', t, i, temps, temp)
    requires a[i].source != a[i].dest ==> m'[i].source in t
    requires fd !in temps + Added(temp)
    ensures Lookup(TableStep(t, temp, m'[i]), fd) == EntryAfter(a, t0, i + 1, fd)
  {
    CloseStep(a, m, i, temps);
    MentionedAt(a, i);
    EntryStep(a, t0, i, fd);
    NonIdentityAt(a, m, i, temps);
    TempsStep(a, t0, m, m', t, i, temps, temp);
    if a[i].source == a[i].dest && fd == a[i].dest {
      HomeOfDest(a, i);
      assert SourceFrom(a, fd, i);
    }
  }

  /** Carrying out an arc changes the entries of its destination, its source and its temporary only. */
  lemma TableStepElsewhere(t: Table, temp: int, arc: InjectionArc, fd: int)
    requires fd != arc.dest || arc.source == arc.dest
    requires fd != arc.source || !arc.close
    ensures Lookup(TableStep(t, temp, arc), fd) == Lookup(WithTemp(t, temp, arc.dest), fd)
  {
  }

  lemma DivertedReaderStep(a: Arcs, t0: Table, m: Arcs, m': Arcs, t: Table, i: int, temps: set<int>, temp: int, k: int)
    requires RoundPre(a, t0, m, m', t, i, temps, temp)
    requires i < k < |a| && Diverted(m, i, k)
    ensures Lookup(TableStep(t, temp, m'[i]), m'[k].source) == Lookup(t0, a[k].source)
  {
    assert m'[k] == ScannedArc(m, i, k, temp);
    NonIdentityAt(a, m, i, temps);
    UnwrittenDest(a, t0, m, t, i, temps);
    CloseStep(a, m, i, temps);
    MentionedAt(a, i);
    MentionedAt(a, k);
    TableStepElsewhere(t, temp, m'[i], temp);
  }

  lemma KeptReaderStep(a: Arcs, t0: Table, m: Arcs, m': Arcs, t: Table, i: int, temps: set<int>, temp: int, k: int)
    requires RoundPre(a, t0, m, m', t, i, temps, temp)
    requires i < k < |a| && !Diverted(m, i, k)
    ensures Lookup(TableStep(t, temp, m'[i]), m'[k].source) == Lookup(t0, a[k].source)
  {
    assert m'[k] == ScannedArc(m, i, k, temp);
    MentionedAt(a, k);
    assert m[k].source in temps + Mentioned(a);
    assert m'[i].close ==> !Released(m, i, |m|) && m[k].source != m[i].source;
    TableStepElsewhere(t, temp, m'[i], m'[k].source);
  }

  lemma TableInvStep(a: Arcs, t0: Table, m: Arcs, m': Arcs, t: Table, i: int, temps: set<int>, temp: int)
    requires RoundPre(a, t0, m, m', t, i, temps, temp)
    requires a[i].source != a[i].dest ==> m'[i].source in t
    ensures TableInv(a, t0, m', TableStep(t, temp, m'[i]), i + 1, temps + Added(temp))
  {
    TempsStep(a, t0, m, m', t, i, temps, temp);
    var t' := TableStep(t, temp, m'[i]);
    forall fd | fd !in temps + Added(temp)
      ensures Lookup(t', fd) == EntryAfter(a, t0, i + 1, fd)
    {
      EntriesStep(a, t0, m, m', t, i, temps, temp, fd);
    }
    forall k | 0 <= k < |a| && i + 1 <= k
      ensures Lookup(t', m'[k].source) == Lookup(t0, a[k].source)
    {
      if Diverted(m, i, k) {
        DivertedReaderStep(a, t0, m, m', t, i, temps, temp, k);
      } else {
        KeptReaderStep(a, t0, m, m', t, i, temps, temp, k);
      }
    }
  }

  lemma DoneStep(a: Arcs, m: Arcs, i: int, temps: set<int>)
    requires Injective(a) && 0 <= i < |a|
    requires temps !! Mentioned(a) && SourcesInv(a, m, i, temps) && FlagsInv(a, m, i)
    ensures if m[i].source != m[i].dest && m[i].close && !Released(m, i, |m|)
            then m[i].source !in DoneSet(a, i) && DoneSet(a, i + 1) == DoneSet(a, i) + {m[i].source}
            else DoneSet(a, i + 1) == DoneSet(a, i)
  {
    CloseStep(a, m, i, temps);
    NonIdentityAt(a, m, i, temps);
    MentionedAt(a, i);
    forall fd
      ensures SourceFrom(a, fd, i) <==> SourceFrom(a, fd, i + 1) || a[i].source == fd
    {
    }
  }

  /** A temporary is needed exactly when a later arc still reads what arc i overwrites. */
  lemma RoundCount(a: Arcs, m: Arcs, i: int, temps: set<int>)
    requires Injective(a) && 0 <= i < |a|
    requires temps !! Mentioned(a) && SourcesInv(a, m, i, temps)
    ensures NeedsTemp(m, i) <==> a[i].source != a[i].dest && SourceFrom(a, a[i].dest, i + 1)
  {
    MentionedAt(a, i);
    HomeOfDest(a, i);
    NonIdentityAt(a, m, i, temps);
    forall j | i < j < |a|
      ensures m[j].source == a[i].dest <==> a[j].source == a[i].dest
    {
      MentionedAt(a, j);
    }
    if a[i].source != a[i].dest && SourceFrom(a, a[i].dest, i + 1) {
      var j := FirstSource(a, a[i].dest, i + 1);
      assert Diverted(m, i, j);
    }
  }

  lemma InvInit(a: Arcs, t0: Table)
    requires Injective(a)
    ensures SourcesInv(a, a, 0, {}) && FlagsInv(a, a, 0) && TableInv(a, t0, a, t0, 0, {}) && DoneSet(a, 0) == {}
  {
    forall fd
      ensures Discarded(a, fd) ==> SourceFrom(a, fd, 0)
      ensures FlaggedFrom(a, fd, -1) <==> FlaggedFrom(a, fd, 0)
      ensures FlaggedFrom(a, fd, 0) ==> SourceFrom(a, fd, 0)
      ensures Pending(a, fd, 0) <==> FlaggedFrom(a, fd, 0)
    {
    }
  }

  /** The entry of fd when the run is over, temporaries apart. */
  function Final(a: Arcs, table: Table, fd: int): Entry {
    EntryAfter(a, table, |a|, fd)
  }

  function Min(x: nat, y: nat): nat {
    if x < y then x else y
  }

  function Elements(s: seq<int>): set<int> {
    set x | x in s
  }

  ghost predicate RunInv(a: Arcs, t0: Table, reserved: set<int>, m: Arcs, t: Table, i: int, temps: seq<int>) {
    && Injective(a) && 0 <= i <= |a| && Mentioned(a) <= reserved
    && SourcesInv(a, m, i, Elements(temps)) && FlagsInv(a, m, i) && TableInv(a, t0, m, t, i, Elements(temps))
    && |temps| == Duplications(a, i)
    && (forall p :: 0 <= p < |temps| ==> temps[p] !in reserved)
    && (forall p, q :: 0 <= p < q < |temps| ==> temps[p] != temps[q])
  }

  function Extended(temps: seq<int>, temp: int): seq<int> {
    if temp == -1 then temps else temps + [temp]
  }

  lemma ExtendedElements(temps: seq<int>, temp: int)
    ensures Elements(Extended(temps, temp)) == Elements(temps) + Added(temp)
  {
  }

  ghost predicate CallPost(m: Arcs, m': Arcs, t: Table, reserved: set<int>, i: int, temp: int) {
    Handed(m, t, reserved, i, temp) && Scanned(m, m', i, |m|, temp)
  }

  /** A temporary was handed out if one is needed, and it is fresh. */
  ghost predicate Handed(m: Arcs, t: Table, reserved: set<int>, i: int, temp: int) {
    && 0 <= i < |m|
    && (temp != -1 <==> NeedsTemp(m, i))
    && (temp != -1 ==> temp >= 0 && temp !in t && temp !in reserved && m[i].dest in t)
  }

  lemma ReaderIsKnown(a: Arcs, t0: Table, reserved: set<int>, m: Arcs, t: Table, i: int, temps: seq<int>, k: int)
    requires RunInv(a, t0, reserved, m, t, i, temps) && i <= k < |a|
    ensures m[k].source in t || m[k].source in reserved
    ensures m[k].source in Elements(temps) + Mentioned(a)
  {
    MentionedAt(a, k);
  }

  lemma SourceKnown(a: Arcs, t0: Table, reserved: set<int>, m: Arcs, t: Table, i: int, temps: seq<int>)
    requires RunInv(a, t0, reserved, m, t, i, temps) && 0 <= i < |m|
    ensures m[i].source in t || m[i].source in reserved
  {
    ReaderIsKnown(a, t0, reserved, m, t, i, temps, i);
  }

  lemma ExtendedPrefix(temps: seq<int>, temp: int, n: nat, n': nat)
    requires n == Min(|temps|, MAX_EXTRA_FDS) && n' == Min(n + |Added(temp)|, MAX_EXTRA_FDS)
    ensures n' == Min(|Extended(temps, temp)|, MAX_EXTRA_FDS)
    ensures Extended(temps, temp)[..n'] == temps[..n] + (if n < n' then [temp] else [])
  {
  }

  function ClosedBy(arc: InjectionArc): multiset<int> {
    if arc.source != arc.dest && arc.close then multiset{arc.source} else multiset{}
  }

  lemma RoundStep(a: Arcs, t0: Table, reserved: set<int>, m: Arcs, m': Arcs, t: Table, i: int, temps: seq<int>,
                  temp: int)
    requires RunInv(a, t0, reserved, m, t, i, temps) && CallPost(m, m', t, reserved, i, temp)
    requires m'[i].source != m'[i].dest ==> m'[i].source in WithTemp(t, temp, m'[i].dest)
    ensures RunInv(a, t0, reserved, m', TableStep(t, temp, m'[i]), i + 1, Extended(temps, temp))
  {
    var was := Elements(temps);
    assert RoundPre(a, t0, m, m', t, i, was, temp);
    ReaderIsKnown(a, t0, reserved, m, t, i, temps, i);
    NonIdentityAt(a, m, i, was);
    SourcesStep(a, m, m', i, was, temp, Added(temp));
    FlagsStep(a, m, m', i, was, temp);
    TableInvStep(a, t0, m, m', t, i, was, temp);
    ExtendedElements(temps, temp);
    TempsStep(a, t0, m, m', t, i, was, temp);
    RoundCount(a, m, i, was);
    assert temp != -1 ==> temp !in was;
  }

  lemma RoundCloses(a: Arcs, t0: Table, reserved: set<int>, m: Arcs, m': Arcs, t: Table, i: int, temps: seq<int>,
                    temp: int)
    requires RunInv(a, t0, reserved, m, t, i, temps) && CallPost(m, m', t, reserved, i, temp)
    ensures multiset(DoneSet(a, i + 1)) == multiset(DoneSet(a, i)) + ClosedBy(m'[i])
  {
    DoneStep(a, m, i, Elements(temps));
  }

  // ----- Runs, when it is given what Duplicate returns -----

  /** The work list, the table, how many temporaries there are, and what was closed. */
  datatype RunState = RunState(m: Arcs, table: Table, used: nat, closed: multiset<int>)

  function TempFor(s: RunState, i: int, temps: seq<int>): int
    requires 0 <= i < |s.m|
  {
    if NeedsTemp(s.m, i) && s.used < |temps| then temps[s.used] else -1
  }

  /** One round of the outer loop. */
  function Round(s: RunState, i: int, temps: seq<int>): (s': RunState)
    requires 0 <= i < |s.m|
    ensures |s'.m| == |s.m|
  {
    var temp := TempFor(s, i, temps);
    var m' := ScanAll(s.m, i, temp);
    RunState(m', TableStep(s.table, temp, m'[i]), s.used + (if NeedsTemp(s.m, i) then 1 else 0),
             s.closed + ClosedBy(m'[i]))
  }

  /** Duplicate may return the next temporary, and Move finds its source. */
  ghost predicate CanRound(s: RunState, i: int, temps: seq<int>) {
    && 0 <= i < |s.m|
    && (NeedsTemp(s.m, i) ==>
          s.used < |temps| && temps[s.used] >= 0 && temps[s.used] !in s.table && s.m[i].dest in s.table)
    && (s.m[i].source != s.m[i].dest ==> s.m[i].source in WithTemp(s.table, TempFor(s, i, temps), s.m[i].dest))
  }

  /** The first i rounds. */
  function After(a: Arcs, t0: Table, i: nat, temps: seq<int>): (s: RunState)
    requires i <= |a|
    ensures |s.m| == |a|
  {
    if i == 0 then RunState(a, t0, 0, multiset{}) else Round(After(a, t0, i - 1, temps), i - 1, temps)
  }

  /** The first n rounds succeed with these temporaries. */
  ghost predicate IsRun(a: Arcs, t0: Table, n: nat, temps: seq<int>) {
    && n <= |a|
    && (forall i :: 0 <= i < n ==> CanRound(After(a, t0, i, temps), i, temps))
    && After(a, t0, n, temps).used == |temps|
  }

  lemma RoundUsed(s: RunState, i: int, temps: seq<int>)
    requires 0 <= i < |s.m|
    ensures Round(s, i, temps).used == s.used + if NeedsTemp(s.m, i) then 1 else 0
  {
  }

  lemma {:induction false} UsedGrows(a: Arcs, t0: Table, i: nat, n: nat, temps: seq<int>)
    requires i <= n <= |a|
    ensures After(a, t0, i, temps).used <= After(a, t0, n, temps).used
    decreases n
  {
    hide Round, NeedsTemp;
    if i < n {
      UsedGrows(a, t0, i, n - 1, temps);
      RoundUsed(After(a, t0, n - 1, temps), n - 1, temps);
    }
  }

  lemma RoundMore(s: RunState, i: int, temps: seq<int>, more: seq<int>)
    requires 0 <= i < |s.m| && Round(s, i, temps).used <= |temps|
    ensures Round(s, i, temps + more) == Round(s, i, temps)
  {
    hide ScanAll, TableStep, ClosedBy, NeedsTemp;
    assert TempFor(s, i, temps + more) == TempFor(s, i, temps);
  }

  /** More temporaries than a run has used make no difference. */
  lemma {:induction false} AfterMore(a: Arcs, t0: Table, i: nat, temps: seq<int>, more: seq<int>)
    requires i <= |a| && After(a, t0, i, temps).used <= |temps|
    ensures After(a, t0, i, temps + more) == After(a, t0, i, temps)
  {
    hide Round;
    if i > 0 {
      UsedGrows(a, t0, i - 1, i, temps);
      AfterMore(a, t0, i - 1, temps, more);
      RoundMore(After(a, t0, i - 1, temps), i - 1, temps, more);
    }
  }

  lemma RunMore(a: Arcs, t0: Table, n: nat, temps: seq<int>, more: seq<int>)
    requires IsRun(a, t0, n, temps) && n < |a| && CanRound(After(a, t0, n, temps), n, temps + more)
    requires |more| == if NeedsTemp(After(a, t0, n, temps).m, n) then 1 else 0
    ensures IsRun(a, t0, n + 1, temps + more)
    ensures After(a, t0, n + 1, temps + more) == Round(After(a, t0, n, temps), n, temps + more)
  {
    hide Round;
    forall i | 0 <= i <= n
      ensures After(a, t0, i, temps + more) == After(a, t0, i, temps)
      ensures i < n ==> CanRound(After(a, t0, i, temps + more), i, temps + more)
    {
      UsedGrows(a, t0, i, n, temps);
      AfterMore(a, t0, i, temps, more);
      if i < n {
        assert CanRound(After(a, t0, i, temps), i, temps);
      }
    }
    assert Round(After(a, t0, n, temps), n, temps + more).used == |temps + more| by {
      RoundUsed(After(a, t0, n, temps), n, temps + more);
    }
  }

  /** Every source from arc i on is open. */
  ghost predicate OpenFrom(m: Arcs, i: int, t: Table) {
    forall k :: 0 <= k < |m| && i <= k ==> m[k].source in t
  }

  /** Every source that is still to be read is open. */
  ghost predicate OpenSources(s: RunState, i: int) {
    OpenFrom(s.m, i, s.table)
  }

  /** No round closes or overwrites what a later one reads. */
  lemma OpenSourcesStep(s: RunState, i: int, temps: seq<int>)
    requires CanRound(s, i, temps) && OpenSources(s, i)
    ensures OpenSources(Round(s, i, temps), i + 1)
  {
    var temp := TempFor(s, i, temps);
    var m' := ScanAll(s.m, i, temp);
    ScanAllIs(s.m, i, temp);
    forall k | i < k < |s.m|
      ensures m'[k].source in TableStep(s.table, temp, m'[i])
    {
      assert m'[k] == ScannedArc(s.m, i, k, temp);
      if Diverted(s.m, i, k) {
        assert NeedsTemp(s.m, i);
      } else if m'[i].close {
        assert !Released(s.m, i, |s.m|) && s.m[k].source != s.m[i].source;
      }
    }
  }

  lemma SourcesOpenFirst(a: Arcs, t0: Table)
    requires SourcesOpen(a, t0)
    ensures OpenSources(RunState(a, t0, 0, multiset{}), 0)
  {
  }

  lemma {:induction false} RunKeepsOpen(a: Arcs, t0: Table, n: nat, temps: seq<int>, i: nat)
    requires IsRun(a, t0, n, temps) && SourcesOpen(a, t0) && i <= n
    ensures OpenSources(After(a, t0, i, temps), i)
  {
    hide Round, OpenSources, CanRound;
    if i == 0 {
      assert OpenSources(RunState(a, t0, 0, multiset{}), 0) by { SourcesOpenFirst(a, t0); }
    } else {
      RunKeepsOpen(a, t0, n, temps, i - 1);
      OpenSourcesStep(After(a, t0, i - 1, temps), i - 1, temps);
    }
  }

  lemma FirstInv(a: Arcs, t0: Table, reserved: set<int>)
    requires Injective(a) && Mentioned(a) <= reserved
    ensures RunInv(a, t0, reserved, a, t0, 0, []) && multiset{} == multiset(DoneSet(a, 0))
  {
    InvInit(a, t0);
    assert Elements([]) == {};
  }

  /** With temporaries that no arc mentions, the run keeps the invariant. */
  lemma {:induction false} FreshRun(a: Arcs, t0: Table, reserved: set<int>, n: nat, temps: seq<int>, i: nat)
    requires Injective(a) && Mentioned(a) <= reserved && IsRun(a, t0, n, temps) && i <= n
    requires forall p :: 0 <= p < |temps| ==> temps[p] !in reserved
    ensures
      var s := After(a, t0, i, temps);
      && s.used <= |temps|
      && RunInv(a, t0, reserved, s.m, s.table, i, temps[..s.used])
      && s.closed == multiset(DoneSet(a, i))
  {
    hide Round, CanRound, RunInv, DoneSet, Mentioned;
    UsedGrows(a, t0, i, n, temps);
    if i == 0 {
      FirstInv(a, t0, reserved);
      assert temps[..0] == [];
    } else {
      FreshRun(a, t0, reserved, n, temps, i - 1);
      var s := After(a, t0, i - 1, temps);
      assert CanRound(s, i - 1, temps);
      FreshRound(a, t0, reserved, s, i - 1, temps);
    }
  }

  lemma FreshRound(a: Arcs, t0: Table, reserved: set<int>, s: RunState, i: nat, temps: seq<int>)
    requires s.used <= |temps| && RunInv(a, t0, reserved, s.m, s.table, i, temps[..s.used])
    requires CanRound(s, i, temps) && s.closed == multiset(DoneSet(a, i))
    requires forall p :: 0 <= p < |temps| ==> temps[p] !in reserved
    ensures
      var s' := Round(s, i, temps);
      && s'.used <= |temps|
      && RunInv(a, t0, reserved, s'.m, s'.table, i + 1, temps[..s'.used])
      && s'.closed == multiset(DoneSet(a, i + 1))
  {
    hide RunInv, Scanned, TableStep, NeedsTemp, DoneSet, ClosedBy;
    var temp := TempFor(s, i, temps);
    var m' := ScanAll(s.m, i, temp);
    SourceKnown(a, t0, reserved, s.m, s.table, i, temps[..s.used]);
    ScanAllIs(s.m, i, temp);
    ScannedFirst(s.m, m', i, temp);
    assert CallPost(s.m, m', s.table, reserved, i, temp);
    RoundStep(a, t0, reserved, s.m, m', s.table, i, temps[..s.used], temp);
    RoundCloses(a, t0, reserved, s.m, m', s.table, i, temps[..s.used], temp);
    assert Extended(temps[..s.used], temp) == temps[..Round(s, i, temps).used];
  }

  lemma ScannedFirst(m: Arcs, m': Arcs, i: int, temp: int)
    requires 0 <= i < |m| && Scanned(m, m', i, |m|, temp)
    ensures |m'| == |m| && m'[i].source == m[i].source && m'[i].dest == m[i].dest
  {
  }

  /** The last loop closes as many temporaries as were remembered. */
  function AtEnd(a: Arcs, t0: Table, temps: seq<int>): Table {
    After(a, t0, |a|, temps).table - Elements(temps[..Min(|temps|, MAX_EXTRA_FDS)])
  }

  lemma NoElements()
    ensures Elements([]) == {}
  {
  }

  lemma OneMore(s: seq<int>, n: nat)
    requires n < |s|
    ensures Elements(s[..n + 1]) == Elements(s[..n]) + {s[n]} && multiset(s[..n + 1]) == multiset(s[..n]) + multiset{s[n]}
  {
    assert s[..n + 1] == s[..n] + [s[n]];
  }

  method CloseExtra(delegate: InjectionDelegate, extraFds: array<int>, nextExtra: nat)
    requires nextExtra <= extraFds.Length
    modifies delegate
    ensures delegate.table == old(delegate.table) - Elements(extraFds[..nextExtra])
    ensures delegate.closes == old(delegate.closes) + multiset(extraFds[..nextExtra])
    ensures delegate.failed == old(delegate.failed) && delegate.refused == old(delegate.refused)
  {
    hide Elements;
    var n := 0;
    assert Elements(extraFds[..0]) == {} by { NoElements(); }
    while n < nextExtra
      invariant 0 <= n <= nextExtra
      invariant delegate.table == old(delegate.table) - Elements(extraFds[..n])
      invariant delegate.closes == old(delegate.closes) + multiset(extraFds[..n])
      invariant delegate.failed == old(delegate.failed) && delegate.refused == old(delegate.refused)
    {
      OneMore(extraFds[..], n);
      delegate.Close(extraFds[n]);
      n := n + 1;
    }
  }

  /** The state of a finished run, before the temporaries are closed. */
  lemma RunEnd(a: Arcs, t0: Table, reserved: set<int>, m: Arcs, t: Table, temps: seq<int>)
    requires RunInv(a, t0, reserved, m, t, |a|, temps)
    ensures DoneSet(a, |a|) == DiscardedSet(a)
    ensures forall fd :: fd !in temps ==> Lookup(t, fd) == Final(a, t0, fd)
    ensures forall p :: 0 <= p < |temps| ==> temps[p] in t && temps[p] !in t0
  {
    forall p | 0 <= p < |temps|
      ensures temps[p] in t && temps[p] !in t0
    {
      assert temps[p] in Elements(temps);
    }
    forall fd | fd !in temps
      ensures fd !in Elements(temps)
    {
    }
  }

  /** Closing the first n temporaries closes those and nothing else. */
  lemma ClosedPrefix(t: Table, t': Table, temps: seq<int>, n: nat)
    requires n <= |temps| && forall p, q :: 0 <= p < q < |temps| ==> temps[p] != temps[q]
    requires forall p :: 0 <= p < |temps| ==> temps[p] in t
    requires t' == t - Elements(temps[..n])
    ensures forall p :: 0 <= p < |temps| ==> (temps[p] in t' <==> n <= p)
    ensures forall fd :: fd !in temps ==> Lookup(t', fd) == Lookup(t, fd)
  {
    forall p | 0 <= p < |temps|
      ensures temps[p] in t' <==> n <= p
    {
      assert temps[p] in temps[..n] <==> p < n;
    }
  }

  lemma NeedsOpen(m: Arcs, i: int, t: Table)
    requires 0 <= i < |m| && OpenFrom(m, i, t)
    ensures m[i].source in t && (NeedsTemp(m, i) ==> m[i].dest in t)
  {
  }

  /** A round that fails may leave the temporary it has made, and has done nothing else. */
  ghost predicate Stopped(m: Arcs, i: int, t: Table, t': Table)
    requires 0 <= i < |m|
  {
    t' == t || exists temp :: temp !in t && m[i].dest in t && t' == WithTemp(t, temp, m[i].dest)
  }

  /** Move and close, and what that makes of the table behind a temporary. */
  method MoveArc(arc: InjectionArc, delegate: InjectionDelegate) returns (ok: bool)
    modifies delegate
    ensures delegate.failed == (old(delegate.failed) || !ok)
    ensures arc.source in old(delegate.table) ==> delegate.refused == (old(delegate.refused) || !ok)
    ensures ok && arc.source != arc.dest ==> arc.source in old(delegate.table)
    ensures ok ==> delegate.table == TableStep(old(delegate.table), -1, arc)
    ensures ok ==> delegate.closes == old(delegate.closes) + ClosedBy(arc)
    ensures !ok ==> delegate.table == old(delegate.table) && delegate.closes == old(delegate.closes)
  {
    ok := true;
    if arc.source != arc.dest {
      ok := delegate.Move(arc.source, arc.dest);
      if ok && arc.close {
        delegate.Close(arc.source);
      }
    }
  }

  /** One round of the outer loop: divert later readers, move, and close if this was the last use. */
  method CarryOutArc(m: array<InjectionArc>, i: nat, delegate: InjectionDelegate, extraFds: array<int>, nextExtra: nat)
    returns (ok: bool, tempFd: int, nextExtra': nat)
    requires i < m.Length && extraFds.Length == MAX_EXTRA_FDS && nextExtra <= MAX_EXTRA_FDS
    modifies m, delegate, extraFds
    ensures delegate.failed == (old(delegate.failed) || !ok)
    ensures OpenFrom(old(m[..]), i, old(delegate.table)) ==> delegate.refused == (old(delegate.refused) || !ok)
    ensures !ok ==> Stopped(old(m[..]), i, old(delegate.table), delegate.table) && delegate.closes == old(delegate.closes)
    ensures ok ==> m[..] == ScanAll(old(m[..]), i, tempFd)
    ensures ok ==> Handed(old(m[..]), old(delegate.table), delegate.reserved, i, tempFd)
    ensures ok ==> delegate.table == TableStep(old(delegate.table), tempFd, m[i])
    ensures ok && m[i].source != m[i].dest ==> m[i].source in WithTemp(old(delegate.table), tempFd, m[i].dest)
    ensures ok ==> delegate.closes == old(delegate.closes) + ClosedBy(m[i])
    ensures ok ==> nextExtra' == Min(nextExtra + |Added(tempFd)|, MAX_EXTRA_FDS)
    ensures ok ==> extraFds[..nextExtra'] == old(extraFds[..nextExtra]) + (if nextExtra < nextExtra' then [tempFd] else [])
  {
    ghost var m0 := m[..];
    hide OpenFrom, NeedsTemp, ScanAll, Scanned, TableStep, ClosedBy;
    if OpenFrom(m0, i, delegate.table) {
      NeedsOpen(m0, i, delegate.table);
    }
    ok, tempFd, nextExtra' := ScanLaterArcs(m, i, delegate, extraFds, nextExtra);
    if !ok {
      return;
    }
    ScanAllKeeps(m0, i, tempFd);
    TableStepBehind(delegate.table, tempFd, old(delegate.table), m[i]);
    ok := MoveArc(m[i], delegate);
  }

  lemma TableStepBehind(t1: Table, temp: int, t: Table, arc: InjectionArc)
    ensures t1 == WithTemp(t, temp, arc.dest) ==> TableStep(t1, -1, arc) == TableStep(t, temp, arc)
  {
  }

  lemma ScanAllKeeps(m: Arcs, i: int, temp: int)
    requires 0 <= i < |m|
    ensures var m' := ScanAll(m, i, temp); m'[i].source == m[i].source && m'[i].dest == m[i].dest
  {
    ScanToKeeps(m, i, |m|, temp);
  }

  /** A successful round of the loop is the next round of the run. */
  lemma RoundRuns(a: Arcs, t0: Table, i: nat, temps: seq<int>, temp: int, m': Arcs, reserved: set<int>)
    requires i < |a| && IsRun(a, t0, i, temps)
    requires
      var s := After(a, t0, i, temps);
      && m' == ScanAll(s.m, i, temp) && Handed(s.m, s.table, reserved, i, temp)
      && (m'[i].source != m'[i].dest ==> m'[i].source in WithTemp(s.table, temp, m'[i].dest))
    ensures
      var s, temps' := After(a, t0, i, temps), Extended(temps, temp);
      && IsRun(a, t0, i + 1, temps')
      && After(a, t0, i + 1, temps')
         == RunState(m', TableStep(s.table, temp, m'[i]), |temps'|, s.closed + ClosedBy(m'[i]))
  {
    hide After, TableStep, ClosedBy, ScanAll, IsRun, NeedsTemp;
    var s, more := After(a, t0, i, temps), if temp == -1 then [] else [temp];
    assert s.used == |temps| by { RunUses(a, t0, i, temps); }
    ScanAllKeeps(s.m, i, temp);
    assert Extended(temps, temp) == temps + more;
    assert TempFor(s, i, temps + more) == temp;
    RunMore(a, t0, i, temps, more);
  }

  lemma RunUses(a: Arcs, t0: Table, n: nat, temps: seq<int>)
    requires IsRun(a, t0, n, temps)
    ensures After(a, t0, n, temps).used == |temps|
  {
  }

  /** What a run has done when its last round is over. */
  ghost predicate Ran(s: RunState, table: Table, closes0: multiset<int>, closes: multiset<int>) {
    table == s.table && closes == closes0 + s.closed
  }

  /** A run that fails has done so many rounds, and nothing since but make a temporary. */
  ghost predicate Failed(a: Arcs, t0: Table, rounds: nat, temps: seq<int>, table: Table,
                         closes0: multiset<int>, closes: multiset<int>) {
    && rounds < |a| && IsRun(a, t0, rounds, temps)
    && var s := After(a, t0, rounds, temps);
       Stopped(s.m, rounds, s.table, table) && closes == closes0 + s.closed
  }

  /** The outer loop. */
  method RunRounds(m: array<InjectionArc>, delegate: InjectionDelegate, extraFds: array<int>,
                   ghost a: Arcs, ghost t0: Table)
    returns (ok: bool, nextExtra: nat, ghost temps: seq<int>, ghost rounds: nat)
    requires a == m[..] && t0 == delegate.table && extraFds.Length == MAX_EXTRA_FDS && Injective(a)
    modifies m, delegate, extraFds
    ensures delegate.failed == (old(delegate.failed) || !ok)
    ensures SourcesOpen(a, t0) ==> delegate.refused == (old(delegate.refused) || !ok)
    ensures !ok ==> Failed(a, t0, rounds, temps, delegate.table, old(delegate.closes), delegate.closes)
    ensures ok ==> IsRun(a, t0, |a|, temps)
    ensures ok ==> Ran(After(a, t0, |a|, temps), delegate.table, old(delegate.closes), delegate.closes)
    ensures ok ==> forall p :: 0 <= p < |temps| ==> temps[p] !in delegate.reserved
    ensures ok ==> nextExtra == Min(|temps|, MAX_EXTRA_FDS) && extraFds[..nextExtra] == temps[..nextExtra]
  {
    hide IsRun, After, Handed, ScanAll, TableStep, ClosedBy, Injective, Added, Elements, SourcesOpen, OpenFrom, Stopped;
    nextExtra := 0;
    temps := [];
    RunBegins(a, t0);
    ghost var s := After(a, t0, 0, temps);
    var i := 0;
    while i < m.Length
      invariant 0 <= i <= |a| == m.Length
      invariant IsRun(a, t0, i, temps) && s == After(a, t0, i, temps) && s.m == m[..]
      invariant Ran(s, delegate.table, old(delegate.closes), delegate.closes)
      invariant delegate.failed == old(delegate.failed)
      invariant SourcesOpen(a, t0) ==> delegate.refused == old(delegate.refused)
      invariant forall p :: 0 <= p < |temps| ==> temps[p] !in delegate.reserved
      invariant nextExtra == Min(|temps|, MAX_EXTRA_FDS) && extraFds[..nextExtra] == temps[..nextExtra]
    {
      if SourcesOpen(a, t0) {
        RunKeepsOpen(a, t0, i, temps, i);
      }
      var done, tempFd, next := CarryOutArc(m, i, delegate, extraFds, nextExtra);
      if !done {
        return false, nextExtra, temps, i;
      }
      HandedFresh(s.m, s.table, delegate.reserved, i, tempFd);
      RoundRuns(a, t0, i, temps, tempFd, m[..], delegate.reserved);
      ExtendedPrefix(temps, tempFd, nextExtra, next);
      nextExtra := next;
      temps := Extended(temps, tempFd);
      i := i + 1;
      s := After(a, t0, i, temps);
    }
    ok, rounds := true, i;
  }

  /**
   What any run does, and what one does whose temporaries are mentioned by no arc.
   */
  method PerformInjectiveMultimapDestructive(m: array<InjectionArc>, delegate: InjectionDelegate)
    returns (ok: bool, ghost temps: seq<int>, ghost rounds: nat)
    requires Injective(m[..])
    modifies m, delegate
    ensures delegate.failed == (old(delegate.failed) || !ok)
    ensures SourcesOpen(old(m[..]), old(delegate.table)) ==> delegate.refused == (old(delegate.refused) || !ok)
    ensures !ok ==> Failed(old(m[..]), old(delegate.table), rounds, temps, delegate.table,
                           old(delegate.closes), delegate.closes)
    ensures ok ==> IsRun(old(m[..]), old(delegate.table), m.Length, temps)
    ensures ok ==> delegate.table == AtEnd(old(m[..]), old(delegate.table), temps)
    ensures ok ==> delegate.closes == old(delegate.closes) + ClosesOf(old(m[..]), old(delegate.table), temps)
    ensures ok ==> forall p :: 0 <= p < |temps| ==> temps[p] !in delegate.reserved
    ensures ok && Mentioned(old(m[..])) <= delegate.reserved ==>
              AsSpecified(old(m[..]), old(delegate.table), delegate.table, temps)
  {
    ghost var a, t0 := m[..], delegate.table;
    hide IsRun, After, AtEnd, AsSpecified, Mentioned, SourcesOpen, Injective, Elements, Failed;
    var extraFds := new int[MAX_EXTRA_FDS];
    var nextExtra;
    ok, nextExtra, temps, rounds := RunRounds(m, delegate, extraFds, a, t0);
    if ok {
      CloseExtra(delegate, extraFds, nextExtra);
      EndOfRun(a, t0, temps);
      if Mentioned(a) <= delegate.reserved {
        RunAsSpecified(a, t0, delegate.reserved, temps);
      }
    }
  }

  /** Every descriptor that a run closes, as often as it closes it. */
  function ClosesOf(a: Arcs, t0: Table, temps: seq<int>): multiset<int> {
    After(a, t0, |a|, temps).closed + multiset(temps[..Min(|temps|, MAX_EXTRA_FDS)])
  }

  lemma RunBegins(a: Arcs, t0: Table)
    ensures IsRun(a, t0, 0, []) && After(a, t0, 0, []) == RunState(a, t0, 0, multiset{})
  {
  }

  lemma EndOfRun(a: Arcs, t0: Table, temps: seq<int>)
    ensures AtEnd(a, t0, temps) == After(a, t0, |a|, temps).table - Elements(temps[..Min(|temps|, MAX_EXTRA_FDS)])
  {
  }

  lemma HandedFresh(m: Arcs, t: Table, reserved: set<int>, i: int, temp: int)
    requires Handed(m, t, reserved, i, temp)
    ensures temp != -1 ==> temp !in reserved
  {
  }

  /** The outcome in terms of the arcs as they were given, for temporaries that no arc mentions. */
  ghost predicate AsSpecified(a: Arcs, t0: Table, t: Table, temps: seq<int>) {
    // One temporary for each arc that overwrites a descriptor still to be read.
    && |temps| == Duplications(a, |a|)
    && (forall p :: 0 <= p < |temps| ==> temps[p] !in t0)
    && (forall p, q :: 0 <= p < q < |temps| ==> temps[p] != temps[q])
    // The first sixteen are closed at the end, the others leak.
    && (forall p :: 0 <= p < |temps| ==> (temps[p] in t <==> 16 <= p))
    && (forall fd :: fd !in temps ==> Lookup(t, fd) == Final(a, t0, fd))
    && After(a, t0, |a|, temps).closed == multiset(DiscardedSet(a))
  }

  lemma RunAsSpecified(a: Arcs, t0: Table, reserved: set<int>, temps: seq<int>)
    requires Injective(a) && Mentioned(a) <= reserved && IsRun(a, t0, |a|, temps)
    requires forall p :: 0 <= p < |temps| ==> temps[p] !in reserved
    ensures AsSpecified(a, t0, AtEnd(a, t0, temps), temps)
  {
    hide After, RunInv, Final;
    var s, n := After(a, t0, |a|, temps), Min(|temps|, MAX_EXTRA_FDS);
    RunUses(a, t0, |a|, temps);
    assert temps[..s.used] == temps;
    FreshRun(a, t0, reserved, |a|, temps, |a|);
    RunTemps(a, t0, reserved, s.m, s.table, temps);
    RunEnd(a, t0, reserved, s.m, s.table, temps);
    ClosedPrefix(s.table, AtEnd(a, t0, temps), temps, n);
  }

  lemma RunTemps(a: Arcs, t0: Table, reserved: set<int>, m: Arcs, t: Table, temps: seq<int>)
    requires RunInv(a, t0, reserved, m, t, |a|, temps)
    ensures |temps| == Duplications(a, |a|) && forall p, q :: 0 <= p < q < |temps| ==> temps[p] != temps[q]
  {
  }

  // ----- What a caller gets -----

  function Dests(a: Arcs): set<int> {
    set k | 0 <= k < |a| :: a[k].dest
  }

  /** The sources that some arc asks to close. */
  function FlaggedSources(a: Arcs): set<int> {
    set k | 0 <= k < |a| && a[k].close :: a[k].source
  }

  predicate SourcesOpen(a: Arcs, table: Table) {
    forall k :: 0 <= k < |a| ==> a[k].source in table
  }

  /** No identity arc shares its descriptor with a later arc while one of them asks for the close. */
  predicate IdentitiesKept(a: Arcs) {
    forall p, q, k | 0 <= p < q < |a| && p <= k < |a| ::
      a[p].source == a[p].dest == a[q].source == a[k].source ==> !a[k].close
  }

  lemma ClobberedIff(a: Arcs)
    requires Injective(a)
    ensures IdentitiesKept(a) <==> forall p :: 0 <= p < |a| ==> !Clobbered(a, a[p].dest)
  {
    forall p | 0 <= p < |a|
      ensures Clobbered(a, a[p].dest) <==>
              a[p].source == a[p].dest && SourceFrom(a, a[p].dest, p + 1) && FlaggedFrom(a, a[p].dest, p)
    {
      HomeOfDest(a, p);
    }
  }

  /** Every destination ends with the object its source had at the start, for exactly these lists. */
  lemma ParallelAssignmentIff(a: Arcs, table: Table)
    requires Injective(a) && SourcesOpen(a, table)
    ensures (forall p :: 0 <= p < |a| ==> Final(a, table, a[p].dest) == Lookup(table, a[p].source))
            <==> IdentitiesKept(a)
  {
    ClobberedIff(a);
    forall p | 0 <= p < |a|
      ensures Final(a, table, a[p].dest) == Lookup(table, a[p].source) <==> !Clobbered(a, a[p].dest)
    {
      HomeOfDest(a, p);
    }
  }

  lemma UnmentionedUnchanged(a: Arcs, table: Table, fd: int)
    requires fd !in Mentioned(a)
    ensures Final(a, table, fd) == Lookup(table, fd)
  {
    forall k | 0 <= k < |a|
      ensures a[k].source != fd && a[k].dest != fd
    {
      MentionedAt(a, k);
    }
  }

  lemma DiscardedIff(a: Arcs, fd: int)
    requires Injective(a)
    ensures fd in DiscardedSet(a) <==>
            if fd in Dests(a) then Clobbered(a, fd) else fd in FlaggedSources(a)
  {
    if fd in Dests(a) {
      var p :| 0 <= p < |a| && a[p].dest == fd;
      HomeOfDest(a, p);
      MentionedAt(a, p);
    } else {
      forall p | 0 <= p < |a|
        ensures a[p].dest != fd && a[p].source in Mentioned(a)
      {
        MentionedAt(a, p);
        assert a[p].dest in Dests(a);
      }
    }
  }

  /** The run closes the flagged sources that are no destinations, and nothing else, for exactly these lists. */
  lemma ClosesIff(a: Arcs)
    requires Injective(a)
    ensures DiscardedSet(a) == FlaggedSources(a) - Dests(a) <==> IdentitiesKept(a)
    ensures FlaggedSources(a) - Dests(a) <= DiscardedSet(a)
  {
    ClobberedIff(a);
    forall fd
      ensures fd in DiscardedSet(a) <==> if fd in Dests(a) then Clobbered(a, fd) else fd in FlaggedSources(a)
    {
      DiscardedIff(a, fd);
    }
    if DiscardedSet(a) == FlaggedSources(a) - Dests(a) {
      forall p | 0 <= p < |a|
        ensures !Clobbered(a, a[p].dest)
      {
        assert a[p].dest in Dests(a);
      }
    }
  }

  /** What is open at the end, temporaries apart. */
  lemma OpenAtEnd(a: Arcs, table: Table, fd: int)
    requires Injective(a) && SourcesOpen(a, table)
    ensures Final(a, table, fd).Open? <==> fd in table.Keys + Dests(a) - DiscardedSet(a)
  {
    DiscardedIff(a, fd);
    if Home(a, fd) >= 0 {
      assert fd in Dests(a);
    } else if FlaggedFrom(a, fd, 0) {
      assert fd in FlaggedSources(a);
    }
  }

  /** A list that breaks both: descriptor 0 is kept in place, yet closed after the second arc read it. */
  lemma IdentityLost(f: OpenFile)
    ensures var a := [InjectionArc(0, 0, false), InjectionArc(0, 1, true)];
            Injective(a) && SourcesOpen(a, map[0 := f]) && Final(a, map[0 := f], 0) == Closed
  {
    var a := [InjectionArc(0, 0, false), InjectionArc(0, 1, true)];
    HomeOfDest(a, 0);
    assert a[1].source == 0 && a[1].close;
    assert SourceFrom(a, 0, 1) && FlaggedFrom(a, 0, 0);
  }

  /** The same on a copy of the list, for a delegate that hands out fresh elements of the domain. */
  method PerformInjectiveMultimap(mIn: Arcs, delegate: InjectionDelegate)
    returns (ok: bool, ghost temps: seq<int>, ghost rounds: nat)
    requires Injective(mIn)
    modifies delegate
    ensures delegate.failed == (old(delegate.failed) || !ok)
    ensures SourcesOpen(mIn, old(delegate.table)) ==> delegate.refused == (old(delegate.refused) || !ok)
    ensures !ok ==> Failed(mIn, old(delegate.table), rounds, temps, delegate.table, old(delegate.closes), delegate.closes)
    ensures ok ==> IsRun(mIn, old(delegate.table), |mIn|, temps)
    ensures ok ==> delegate.table == AtEnd(mIn, old(delegate.table), temps)
    ensures ok && Mentioned(mIn) <= delegate.reserved ==>
              CarriedOut(mIn, old(delegate.table), delegate.table, temps)
    ensures ok && Mentioned(mIn) <= delegate.reserved && IdentitiesKept(mIn) && |temps| <= 16 ==>
              delegate.closes == old(delegate.closes) + multiset(FlaggedSources(mIn) - Dests(mIn)) + multiset(temps)
  {
    hide *;
    var m := new InjectionArc[|mIn|](i requires 0 <= i < |mIn| => mIn[i]);
    assert m[..] == mIn;
    ghost var t0 := delegate.table;
    ok, temps, rounds := PerformInjectiveMultimapDestructive(m, delegate);
    if ok && Mentioned(mIn) <= delegate.reserved {
      CopyRun(mIn, t0, delegate.table, temps, delegate.reserved);
      CopyCloses(mIn, t0, delegate.table, temps);
    }
  }

  /** Parallel assignment, the open set, and everything else unchanged. */
  ghost predicate CarriedOut(a: Arcs, t0: Table, t: Table, temps: seq<int>) {
    && |temps| == Duplications(a, |a|)
    && (SourcesOpen(a, t0) && IdentitiesKept(a) ==>
          forall p :: 0 <= p < |a| ==> Lookup(t, a[p].dest) == Lookup(t0, a[p].source))
    && (SourcesOpen(a, t0) && IdentitiesKept(a) && |temps| <= 16 ==>
          t.Keys == t0.Keys + Dests(a) - (FlaggedSources(a) - Dests(a)))
    && (forall fd :: fd in t0 && fd !in Mentioned(a) ==> Lookup(t, fd) == Lookup(t0, fd))
  }

  lemma CopyCloses(a: Arcs, t0: Table, t: Table, temps: seq<int>)
    requires Injective(a) && AsSpecified(a, t0, t, temps)
    ensures IdentitiesKept(a) && |temps| <= 16 ==>
              ClosesOf(a, t0, temps) == multiset(FlaggedSources(a) - Dests(a)) + multiset(temps)
  {
    hide After, IdentitiesKept, FlaggedSources, Dests, DiscardedSet, Final;
    ClosesIff(a);
    assert temps[..|temps|] == temps;
  }

  lemma CopyRun(a: Arcs, t0: Table, t: Table, temps: seq<int>, reserved: set<int>)
    requires Injective(a) && AsSpecified(a, t0, t, temps) && Mentioned(a) <= reserved
    requires forall p :: 0 <= p < |temps| ==> temps[p] !in reserved
    ensures CarriedOut(a, t0, t, temps)
  {
    if SourcesOpen(a, t0) && IdentitiesKept(a) {
      ParallelAssignmentIff(a, t0);
      ClosesIff(a);
      forall p | 0 <= p < |a|
        ensures Lookup(t, a[p].dest) == Lookup(t0, a[p].source)
      {
        MentionedAt(a, p);
      }
      if |temps| <= MAX_EXTRA_FDS {
        forall fd
          ensures fd in t <==> fd in t0.Keys + Dests(a) - DiscardedSet(a)
        {
          OpenAtEnd(a, t0, fd);
          if fd in temps {
            assert fd !in Dests(a) by { DestsMentioned(a); }
          }
        }
      }
    }
    forall fd | fd in t0 && fd !in Mentioned(a)
      ensures Lookup(t, fd) == Lookup(t0, fd)
    {
      UnmentionedUnchanged(a, t0, fd);
    }
  }

  lemma DestsMentioned(a: Arcs)
    ensures Dests(a) <= Mentioned(a)
  {
  }
}

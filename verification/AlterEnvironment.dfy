/**
 Rewriting an environment block (AlterEnvironment in
 src/base3/process_util_posix.cc): one pass that sizes the result, two that fill it.
 */
module AlterEnvironment {
  import opened Basics
  import opened Words

  type Text = seq<char>

  /** A key and its new value; an empty value asks for removal. */
  datatype Change = Change(key: Text, value: Text)

  // ----- Entries and keys -----

  /** strchr(pair, '='): the first equals sign, or -1. */
  function Equals(pair: Text): (e: int)
    ensures -1 <= e < |pair|
    ensures e >= 0 ==> pair[e] == '=' && '=' !in pair[..e]
    ensures e < 0 ==> '=' !in pair
  {
    if pair == [] then -1
    else if pair[0] == '=' then 0
    else
      var e := Equals(pair[1..]);
      assert e >= 0 ==> pair[..e + 1] == [pair[0]] + pair[1..][..e];
      if e < 0 then -1 else e + 1
  }

  predicate Matches(pair: Text, key: Text) {
    var e := Equals(pair);
    e >= 0 && pair[..e] == key
  }

  function Pair(c: Change): Text {
    c.key + "=" + c.value
  }

  /** The first change that names the key of the entry, or -1. */
  function ChangeOf(changes: seq<Change>, pair: Text): (j: int)
    ensures -1 <= j < |changes|
    ensures j >= 0 ==> Matches(pair, changes[j].key)
    ensures forall i :: 0 <= i < (if j < 0 then |changes| else j) ==> !Matches(pair, changes[i].key)
  {
    if changes == [] then -1
    else
      var last := |changes| - 1;
      var j := ChangeOf(changes[..last], pair);
      if j >= 0 then j else if Matches(pair, changes[last].key) then last else -1
  }

  /** The first entry with the given key, or -1. */
  function EntryOf(env: seq<Text>, key: Text): (i: int)
    ensures -1 <= i < |env|
    ensures i >= 0 ==> Matches(env[i], key)
    ensures forall k :: 0 <= k < (if i < 0 then |env| else i) ==> !Matches(env[k], key)
  {
    if env == [] then -1
    else
      var last := |env| - 1;
      var i := EntryOf(env[..last], key);
      if i >= 0 then i else if Matches(env[last], key) then last else -1
  }

  // ----- The rewritten environment -----

  /** What becomes of one entry: kept, replaced or dropped. */
  function Rewritten(changes: seq<Change>, pair: Text): seq<Text> {
    var j := ChangeOf(changes, pair);
    if j < 0 then [pair]
    else if changes[j].value == [] then []
    else [pair[..Equals(pair) + 1] + changes[j].value]
  }

  function RewrittenAll(changes: seq<Change>, env: seq<Text>): seq<Text> {
    if env == [] then []
    else RewrittenAll(changes, env[..|env| - 1]) + Rewritten(changes, env[|env| - 1])
  }

  predicate IsNew(env: seq<Text>, c: Change) {
    c.value != [] && EntryOf(env, c.key) < 0
  }

  function Additions(env: seq<Text>, changes: seq<Change>): seq<Text> {
    if changes == [] then []
    else
      var c := changes[|changes| - 1];
      Additions(env, changes[..|changes| - 1]) + (if IsNew(env, c) then [Pair(c)] else [])
  }

  function Altered(changes: seq<Change>, env: seq<Text>): seq<Text> {
    RewrittenAll(changes, env) + Additions(env, changes)
  }

  // ----- The packed block -----

  /** The entries one after the other, each with its terminating NUL. */
  function Flat(entries: seq<Text>): Text {
    if entries == [] then [] else Flat(entries[..|entries| - 1]) + entries[|entries| - 1] + ['\0']
  }

  lemma {:induction false} FlatAppend(a: seq<Text>, b: seq<Text>)
    ensures Flat(a + b) == Flat(a) + Flat(b)
  {
    if b == [] {
      assert a + b == a;
    } else {
      assert (a + b)[..|a + b| - 1] == a + b[..|b| - 1];
      FlatAppend(a, b[..|b| - 1]);
    }
  }

  lemma FlatOne(a: seq<Text>, x: Text)
    ensures Flat(a + [x]) == Flat(a) + x + ['\0']
  {
    assert (a + [x])[..|a|] == a;
  }

  /** Every slot of the block points to its entry. */
  lemma ReadBack(entries: seq<Text>, i: nat)
    requires i < |entries| && '\0' !in entries[i]
    ensures |Flat(entries[..i])| <= |Flat(entries)|
    ensures CString(Flat(entries)[|Flat(entries[..i])|..], '\0') == entries[i]
  {
    var before, entry, rest := entries[..i], entries[i], entries[i + 1..];
    assert entries == before + [entry] + rest;
    FlatAppend(before + [entry], rest);
    FlatOne(before, entry);
    hide Flat;
    var cells := Flat(entries)[|Flat(before)|..];
    assert cells == entry + ['\0'] + Flat(rest);
    assert cells[..|entry|] == entry;
    CStringUpTo(cells, '\0', |entry|);
  }

  // ----- Pass one: sizes -----

  function Sized(n: int): int { n % WIDTH }

  lemma SizedSum(x: int, d: int)
    ensures Sized(Sized(x) + d) == Sized(x + d)
  {
    WrappedSum(x, d);
  }

  /** The entry that the first pass takes out for change c, if it finds one. */
  function TakenOut(env: seq<Text>, c: Change): seq<Text> {
    var i := EntryOf(env, c.key);
    if i >= 0 then [env[i]] else []
  }

  function PutIn(c: Change): seq<Text> {
    if c.value != [] then [Pair(c)] else []
  }

  /** What the first pass computes for the first n changes: slots, then bytes. */
  function MeasuredCount(changes: seq<Change>, env: seq<Text>): int {
    if changes == [] then |env|
    else
      var c := changes[|changes| - 1];
      MeasuredCount(changes[..|changes| - 1], env) - |TakenOut(env, c)| + |PutIn(c)|
  }

  function MeasuredSize(changes: seq<Change>, env: seq<Text>): int {
    if changes == [] then |Flat(env)|
    else
      var c := changes[|changes| - 1];
      MeasuredSize(changes[..|changes| - 1], env) - |Flat(TakenOut(env, c))| + |Flat(PutIn(c))|
  }

  lemma MeasuredNone(env: seq<Text>)
    ensures MeasuredCount([], env) == |env| && MeasuredSize([], env) == |Flat(env)|
  {
  }

  lemma MeasuredStep(changes: seq<Change>, env: seq<Text>, j: nat)
    requires j < |changes|
    ensures var c, at := changes[j], EntryOf(env, changes[j].key);
            && MeasuredCount(changes[..j + 1], env)
               == MeasuredCount(changes[..j], env) - (if at >= 0 then 1 else 0) + (if c.value != [] then 1 else 0)
            && MeasuredSize(changes[..j + 1], env)
               == MeasuredSize(changes[..j], env) - (if at >= 0 then |env[at]| + 1 else 0)
                  + (if c.value != [] then |c.key| + 1 + |c.value| + 1 else 0)
  {
    var c, at := changes[j], EntryOf(env, changes[j].key);
    assert changes[..j + 1][..j] == changes[..j];
    FlatOne([], Pair(c));
    if at >= 0 { FlatOne([], env[at]); }
  }

  method FindEntry(env: seq<Text>, key: Text) returns (found: int)
    ensures found == EntryOf(env, key)
  {
    var i := 0;
    while i < |env|
      invariant 0 <= i <= |env|
      invariant forall k :: 0 <= k < i ==> !Matches(env[k], key)
    {
      var keylen := Equals(env[i]);
      if keylen >= 0 && keylen == |key| && env[i][..keylen] == key {
        return i;
      }
      i := i + 1;
    }
    return -1;
  }

  /** The arithmetic is that of unsigned 32-bit counters. */
  method Measure(changes: seq<Change>, env: seq<Text>) returns (count: int, size: int)
    ensures count == Sized(MeasuredCount(changes, env)) && size == Sized(MeasuredSize(changes, env))
  {
    hide Sized, MeasuredCount, MeasuredSize, Flat, Equals;
    FlatNone();
    MeasuredNone(env);
    count, size := Sized(0), Sized(0);
    var i := 0;
    while i < |env|
      invariant 0 <= i <= |env|
      invariant count == Sized(i) && size == Sized(|Flat(env[..i])|)
    {
      SizedSum(i, 1);
      SizedSum(|Flat(env[..i])|, |env[i]| + 1);
      FlatOne(env[..i], env[i]);
      assert env[..i + 1] == env[..i] + [env[i]];
      count, size := Sized(count + 1), Sized(size + (|env[i]| + 1));
      i := i + 1;
    }
    assert env[..i] == env;
    var j := 0;
    while j < |changes|
      invariant 0 <= j <= |changes|
      invariant count == Sized(MeasuredCount(changes[..j], env)) && size == Sized(MeasuredSize(changes[..j], env))
    {
      var c := changes[j];
      MeasuredStep(changes, env, j);
      ghost var n, m := MeasuredCount(changes[..j], env), MeasuredSize(changes[..j], env);
      var at := FindEntry(env, c.key);
      var found := at >= 0;
      if found {
        SizedSum(n, -1);
        SizedSum(m, -(|env[at]| + 1));
        count, size := Sized(count - 1), Sized(size - (|env[at]| + 1));
        n, m := n - 1, m - (|env[at]| + 1);
        if |c.value| > 0 {
          found := false;
        }
      }
      if !found && |c.value| > 0 {
        SizedSum(n, 1);
        SizedSum(m, |c.key| + 1 + |c.value| + 1);
        count, size := Sized(count + 1), Sized(size + (|c.key| + 1 + |c.value| + 1));
      }
      j := j + 1;
    }
    assert changes[..j] == changes;
  }

  // ----- The sizes are exact -----

  /**
   No change names two entries, and no entry is named by two changes. Otherwise the
   first pass counts an entry once that the filling passes treat several times.
   */
  predicate Unambiguous(changes: seq<Change>, env: seq<Text>) {
    && (forall j, i, k :: 0 <= j < |changes| && 0 <= i < k < |env| && Matches(env[i], changes[j].key)
          ==> !Matches(env[k], changes[j].key))
    && (forall i, j, k :: 0 <= i < |env| && 0 <= j < k < |changes| && Matches(env[i], changes[j].key)
          ==> !Matches(env[i], changes[k].key))
  }

  lemma ChangeOfStep(changes: seq<Change>, c: Change, pair: Text)
    ensures ChangeOf(changes + [c], pair) ==
            if ChangeOf(changes, pair) >= 0 then ChangeOf(changes, pair)
            else if Matches(pair, c.key) then |changes| else -1
  {
    assert (changes + [c])[..|changes|] == changes;
  }

  lemma RewrittenOne(changes: seq<Change>, c: Change, pair: Text)
    ensures !Matches(pair, c.key) ==> Rewritten(changes + [c], pair) == Rewritten(changes, pair)
    ensures Matches(pair, c.key) && ChangeOf(changes, pair) < 0 ==>
              Rewritten(changes, pair) == [pair] && Rewritten(changes + [c], pair) == PutIn(c)
  {
    hide Equals, ChangeOf, Pair;
    ChangeOfStep(changes, c, pair);
    if Matches(pair, c.key) {
      Replaced(pair, c);
    }
  }

  lemma Replaced(pair: Text, c: Change)
    requires Matches(pair, c.key)
    ensures pair[..Equals(pair) + 1] + c.value == Pair(c)
  {
    hide Equals;
    var e := Equals(pair);
    assert pair[..e + 1] == pair[..e] + "=";
  }

  /** One more change replaces at most one entry of the result. */
  lemma {:induction false} RewrittenStep(changes: seq<Change>, c: Change, env: seq<Text>)
    requires forall i, k :: 0 <= i < k < |env| && Matches(env[i], c.key) ==> !Matches(env[k], c.key)
    requires forall i :: 0 <= i < |env| && Matches(env[i], c.key) ==> ChangeOf(changes, env[i]) < 0
    ensures var put := if EntryOf(env, c.key) >= 0 then PutIn(c) else [];
            && |RewrittenAll(changes + [c], env)|
               == |RewrittenAll(changes, env)| - |TakenOut(env, c)| + |put|
            && |Flat(RewrittenAll(changes + [c], env))|
               == |Flat(RewrittenAll(changes, env))| - |Flat(TakenOut(env, c))| + |Flat(put)|
  {
    if env != [] {
      var init, last := env[..|env| - 1], env[|env| - 1];
      RewrittenStep(changes, c, init);
      RewrittenOne(changes, c, last);
      FlatAppend(RewrittenAll(changes, init), Rewritten(changes, last));
      FlatAppend(RewrittenAll(changes + [c], init), Rewritten(changes + [c], last));
      if Matches(last, c.key) {
        assert EntryOf(init, c.key) < 0;
      }
    }
  }

  lemma AdditionsStep(changes: seq<Change>, c: Change, env: seq<Text>)
    ensures Additions(env, changes + [c]) == Additions(env, changes) + if IsNew(env, c) then PutIn(c) else []
  {
    assert (changes + [c])[..|changes|] == changes;
  }

  lemma AlteredStep(changes: seq<Change>, c: Change, env: seq<Text>)
    requires forall i, k :: 0 <= i < k < |env| && Matches(env[i], c.key) ==> !Matches(env[k], c.key)
    requires forall i :: 0 <= i < |env| && Matches(env[i], c.key) ==> ChangeOf(changes, env[i]) < 0
    ensures |Altered(changes + [c], env)| == |Altered(changes, env)| - |TakenOut(env, c)| + |PutIn(c)|
    ensures |Flat(Altered(changes + [c], env))|
            == |Flat(Altered(changes, env))| - |Flat(TakenOut(env, c))| + |Flat(PutIn(c))|
  {
    RewrittenStep(changes, c, env);
    AdditionsStep(changes, c, env);
    FlatAppend(RewrittenAll(changes, env), Additions(env, changes));
    FlatAppend(RewrittenAll(changes + [c], env), Additions(env, changes + [c]));
    FlatAppend(Additions(env, changes), if IsNew(env, c) then PutIn(c) else []);
  }

  /** The first pass computes exactly the slots and bytes that the filling passes write. */
  lemma {:induction false} SizesExact(changes: seq<Change>, env: seq<Text>)
    requires Unambiguous(changes, env)
    ensures MeasuredCount(changes, env) == |Altered(changes, env)|
    ensures MeasuredSize(changes, env) == |Flat(Altered(changes, env))|
  {
    if changes == [] {
      NothingRewritten(env);
      assert Altered(changes, env) == env;
    } else {
      hide Altered;
      var init, c := changes[..|changes| - 1], changes[|changes| - 1];
      assert changes == init + [c];
      assert forall j :: 0 <= j < |init| ==> init[j] == changes[j];
      SizesExact(init, env);
      forall i | 0 <= i < |env| && Matches(env[i], c.key)
        ensures ChangeOf(init, env[i]) < 0
      {
        assert forall j :: 0 <= j < |init| ==> !Matches(env[i], changes[j].key);
      }
      AlteredStep(init, c, env);
    }
  }

  lemma {:induction false} NothingRewritten(env: seq<Text>)
    ensures RewrittenAll([], env) == env
  {
    if env != [] {
      NothingRewritten(env[..|env| - 1]);
    }
  }

  /** Why the condition is there: of two entries with the same key, pass one prices only one. */
  lemma AmbiguousSizesDiffer()
    ensures var env, changes := ["A=1", "A=1"], [Change("A", "22")];
            MeasuredSize(changes, env) == 9 && |Flat(Altered(changes, env))| == 10
  {
    var env, changes := ["A=1", "A=1"], [Change("A", "22")];
    var a1: Text, a22: Text := "A=1", "A=22";
    assert Equals(a1) == 1 && Matches(a1, "A") by { assert a1[1..][0] == '='; }
    FlatLengths(a1, a22);
    AmbiguousAltered(changes, a1, a22);
    AmbiguousMeasured(changes, a1);
  }

  // ----- Exactly when the sizes are exact -----

  /** Changes and entries with the same keys in the same places, whatever their values. */
  ghost predicate SameKeys(changes: seq<Change>, c: seq<Change>, env: seq<Text>, e: seq<Text>) {
    && |c| == |changes| && |e| == |env|
    && (forall j :: 0 <= j < |c| ==> c[j].key == changes[j].key)
    && (forall i :: 0 <= i < |e| ==> SameKey(e[i], env[i]))
  }

  predicate SameKey(x: Text, y: Text) {
    Equals(x) == Equals(y) && (Equals(x) >= 0 ==> x[..Equals(x)] == y[..Equals(y)])
  }

  ghost predicate Exact(changes: seq<Change>, env: seq<Text>) {
    MeasuredCount(changes, env) == |Altered(changes, env)| && MeasuredSize(changes, env) == |Flat(Altered(changes, env))|
  }

  ghost predicate ExactIfSame(changes: seq<Change>, c: seq<Change>, env: seq<Text>, e: seq<Text>) {
    SameKeys(changes, c, env, e) ==> Exact(c, e)
  }

  /** How many changes make pass one take out entry x. */
  function TimesTaken(changes: seq<Change>, env: seq<Text>, x: int): nat {
    if changes == [] then 0
    else TimesTaken(changes[..|changes| - 1], env, x) + (if EntryOf(env, changes[|changes| - 1].key) == x then 1 else 0)
  }

  lemma {:induction false} NeverTaken(changes: seq<Change>, env: seq<Text>, x: int)
    requires forall j :: 0 <= j < |changes| ==> EntryOf(env, changes[j].key) != x
    ensures TimesTaken(changes, env, x) == 0
  {
    if changes != [] {
      NeverTaken(changes[..|changes| - 1], env, x);
    }
  }

  lemma {:induction false} TakenOften(changes: seq<Change>, env: seq<Text>, x: int, n: nat, j: nat, k: nat)
    requires j < k && k < n <= |changes|
    requires EntryOf(env, changes[j].key) == x && EntryOf(env, changes[k].key) == x
    ensures TimesTaken(changes[..n], env, x) >= 2
    decreases n
  {
    assert changes[..n][..n - 1] == changes[..n - 1];
    if n - 1 == k {
      TakenOnce(changes, env, x, k, j);
    } else {
      TakenOften(changes, env, x, n - 1, j, k);
    }
  }

  lemma {:induction false} TakenOnce(changes: seq<Change>, env: seq<Text>, x: int, n: nat, j: nat)
    requires j < n <= |changes| && EntryOf(env, changes[j].key) == x
    ensures TimesTaken(changes[..n], env, x) >= 1
    decreases n
  {
    assert changes[..n][..n - 1] == changes[..n - 1];
    if n - 1 > j {
      TakenOnce(changes, env, x, n - 1, j);
    }
  }

  /** A second entry of a key is never taken out. */
  lemma SecondEntry(changes: seq<Change>, env: seq<Text>, j: nat, i: nat, k: nat)
    requires j < |changes| && i < k < |env| && Matches(env[i], changes[j].key) && Matches(env[k], changes[j].key)
    ensures ChangeOf(changes, env[k]) >= 0 && TimesTaken(changes, env, k) == 0
  {
    hide TimesTaken;
    forall l | 0 <= l < |changes|
      ensures EntryOf(env, changes[l].key) != k
    {
      if Matches(env[k], changes[l].key) {
        assert changes[l].key == changes[j].key;
      }
    }
    NeverTaken(changes, env, k);
  }

  /** The first entry of a key that two changes name is taken out twice. */
  lemma SecondChange(changes: seq<Change>, env: seq<Text>, i: nat, j: nat, k: nat)
    requires i < |env| && j < k < |changes| && Matches(env[i], changes[j].key) && Matches(env[i], changes[k].key)
    ensures
      var x := EntryOf(env, changes[j].key);
      x >= 0 && ChangeOf(changes, env[x]) >= 0 && TimesTaken(changes, env, x) >= 2
  {
    hide TimesTaken, Equals;
    assert changes[j].key == changes[k].key;
    assert changes[..|changes|] == changes;
    TakenOften(changes, env, EntryOf(env, changes[j].key), |changes|, j, k);
  }

  /** Ambiguous keys leave an entry that pass one takes out never or more than once, though it is named. */
  lemma AmbiguousEntry(changes: seq<Change>, env: seq<Text>) returns (x: nat)
    requires !Unambiguous(changes, env)
    ensures x < |env| && ChangeOf(changes, env[x]) >= 0 && TimesTaken(changes, env, x) != 1
  {
    hide TimesTaken, Matches, ChangeOf, EntryOf;
    if j, i, k :| 0 <= j < |changes| && 0 <= i < k < |env| && Matches(env[i], changes[j].key)
                  && Matches(env[k], changes[j].key) {
      SecondEntry(changes, env, j, i, k);
      x := k;
    } else {
      var i, j, k :| 0 <= i < |env| && 0 <= j < k < |changes| && Matches(env[i], changes[j].key)
                     && Matches(env[i], changes[k].key);
      SecondChange(changes, env, i, j, k);
      x := EntryOf(env, changes[j].key);
    }
  }

  lemma SameEntry(env: seq<Text>, e: seq<Text>, key: Text)
    requires |e| == |env| && forall i :: 0 <= i < |e| ==> SameKey(e[i], env[i])
    ensures EntryOf(e, key) == EntryOf(env, key)
  {
    assert forall i :: 0 <= i < |e| ==> (Matches(e[i], key) <==> Matches(env[i], key));
  }

  /** One more char behind the value. */
  lemma {:induction false} Lengthened(pair: Text)
    requires Equals(pair) >= 0
    ensures SameKey(pair + "a", pair)
  {
    if pair[0] != '=' {
      assert (pair + "a")[1..] == pair[1..] + "a";
      Lengthened(pair[1..]);
      assert (pair + "a")[..Equals(pair)] == pair[..Equals(pair)];
    }
  }

  function Emptied(changes: seq<Change>): (c: seq<Change>)
    ensures |c| == |changes| && forall j :: 0 <= j < |c| ==> c[j] == Change(changes[j].key, [])
  {
    seq(|changes|, j requires 0 <= j < |changes| => Change(changes[j].key, []))
  }

  predicate AllEmpty(changes: seq<Change>) {
    forall j :: 0 <= j < |changes| ==> changes[j].value == []
  }

  lemma {:induction false} FlatReplaced(env: seq<Text>, x: nat, y: Text)
    requires x < |env|
    ensures |Flat(env[x := y])| == |Flat(env)| - |env[x]| + |y|
  {
    var e := env[x := y];
    if x == |env| - 1 {
      assert e[..x] == env[..x];
    } else {
      assert e[..|env| - 1] == env[..|env| - 1][x := y];
      FlatReplaced(env[..|env| - 1], x, y);
    }
  }

  /** The computed size follows the longer entry unless it is taken out exactly once. */
  lemma {:induction false} MeasuredMoves(changes: seq<Change>, env: seq<Text>, x: nat)
    requires AllEmpty(changes) && x < |env| && Equals(env[x]) >= 0
    ensures MeasuredSize(changes, env[x := env[x] + "a"])
            == MeasuredSize(changes, env) + 1 - TimesTaken(changes, env, x)
  {
    hide Equals;
    var e := env[x := env[x] + "a"];
    if changes == [] {
      FlatReplaced(env, x, env[x] + "a");
    } else {
      var c := changes[|changes| - 1];
      MeasuredMoves(changes[..|changes| - 1], env, x);
      Lengthened(env[x]);
      SameEntry(env, e, c.key);
      var at := EntryOf(env, c.key);
      if at >= 0 {
        FlatOne([], env[at]);
        FlatOne([], e[at]);
      }
    }
  }

  /** What is written does not: the entry is dropped. */
  lemma {:induction false} WrittenStays(changes: seq<Change>, env: seq<Text>, x: nat, n: nat)
    requires AllEmpty(changes) && x < |env| && n <= |env| && ChangeOf(changes, env[x]) >= 0
    ensures RewrittenAll(changes, env[x := env[x] + "a"][..n]) == RewrittenAll(changes, env[..n])
    decreases n
  {
    hide Equals;
    if n > 0 {
      var e := env[x := env[x] + "a"];
      assert e[..n][..n - 1] == e[..n - 1] && env[..n][..n - 1] == env[..n - 1];
      WrittenStays(changes, env, x, n - 1);
      if x == n - 1 {
        Lengthened(env[x]);
        assert forall j :: 0 <= j < |changes| && Matches(env[x], changes[j].key) ==> Matches(e[x], changes[j].key);
        assert Rewritten(changes, e[x]) == [] == Rewritten(changes, env[x]);
      }
    }
  }

  lemma {:induction false} NothingAdded(changes: seq<Change>, env: seq<Text>)
    requires AllEmpty(changes)
    ensures Additions(env, changes) == []
  {
    if changes != [] {
      NothingAdded(changes[..|changes| - 1], env);
    }
  }

  lemma AlteredStays(changes: seq<Change>, env: seq<Text>, x: nat)
    requires AllEmpty(changes) && x < |env| && ChangeOf(changes, env[x]) >= 0
    ensures Altered(changes, env[x := env[x] + "a"]) == Altered(changes, env)
  {
    var e := env[x := env[x] + "a"];
    WrittenStays(changes, env, x, |env|);
    assert e[..|env|] == e && env[..|env|] == env;
    NothingAdded(changes, env);
    NothingAdded(changes, e);
  }

  lemma SameKeysUnambiguous(changes: seq<Change>, c: seq<Change>, env: seq<Text>, e: seq<Text>)
    requires SameKeys(changes, c, env, e) && Unambiguous(changes, env)
    ensures Unambiguous(c, e)
  {
    forall i, j | 0 <= i < |e| && 0 <= j < |c|
      ensures Matches(e[i], c[j].key) <==> Matches(env[i], changes[j].key)
    {
      assert SameKey(e[i], env[i]);
    }
    hide Matches;
  }

  lemma SameEmptied(changes: seq<Change>, env: seq<Text>, x: nat)
    requires x < |env| && Equals(env[x]) >= 0
    ensures SameKeys(changes, Emptied(changes), env, env)
    ensures SameKeys(changes, Emptied(changes), env, env[x := env[x] + "a"])
  {
    Lengthened(env[x]);
  }

  lemma {:induction false} TakenEmptied(changes: seq<Change>, c: seq<Change>, env: seq<Text>, x: int)
    requires |c| == |changes| && forall j :: 0 <= j < |c| ==> c[j].key == changes[j].key
    ensures TimesTaken(c, env, x) == TimesTaken(changes, env, x)
  {
    if c != [] {
      TakenEmptied(changes[..|changes| - 1], c[..|c| - 1], env, x);
    }
  }

  /** Pass one prices the block right for all values of the given keys exactly when these are unambiguous. */
  lemma SizesExactIff(changes: seq<Change>, env: seq<Text>)
    ensures (forall c, e :: ExactIfSame(changes, c, env, e)) <==> Unambiguous(changes, env)
  {
    hide Unambiguous, Exact, SameKeys;
    if Unambiguous(changes, env) {
      forall c, e ensures ExactIfSame(changes, c, env, e) {
        if SameKeys(changes, c, env, e) {
          SameKeysUnambiguous(changes, c, env, e);
          SizesExact(c, e);
          assert Exact(c, e) by { IsExact(c, e); }
        }
      }
    } else {
      var x := AmbiguousEntry(changes, env);
      var c, e := Emptied(changes), env[x := env[x] + "a"];
      SameEmptied(changes, env, x);
      NotBothExact(changes, env, x);
      assert !ExactIfSame(changes, c, env, env) || !ExactIfSame(changes, c, env, e);
    }
  }

  /** Without values, one char more in the entry moves the computed size but not what is written. */
  lemma NotBothExact(changes: seq<Change>, env: seq<Text>, x: nat)
    requires x < |env| && ChangeOf(changes, env[x]) >= 0 && TimesTaken(changes, env, x) != 1
    ensures !Exact(Emptied(changes), env) || !Exact(Emptied(changes), env[x := env[x] + "a"])
  {
    hide TimesTaken, Altered, Flat, MeasuredSize, Equals;
    var c := Emptied(changes);
    TakenEmptied(changes, c, env, x);
    assert ChangeOf(c, env[x]) >= 0 by { SameMatches(changes, c, env[x]); }
    MeasuredMoves(c, env, x);
    AlteredStays(c, env, x);
  }

  lemma SameMatches(changes: seq<Change>, c: seq<Change>, pair: Text)
    requires |c| == |changes| && (forall j :: 0 <= j < |c| ==> c[j].key == changes[j].key)
    requires ChangeOf(changes, pair) >= 0
    ensures ChangeOf(c, pair) >= 0
  {
    hide Matches;
    var j := ChangeOf(changes, pair);
    assert Matches(pair, c[j].key);
  }

  lemma IsExact(c: seq<Change>, e: seq<Text>)
    requires MeasuredCount(c, e) == |Altered(c, e)| && MeasuredSize(c, e) == |Flat(Altered(c, e))|
    ensures Exact(c, e)
  {
  }

  lemma FlatLengths(x: Text, y: Text)
    ensures |Flat([x])| == |x| + 1 && |Flat([x, x])| == 2 * |x| + 2
    ensures |Flat([y])| == |y| + 1 && |Flat([y, y])| == 2 * |y| + 2
  {
    hide Flat;
    FlatTwice(x);
    FlatTwice(y);
  }

  lemma FlatTwice(x: Text)
    ensures |Flat([x])| == |x| + 1 && |Flat([x, x])| == 2 * |x| + 2
  {
    hide Flat;
    FlatOne([], x);
    FlatOne([x], x);
    FlatNone();
    assert [] + [x] == [x];
    assert [x] + [x] == [x, x];
  }

  lemma FlatNone()
    ensures Flat([]) == []
  {
  }

  lemma AmbiguousAltered(changes: seq<Change>, x: Text, y: Text)
    requires |changes| == 1 && Matches(x, changes[0].key) && changes[0].value != [] && y == Pair(changes[0])
    ensures Altered(changes, [x, x]) == [y, y]
  {
    assert [] + [changes[0]] == changes;
    RewrittenOne([], changes[0], x);
    RewrittenTwice(changes, x, y);
    assert [x, x][0] == x && EntryOf([x, x], changes[0].key) >= 0;
    AdditionsStep([], changes[0], [x, x]);
  }

  lemma RewrittenTwice(changes: seq<Change>, x: Text, y: Text)
    requires Rewritten(changes, x) == [y]
    ensures RewrittenAll(changes, [x, x]) == [y, y]
  {
    hide Rewritten;
    assert [x][..0] == [] && [x, x][..1] == [x];
    assert RewrittenAll(changes, [x]) == RewrittenAll(changes, [x][..0]) + Rewritten(changes, x) == [y];
    assert [y] + [y] == [y, y];
  }

  lemma AmbiguousMeasured(changes: seq<Change>, x: Text)
    requires |changes| == 1 && Matches(x, changes[0].key) && changes[0].value != []
    ensures MeasuredSize(changes, [x, x]) == |Flat([x, x])| - (|x| + 1) + |Pair(changes[0])| + 1
  {
    MeasuredStep(changes, [x, x], 0);
    assert changes[..1] == changes;
  }

  // ----- Passes two and three: filling -----

  const NULL := -1

  /** The first k slots and the bytes up to scratch hold the given entries. */
  ghost predicate Holds(ret: seq<int>, data: Text, k: int, scratch: int, entries: seq<Text>) {
    && 0 <= k <= |ret| && 0 <= scratch <= |data|
    && k == |entries| && data[..scratch] == Flat(entries)
    && forall i :: 0 <= i < k ==> ret[i] == |Flat(entries[..i])|
  }

  lemma HoldsMore(ret: seq<int>, ret': seq<int>, data: Text, data': Text, k: int, scratch: int,
                  entries: seq<Text>, entry: Text)
    requires Holds(ret, data, k, scratch, entries)
    requires k < |ret| == |ret'| && ret'[..k] == ret[..k] && ret'[k] == scratch
    requires scratch + |entry| + 1 <= |data'| && data'[..scratch + |entry| + 1] == data[..scratch] + entry + ['\0']
    ensures Holds(ret', data', k + 1, scratch + |entry| + 1, entries + [entry])
  {
    FlatOne(entries, entry);
    forall i | 0 <= i < k + 1
      ensures ret'[i] == |Flat((entries + [entry])[..i])|
    {
      assert (entries + [entry])[..i] == entries[..i];
      if i < k {
        assert ret'[..k][i] == ret[..k][i];
      } else {
        assert entries[..i] == entries;
      }
    }
  }

  /** The next entry, unless it does not fit into what pass one priced. */
  method Emit(ret: array<int>, data: array<char>, k: int, scratch: int, entry: Text, ghost entries: seq<Text>)
    returns (ok: bool, k': int, scratch': int)
    requires Holds(ret[..], data[..], k, scratch, entries)
    modifies ret, data
    ensures ok <==> |entries| < ret.Length && |Flat(entries)| + |entry| + 1 <= data.Length
    ensures ok ==> Holds(ret[..], data[..], k', scratch', entries + [entry])
  {
    hide Flat;
    if k == ret.Length || scratch + |entry| + 1 > data.Length {
      return false, k, scratch;
    }
    ghost var ret0, data0 := ret[..], data[..];
    ret[k] := scratch;
    forall i | 0 <= i < |entry| {
      data[scratch + i] := entry[i];
    }
    scratch' := scratch + |entry|;
    data[scratch'] := '\0';
    scratch' := scratch' + 1;
    k', ok := k + 1, true;
    assert data[..scratch'] == data0[..scratch] + entry + ['\0'];
    HoldsMore(ret0, ret[..], data0, data[..], k, scratch, entries, entry);
  }

  /** An unfinished result leaves room for its next entry. */
  lemma RoomFor(all: seq<Text>, entries: seq<Text>, entry: Text, rest: seq<Text>)
    requires all == entries + [entry] + rest
    ensures |entries| < |all| && |Flat(entries)| + |entry| + 1 <= |Flat(all)|
  {
    FlatAppend(entries + [entry], rest);
    FlatOne(entries, entry);
  }

  lemma {:induction false} RewrittenSplit(changes: seq<Change>, env: seq<Text>, i: nat) returns (rest: seq<Text>)
    requires i <= |env|
    ensures RewrittenAll(changes, env) == RewrittenAll(changes, env[..i]) + rest
    ensures i < |env| ==> Rewritten(changes, env[i]) <= rest
  {
    if i == |env| {
      assert env[..i] == env;
      rest := [];
    } else {
      rest := RewrittenSplit(changes, env[..|env| - 1], i);
      var more := Rewritten(changes, env[|env| - 1]);
      assert env[..|env| - 1][..i] == env[..i];
      if i == |env| - 1 { assert rest == []; }
      rest := rest + more;
    }
  }

  lemma {:induction false} AdditionsSplit(env: seq<Text>, changes: seq<Change>, j: nat) returns (rest: seq<Text>)
    requires j <= |changes|
    ensures Additions(env, changes) == Additions(env, changes[..j]) + rest
    ensures j < |changes| && IsNew(env, changes[j]) ==> [Pair(changes[j])] <= rest
  {
    if j == |changes| {
      assert changes[..j] == changes;
      rest := [];
    } else {
      rest := AdditionsSplit(env, changes[..|changes| - 1], j);
      assert changes[..|changes| - 1][..j] == changes[..j];
      var c := changes[|changes| - 1];
      if j == |changes| - 1 { assert rest == []; }
      rest := rest + if IsNew(env, c) then [Pair(c)] else [];
    }
  }

  method FindChange(changes: seq<Change>, pair: Text, keylen: int) returns (found: int)
    requires keylen == Equals(pair) && keylen >= 0
    ensures found == ChangeOf(changes, pair)
  {
    var j := 0;
    while j < |changes|
      invariant 0 <= j <= |changes|
      invariant forall k :: 0 <= k < j ==> !Matches(pair, changes[k].key)
    {
      if |changes[j].key| == keylen && changes[j].key == pair[..keylen] {
        return j;
      }
      j := j + 1;
    }
    return -1;
  }

  /** The block has a slot for each entry and for the final NULL, and room for all bytes. */
  ghost predicate Room(ret: array<int>, data: array<char>, all: seq<Text>) {
    |all| < ret.Length && |Flat(all)| <= data.Length
  }

  method FillRewritten(changes: seq<Change>, env: seq<Text>, ret: array<int>, data: array<char>)
    returns (ok: bool, k: int, scratch: int)
    modifies ret, data
    ensures ok ==> Holds(ret[..], data[..], k, scratch, RewrittenAll(changes, env))
    ensures !ok ==> !Room(ret, data, Altered(changes, env))
  {
    hide Flat, Altered, Equals, Holds;
    ok, k, scratch := true, 0, 0;
    HoldsNothing(ret[..], data[..]);
    var i := 0;
    while i < |env|
      invariant 0 <= i <= |env| && ok
      invariant Holds(ret[..], data[..], k, scratch, RewrittenAll(changes, env[..i]))
    {
      var pair := env[i];
      var keylen := Equals(pair);
      ghost var entries := RewrittenAll(changes, env[..i]);
      RoomForRewritten(changes, env, i);
      assert env[..i + 1][..i] == env[..i] && entries + [] == entries;
      if keylen < 0 {
        ok, k, scratch := Emit(ret, data, k, scratch, pair, entries);
      } else {
        var j := FindChange(changes, pair, keylen);
        if j >= 0 {
          if changes[j].value != [] {
            ok, k, scratch := Emit(ret, data, k, scratch, pair[..keylen + 1] + changes[j].value, entries);
          }
        } else {
          ok, k, scratch := Emit(ret, data, k, scratch, pair, entries);
        }
      }
      if !ok {
        return;
      }
      assert Holds(ret[..], data[..], k, scratch, entries + Rewritten(changes, pair));
      i := i + 1;
    }
    assert env[..i] == env;
  }

  method FillAdditions(changes: seq<Change>, env: seq<Text>, ret: array<int>, data: array<char>, k0: int, scratch0: int)
    returns (ok: bool, k: int, scratch: int)
    requires Holds(ret[..], data[..], k0, scratch0, RewrittenAll(changes, env))
    modifies ret, data
    ensures ok ==> Holds(ret[..], data[..], k, scratch, Altered(changes, env))
    ensures !ok ==> !Room(ret, data, Altered(changes, env))
  {
    hide Flat, Holds;
    ok, k, scratch := true, k0, scratch0;
    ghost var base := RewrittenAll(changes, env);
    assert base + Additions(env, changes[..0]) == base;
    var j := 0;
    while j < |changes|
      invariant 0 <= j <= |changes| && ok
      invariant Holds(ret[..], data[..], k, scratch, base + Additions(env, changes[..j]))
    {
      var c := changes[j];
      ghost var entries := base + Additions(env, changes[..j]);
      assert changes[..j + 1][..j] == changes[..j];
      RoomForAddition(changes, env, j);
      assert Additions(env, changes[..j]) + [] == Additions(env, changes[..j]);
      if |c.value| > 0 {
        var found := FindEntry(env, c.key);
        if found < 0 {
          ok, k, scratch := Emit(ret, data, k, scratch, c.key + "=" + c.value, entries);
          if !ok {
            return;
          }
          assert entries + [Pair(c)] == base + (Additions(env, changes[..j]) + [Pair(c)]);
        }
      }
      j := j + 1;
    }
    assert changes[..j] == changes;
  }

  lemma HoldsNothing(ret: seq<int>, data: Text)
    ensures Holds(ret, data, 0, 0, [])
  {
  }

  lemma RoomForRewritten(changes: seq<Change>, env: seq<Text>, i: nat)
    requires i < |env|
    ensures var entries, more := RewrittenAll(changes, env[..i]), Rewritten(changes, env[i]);
            more != [] ==>
              |entries| < |Altered(changes, env)|
              && |Flat(entries)| + |more[0]| + 1 <= |Flat(Altered(changes, env))|
  {
    hide Rewritten, RewrittenAll, Additions, Flat;
    var rest := RewrittenSplit(changes, env, i);
    var entries, more := RewrittenAll(changes, env[..i]), Rewritten(changes, env[i]);
    RewrittenAtMostOne(changes, env[i]);
    if more != [] {
      assert more == [more[0]] && rest == [more[0]] + rest[1..];
      assert Altered(changes, env) == entries + [more[0]] + (rest[1..] + Additions(env, changes));
      RoomFor(Altered(changes, env), entries, more[0], rest[1..] + Additions(env, changes));
    }
  }

  lemma RewrittenAtMostOne(changes: seq<Change>, pair: Text)
    ensures |Rewritten(changes, pair)| <= 1
  {
    hide ChangeOf, Equals;
  }

  lemma RoomForAddition(changes: seq<Change>, env: seq<Text>, j: nat)
    requires j < |changes|
    ensures var entries := RewrittenAll(changes, env) + Additions(env, changes[..j]);
            IsNew(env, changes[j]) ==>
              |entries| < |Altered(changes, env)|
              && |Flat(entries)| + |Pair(changes[j])| + 1 <= |Flat(Altered(changes, env))|
  {
    hide RewrittenAll, Additions, Flat, IsNew;
    var rest := AdditionsSplit(env, changes, j);
    var entries := RewrittenAll(changes, env) + Additions(env, changes[..j]);
    if IsNew(env, changes[j]) {
      assert rest == [Pair(changes[j])] + rest[1..];
      assert Altered(changes, env) == entries + [Pair(changes[j])] + rest[1..];
      RoomFor(Altered(changes, env), entries, Pair(changes[j]), rest[1..]);
    }
  }

  /**
   The block is sized by pass one and filled by the others. It is not ok where the source
   would write outside the part of the block that was priced for it; for unambiguous input
   of less than 4 GB it is always ok, with a slot for each entry and for the final NULL, and
   not a byte to spare.
   */
  method AlterEnvironment(changes: seq<Change>, env: seq<Text>)
    returns (ok: bool, ret: array<int>, data: array<char>)
    ensures fresh(ret) && fresh(data)
    ensures ret.Length == Sized(MeasuredCount(changes, env) + 1) && data.Length == Sized(MeasuredSize(changes, env))
    ensures ok <==> Room(ret, data, Altered(changes, env))
    ensures ok ==> Packed(ret[..], data[..], Altered(changes, env))
    ensures Unambiguous(changes, env) && Small(Altered(changes, env)) ==>
              ok && ret.Length == |Altered(changes, env)| + 1 && data[..] == Flat(Altered(changes, env))
  {
    hide Altered, Flat, MeasuredCount, MeasuredSize, RewrittenAll, Unambiguous;
    ghost var all := Altered(changes, env);
    var count, size := Measure(changes, env);
    SizedSum(MeasuredCount(changes, env), 1);
    count := Sized(count + 1);
    ret := new int[count];
    data := new char[size];
    if Unambiguous(changes, env) && Small(all) {
      SizesExact(changes, env);
    }
    var k, scratch;
    ok, k, scratch := FillRewritten(changes, env, ret, data);
    if ok {
      ok, k, scratch := FillAdditions(changes, env, ret, data, k, scratch);
    }
    if ok {
      assert k == |all| && scratch == |Flat(all)| <= data.Length;
      ok := k < ret.Length;
      if ok {
        ret[k] := NULL;
        assert data[..data.Length] == data[..];
      }
    }
  }

  ghost predicate Small(all: seq<Text>) {
    |all| + 1 < WIDTH && |Flat(all)| < WIDTH
  }

  /** Every slot is the offset of its entry, and NULL follows. */
  ghost predicate Packed(ret: seq<int>, data: Text, all: seq<Text>) {
    && |all| < |ret| && |Flat(all)| <= |data|
    && ret[|all|] == NULL && data[..|Flat(all)|] == Flat(all)
    && forall i :: 0 <= i < |all| ==> ret[i] == |Flat(all[..i])|
  }

  // ----- What the result means -----

  datatype Setting = Unset | Set(value: Text)

  /** getenv: the value of the first entry with the key. */
  function Lookup(env: seq<Text>, key: Text): Setting {
    var i := EntryOf(env, key);
    if i < 0 then Unset else Set(env[i][Equals(env[i]) + 1..])
  }

  /** The first change of a key, or -1. */
  function ChangeIndex(changes: seq<Change>, key: Text): (j: int)
    ensures -1 <= j < |changes|
    ensures j >= 0 ==> changes[j].key == key
    ensures forall i :: 0 <= i < (if j < 0 then |changes| else j) ==> changes[i].key != key
  {
    if changes == [] then -1
    else
      var last := |changes| - 1;
      var j := ChangeIndex(changes[..last], key);
      if j >= 0 then j else if changes[last].key == key then last else -1
  }

  /** The changes form a map: no key twice, and no key that an entry could not have. */
  predicate Proper(changes: seq<Change>) {
    && (forall j :: 0 <= j < |changes| ==> '=' !in changes[j].key)
    && (forall j, k :: 0 <= j < k < |changes| ==> changes[j].key != changes[k].key)
  }

  lemma {:induction false} EqualsOf(key: Text, value: Text)
    requires '=' !in key
    ensures Equals(key + "=" + value) == |key|
  {
    if key != [] {
      assert (key + "=" + value)[1..] == key[1..] + "=" + value;
      EqualsOf(key[1..], value);
    }
  }

  /** Replacing the value of an entry leaves its key. */
  lemma ReplacedEntry(pair: Text, value: Text)
    requires Equals(pair) >= 0
    ensures var e, entry := Equals(pair), pair[..Equals(pair) + 1] + value;
            Equals(entry) == e && entry[..e] == pair[..e] && entry[e + 1..] == value
  {
    var e := Equals(pair);
    assert pair[..e + 1] + value == pair[..e] + "=" + value;
    EqualsOf(pair[..e], value);
  }

  lemma EntryOfAppend(a: seq<Text>, x: Text, key: Text)
    ensures EntryOf(a + [x], key) == if EntryOf(a, key) >= 0 then EntryOf(a, key) else if Matches(x, key) then |a| else -1
  {
    assert (a + [x])[..|a|] == a;
  }

  lemma LookupOne(env: seq<Text>, x: Text, key: Text)
    ensures Lookup(env + [x], key) ==
            if Lookup(env, key).Set? then Lookup(env, key)
            else if Matches(x, key) then Set(x[Equals(x) + 1..]) else Unset
  {
    EntryOfAppend(env, x, key);
  }

  lemma {:induction false} LookupAppend(a: seq<Text>, b: seq<Text>, key: Text)
    ensures Lookup(a + b, key) == if Lookup(a, key).Set? then Lookup(a, key) else Lookup(b, key)
  {
    if b == [] {
      assert a + b == a;
    } else {
      var init, last := b[..|b| - 1], b[|b| - 1];
      assert a + b == (a + init) + [last] && b == init + [last];
      LookupAppend(a, init, key);
      LookupOne(a + init, last, key);
      LookupOne(init, last, key);
    }
  }

  /** What the changes say about a key that has the setting old. */
  function Override(changes: seq<Change>, key: Text, old': Setting): Setting {
    var j := ChangeIndex(changes, key);
    if j < 0 then old' else if changes[j].value == [] then Unset else Set(changes[j].value)
  }

  lemma ChangeOfMatching(changes: seq<Change>, pair: Text, key: Text)
    requires Matches(pair, key)
    ensures ChangeOf(changes, pair) == ChangeIndex(changes, key)
  {
  }

  lemma RewrittenLookup(changes: seq<Change>, pair: Text, key: Text)
    ensures Lookup(Rewritten(changes, pair), key) ==
            if Matches(pair, key) then Override(changes, key, Lookup([pair], key)) else Unset
  {
    hide Equals;
    var e, j := Equals(pair), ChangeOf(changes, pair);
    LookupSingle(pair, key);
    if j >= 0 && changes[j].value != [] {
      ReplacedEntry(pair, changes[j].value);
      LookupSingle(pair[..e + 1] + changes[j].value, key);
    }
    if Matches(pair, key) {
      ChangeOfMatching(changes, pair, key);
    }
  }

  lemma LookupSingle(pair: Text, key: Text)
    ensures Lookup([pair], key) == if Matches(pair, key) then Set(pair[Equals(pair) + 1..]) else Unset
  {
    LookupOne([], pair, key);
    assert [] + [pair] == [pair];
  }

  lemma {:induction false} RewrittenAllLookup(changes: seq<Change>, env: seq<Text>, key: Text)
    ensures Lookup(RewrittenAll(changes, env), key) ==
            if Lookup(env, key).Unset? then Unset else Override(changes, key, Lookup(env, key))
  {
    hide Equals, Rewritten;
    if env != [] {
      var init, last := env[..|env| - 1], env[|env| - 1];
      assert env == init + [last];
      RewrittenAllLookup(changes, init, key);
      RewrittenLookup(changes, last, key);
      LookupAppend(RewrittenAll(changes, init), Rewritten(changes, last), key);
      LookupOne(init, last, key);
      LookupSingle(last, key);
    }
  }

  /** The first added entry that sets the key, or -1. */
  function AddedIndex(env: seq<Text>, changes: seq<Change>, key: Text): (j: int)
    ensures -1 <= j < |changes|
    ensures j >= 0 ==> IsNew(env, changes[j]) && Matches(Pair(changes[j]), key)
    ensures forall i :: 0 <= i < (if j < 0 then |changes| else j) ==>
              !(IsNew(env, changes[i]) && Matches(Pair(changes[i]), key))
  {
    if changes == [] then -1
    else
      var last := |changes| - 1;
      var j := AddedIndex(env, changes[..last], key);
      if j >= 0 then j else if IsNew(env, changes[last]) && Matches(Pair(changes[last]), key) then last else -1
  }

  function AddedSetting(env: seq<Text>, changes: seq<Change>, key: Text): Setting {
    var j := AddedIndex(env, changes, key);
    if j < 0 then Unset else Set(Pair(changes[j])[Equals(Pair(changes[j])) + 1..])
  }

  lemma {:induction false} AdditionsLookup(env: seq<Text>, changes: seq<Change>, key: Text)
    ensures Lookup(Additions(env, changes), key) == AddedSetting(env, changes, key)
  {
    hide Equals, IsNew, Pair;
    if changes != [] {
      var init, c := changes[..|changes| - 1], changes[|changes| - 1];
      AdditionsLookup(env, init, key);
      if IsNew(env, c) {
        LookupOne(Additions(env, init), Pair(c), key);
      } else {
        assert Additions(env, init) + [] == Additions(env, init);
      }
    }
  }

  /**
   What any key is set to, for any changes: the first change of a key that is set, unless it
   removes it; otherwise the first entry that was added for it.
   */
  lemma AlteredLookup(changes: seq<Change>, env: seq<Text>, key: Text)
    ensures
      var kept := if Lookup(env, key).Unset? then Unset else Override(changes, key, Lookup(env, key));
      Lookup(Altered(changes, env), key) == if kept.Set? then kept else AddedSetting(env, changes, key)
  {
    RewrittenAllLookup(changes, env, key);
    AdditionsLookup(env, changes, key);
    LookupAppend(RewrittenAll(changes, env), Additions(env, changes), key);
    hide Lookup, Override, AddedSetting;
  }

  lemma AddedProper(changes: seq<Change>, env: seq<Text>, key: Text)
    requires Proper(changes)
    ensures AddedSetting(env, changes, key) ==
            if Lookup(env, key).Unset? then Override(changes, key, Unset) else Unset
  {
    forall j | 0 <= j < |changes|
      ensures Equals(Pair(changes[j])) == |changes[j].key|
      ensures Matches(Pair(changes[j]), key) <==> changes[j].key == key
      ensures Pair(changes[j])[|changes[j].key| + 1..] == changes[j].value
    {
      EqualsOf(changes[j].key, changes[j].value);
      assert Pair(changes[j])[..|changes[j].key|] == changes[j].key;
    }
    hide Equals, Matches, Pair;
    var j := ChangeIndex(changes, key);
    assert forall i :: 0 <= i < |changes| && changes[i].key == key ==> i == j;
  }

  /** The result is the old environment overridden by the changes; an empty value removes the key. */
  lemma AlteredMeaning(changes: seq<Change>, env: seq<Text>, key: Text)
    requires Proper(changes)
    ensures Lookup(Altered(changes, env), key) == Override(changes, key, Lookup(env, key))
  {
    AlteredLookup(changes, env, key);
    AddedProper(changes, env, key);
    hide Lookup, Altered, AddedSetting;
  }

  /** An entry without an equals sign, or whose key no change names. */
  predicate Foreign(changes: seq<Change>, pair: Text) {
    Equals(pair) < 0 || ChangeIndex(changes, pair[..Equals(pair)]) < 0
  }

  function ForeignOnly(changes: seq<Change>, entries: seq<Text>): seq<Text> {
    if entries == [] then []
    else
      var last := entries[|entries| - 1];
      ForeignOnly(changes, entries[..|entries| - 1]) + if Foreign(changes, last) then [last] else []
  }

  lemma {:induction false} ForeignAppend(changes: seq<Change>, a: seq<Text>, b: seq<Text>)
    ensures ForeignOnly(changes, a + b) == ForeignOnly(changes, a) + ForeignOnly(changes, b)
  {
    if b == [] {
      assert a + b == a;
    } else {
      assert (a + b)[..|a + b| - 1] == a + b[..|b| - 1];
      ForeignAppend(changes, a, b[..|b| - 1]);
    }
  }

  lemma ForeignNone(changes: seq<Change>)
    ensures ForeignOnly(changes, []) == []
  {
  }

  lemma ForeignOne(changes: seq<Change>, x: Text)
    ensures ForeignOnly(changes, [x]) == if Foreign(changes, x) then [x] else []
  {
    assert [x][..0] == [];
  }

  lemma {:induction false} ForeignRewritten(changes: seq<Change>, env: seq<Text>)
    ensures ForeignOnly(changes, RewrittenAll(changes, env)) == ForeignOnly(changes, env)
  {
    if env != [] {
      var init, last := env[..|env| - 1], env[|env| - 1];
      ForeignRewritten(changes, init);
      ForeignAppend(changes, RewrittenAll(changes, init), Rewritten(changes, last));
      ForeignRewrittenOne(changes, last);
    }
  }

  lemma ForeignRewrittenOne(changes: seq<Change>, pair: Text)
    ensures ForeignOnly(changes, Rewritten(changes, pair)) == if Foreign(changes, pair) then [pair] else []
  {
    hide Equals;
    var j, e := ChangeOf(changes, pair), Equals(pair);
    ForeignOne(changes, pair);
    if e >= 0 {
      ChangeOfMatching(changes, pair, pair[..e]);
      if j >= 0 {
        ReplacedEntry(pair, changes[j].value);
        ForeignOne(changes, pair[..e + 1] + changes[j].value);
      }
    }
  }

  /** No new entry is one that no change names; the key of such a change contains an equals sign. */
  predicate AddsNamed(changes: seq<Change>, env: seq<Text>) {
    forall j :: 0 <= j < |changes| && IsNew(env, changes[j]) ==> !Foreign(changes, Pair(changes[j]))
  }

  lemma {:induction false} ForeignAdditions(changes: seq<Change>, env: seq<Text>, n: nat)
    requires n <= |changes|
    ensures ForeignOnly(changes, Additions(env, changes[..n])) == []
            <==> forall j :: 0 <= j < n && IsNew(env, changes[j]) ==> !Foreign(changes, Pair(changes[j]))
  {
    hide Foreign, IsNew, ForeignOnly;
    if n == 0 {
      assert ForeignOnly(changes, []) == [] by { ForeignNone(changes); }
    } else {
      ForeignAdditions(changes, env, n - 1);
      var c, added := changes[n - 1], Additions(env, changes[..n - 1]);
      assert changes[..n][..n - 1] == changes[..n - 1];
      if IsNew(env, c) {
        ForeignOne(changes, Pair(c));
        ForeignAppend(changes, added, [Pair(c)]);
      } else {
        assert added + [] == added;
      }
      hide Additions, Pair;
    }
  }

  /** The other entries stay as they are and in their order, and none comes in unless a new key contains an equals sign. */
  lemma OthersKept(changes: seq<Change>, env: seq<Text>)
    ensures ForeignOnly(changes, RewrittenAll(changes, env)) == ForeignOnly(changes, env)
    ensures ForeignOnly(changes, Altered(changes, env)) == ForeignOnly(changes, env) <==> AddsNamed(changes, env)
    ensures (forall j :: 0 <= j < |changes| ==> '=' !in changes[j].key) ==> AddsNamed(changes, env)
  {
    ForeignRewritten(changes, env);
    ForeignAdditions(changes, env, |changes|);
    assert changes[..|changes|] == changes;
    ForeignAppend(changes, RewrittenAll(changes, env), Additions(env, changes));
    forall j | 0 <= j < |changes| && '=' !in changes[j].key
      ensures !Foreign(changes, Pair(changes[j]))
    {
      EqualsOf(changes[j].key, changes[j].value);
      assert Pair(changes[j])[..|changes[j].key|] == changes[j].key;
    }
  }

  /** Distinct keys on both sides are enough for the block to be sized exactly. */
  lemma DistinctIsUnambiguous(changes: seq<Change>, env: seq<Text>)
    requires Proper(changes)
    requires forall i, k :: 0 <= i < k < |env| && Equals(env[i]) >= 0 && Equals(env[k]) >= 0 ==>
               env[i][..Equals(env[i])] != env[k][..Equals(env[k])]
    ensures Unambiguous(changes, env)
  {
  }
}

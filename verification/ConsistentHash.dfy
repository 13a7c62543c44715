/**
 The consistent-hashing ring (src/base3/consistenthash.h): building the ring,
 looking a hash up, and the shares that Dump reports.
 */
module ConsistentHash {

  import opened Basics
  import opened Words

  type Text = seq<char>

  /** The hash function passed to Rebuild. */
  type HashFunc = Text -> u32

  datatype Point = Point(point: u32, desc: Text)

  // ----- Labels -----

  /** The %x conversion. */
  function Hex(k: nat): Text {
    if k < 16 then ["0123456789abcdef"[k]] else Hex(k / 16) + ["0123456789abcdef"[k % 16]]
  }

  /** What "%s-%x" makes of the server, whose name is passed as a C string, and the number. */
  function Label(desc: Text, k: nat): Text {
    CString(desc, '\0') + "-" + Hex(k)
  }

  const BIG_ENOUGH: nat := 16 + 5

  /** The chars that are hashed: as many as the label has, from a buffer that snprintf ends with NUL. */
  function Hashed(text: Text): (r: Text)
    ensures |text| <= BIG_ENOUGH ==> |r| == |text|
  {
    if |text| < BIG_ENOUGH then text else text[..BIG_ENOUGH - 1] + ['\0']
  }

  /** No more chars are hashed than the buffer has. */
  ghost predicate LabelsFit(m: map<Text, u32>) {
    forall d, k: nat :: d in m && k < m[d] ==> |Label(d, k)| <= BIG_ENOUGH
  }

  predicate IsHexDigit(c: char) {
    '0' <= c <= '9' || 'a' <= c <= 'f'
  }

  function DigitValue(c: char): (v: nat)
    requires IsHexDigit(c)
    ensures v < 16
  {
    if c <= '9' then c as int - '0' as int else c as int - 'a' as int + 10
  }

  /** The number that hexadecimal digits denote. */
  function HexValue(s: Text): nat
    requires forall i :: 0 <= i < |s| ==> IsHexDigit(s[i])
  {
    if s == [] then 0 else 16 * HexValue(s[..|s| - 1]) + DigitValue(s[|s| - 1])
  }

  /** %x writes the digits of the number, and no zero in front of them. */
  lemma {:induction false} HexReads(k: nat)
    ensures Hex(k) != [] && (forall i :: 0 <= i < |Hex(k)| ==> IsHexDigit(Hex(k)[i])) && HexValue(Hex(k)) == k
    ensures Hex(k)[0] == '0' <==> k == 0
  {
    HexDigit(k % 16);
    hide DigitValue, IsHexDigit;
    var c := "0123456789abcdef"[k % 16];
    if k >= 16 {
      HexReads(k / 16);
      assert Hex(k) == Hex(k / 16) + [c] && Hex(k)[..|Hex(k)| - 1] == Hex(k / 16);
    } else {
      assert Hex(k) == [c] && Hex(k)[..0] == [];
    }
  }

  lemma HexDigit(v: nat)
    requires v < 16
    ensures
      var c := "0123456789abcdef"[v];
      IsHexDigit(c) && DigitValue(c) == v && (c == '0' <==> v == 0)
  {
  }

  /** A label tells the server, whose name is a C string, and the number. */
  lemma LabelReads(d: Text, k: nat, e: Text, j: nat)
    requires '\0' !in d && '\0' !in e && Label(d, k) == Label(e, j)
    ensures d == e && k == j
  {
    HexReads(k);
    HexReads(j);
    WholeCString(d);
    WholeCString(e);
    hide Hex, HexValue, CString;
    LastDash(d, Hex(k), e, Hex(j));
  }

  lemma {:induction false} WholeCString(d: Text)
    requires '\0' !in d
    ensures CString(d, '\0') == d
  {
    if d != [] {
      WholeCString(d[1..]);
    }
  }

  lemma NoDash(d: Text, x: Text, k: nat)
    requires '-' !in x && |d| < k < |d + "-" + x|
    ensures (d + "-" + x)[k] != '-'
  {
    assert (d + "-" + x)[k] == x[k - |d| - 1];
  }

  /** No digit is a hyphen, so the last hyphen ends the name. */
  lemma LastDash(d: Text, x: Text, e: Text, y: Text)
    requires d + "-" + x == e + "-" + y && '-' !in x && '-' !in y
    ensures d == e && x == y
  {
    var s, t := d + "-" + x, e + "-" + y;
    forall k | |d| < k < |s| ensures s[k] != '-' { NoDash(d, x, k); }
    forall k | |e| < k < |t| ensures t[k] != '-' { NoDash(e, y, k); }
    assert s[|d|] == t[|e|] == '-';
    assert d == s[..|d|] && e == t[..|e|] && x == s[|d| + 1..] && y == t[|e| + 1..];
  }

  // ----- The ring -----

  /** The points that a set of servers with capacities puts on the ring. */
  ghost predicate InRing(m: map<Text, u32>, f: HashFunc, p: Point) {
    p.desc in m && exists k: nat :: k < m[p.desc] && p.point == f(Hashed(Label(p.desc, k)))
  }

  /** No two servers meet at a point. */
  ghost predicate NoClash(m: map<Text, u32>, f: HashFunc) {
    forall p, q :: InRing(m, f, p) && InRing(m, f, q) && p.point == q.point ==> p.desc == q.desc
  }

  /** How far one has to go clockwise from h to p. */
  function Distance(h: u32, p: u32): u32 {
    if p >= h then p - h else p - h + WIDTH
  }

  /** Server d has a point that is clockwise nearest to h. */
  ghost predicate Owns(m: map<Text, u32>, f: HashFunc, h: u32, d: Text) {
    exists p :: InRing(m, f, p) && p.desc == d && Nearest(m, f, h, p)
  }

  ghost predicate Nearest(m: map<Text, u32>, f: HashFunc, h: u32, p: Point) {
    forall q :: InRing(m, f, q) ==> Distance(h, p.point) <= Distance(h, q.point)
  }

  lemma OwnerUnique(m: map<Text, u32>, f: HashFunc, h: u32, d: Text, e: Text)
    requires NoClash(m, f) && Owns(m, f, h, d) && Owns(m, f, h, e)
    ensures d == e
  {
    var p :| InRing(m, f, p) && p.desc == d && Nearest(m, f, h, p);
    var q :| InRing(m, f, q) && q.desc == e && Nearest(m, f, h, q);
    assert Distance(h, p.point) == Distance(h, q.point);
  }

  /** A ring inside a larger one: an owner in the larger that is in the smaller owns there as well. */
  lemma OwnerSurvives(m: map<Text, u32>, m': map<Text, u32>, f: HashFunc, h: u32, d: Text)
    requires forall p :: InRing(m', f, p) ==> InRing(m, f, p)
    requires forall p :: InRing(m, f, p) && p.desc == d ==> InRing(m', f, p)
    requires Owns(m, f, h, d)
    ensures Owns(m', f, h, d)
  {
    var p :| InRing(m, f, p) && p.desc == d && Nearest(m, f, h, p);
    assert InRing(m', f, p) && Nearest(m', f, h, p);
  }

  /** Taking a server away moves only the hashes that were located at it. */
  lemma RemovalMovesOnlyItsOwn(m: map<Text, u32>, f: HashFunc, d: Text, h: u32, before: Text, after: Text)
    requires NoClash(m, f) && before != d
    requires Owns(m, f, h, before) && Owns(m - {d}, f, h, after)
    ensures after == before
  {
    RemovedRing(m, f, d);
    OwnerSurvives(m, m - {d}, f, h, before);
    OwnerUnique(m - {d}, f, h, before, after);
  }

  lemma RemovedRing(m: map<Text, u32>, f: HashFunc, d: Text)
    ensures forall p :: InRing(m - {d}, f, p) <==> InRing(m, f, p) && p.desc != d
  {
  }

  /** Adding a server, or raising its capacity, moves hashes only to that server. */
  lemma AdditionMovesOnlyToIt(m: map<Text, u32>, f: HashFunc, d: Text, c: u32, h: u32, before: Text, after: Text)
    requires NoClash(m[d := c], f) && (d in m ==> m[d] <= c)
    requires Owns(m, f, h, before) && Owns(m[d := c], f, h, after)
    ensures after == before || after == d
  {
    RaisedRing(m, f, d, c);
    if after != d {
      OwnerSurvives(m[d := c], m, f, h, after);
      OwnerUnique(m, f, h, before, after);
    }
  }

  lemma RaisedRing(m: map<Text, u32>, f: HashFunc, d: Text, c: u32)
    requires d in m ==> m[d] <= c
    ensures forall p :: InRing(m, f, p) ==> InRing(m[d := c], f, p)
    ensures forall p :: InRing(m[d := c], f, p) && p.desc != d ==> InRing(m, f, p)
  {
  }

  // ----- Sums over a map -----

  ghost function Total(m: map<Text, u32>): nat
    decreases |m|
  {
    if m == map[] then 0 else
      var d :| d in m;
      assert |m - {d}| < |m| by { Shrinks(m, d); }
      m[d] + Total(m - {d})
  }

  lemma TotalEmpty()
    ensures Total(map[]) == 0
  {
  }

  lemma Shrinks(m: map<Text, u32>, d: Text)
    requires d in m
    ensures |m - {d}| == |m| - 1
  {
    assert (m - {d}).Keys == m.Keys - {d};
  }

  lemma {:induction false} TotalWithout(m: map<Text, u32>, d: Text)
    requires d in m
    ensures Total(m) == m[d] + Total(m - {d})
    decreases |m|
  {
    var e :| e in m && Total(m) == m[e] + Total(m - {e});
    if e != d {
      Shrinks(m, e);
      Shrinks(m, d);
      TotalWithout(m - {e}, d);
      TotalWithout(m - {d}, e);
      assert m - {e} - {d} == m - {d} - {e};
    }
  }

  // ----- Sorted points -----

  predicate Sorted(points: seq<Point>) {
    forall i, j :: 0 <= i < j < |points| ==> points[i].point <= points[j].point
  }

  method Insert(sorted: seq<Point>, p: Point) returns (more: seq<Point>)
    requires Sorted(sorted)
    ensures Sorted(more) && multiset(more) == multiset(sorted) + multiset{p}
  {
    var i := |sorted|;
    while i > 0 && sorted[i - 1].point > p.point
      invariant 0 <= i <= |sorted|
      invariant forall j :: i <= j < |sorted| ==> sorted[j].point > p.point
    {
      i := i - 1;
    }
    more := sorted[..i] + [p] + sorted[i..];
    InsertedSorted(sorted, i, p);
    InsertedElements(sorted, i, p);
  }

  lemma InsertedSorted(sorted: seq<Point>, i: nat, p: Point)
    requires Sorted(sorted) && i <= |sorted| && (i > 0 ==> sorted[i - 1].point <= p.point)
    requires forall j :: i <= j < |sorted| ==> sorted[j].point > p.point
    ensures Sorted(sorted[..i] + [p] + sorted[i..])
  {
    var more := sorted[..i] + [p] + sorted[i..];
    forall j, k | 0 <= j < k < |more|
      ensures more[j].point <= more[k].point
    {
      assert j < i ==> more[j] == sorted[j];
      assert k > i ==> more[k] == sorted[k - 1];
    }
  }

  lemma InsertedElements(sorted: seq<Point>, i: nat, p: Point)
    requires i <= |sorted|
    ensures multiset(sorted[..i] + [p] + sorted[i..]) == multiset(sorted) + multiset{p}
  {
    assert sorted == sorted[..i] + sorted[i..];
  }

  /** A sort by point; the order of equal points is whatever the sort makes it. */
  method Sort(points: seq<Point>) returns (sorted: seq<Point>)
    ensures Sorted(sorted) && multiset(sorted) == multiset(points)
  {
    sorted := [];
    var n := 0;
    while n < |points|
      invariant 0 <= n <= |points| && Sorted(sorted) && multiset(sorted) == multiset(points[..n])
    {
      assert points[..n + 1] == points[..n] + [points[n]];
      sorted := Insert(sorted, points[n]);
      n := n + 1;
    }
    assert points[..n] == points;
  }

  /** The first index whose point is not below h. */
  function LowerBound(points: seq<Point>, h: u32): (i: nat)
    ensures i <= |points|
    ensures forall j :: 0 <= j < i ==> points[j].point < h
    ensures i < |points| ==> points[i].point >= h
  {
    if points == [] || points[0].point >= h then 0 else 1 + LowerBound(points[1..], h)
  }

  /** Where h is located: at the lower bound, or past the end at the first point. */
  function Index(points: seq<Point>, h: u32): (i: nat)
    requires points != []
    ensures i < |points|
  {
    var i := LowerBound(points, h);
    if i < |points| then i else 0
  }

  /** The located point is the clockwise nearest one. */
  lemma IndexIsNearest(points: seq<Point>, h: u32)
    requires points != [] && Sorted(points)
    ensures forall j :: 0 <= j < |points| ==>
              Distance(h, points[Index(points, h)].point) <= Distance(h, points[j].point)
  {
    var i := LowerBound(points, h);
    forall j | 0 <= j < |points|
      ensures Distance(h, points[Index(points, h)].point) <= Distance(h, points[j].point)
    {
      if j < i { assert points[j].point < h; }
    }
  }

  /** A hash that is a point of the ring is located at that point. */
  lemma PointOwnsItself(points: seq<Point>, i: nat)
    requires i < |points| && Sorted(points)
    ensures points[Index(points, points[i].point)].point == points[i].point
  {
    var j := LowerBound(points, points[i].point);
    assert j <= i;
  }

  lemma LowerBoundUnique(points: seq<Point>, h: u32, i: nat)
    requires i <= |points| && forall j :: 0 <= j < i ==> points[j].point < h
    requires i < |points| ==> points[i].point >= h
    ensures LowerBound(points, h) == i
  {
  }

  // ----- The shares -----

  /** How many of the hashes 1..n are located at server d. */
  function Located(points: seq<Point>, d: Text, n: nat): (c: nat)
    requires points != [] && n < WIDTH
    ensures c <= n
  {
    if n == 0 then 0
    else Located(points, d, n - 1) + (if points[Index(points, n)].desc == d then 1 else 0)
  }

  /** A stretch of hashes with one location adds its length to that server and nothing to the others. */
  lemma {:induction false} LocatedStretch(points: seq<Point>, d: Text, a: nat, b: nat, i: nat)
    requires points != [] && a <= b < WIDTH && i < |points|
    requires forall h :: a < h <= b ==> Index(points, h) == i
    ensures Located(points, d, b) == Located(points, d, a) + (if points[i].desc == d then b - a else 0)
  {
    if a < b {
      LocatedStretch(points, d, a, b - 1, i);
      assert Index(points, b) == i;
    }
  }

  function Share(distr: map<Text, u32>, d: Text): u32 {
    if d in distr then distr[d] else 0
  }

  lemma TotalUpdate(m: map<Text, u32>, d: Text, v: u32)
    ensures Total(m[d := v]) == Total(m) - Share(m, d) + v
  {
    TotalWithout(m[d := v], d);
    assert m[d := v] - {d} == m - {d};
    if d in m {
      TotalWithout(m, d);
    } else {
      assert m - {d} == m;
    }
  }

  lemma {:induction false} TotalAtLeast(m: map<Text, u32>, d: Text)
    ensures Share(m, d) <= Total(m)
  {
    if d in m { TotalWithout(m, d); }
  }

  // ----- The class -----

  /** The points that one server contributes, in order of their number. */
  function PointsOf(f: HashFunc, d: Text, n: nat): seq<Point> {
    seq(n, k requires 0 <= k < n => Point(f(Hashed(Label(d, k))), d))
  }

  class Continuum {
    var points: seq<Point>
    var descMap: map<Text, u32>

    /** The ring in use was built from the servers as they are now. */
    ghost predicate Built(f: HashFunc)
      reads this
    {
      Sorted(points) && points != [] && forall p :: p in points <==> InRing(descMap, f, p)
    }

    constructor ()
      ensures points == [] && descMap == map[]
    {
      points, descMap := [], map[];
    }

    method Add(desc: Text, capacity: u32)
      modifies this
      ensures descMap == old(descMap)[desc := capacity] && points == old(points)
    {
      descMap := descMap[desc := capacity];
    }

    method Remove(desc: Text) returns (ok: bool)
      modifies this
      ensures ok && descMap == old(descMap) - {desc} && points == old(points)
    {
      descMap := descMap - {desc};
      ok := true;
    }

    method Clear()
      modifies this
      ensures descMap == map[] && points == old(points)
    {
      descMap := map[];
    }

    /** The sum of the capacities, in an unsigned 32-bit accumulator. */
    method TotalPoint() returns (total: int)
      ensures total == Total(descMap) % WIDTH
    {
      hide Total;
      TotalEmpty();
      total := 0;
      ghost var sum := 0;
      var rest := descMap;
      while |rest| > 0
        invariant total == sum % WIDTH && sum + Total(rest) == Total(descMap)
        decreases |rest|
      {
        var d :| d in rest;
        TotalWithout(rest, d);
        Shrinks(rest, d);
        WrappedSum(sum, rest[d]);
        total, sum := (total + rest[d]) % WIDTH, sum + rest[d];
        rest := rest - {d};
      }
      assert rest == map[];
    }

    method CollectPoints(f: HashFunc) returns (target: seq<Point>)
      requires LabelsFit(descMap)
      ensures forall p :: p in target <==> InRing(descMap, f, p)
    {
      hide InRing, Label;
      target := [];
      var rest := descMap;
      assert forall p :: InRing(descMap, f, p) ==> p.desc in rest by { RingDescs(descMap, f); }
      while |rest| > 0
        invariant forall d :: d in rest ==> d in descMap && rest[d] == descMap[d]
        invariant forall p :: p in target <==> InRing(descMap, f, p) && p.desc !in rest
        decreases |rest|
      {
        var d :| d in rest;
        Shrinks(rest, d);
        ghost var base := target;
        var k: nat := 0;
        while k < rest[d]
          invariant k <= rest[d] && target == base + PointsOf(f, d, k)
        {
          var buf := Hashed(Label(d, k));
          assert |buf| == |Label(d, k)| <= BIG_ENOUGH;
          target := target + [Point(f(buf), d)];
          k := k + 1;
        }
        CollectedServer(descMap, f, rest, d, base);
        rest := rest - {d};
      }
      assert rest == map[];
    }

    /** False, and no change, when the capacities add up to zero modulo 2^32. */
    method Rebuild(f: HashFunc) returns (ok: bool)
      requires LabelsFit(descMap)
      modifies this`points
      ensures ok <==> Total(descMap) % WIDTH != 0
      ensures if ok then Built(f) else points == old(points)
    {
      var totalPoint := TotalPoint();
      if totalPoint == 0 {
        return false;
      }
      var target := CollectPoints(f);
      SomePoint(descMap, f);
      points := Sort(target);
      assert forall p :: p in points <==> p in multiset(points);
      assert forall p :: p in target <==> p in multiset(target);
      ok := true;
    }

    /** std::lower_bound, and the wrap to the first point. */
    method Locate(h: u32) returns (desc: Text)
      requires Sorted(points)
      ensures desc == if points == [] then "" else points[Index(points, h)].desc
    {
      var low, high := 0, |points|;
      while low < high
        invariant 0 <= low <= high <= |points|
        invariant forall j :: 0 <= j < low ==> points[j].point < h
        invariant forall j :: high <= j < |points| ==> points[j].point >= h
      {
        var mid := low + (high - low) / 2;
        if points[mid].point < h {
          low := mid + 1;
        } else {
          high := mid;
        }
      }
      LowerBoundUnique(points, h, low);
      desc := "";
      if low != |points| {
        desc := points[low].desc;
      } else if |points| != 0 {
        desc := points[0].desc;
      }
    }

    /** On a ring built from the servers, Locate names the owner of the hash. */
    lemma LocateOwns(f: HashFunc, h: u32)
      requires Built(f)
      ensures Owns(descMap, f, h, points[Index(points, h)].desc)
    {
      IndexIsNearest(points, h);
      var p := points[Index(points, h)];
      assert p in points;
      forall q | InRing(descMap, f, q)
        ensures Distance(h, p.point) <= Distance(h, q.point)
      {
        assert q in points;
      }
      assert InRing(descMap, f, p) && Nearest(descMap, f, h, p);
    }

    /** The distribution that Dump prints, in unsigned 32-bit arithmetic. */
    method Dump() returns (distr: map<Text, u32>)
      requires points != [] && Sorted(points)
      ensures forall d :: Share(distr, d) == Located(points, d, WIDTH - 1)
      ensures Total(distr) == WIDTH - 1
    {
      distr := map[];
      var before: u32 := 0;
      var i := 0;
      while i < |points|
        invariant 0 <= i <= |points| && before == (if i == 0 then 0 else points[i - 1].point)
        invariant Counted(distr, points, before)
      {
        StretchBefore(points, i, before);
        distr := AddShare(distr, points[i].desc, (points[i].point - before) % WIDTH, points, i, before, points[i].point);
        before := points[i].point;
        i := i + 1;
      }
      StretchAfter(points);
      distr := AddShare(distr, points[0].desc, WIDTH - 1 - points[|points| - 1].point, points, 0, before, WIDTH - 1);
    }

    /** distr[desc] += amount for a stretch of hashes; the sum does not wrap. */
    static method AddShare(distr: map<Text, u32>, desc: Text, amount: u32,
                           ghost points: seq<Point>, ghost i: nat, ghost a: u32, ghost b: u32)
      returns (distr': map<Text, u32>)
      requires i < |points| && points[i].desc == desc && amount == b - a
      requires Counted(distr, points, a) && forall h :: a < h <= b ==> Index(points, h) == i
      ensures Counted(distr', points, b)
    {
      hide Located, Index, Total;
      var sum := (Share(distr, desc) + amount) % WIDTH;
      TotalAtLeast(distr, desc);
      TotalUpdate(distr, desc, sum);
      distr' := distr[desc := sum];
      forall d
        ensures Share(distr', d) == Located(points, d, b)
      {
        LocatedStretch(points, d, a, b, i);
      }
    }
  }

  /** The shares count the hashes 1..n, and add up to n. */
  ghost predicate Counted(distr: map<Text, u32>, points: seq<Point>, n: u32) {
    points != [] && Total(distr) == n && forall d :: Share(distr, d) == Located(points, d, n)
  }

  lemma RingDescs(m: map<Text, u32>, f: HashFunc)
    ensures forall p :: InRing(m, f, p) ==> p.desc in m
  {
  }

  lemma CollectedServer(m: map<Text, u32>, f: HashFunc, rest: map<Text, u32>, d: Text, base: seq<Point>)
    requires d in rest && d in m && rest[d] == m[d]
    requires forall p :: p in base <==> InRing(m, f, p) && p.desc !in rest
    ensures forall p :: p in base + PointsOf(f, d, m[d]) <==> InRing(m, f, p) && p.desc !in rest - {d}
  {
    var more := PointsOf(f, d, m[d]);
    forall p
      ensures p in more <==> InRing(m, f, p) && p.desc == d
    {
      if InRing(m, f, p) && p.desc == d {
        var k: nat :| k < m[d] && p.point == f(Hashed(Label(d, k)));
        assert more[k] == p;
      }
    }
  }

  /** A nonzero sum means that some server has a point. */
  lemma {:induction false} SomePoint(m: map<Text, u32>, f: HashFunc)
    requires Total(m) > 0
    ensures exists p :: InRing(m, f, p)
    decreases |m|
  {
    var d :| d in m && Total(m) == m[d] + Total(m - {d});
    if m[d] > 0 {
      assert InRing(m, f, Point(f(Hashed(Label(d, 0))), d));
    } else {
      Shrinks(m, d);
      SomePoint(m - {d}, f);
      var p :| InRing(m - {d}, f, p);
      assert InRing(m, f, p);
    }
  }

  lemma StretchBefore(points: seq<Point>, i: nat, before: u32)
    requires Sorted(points) && i < |points| && before == (if i == 0 then 0 else points[i - 1].point)
    ensures before <= points[i].point && forall h :: before < h <= points[i].point ==> Index(points, h) == i
  {
    forall h | before < h <= points[i].point
      ensures Index(points, h) == i
    {
      LowerBoundUnique(points, h, i);
    }
  }

  lemma StretchAfter(points: seq<Point>)
    requires Sorted(points) && points != []
    ensures forall h :: points[|points| - 1].point < h <= WIDTH - 1 ==> Index(points, h) == 0
  {
    forall h | points[|points| - 1].point < h <= WIDTH - 1
      ensures Index(points, h) == 0
    {
      LowerBoundUnique(points, h, |points|);
    }
  }

  // ----- Whole operations -----

  /** Remove, Rebuild: a hash that was not located at the removed server keeps its server. */
  method LocateAcrossRemove(c: Continuum, f: HashFunc, d: Text, h: u32) returns (before: Text, after: Text)
    requires c.Built(f) && NoClash(c.descMap, f) && LabelsFit(c.descMap)
    requires Total(c.descMap - {d}) % WIDTH != 0
    modifies c
    ensures c.Built(f) && c.descMap == old(c.descMap) - {d}
    ensures before != d ==> after == before
  {
    ghost var m := c.descMap;
    before := c.Locate(h);
    c.LocateOwns(f, h);
    var removed := c.Remove(d);
    var rebuilt := c.Rebuild(f);
    after := c.Locate(h);
    c.LocateOwns(f, h);
    if before != d {
      RemovalMovesOnlyItsOwn(m, f, d, h, before, after);
    }
  }

  /** Add or raise, Rebuild: a hash that moves, moves to that server. */
  method LocateAcrossAdd(c: Continuum, f: HashFunc, d: Text, capacity: u32, h: u32) returns (before: Text, after: Text)
    requires c.Built(f) && (d in c.descMap ==> c.descMap[d] <= capacity)
    requires NoClash(c.descMap[d := capacity], f) && LabelsFit(c.descMap[d := capacity])
    requires Total(c.descMap[d := capacity]) % WIDTH != 0
    modifies c
    ensures c.Built(f) && c.descMap == old(c.descMap)[d := capacity]
    ensures after != before ==> after == d
  {
    ghost var m := c.descMap;
    before := c.Locate(h);
    c.LocateOwns(f, h);
    c.Add(d, capacity);
    var rebuilt := c.Rebuild(f);
    after := c.Locate(h);
    c.LocateOwns(f, h);
    AdditionMovesOnlyToIt(m, f, d, capacity, h, before, after);
  }
}

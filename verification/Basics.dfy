/** Small facts about sets and buffers that several components need. */
module Basics {

  lemma Pick<T>(s: set<T>) returns (x: T)
    requires |s| > 0
    ensures x in s
  {
    x :| x in s;
  }

  /** The C string that starts a buffer. */
  function CString<T(==)>(cells: seq<T>, nul: T): (t: seq<T>)
    ensures t <= cells && nul !in t
    ensures |t| < |cells| ==> cells[|t|] == nul
  {
    if cells == [] || cells[0] == nul then [] else [cells[0]] + CString(cells[1..], nul)
  }

  lemma {:induction false} CStringUpTo<T>(cells: seq<T>, nul: T, n: nat)
    requires n < |cells| && cells[n] == nul && nul !in cells[..n]
    ensures CString(cells, nul) == cells[..n]
  {
    if n > 0 {
      assert cells[0] == cells[..n][0] && cells[..n][1..] == cells[1..][..n - 1];
      CStringUpTo(cells[1..], nul, n - 1);
    }
  }
}

/** `ComputeIdempotencyKey` (pkg/datagateway/commit_pool.go): the byte string fed to SHA-256. */
module IdempotencyKey {
  import opened SortedStrings

  const NUL := '\0'

  // Every part followed by a NUL.
  function Terminated(parts: seq<string>): string {
    if parts == [] then "" else parts[0] + ([NUL] + Terminated(parts[1..]))
  }

  function Preimage(runID: string, namespace: string, table: string, paths: seq<string>): string {
    Terminated([runID, namespace, table] + Sort(paths))
  }

  method HashInput(runID: string, namespace: string, table: string, paths: seq<string>) returns (h: string)
    ensures h == Preimage(runID, namespace, table, paths)
    ensures h == (runID + [NUL] + namespace + [NUL] + table + [NUL]) + Terminated(Sort(paths))
  {
    var sorted := Sort(paths);
    ghost var parts := [runID, namespace, table] + sorted;
    h := runID + [NUL];
    h := h + namespace + [NUL];
    h := h + table + [NUL];
    HeadTerminated(runID, namespace, table, sorted);
    var i := 0;
    while i < |sorted|
      invariant 0 <= i <= |sorted|
      invariant h + Terminated(sorted[i..]) == Terminated(parts)
    {
      assert sorted[i..][1..] == sorted[i + 1..];
      assert h + (sorted[i] + ([NUL] + Terminated(sorted[i + 1..])))
          == (h + sorted[i] + [NUL]) + Terminated(sorted[i + 1..]);
      h := h + sorted[i] + [NUL];
      i := i + 1;
    }
  }

  lemma HeadTerminated(a: string, b: string, c: string, more: seq<string>)
    ensures Terminated([a, b, c] + more) == (a + [NUL] + b + [NUL] + c + [NUL]) + Terminated(more)
  {
    var parts := [a, b, c] + more;
    var t := Terminated(more);
    assert parts[1..] == [b, c] + more && parts[0] == a;
    assert ([b, c] + more)[1..] == [c] + more;
    assert ([c] + more)[1..] == more;
    assert Terminated([c] + more) == c + ([NUL] + t);
    assert Terminated([b, c] + more) == b + ([NUL] + (c + ([NUL] + t)));
    assert a + ([NUL] + (b + ([NUL] + (c + ([NUL] + t))))) == (a + [NUL] + b + [NUL] + c + [NUL]) + t;
  }

  predicate NulFree(s: string) {
    NUL !in s
  }

  predicate AllNulFree(parts: seq<string>) {
    forall i :: 0 <= i < |parts| ==> NulFree(parts[i])
  }

  // The first NUL ends the first part.
  lemma FirstPart(a: string, s: string, b: string, t: string)
    requires NulFree(a) && NulFree(b) && a + ([NUL] + s) == b + ([NUL] + t)
    ensures a == b && s == t
  {
    var x, y := a + ([NUL] + s), b + ([NUL] + t);
    assert x[|a|] == NUL && y[|b|] == NUL;
    assert |a| == |b|;
    assert a == x[..|a|] && b == y[..|b|];
    assert s == x[|a| + 1..] && t == y[|b| + 1..];
  }

  lemma {:induction false} TerminatedInjective(a: seq<string>, b: seq<string>)
    requires AllNulFree(a) && AllNulFree(b) && Terminated(a) == Terminated(b)
    ensures a == b
  {
    if a != [] && b != [] {
      FirstPart(a[0], Terminated(a[1..]), b[0], Terminated(b[1..]));
      TerminatedInjective(a[1..], b[1..]);
      assert a == [a[0]] + a[1..] && b == [b[0]] + b[1..];
    }
  }

  lemma SortKeepsNulFree(s: seq<string>)
    requires AllNulFree(s)
    ensures AllNulFree(Sort(s))
  {
    SortSorts(s);
    forall i | 0 <= i < |Sort(s)|
      ensures NulFree(Sort(s)[i])
    {
      assert Sort(s)[i] in multiset(s);
      assert Sort(s)[i] in s;
    }
  }

  /** Two commits hash the same bytes exactly when run, namespace and table agree and their
      path lists are permutations of each other. */
  lemma SameBytesIffSameCommit(r1: string, n1: string, t1: string, p1: seq<string>,
                               r2: string, n2: string, t2: string, p2: seq<string>)
    requires NulFree(r1) && NulFree(n1) && NulFree(t1) && AllNulFree(p1)
    requires NulFree(r2) && NulFree(n2) && NulFree(t2) && AllNulFree(p2)
    ensures Preimage(r1, n1, t1, p1) == Preimage(r2, n2, t2, p2) <==>
      r1 == r2 && n1 == n2 && t1 == t2 && multiset(p1) == multiset(p2)
  {
    SortEqual(p1, p2);
    if Preimage(r1, n1, t1, p1) == Preimage(r2, n2, t2, p2) {
      SortKeepsNulFree(p1);
      SortKeepsNulFree(p2);
      var a, b := [r1, n1, t1] + Sort(p1), [r2, n2, t2] + Sort(p2);
      TerminatedInjective(a, b);
      assert a[0] == b[0] && a[1] == b[1] && a[2] == b[2];
      assert a[3..] == Sort(p1) && b[3..] == Sort(p2);
    }
  }

  // ------------------------------------------------------------------- any components

  // The part cut at its NULs.
  function Pieces(s: string): (ps: seq<string>)
    ensures ps != []
  {
    if NUL !in s then [s]
    else
      var k := FirstNul(s);
      [s[..k]] + Pieces(s[k + 1..])
  }

  function FirstNul(s: string): (k: nat)
    requires NUL in s
    ensures k < |s| && s[k] == NUL && NulFree(s[..k])
  {
    if s[0] == NUL then 0 else 1 + FirstNul(s[1..])
  }

  function AllPieces(parts: seq<string>): seq<string> {
    if parts == [] then [] else Pieces(parts[0]) + AllPieces(parts[1..])
  }

  lemma {:induction false} TerminatedConcat(a: seq<string>, b: seq<string>)
    ensures Terminated(a + b) == Terminated(a) + Terminated(b)
  {
    if a == [] {
      assert a + b == b;
    } else {
      assert (a + b)[1..] == a[1..] + b && (a + b)[0] == a[0];
      TerminatedConcat(a[1..], b);
      var x, y := Terminated(a[1..]), Terminated(b);
      assert a[0] + ([NUL] + (x + y)) == (a[0] + ([NUL] + x)) + y;
    }
  }

  lemma OnePart(s: string)
    ensures Terminated([s]) == s + [NUL]
  {
    assert [s][1..] == [];
    assert s + ([NUL] + "") == s + [NUL];
  }

  lemma {:induction false} PiecesTerminated(s: string)
    ensures AllNulFree(Pieces(s)) && Terminated(Pieces(s)) == s + [NUL]
  {
    if NUL !in s {
      OnePart(s);
    } else {
      hide Terminated, FirstNul;
      var k := FirstNul(s);
      PiecesTerminated(s[k + 1..]);
      TerminatedConcat([s[..k]], Pieces(s[k + 1..]));
      OnePart(s[..k]);
      SplitAtNul(s, k);
    }
  }

  lemma SplitAtNul(s: string, k: nat)
    requires k < |s| && s[k] == NUL
    ensures (s[..k] + [NUL]) + (s[k + 1..] + [NUL]) == s + [NUL]
  {
    assert s == s[..k] + [s[k]] + s[k + 1..];
  }

  lemma {:induction false} AllPiecesTerminated(parts: seq<string>)
    ensures AllNulFree(AllPieces(parts)) && Terminated(AllPieces(parts)) == Terminated(parts)
  {
    if parts != [] {
      hide Pieces;
      PiecesTerminated(parts[0]);
      AllPiecesTerminated(parts[1..]);
      TerminatedConcat(Pieces(parts[0]), AllPieces(parts[1..]));
      var rest := Terminated(parts[1..]);
      assert (parts[0] + [NUL]) + rest == parts[0] + ([NUL] + rest);
    }
  }

  /** For components of any kind: two commits hash the same bytes exactly when cutting their
      parts, paths sorted, at every NUL gives the same list of pieces. */
  lemma SameBytesIffSamePieces(r1: string, n1: string, t1: string, p1: seq<string>,
                               r2: string, n2: string, t2: string, p2: seq<string>)
    ensures Preimage(r1, n1, t1, p1) == Preimage(r2, n2, t2, p2) <==>
      AllPieces([r1, n1, t1] + Sort(p1)) == AllPieces([r2, n2, t2] + Sort(p2))
  {
    hide Terminated, AllPieces, Sort;
    var a, b := [r1, n1, t1] + Sort(p1), [r2, n2, t2] + Sort(p2);
    AllPiecesTerminated(a);
    AllPiecesTerminated(b);
    if Terminated(a) == Terminated(b) {
      TerminatedInjective(AllPieces(a), AllPieces(b));
    }
  }

  // With a NUL inside a component the boundary between namespace and table is lost.
  lemma NulComponentsCollide()
    ensures Preimage("", "a\0b", "c", []) == Preimage("", "a", "b\0c", [])
  {
    HeadTerminated("", "a\0b", "c", []);
    HeadTerminated("", "a", "b\0c", []);
    assert "" + [NUL] + "a\0b" + [NUL] + "c" + [NUL] == "" + [NUL] + "a" + [NUL] + "b\0c" + [NUL];
  }
}

// Cutting a sequence into the fewest consecutive pieces that all fit: taking the
// longest fitting piece each time is optimal whenever every part of a fitting
// piece fits.

module Greedy {
  import opened Bytes

  ghost predicate Hereditary<T(!new)>(fits: seq<T> -> bool) {
    forall s: seq<T>, i, j :: fits(s) && 0 <= i <= j <= |s| ==> fits(s[i..j])
  }

  predicate AllFit<T>(fits: seq<T> -> bool, parts: seq<seq<T>>) {
    forall i :: 0 <= i < |parts| ==> fits(parts[i])
  }

  predicate EachFits<T>(fits: seq<T> -> bool, s: seq<T>) {
    forall i :: 0 <= i < |s| ==> fits([s[i]])
  }

  // The length of the longest fitting start of s that has at least k elements.
  function Longest<T>(fits: seq<T> -> bool, s: seq<T>, k: nat): (n: nat)
    requires k <= |s|
    ensures k <= n <= |s|
    decreases |s| - k
  {
    if k < |s| && fits(s[..k + 1]) then Longest(fits, s, k + 1) else k
  }

  lemma {:induction false} LongestFits<T(!new)>(fits: seq<T> -> bool, s: seq<T>, k: nat)
    requires Hereditary(fits) && k <= |s| && fits(s[..k])
    ensures var n := Longest(fits, s, k);
      fits(s[..n]) && forall m :: n < m <= |s| ==> !fits(s[..m])
    decreases |s| - k
  {
    if k < |s| && fits(s[..k + 1]) {
      LongestFits(fits, s, k + 1);
    } else {
      forall m | k < m <= |s|
        ensures !fits(s[..m])
      {
        assert s[..m][0..k + 1] == s[..k + 1];
      }
    }
  }

  function Pieces<T>(fits: seq<T> -> bool, s: seq<T>): seq<seq<T>>
    decreases |s|
  {
    if s == [] then []
    else
      var k := Longest(fits, s, 1);
      [s[..k]] + Pieces(fits, s[k..])
  }

  lemma {:induction false} PiecesJoin<T>(fits: seq<T> -> bool, s: seq<T>)
    ensures Concat(Pieces(fits, s)) == s
    ensures forall i :: 0 <= i < |Pieces(fits, s)| ==> Pieces(fits, s)[i] != []
    decreases |s|
  {
    if s != [] {
      var k := Longest(fits, s, 1);
      PiecesJoin(fits, s[k..]);
      assert s == s[..k] + s[k..];
    }
  }

  lemma {:induction false} PiecesFit<T(!new)>(fits: seq<T> -> bool, s: seq<T>)
    requires Hereditary(fits) && EachFits(fits, s)
    ensures AllFit(fits, Pieces(fits, s))
    decreases |s|
  {
    if s != [] {
      assert s[..1] == [s[0]];
      LongestFits(fits, s, 1);
      PiecesFit(fits, s[Longest(fits, s, 1)..]);
    }
  }

  // Cutting less text never takes more pieces.
  lemma {:induction false} SuffixNeedsNoMore<T(!new)>(fits: seq<T> -> bool, s: seq<T>, j: nat)
    requires Hereditary(fits) && EachFits(fits, s) && j <= |s|
    ensures |Pieces(fits, s[j..])| <= |Pieces(fits, s)|
    decreases |s|
  {
    if j == |s| || j == 0 {
      assert s[0..] == s;
    } else {
      var k := Longest(fits, s, 1);
      FirstPiece(fits, s);
      if j >= k {
        assert s[k..][j - k..] == s[j..];
        SuffixNeedsNoMore(fits, s[k..], j - k);
      } else {
        var t := s[j..];
        var n := Longest(fits, t, 1);
        FirstPiece(fits, t);
        assert fits(t[..k - j]) by {
          assert s[..k][j..k] == t[..k - j];
        }
        assert t[n..] == s[k..][j + n - k..];
        SuffixNeedsNoMore(fits, s[k..], j + n - k);
      }
    }
  }

  lemma FirstPiece<T(!new)>(fits: seq<T> -> bool, s: seq<T>)
    requires Hereditary(fits) && EachFits(fits, s) && s != []
    ensures var n := Longest(fits, s, 1);
      fits(s[..n]) && (forall m :: n < m <= |s| ==> !fits(s[..m])) && |Pieces(fits, s)| == 1 + |Pieces(fits, s[n..])|
  {
    assert s[..1] == [s[0]];
    LongestFits(fits, s, 1);
  }

  // No other cut into fitting pieces has fewer of them.
  lemma {:induction false} Fewest<T(!new)>(fits: seq<T> -> bool, s: seq<T>, other: seq<seq<T>>)
    requires Hereditary(fits) && EachFits(fits, s) && AllFit(fits, other) && Concat(other) == s
    ensures |Pieces(fits, s)| <= |other|
    decreases |other|
  {
    if s != [] {
      var p, rest := other[0], other[1..];
      assert s == p + Concat(rest);
      if p == [] {
        assert Concat(rest) == s;
        Fewest(fits, s, rest);
      } else {
        assert s[..1] == [s[0]];
        LongestFits(fits, s, 1);
        var k := Longest(fits, s, 1);
        assert s[..|p|] == p;
        var t := s[|p|..];
        assert t == Concat(rest);
        Fewest(fits, t, rest);
        assert s[k..] == t[k - |p|..];
        SuffixNeedsNoMore(fits, t, k - |p|);
      }
    }
  }

  // What a one-pass splitter does: it keeps extending cur and closes it where the next
  // element no longer fits.  That is the optimal first cut of cur + rest.
  lemma CutPays<T(!new)>(fits: seq<T> -> bool, cur: seq<T>, rest: seq<T>)
    requires Hereditary(fits) && cur != [] && fits(cur)
    requires rest != [] ==> !fits(cur + [rest[0]])
    ensures |Pieces(fits, cur + rest)| == 1 + |Pieces(fits, rest)|
  {
    var s := cur + rest;
    assert s[..|cur|] == cur;
    assert cur[0..1] == s[..1];
    LongestFits(fits, s, 1);
    var n := Longest(fits, s, 1);
    if rest != [] {
      assert s[..|cur| + 1] == cur + [rest[0]];
      if n > |cur| {
        PrefixFits(fits, s, n, |cur| + 1);
      }
    }
    assert s[|cur|..] == rest;
  }

  lemma PrefixFits<T(!new)>(fits: seq<T> -> bool, s: seq<T>, n: nat, m: nat)
    requires Hereditary(fits) && m <= n <= |s| && fits(s[..n])
    ensures fits(s[..m])
  {
    assert s[..n][0..m] == s[..m];
  }
}

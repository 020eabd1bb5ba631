/**
 * The rules of a 2048 move on a single line of cells, read from the edge the
 * tiles are pushed towards. A cell holds 0 (empty) or a tile value.
 *
 * `CompressLine` is the `compress` step on one row, `MergeLine` the in-place
 * left-to-right `merge` scan on one row, and `MoveLine` what `move_left` does
 * to a row. `Slide` is an independent reference definition of a 2048 move on
 * the list of tiles, in which every tile takes part in at most one merge; the
 * lemma `MoveLineSlides` shows that the scan-based move agrees with it.
 */
module Lines {

  /** The non-zero entries of `s`, in their original order. */
  function NonZeros(s: seq<int>): (r: seq<int>)
    ensures |r| <= |s|
    ensures forall i :: 0 <= i < |r| ==> r[i] != 0
    decreases |s|
  {
    if s == [] then []
    else if s[0] != 0 then [s[0]] + NonZeros(s[1..])
    else NonZeros(s[1..])
  }

  /** A line of `n` empty cells. */
  function Zeros(n: nat): (r: seq<int>)
    ensures |r| == n
    ensures forall i :: 0 <= i < n ==> r[i] == 0
  {
    seq(n, _ => 0)
  }

  /** `xs` followed by empty cells up to length `n`. */
  function Pad(xs: seq<int>, n: nat): (r: seq<int>)
    requires |xs| <= n
    ensures |r| == n
    ensures forall i :: 0 <= i < |xs| ==> r[i] == xs[i]
    ensures forall i :: |xs| <= i < n ==> r[i] == 0
  {
    xs + Zeros(n - |xs|)
  }

  /** Every empty cell of `s` comes after every tile of `s`. */
  ghost predicate Packed(s: seq<int>) {
    forall i, j :: 0 <= i < j < |s| && s[i] == 0 ==> s[j] == 0
  }

  /** The tiles of a line are all non-zero. */
  ghost predicate AllNonZero(s: seq<int>) {
    forall i :: 0 <= i < |s| ==> s[i] != 0
  }

  function Sum(s: seq<int>): int
    decreases |s|
  {
    if s == [] then 0 else s[0] + Sum(s[1..])
  }

  /** The `compress` step on one line: tiles packed to the front, in order. */
  function CompressLine(s: seq<int>): (r: seq<int>)
    ensures |r| == |s|
  {
    Pad(NonZeros(s), |s|)
  }

  /**
   * The left-to-right `merge` scan over one line. At each column the scan
   * compares the current cell with the next; when they are equal and non-zero
   * it doubles the current cell and empties the next, and moves on by one
   * column, so the emptied cell is the left half of the next comparison.
   */
  function MergeLine(s: seq<int>): (r: seq<int>)
    ensures |r| == |s|
    decreases |s|
  {
    if |s| < 2 then s
    else if s[0] == s[1] && s[0] != 0 then [2 * s[0]] + MergeLine([0] + s[2..])
    else [s[0]] + MergeLine(s[1..])
  }

  /** What `move_left` does to one row: compress, merge, compress. */
  function MoveLine(s: seq<int>): (r: seq<int>)
    ensures |r| == |s|
  {
    CompressLine(MergeLine(CompressLine(s)))
  }

  /**
   * Reference definition of a move on a list of tiles: the first two tiles
   * combine when equal, and the combined tile is not looked at again.
   */
  function Slide(xs: seq<int>): (r: seq<int>)
    ensures |r| <= |xs|
    decreases |xs|
  {
    if |xs| < 2 then xs
    else if xs[0] == xs[1] then [2 * xs[0]] + Slide(xs[2..])
    else [xs[0]] + Slide(xs[1..])
  }

  /** A tile value: 2^k for some k >= 1. */
  predicate IsTileValue(v: int)
    decreases if v < 0 then 0 else v
  {
    v == 2 || (v > 2 && v % 2 == 0 && IsTileValue(v / 2))
  }

  /** Every cell of `s` is empty or holds a tile value. */
  ghost predicate AllTiles(s: seq<int>) {
    forall i :: 0 <= i < |s| ==> s[i] == 0 || IsTileValue(s[i])
  }

  // ---------------------------------------------------------------------
  // NonZeros

  lemma {:induction false} NonZerosAppend(a: seq<int>, b: seq<int>)
    ensures NonZeros(a + b) == NonZeros(a) + NonZeros(b)
    decreases |a|
  {
    if a == [] {
      assert a + b == b;
    } else {
      assert (a + b)[1..] == a[1..] + b;
      NonZerosAppend(a[1..], b);
    }
  }

  lemma {:induction false} NonZerosOfTiles(xs: seq<int>)
    requires AllNonZero(xs)
    ensures NonZeros(xs) == xs
    decreases |xs|
  {
    if xs != [] {
      NonZerosOfTiles(xs[1..]);
    }
  }

  lemma {:induction false} NonZerosOfZeros(n: nat)
    ensures NonZeros(Zeros(n)) == []
  {
    if n > 0 {
      assert Zeros(n)[1..] == Zeros(n - 1);
      NonZerosOfZeros(n - 1);
    }
  }

  /** Padding a list of tiles with empty cells does not change its tiles. */
  lemma NonZerosPad(xs: seq<int>, n: nat)
    requires |xs| <= n && AllNonZero(xs)
    ensures NonZeros(Pad(xs, n)) == xs
  {
    NonZerosAppend(xs, Zeros(n - |xs|));
    NonZerosOfTiles(xs);
    NonZerosOfZeros(n - |xs|);
  }

  /** A line whose every cell is a tile has as many tiles as cells, and back. */
  lemma {:induction false} FullIffAllNonZero(s: seq<int>)
    ensures |NonZeros(s)| == |s| <==> AllNonZero(s)
    decreases |s|
  {
    if s != [] {
      FullIffAllNonZero(s[1..]);
      if s[0] == 0 {
        assert !AllNonZero(s);
      }
      if AllNonZero(s) {
        assert AllNonZero(s[1..]) by {
          forall i | 0 <= i < |s| - 1 ensures s[1..][i] != 0 {
            assert s[1..][i] == s[i + 1];
          }
        }
      }
      if AllNonZero(s[1..]) && s[0] != 0 {
        forall i | 0 <= i < |s| ensures s[i] != 0 {
          if i > 0 { assert s[i] == s[1..][i - 1]; }
        }
      }
    }
  }

  // ---------------------------------------------------------------------
  // compress

  /**
   * `compress` keeps the tiles of the line in their order and leaves every
   * empty cell behind every tile.
   */
  lemma CompressLinePacks(s: seq<int>)
    ensures NonZeros(CompressLine(s)) == NonZeros(s)
    ensures Packed(CompressLine(s))
  {
    var xs := NonZeros(s);
    NonZerosPad(xs, |s|);
    var r := CompressLine(s);
    forall i, j | 0 <= i < j < |r| && r[i] == 0 ensures r[j] == 0 {
      assert i >= |xs|;
    }
  }

  /** Compressing an already compressed line changes nothing. */
  lemma CompressLineIdempotent(s: seq<int>)
    ensures CompressLine(CompressLine(s)) == CompressLine(s)
  {
    CompressLinePacks(s);
  }

  /** A line of tiles only is left as it is by `compress`. */
  lemma CompressLineOfFull(s: seq<int>)
    requires AllNonZero(s)
    ensures CompressLine(s) == s
  {
    NonZerosOfTiles(s);
  }

  // ---------------------------------------------------------------------
  // merge

  /** After a merge at columns 0 and 1, column 1 is empty in the result. */
  lemma MergeLineEmptiesPartner(s: seq<int>)
    requires |s| >= 2 && s[0] == s[1] && s[0] != 0
    ensures MergeLine(s)[0] == 2 * s[0] && MergeLine(s)[1] == 0
  {
    var t := [0] + s[2..];
    if |t| >= 2 {
      assert !(t[0] == t[1] && t[0] != 0);
    }
  }

  /**
   * One merging step of the in-place scan at column `col`: the cells before
   * `col` are final, and what the scan will still do depends only on the
   * cells from `col` on. Doubling `col` and emptying `col + 1` keeps that so.
   */
  lemma MergeScanDouble(s: seq<int>, col: nat)
    requires col + 1 < |s| && s[col] == s[col + 1] && s[col] != 0
    ensures
      var t := s[col := 2 * s[col]][col + 1 := 0];
      t[..col + 1] + MergeLine(t[col + 1..]) == s[..col] + MergeLine(s[col..])
  {
    var u := s[col..];
    assert u[0] == s[col] && u[1] == s[col + 1];
    var m := MergeLine([0] + u[2..]);
    assert MergeLine(u) == [2 * s[col]] + m;
    var t := s[col := 2 * s[col]][col + 1 := 0];
    assert t[..col + 1] == s[..col] + [2 * s[col]];
    assert t[col + 1..] == [0] + u[2..];
    assert (s[..col] + [2 * s[col]]) + m == s[..col] + ([2 * s[col]] + m);
  }

  /** A step of the scan that does not merge at `col` just moves past it. */
  lemma MergeScanSkip(s: seq<int>, col: nat)
    requires col + 1 < |s| && !(s[col] == s[col + 1] && s[col] != 0)
    ensures s[..col + 1] + MergeLine(s[col + 1..]) == s[..col] + MergeLine(s[col..])
  {
    var u := s[col..];
    assert u[0] == s[col] && u[1] == s[col + 1];
    assert s[..col + 1] == s[..col] + [s[col]];
    assert u[1..] == s[col + 1..];
  }

  /** `merge` leaves a line with no equal neighbouring tiles unchanged. */
  lemma {:induction false} MergeLineNoPair(s: seq<int>)
    requires forall i :: 0 <= i < |s| - 1 ==> s[i] == 0 || s[i] != s[i + 1]
    ensures MergeLine(s) == s
    decreases |s|
  {
    if |s| >= 2 {
      MergeLineNoPair(s[1..]);
      assert s == [s[0]] + s[1..];
    }
  }

  /** Each merge turns two cells of value v into one of value 2v. */
  lemma {:induction false} MergeLineSum(s: seq<int>)
    ensures Sum(MergeLine(s)) == Sum(s)
    decreases |s|
  {
    if |s| >= 2 {
      if s[0] == s[1] && s[0] != 0 {
        var t := [0] + s[2..];
        MergeLineSum(t);
        assert ([2 * s[0]] + MergeLine(t))[1..] == MergeLine(t);
        assert t[1..] == s[2..];
        assert s[1..][1..] == s[2..];
      } else {
        MergeLineSum(s[1..]);
        assert ([s[0]] + MergeLine(s[1..]))[1..] == MergeLine(s[1..]);
      }
    }
  }

  /**
   * On a compressed line, merging then dropping the empty cells gives the
   * reference slide of its tiles.
   */
  lemma {:induction false} MergeLineOfPacked(xs: seq<int>, m: nat)
    requires AllNonZero(xs)
    ensures NonZeros(MergeLine(xs + Zeros(m))) == Slide(xs)
    decreases |xs|
  {
    var s := xs + Zeros(m);
    if |xs| == 0 {
      assert s == Zeros(m);
      MergeLineNoPair(s);
      NonZerosOfZeros(m);
    } else if |xs| == 1 {
      if m == 0 {
        assert s == xs;
        NonZerosOfTiles(xs);
      } else {
        assert s[1..] == Zeros(m);
        assert s[0] != s[1];
        MergeLineNoPair(s[1..]);
        NonZerosOfZeros(m);
        assert MergeLine(s) == [xs[0]] + s[1..];
        NonZerosAppend([xs[0]], s[1..]);
      }
    } else if xs[0] == xs[1] {
      var t := [0] + s[2..];
      assert s[2..] == xs[2..] + Zeros(m);
      assert AllNonZero(xs[2..]) by {
        forall i | 0 <= i < |xs| - 2 ensures xs[2..][i] != 0 {
          assert xs[2..][i] == xs[i + 2];
        }
      }
      MergeLineOfPacked(xs[2..], m);
      if |t| >= 2 {
        assert MergeLine(t) == [0] + MergeLine(t[1..]);
      } else {
        assert MergeLine(t) == [0] + MergeLine(t[1..]);
      }
      assert t[1..] == s[2..];
      assert MergeLine(s) == [2 * xs[0]] + ([0] + MergeLine(s[2..]));
      NonZerosAppend([2 * xs[0]], [0] + MergeLine(s[2..]));
      NonZerosAppend([0], MergeLine(s[2..]));
    } else {
      assert s[1..] == xs[1..] + Zeros(m);
      assert AllNonZero(xs[1..]) by {
        forall i | 0 <= i < |xs| - 1 ensures xs[1..][i] != 0 {
          assert xs[1..][i] == xs[i + 1];
        }
      }
      MergeLineOfPacked(xs[1..], m);
      assert MergeLine(s) == [xs[0]] + MergeLine(s[1..]);
      NonZerosAppend([xs[0]], MergeLine(s[1..]));
    }
  }

  // ---------------------------------------------------------------------
  // The reference slide

  lemma {:induction false} SlideOfTiles(xs: seq<int>)
    requires AllNonZero(xs)
    ensures AllNonZero(Slide(xs))
    decreases |xs|
  {
    if |xs| >= 2 {
      if xs[0] == xs[1] {
        assert AllNonZero(xs[2..]) by {
          forall i | 0 <= i < |xs| - 2 ensures xs[2..][i] != 0 {
            assert xs[2..][i] == xs[i + 2];
          }
        }
        SlideOfTiles(xs[2..]);
      } else {
        assert AllNonZero(xs[1..]) by {
          forall i | 0 <= i < |xs| - 1 ensures xs[1..][i] != 0 {
            assert xs[1..][i] == xs[i + 1];
          }
        }
        SlideOfTiles(xs[1..]);
      }
    }
  }

  /**
   * The scan-based move (compress, merge, compress) equals the reference
   * slide of the line's tiles, padded with empty cells. In particular no tile
   * takes part in two merges.
   */
  lemma MoveLineSlides(s: seq<int>)
    ensures MoveLine(s) == Pad(Slide(NonZeros(s)), |s|)
  {
    var xs := NonZeros(s);
    var c := CompressLine(s);
    assert c == xs + Zeros(|s| - |xs|);
    MergeLineOfPacked(xs, |s| - |xs|);
    assert NonZeros(MergeLine(c)) == Slide(xs);
  }

  /** The two examples of a row moved left. */
  lemma MoveLineExamples()
    ensures MoveLine([2, 2, 2, 2]) == [4, 4, 0, 0]
    ensures MoveLine([2, 0, 2, 4]) == [4, 4, 0, 0]
  {
    MoveLineSlides([2, 2, 2, 2]);
    assert NonZeros([2, 2, 2, 2]) == [2, 2, 2, 2];
    assert Slide([2, 2, 2, 2]) == [4, 4] by {
      assert [2, 2, 2, 2][2..] == [2, 2];
      assert Slide([2, 2]) == [4] + Slide([]);
    }
    MoveLineSlides([2, 0, 2, 4]);
    assert NonZeros([2, 0, 2, 4]) == [2, 2, 4] by {
      assert [2, 0, 2, 4][1..] == [0, 2, 4];
      assert [0, 2, 4][1..] == [2, 4];
      assert [2, 4][1..] == [4];
      assert [4][1..] == [];
    }
    assert Slide([2, 2, 4]) == [4, 4] by {
      assert [2, 2, 4][2..] == [4];
    }
  }

  // ---------------------------------------------------------------------
  // What a move keeps

  lemma {:induction false} SumAppend(a: seq<int>, b: seq<int>)
    ensures Sum(a + b) == Sum(a) + Sum(b)
    decreases |a|
  {
    if a == [] {
      assert a + b == b;
    } else {
      assert (a + b)[1..] == a[1..] + b;
      SumAppend(a[1..], b);
    }
  }

  lemma {:induction false} SumNonZeros(s: seq<int>)
    ensures Sum(NonZeros(s)) == Sum(s)
    decreases |s|
  {
    if s != [] {
      SumNonZeros(s[1..]);
      if s[0] != 0 {
        assert ([s[0]] + NonZeros(s[1..]))[1..] == NonZeros(s[1..]);
      }
    }
  }

  lemma {:induction false} SumZeros(n: nat)
    ensures Sum(Zeros(n)) == 0
  {
    if n > 0 {
      assert Zeros(n)[1..] == Zeros(n - 1);
      SumZeros(n - 1);
    }
  }

  lemma CompressLineSum(s: seq<int>)
    ensures Sum(CompressLine(s)) == Sum(s)
  {
    var xs := NonZeros(s);
    SumAppend(xs, Zeros(|s| - |xs|));
    SumZeros(|s| - |xs|);
    SumNonZeros(s);
  }

  /** A move keeps the sum of the line's values. */
  lemma MoveLineSum(s: seq<int>)
    ensures Sum(MoveLine(s)) == Sum(s)
  {
    CompressLineSum(s);
    MergeLineSum(CompressLine(s));
    CompressLineSum(MergeLine(CompressLine(s)));
  }

  /** A move never makes more tiles than the line had, and packs them. */
  lemma MoveLineTiles(s: seq<int>)
    ensures |NonZeros(MoveLine(s))| <= |NonZeros(s)|
    ensures NonZeros(MoveLine(s)) == Slide(NonZeros(s))
    ensures Packed(MoveLine(s))
  {
    var xs := NonZeros(s);
    MoveLineSlides(s);
    NonZerosOfTiles(xs);
    SlideOfTiles(xs);
    NonZerosPad(Slide(xs), |s|);
    CompressLinePacks(MergeLine(CompressLine(s)));
  }

  lemma DoubleTile(v: int)
    requires IsTileValue(v)
    ensures IsTileValue(2 * v)
  {
    assert (2 * v) / 2 == v;
  }

  lemma {:induction false} SlideKeepsTiles(xs: seq<int>)
    requires AllTiles(xs)
    ensures AllTiles(Slide(xs))
    decreases |xs|
  {
    if |xs| >= 2 {
      if xs[0] == xs[1] {
        assert AllTiles(xs[2..]) by {
          forall i | 0 <= i < |xs| - 2 ensures xs[2..][i] == 0 || IsTileValue(xs[2..][i]) {
            assert xs[2..][i] == xs[i + 2];
          }
        }
        SlideKeepsTiles(xs[2..]);
        if xs[0] != 0 { DoubleTile(xs[0]); }
        var r := [2 * xs[0]] + Slide(xs[2..]);
        forall i | 0 <= i < |r| ensures r[i] == 0 || IsTileValue(r[i]) {
          if i > 0 { assert r[i] == Slide(xs[2..])[i - 1]; }
        }
      } else {
        assert AllTiles(xs[1..]) by {
          forall i | 0 <= i < |xs| - 1 ensures xs[1..][i] == 0 || IsTileValue(xs[1..][i]) {
            assert xs[1..][i] == xs[i + 1];
          }
        }
        SlideKeepsTiles(xs[1..]);
        var r := [xs[0]] + Slide(xs[1..]);
        forall i | 0 <= i < |r| ensures r[i] == 0 || IsTileValue(r[i]) {
          if i > 0 { assert r[i] == Slide(xs[1..])[i - 1]; }
        }
      }
    }
  }

  lemma {:induction false} NonZerosKeepsTiles(s: seq<int>)
    requires AllTiles(s)
    ensures AllTiles(NonZeros(s))
    decreases |s|
  {
    if s != [] {
      assert AllTiles(s[1..]) by {
        forall i | 0 <= i < |s| - 1 ensures s[1..][i] == 0 || IsTileValue(s[1..][i]) {
          assert s[1..][i] == s[i + 1];
        }
      }
      NonZerosKeepsTiles(s[1..]);
      if s[0] != 0 {
        var r := [s[0]] + NonZeros(s[1..]);
        forall i | 0 <= i < |r| ensures r[i] == 0 || IsTileValue(r[i]) {
          if i > 0 { assert r[i] == NonZeros(s[1..])[i - 1]; }
        }
      }
    }
  }

  /** A move turns a line of tile values into a line of tile values. */
  lemma MoveLineKeepsTiles(s: seq<int>)
    requires AllTiles(s)
    ensures AllTiles(MoveLine(s))
  {
    MoveLineSlides(s);
    NonZerosKeepsTiles(s);
    SlideKeepsTiles(NonZeros(s));
    var xs := Slide(NonZeros(s));
    var r := Pad(xs, |s|);
    forall i | 0 <= i < |s| ensures r[i] == 0 || IsTileValue(r[i]) {
      if i < |xs| { assert r[i] == xs[i]; }
    }
  }

  /**
   * A full line that is still full after the move was not changed by it:
   * a move either leaves a full line alone or frees a cell in it.
   */
  lemma {:induction false} MergeLineFull(s: seq<int>)
    requires AllNonZero(s)
    requires |NonZeros(MergeLine(s))| == |s|
    ensures MergeLine(s) == s
    decreases |s|
  {
    if |s| >= 2 {
      assert AllNonZero(s[1..]) by {
        forall i | 0 <= i < |s| - 1 ensures s[1..][i] != 0 {
          assert s[1..][i] == s[i + 1];
        }
      }
      if s[0] == s[1] {
        var t := [0] + s[2..];
        NonZerosAppend([2 * s[0]], MergeLine(t));
        assert false;
      } else {
        NonZerosAppend([s[0]], MergeLine(s[1..]));
        MergeLineFull(s[1..]);
        assert s == [s[0]] + s[1..];
      }
    }
  }

  lemma MoveLineFull(s: seq<int>)
    requires AllNonZero(s)
    requires AllNonZero(MoveLine(s))
    ensures MoveLine(s) == s
  {
    CompressLineOfFull(s);
    var m := MergeLine(s);
    CompressLinePacks(m);
    FullIffAllNonZero(MoveLine(s));
    FullIffAllNonZero(s);
    MergeLineFull(s);
  }

  /** No two neighbouring entries of the line are equal. */
  predicate NoPair(s: seq<int>) {
    forall i :: 0 <= i < |s| - 1 ==> s[i] != s[i + 1]
  }

  /** A line the reference slide does not shorten has no two equal neighbours. */
  lemma {:induction false} SlideFullNoPair(xs: seq<int>)
    requires |Slide(xs)| == |xs|
    ensures NoPair(xs)
    decreases |xs|
  {
    if |xs| >= 2 {
      if xs[0] == xs[1] {
        assert false;
      } else {
        SlideFullNoPair(xs[1..]);
        assert forall i :: 1 <= i < |xs| - 1 ==> xs[i] == xs[1..][i - 1];
      }
    }
  }

  /** A full line that a move leaves unchanged has no two equal neighbours. */
  lemma MoveLineFixedNoPair(s: seq<int>)
    requires AllNonZero(s) && MoveLine(s) == s
    ensures NoPair(s)
  {
    if |s| > 0 {
      MoveLineSlides(s);
      NonZerosOfTiles(s);
      var k := |s| - 1;
      assert s[k] != 0;
      assert Pad(Slide(s), |s|)[k] == s[k];
      SlideFullNoPair(s);
    }
  }
}

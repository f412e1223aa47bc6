/**
 * The index logic of the OBJ export of NoiseMap::toOBJ: vertex records in
 * row-major order and the quad faces of the face loop, which depends on the
 * width only. Text formatting and the output file are not modelled; the
 * export is a sequence of records.
 */
module Mesh {
  import opened Arith

  /** One `v x elevation y` record of the vertex block. */
  datatype Vertex = Vertex(x: int, elev: real, y: int)

  /** One `f a b c d` record of the face block: four 1-based vertex indices. */
  datatype Face = Face(a: int, b: int, c: int, d: int)

  /** The quad written for top-left vertex i in rows of w vertices: i, i+1, i+w+1, i+w. */
  function Quad(w: int, i: int): Face
  {
    Face(i, i + 1, i + w + 1, i + w)
  }

  /** The quad with top-left cell (x, y) joins that cell, its right neighbour, and the two cells below them. */
  lemma QuadCorners(w: int, x: int, y: int)
    requires w >= 2 && 0 <= x < w - 1 && y >= 0
    ensures var f := Quad(w, y * w + x + 1);
      (f.a - 1) % w == x && (f.a - 1) / w == y &&
      (f.b - 1) % w == x + 1 && (f.b - 1) / w == y &&
      (f.c - 1) % w == x + 1 && (f.c - 1) / w == y + 1 &&
      (f.d - 1) % w == x && (f.d - 1) / w == y + 1
  {
    DivModOf(y * w + x, w, y, x);
    DivModOf(y * w + x + 1, w, y, x + 1);
    DivModOf(y * w + x + w + 1, w, y + 1, x + 1);
    DivModOf(y * w + x + w, w, y + 1, x);
  }

  /** The face loop writes a quad at index i: i passes the cut-off and is not a last-column vertex. */
  predicate Emits(w: int, i: int): (b: bool)
    requires w >= 1
    ensures b ==> 1 <= i && Quad(w, i).c <= w * w
    ensures i % w == 0 ==> !b
  {
    1 <= i && i + w < w * w && i % w != 0
  }

  /** Every index of f lies in [1, n]. */
  predicate IndicesWithin(f: Face, n: int)
  {
    1 <= f.a <= n && 1 <= f.b <= n && 1 <= f.c <= n && 1 <= f.d <= n
  }

  /** Top-left index of the j-th emitted face: slot j is column j % (w-1) of quad row j / (w-1). */
  function TopLeft(w: int, j: int): int
    requires w >= 2 && j >= 0
  {
    (j / (w - 1)) * w + j % (w - 1) + 1
  }

  /** Position in the face block of the face whose top-left index is i; inverse of TopLeft. */
  function Slot(w: int, i: int): int
    requires w >= 2
  {
    ((i - 1) / w) * (w - 1) + (i - 1) % w
  }

  /** The face block for rows of w vertices, given in closed form: one quad per interior 2x2 block of a w x w grid. */
  function FaceList(w: int): (fs: seq<Face>)
    requires w >= 1
    ensures |fs| == (w - 1) * (w - 1)
  {
    if w < 2 then []
    else seq((w - 1) * (w - 1), j requires 0 <= j < (w - 1) * (w - 1) => Quad(w, TopLeft(w, j)))
  }

  /** The face loop of toOBJ: i runs from 1 to w*w, last-column indices are skipped, and the loop stops at the first i with i + w >= w*w. */
  method EmitFaces(width: int) returns (fs: seq<Face>)
    requires width >= 1
    ensures fs == FaceList(width)
  {
    fs := [];
    for i := 1 to width * width + 1
      invariant i == 1 || i + width <= width * width
      invariant |fs| == (i - 1) - (i - 1) / width
      invariant forall j :: 0 <= j < |fs| ==> width >= 2 && fs[j] == Quad(width, TopLeft(width, j))
    {
      if i + width < width * width {
        CountStep(width, i);
        if i % width == 0 {
          continue;
        } else {
          fs := fs + [Quad(width, i)];
        }
      } else {
        FinalCount(width, i);
        assert fs == FaceList(width);
        break;
      }
    }
  }

  /** How the number of faces written so far, (i-1) - (i-1)/w, moves when index i is processed. */
  lemma CountStep(w: int, i: int)
    requires w >= 1 && i >= 1
    ensures i % w == 0 ==> i - i / w == (i - 1) - (i - 1) / w
    ensures i % w != 0 ==> w >= 2 && i - i / w == (i - 1) - (i - 1) / w + 1
    ensures i % w != 0 ==> TopLeft(w, (i - 1) - (i - 1) / w) == i
  {
    var q, r := (i - 1) / w, (i - 1) % w;
    if i % w == 0 {
      DivModOf(i - 1, w, i / w - 1, w - 1);
    } else {
      NotLastColumn(w, i);
      assert (i - 1) - q == q * (w - 1) + r;
      DivModOf(q * (w - 1) + r, w - 1, q, r);
    }
  }

  /** When the cut-off first fails, exactly (w-1)^2 faces have been written. */
  lemma FinalCount(w: int, i: int)
    requires w >= 1 && i >= 1
    requires i == 1 || i + w <= w * w
    requires i + w >= w * w
    ensures (i - 1) - (i - 1) / w == (w - 1) * (w - 1)
  {
    if w >= 2 {
      MulAtLeast(w, 2);
      assert w * w == w * 2 + w * (w - 2);
      assert i + w == w * w;
      DivModOf(i - 1, w, w - 2, w - 1);
    }
  }

  /** Slot j of the face block holds a quad whose top-left index the loop emits, and Slot recovers j. */
  lemma {:induction false} TopLeftEmits(w: int, j: int)
    requires w >= 2 && 0 <= j < (w - 1) * (w - 1)
    ensures Emits(w, TopLeft(w, j))
    ensures Slot(w, TopLeft(w, j)) == j
  {
    var q, r := j / (w - 1), j % (w - 1);
    if q >= w - 1 {
      MulMono(w - 1, q, w - 1);
      assert false;
    }
    var i := q * w + r + 1;
    assert i == TopLeft(w, j);
    DivModOf(i - 1, w, q, r);
    DivModOf(i, w, q, r + 1);
    MulMono(q + 1, w - 1, w);
  }

  /** Every index the loop emits at is the top-left index of a slot of the face block. */
  lemma {:induction false} SlotTopLeft(w: int, i: int)
    requires w >= 1 && Emits(w, i)
    ensures w >= 2
    ensures 0 <= Slot(w, i) < (w - 1) * (w - 1)
    ensures TopLeft(w, Slot(w, i)) == i
  {
    NotLastColumn(w, i);
    var q, r := (i - 1) / w, (i - 1) % w;
    DivModSplit(i - 1, w);
    CutoffRow(w, i);
    SlotBelow(w, q, r);
    DivModOf(q * (w - 1) + r, w - 1, q, r);
    assert TopLeft(w, q * (w - 1) + r) == q * w + r + 1;
  }

  /** An index that passes the cut-off lies in one of the first w-1 rows. */
  lemma CutoffRow(w: int, i: int)
    requires w >= 2 && i >= 1 && i + w < w * w
    ensures (i - 1) / w <= w - 2
  {
    assert (w - 1) * w == w * w - w;
    RowBelowLast(w, i - 1);
  }

  /** Quad row q and column r of a w x w grid give a slot below (w-1)^2. */
  lemma SlotBelow(w: int, q: int, r: int)
    requires 0 <= q <= w - 2 && 0 <= r <= w - 2
    ensures 0 <= q * (w - 1) + r < (w - 1) * (w - 1)
  {
    MulMono(q, w - 2, w - 1);
    assert (w - 2) * (w - 1) + (w - 1) == (w - 1) * (w - 1);
  }

  /** A 0-based index below (w-1)*w lies in one of the first w-1 rows. */
  lemma RowBelowLast(w: int, n: int)
    requires w >= 1 && 0 <= n < (w - 1) * w
    ensures n / w < w - 1
  {
    if n / w >= w - 1 {
      MulMono(w - 1, n / w, w);
      assert false;
    }
  }

  /** An index i that is not a multiple of w sits in the same row as i - 1 and is not the row's last vertex. */
  lemma NotLastColumn(w: int, i: int)
    requires w >= 1 && i >= 1 && i % w != 0
    ensures w >= 2 && (i - 1) % w < w - 1
    ensures i / w == (i - 1) / w && i % w == (i - 1) % w + 1
  {
    var q, r := (i - 1) / w, (i - 1) % w;
    if r == w - 1 {
      DivModOf(i, w, q + 1, 0);
      assert false;
    }
    DivModOf(i, w, q, r + 1);
  }

  /** The face block holds a quad with top-left index i exactly when the loop's two tests let i through. */
  lemma FaceListEmitsExactly(w: int, i: int)
    requires w >= 1
    ensures Emits(w, i) <==> exists j :: 0 <= j < |FaceList(w)| && FaceList(w)[j].a == i
  {
    if Emits(w, i) {
      SlotTopLeft(w, i);
      var j := Slot(w, i);
      assert FaceList(w)[j].a == i;
    } else {
      forall j | 0 <= j < |FaceList(w)|
        ensures FaceList(w)[j].a != i
      {
        TopLeftEmits(w, j);
      }
    }
  }

  /** Faces appear in strictly increasing order of their top-left index. */
  lemma FaceListIncreasing(w: int, j: int, k: int)
    requires w >= 1 && 0 <= j < k < |FaceList(w)|
    ensures FaceList(w)[j].a < FaceList(w)[k].a
  {
    TopLeftIncreasing(w, j, k);
  }

  /** TopLeft is strictly increasing in the slot. */
  lemma TopLeftIncreasing(w: int, j: int, k: int)
    requires w >= 2 && 0 <= j < k
    ensures TopLeft(w, j) < TopLeft(w, k)
  {
    var qj, rj := j / (w - 1), j % (w - 1);
    var qk, rk := k / (w - 1), k % (w - 1);
    DivModSplit(j, w - 1);
    DivModSplit(k, w - 1);
    if qj > qk {
      MulMono(qk + 1, qj, w - 1);
      assert false;
    } else if qj < qk {
      MulMono(qj + 1, qk, w);
    } else {
      assert rj < rk;
    }
  }

  /** Each face lies inside one 2x2 block: top edge within one row, bottom edge exactly one row below, never wrapping past a last column, all indices in [1, w*w]. */
  lemma FaceWithinRows(w: int, j: int)
    requires w >= 1 && 0 <= j < |FaceList(w)|
    ensures IndicesWithin(FaceList(w)[j], w * w)
    ensures (FaceList(w)[j].a - 1) % w < w - 1
    ensures (FaceList(w)[j].a - 1) / w == (FaceList(w)[j].b - 1) / w
    ensures (FaceList(w)[j].d - 1) / w == (FaceList(w)[j].a - 1) / w + 1
    ensures (FaceList(w)[j].c - 1) / w == (FaceList(w)[j].a - 1) / w + 1
  {
    TopLeftEmits(w, j);
    var i := FaceList(w)[j].a;
    NotLastColumn(w, i);
    var q, r := (i - 1) / w, (i - 1) % w;
    DivModOf(i + w - 1, w, q + 1, r);
    DivModOf(i + w, w, q + 1, r + 1);
  }

  /** On a square grid every face index names one of the w*h vertices. */
  lemma SquareFacesWithinVertices(w: int, h: int)
    requires w >= 1 && w == h
    ensures forall j :: 0 <= j < |FaceList(w)| ==> IndicesWithin(FaceList(w)[j], w * h)
  {
    forall j | 0 <= j < |FaceList(w)|
      ensures IndicesWithin(FaceList(w)[j], w * h)
    {
      FaceWithinRows(w, j);
    }
  }

  /** On a grid wider than tall the last face refers to vertex w*w, beyond the w*h vertices written. */
  lemma WideGridOverflows(w: int, h: int)
    requires 1 <= h < w
    ensures |FaceList(w)| > 0
    ensures FaceList(w)[|FaceList(w)| - 1].c == w * w > w * h
  {
    MulAtLeast(w - 1, w - 1);
    var j := (w - 1) * (w - 1) - 1;
    assert j == (w - 2) * (w - 1) + (w - 2);
    DivModOf(j, w - 1, w - 2, w - 2);
    assert TopLeft(w, j) == (w - 2) * w + (w - 1);
    MulStrict(h, w, w);
  }

  /** The face count equals the (w-1)*(h-1) quads of a w x h grid only when w == h or w == 1. */
  lemma FaceCountVersusGrid(w: int, h: int)
    requires w >= 1 && h >= 1
    ensures |FaceList(w)| == (w - 1) * (h - 1) <==> (w == 1 || w == h)
    ensures 2 <= w < h ==> |FaceList(w)| < (w - 1) * (h - 1)
  {
    if 2 <= w < h {
      MulStrict(w - 1, h - 1, w - 1);
    }
  }

  /** Width 1 writes no face; width 2 writes the single face `1 2 4 3`. */
  lemma SmallWidths()
    ensures FaceList(1) == []
    ensures FaceList(2) == [Face(1, 2, 4, 3)]
  {
  }

  /** Cell (x, y) is vertex record y*w + x (0-based), so its 1-based OBJ index is y*w + x + 1. */
  lemma CellIndex(w: int, h: int, x: int, y: int)
    requires 0 <= x < w && 0 <= y < h
    ensures 0 <= y * w + x < w * h
    ensures (y * w + x) % w == x && (y * w + x) / w == y
  {
    DivModOf(y * w + x, w, y, x);
    MulMono(y + 1, h, w);
  }

  /** Every vertex record k < w*h comes from the cell (k % w, k / w) of the grid. */
  lemma IndexCell(w: int, h: int, k: int)
    requires w >= 1 && 0 <= k < w * h
    ensures 0 <= k % w < w && 0 <= k / w < h
    ensures (k / w) * w + k % w == k
  {
    if k / w >= h {
      MulMono(h, k / w, w);
      assert false;
    }
  }
}

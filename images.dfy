/** Image tensors of shape batch × height × width × channel, and the slicing,
    concatenation and fill operations the image nodes are built from. */
module Images {

  /** A tensor of shape (bs, h, w, c) laid out as nested sequences. The sizes are
      kept beside the data so that an empty batch still has a height, a width and
      a channel count. */
  datatype Grid<T> = Grid(bs: nat, h: nat, w: nat, c: nat, px: seq<seq<seq<seq<T>>>>)
  {
    predicate WellShaped() {
      && |px| == bs
      && (forall b :: 0 <= b < bs ==> |px[b]| == h)
      && (forall b, i :: 0 <= b < bs && 0 <= i < h ==> |px[b][i]| == w)
      && (forall b, i, j :: 0 <= b < bs && 0 <= i < h && 0 <= j < w ==> |px[b][i][j]| == c)
    }
  }

  /** A tensor whose data has the shape its sizes announce. */
  type Image<T> = g: Grid<T> | g.WellShaped() witness Grid(0, 0, 0, 0, [])

  /** `small` lies inside `big` with its top-left corner at row `di`, column `dj`:
      same batch and channel counts, and every pixel of `small` is the pixel of
      `big` it covers. */
  ghost predicate Embedded<T>(small: Image<T>, big: Image<T>, di: int, dj: int) {
    && small.bs == big.bs && small.c == big.c
    && 0 <= di && di + small.h <= big.h
    && 0 <= dj && dj + small.w <= big.w
    && forall b, i, j, k :: 0 <= b < small.bs && 0 <= i < small.h && 0 <= j < small.w && 0 <= k < small.c ==>
         small.px[b][i][j][k] == big.px[b][di + i][dj + j][k]
  }

  /** Every pixel of `x` outside the window of `hh` rows and `ww` columns whose
      top-left corner is at (`di`, `dj`) holds the value `v`. */
  ghost predicate ConstantOutside<T>(x: Image<T>, di: int, dj: int, hh: nat, ww: nat, v: T) {
    forall b, i, j, k ::
      && 0 <= b < x.bs && 0 <= i < x.h && 0 <= j < x.w && 0 <= k < x.c
      && !(di <= i < di + hh && dj <= j < dj + ww)
      ==> x.px[b][i][j][k] == v
  }

  /** `x[:, lo:hi, :, :]` */
  function Rows<T>(x: Image<T>, lo: nat, hi: nat): (r: Image<T>)
    requires lo <= hi <= x.h
    ensures r.bs == x.bs && r.h == hi - lo && r.w == x.w && r.c == x.c
    ensures Embedded(r, x, lo, 0)
  {
    Grid(x.bs, hi - lo, x.w, x.c, seq(x.bs, b requires 0 <= b < x.bs => x.px[b][lo..hi]))
  }

  /** `x[:, :, lo:hi, :]` */
  function Cols<T>(x: Image<T>, lo: nat, hi: nat): (r: Image<T>)
    requires lo <= hi <= x.w
    ensures r.bs == x.bs && r.h == x.h && r.w == hi - lo && r.c == x.c
    ensures Embedded(r, x, 0, lo)
  {
    Grid(x.bs, x.h, hi - lo, x.c,
      seq(x.bs, b requires 0 <= b < x.bs =>
        seq(x.h, i requires 0 <= i < x.h => x.px[b][i][lo..hi])))
  }

  /** `torch.cat((x, y), dim=1)`: `y` stacked below `x`. */
  function CatRows<T>(x: Image<T>, y: Image<T>): (r: Image<T>)
    requires x.bs == y.bs && x.w == y.w && x.c == y.c
    ensures r.h == x.h + y.h && r.w == x.w
    ensures Embedded(x, r, 0, 0) && Embedded(y, r, x.h, 0)
  {
    Grid(x.bs, x.h + y.h, x.w, x.c, seq(x.bs, b requires 0 <= b < x.bs => x.px[b] + y.px[b]))
  }

  /** `torch.cat((x, y), dim=2)`: `y` placed to the right of `x`. */
  function CatCols<T>(x: Image<T>, y: Image<T>): (r: Image<T>)
    requires x.bs == y.bs && x.h == y.h && x.c == y.c
    ensures r.h == x.h && r.w == x.w + y.w
    ensures Embedded(x, r, 0, 0) && Embedded(y, r, 0, x.w)
  {
    Grid(x.bs, x.h, x.w + y.w, x.c,
      seq(x.bs, b requires 0 <= b < x.bs =>
        seq(x.h, i requires 0 <= i < x.h => x.px[b][i] + y.px[b][i])))
  }

  /** `torch.ones((bs, h, w, c)) * v`: every pixel holds `v`. */
  function Filled<T>(bs: nat, h: nat, w: nat, c: nat, v: T): (r: Image<T>)
    ensures r.bs == bs && r.h == h && r.w == w && r.c == c
    ensures ConstantOutside(r, 0, 0, 0, 0, v)
  {
    Grid(bs, h, w, c, seq(bs, _ => seq(h, _ => seq(w, _ => seq(c, _ => v)))))
  }

  /** Two tensors of the same shape that agree on every pixel are equal. */
  lemma Extensional<T>(x: Image<T>, y: Image<T>)
    requires x.h == y.h && x.w == y.w
    requires Embedded(x, y, 0, 0)
    ensures x == y
  {
    forall b | 0 <= b < x.bs
      ensures x.px[b] == y.px[b]
    {
      forall i | 0 <= i < x.h
        ensures x.px[b][i] == y.px[b][i]
      {
        forall j | 0 <= j < x.w
          ensures x.px[b][i][j] == y.px[b][i][j]
        {
          assert forall k :: 0 <= k < x.c ==> x.px[b][i][j][k] == y.px[b][i][j][k];
        }
      }
    }
  }

  /** A window of a window is a window of the whole: offsets add up to `di`, `dj`. */
  lemma EmbeddedTrans<T>(a: Image<T>, b: Image<T>, c: Image<T>, ai: int, aj: int, bi: int, bj: int, di: int, dj: int)
    requires Embedded(a, b, ai, aj) && Embedded(b, c, bi, bj)
    requires di == bi + ai && dj == bj + aj
    ensures Embedded(a, c, di, dj)
  {
    forall n, i, j, k | 0 <= n < a.bs && 0 <= i < a.h && 0 <= j < a.w && 0 <= k < a.c
      ensures a.px[n][i][j][k] == c.px[n][di + i][dj + j][k]
    {
      assert a.px[n][i][j][k] == b.px[n][ai + i][aj + j][k];
    }
  }

  /** If `a` and `c` both lie inside `b`, and `a`'s window lies within `c`'s,
      then `a` lies inside `c`, offset by the difference `di`, `dj` of the corners. */
  lemma EmbeddedWithin<T>(a: Image<T>, c: Image<T>, b: Image<T>, ai: int, aj: int, ci: int, cj: int, di: int, dj: int)
    requires Embedded(a, b, ai, aj) && Embedded(c, b, ci, cj)
    requires di == ai - ci && dj == aj - cj
    requires ci <= ai && ai + a.h <= ci + c.h
    requires cj <= aj && aj + a.w <= cj + c.w
    ensures Embedded(a, c, di, dj)
  {
    forall n, i, j, k | 0 <= n < a.bs && 0 <= i < a.h && 0 <= j < a.w && 0 <= k < a.c
      ensures a.px[n][i][j][k] == c.px[n][di + i][dj + j][k]
    {
      assert a.px[n][i][j][k] == b.px[n][ai + i][aj + j][k];
      assert c.px[n][di + i][dj + j][k] == b.px[n][ci + (di + i)][cj + (dj + j)][k];
    }
  }
}

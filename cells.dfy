/** The order in which the importers visit a box of cells: y outermost, then
    z, then x, with cell (x, y, z) stored at index `x + z*w + y*w*l` of the
    flat block array (SchemToBCF.hpp, LitematicToBCF.hpp, the `fill` command
    of McfunctionToBCF.hpp). */
module Cells {
  import opened Bits

  /** The flat index of cell (x, y, z) in a box `w` wide and `l` long. */
  function Index(x: int, y: int, z: int, w: int, l: int): int {
    x + z * w + y * w * l
  }

  /** The cell at flat index `k`. */
  function CellAt(k: nat, w: nat, l: nat): (int, int, int)
    requires w > 0 && l > 0
  {
    (k % w, k / (w * l), (k / w) % l)
  }

  lemma IndexRegroup(x: int, y: int, z: int, w: int, l: int)
    ensures Index(x, y, z, w, l) == w * (z + y * l) + x
    ensures Index(x, y, z, w, l) == (w * l) * y + (x + z * w)
  {
    assert w * (z + y * l) == w * z + w * (y * l);
    assert w * (y * l) == y * w * l;
    assert (w * l) * y == y * w * l;
  }

  lemma RowInLayer(x: int, z: int, w: int, l: int)
    requires 0 <= x < w && 0 <= z < l
    ensures 0 <= x + z * w < w * l
  {
    assert z * w <= (l - 1) * w;
    assert (l - 1) * w == w * l - w;
  }

  /** A cell inside the box is found again at its own index. */
  lemma CellOfIndex(x: int, y: int, z: int, w: nat, l: nat)
    requires 0 <= x < w && 0 <= z < l && y >= 0
    ensures Index(x, y, z, w, l) >= 0
    ensures CellAt(Index(x, y, z, w, l), w, l) == (x, y, z)
  {
    var k := Index(x, y, z, w, l);
    var q := z + y * l;
    IndexRegroup(x, y, z, w, l);
    RowInLayer(x, z, w, l);
    assert y * l >= 0;
    DivModUnique(k, w, q, x);
    DivModUnique(q, l, y, z);
    DivModUnique(k, w * l, y, x + z * w);
  }

  lemma Compose(k: int, w: int, l: int, q: int, x: int, y: int, z: int)
    requires k == w * q + x && q == l * y + z
    ensures Index(x, y, z, w, l) == k
  {
    IndexRegroup(x, y, z, w, l);
    assert y * l == l * y;
  }

  /** Every index names a cell of the box, and that cell's index is `k`. */
  lemma CellAtIndex(k: nat, w: nat, l: nat)
    requires w > 0 && l > 0
    ensures var c := CellAt(k, w, l);
            0 <= c.0 < w && c.1 >= 0 && 0 <= c.2 < l && Index(c.0, c.1, c.2, w, l) == k
  {
    var q := k / w;
    var x := k % w;
    var z := q % l;
    var y := q / l;
    assert k == w * q + x;
    assert q == l * y + z;
    Compose(k, w, l, q, x, y, z);
    CellOfIndex(x, y, z, w, l);
  }

  /** The next index along a row, and the first index of the next row or
      layer. */
  lemma IndexStep(x: int, y: int, z: int, w: int, l: int)
    ensures Index(x, y, z, w, l) + 1 == Index(x + 1, y, z, w, l)
    ensures Index(w, y, z, w, l) == Index(0, y, z + 1, w, l)
    ensures Index(0, y, l, w, l) == Index(0, y + 1, 0, w, l)
  {
    assert (z + 1) * w == z * w + w;
    assert (y + 1) * w * l == y * w * l + w * l;
    assert l * w == w * l;
  }

  /** The walk starts at index 0 and ends at the volume of the box. */
  lemma BoxEnds(w: int, h: int, l: int)
    ensures Index(0, 0, 0, w, l) == 0
    ensures Index(0, h, 0, w, l) == w * h * l
  {
    assert h * w * l == w * h * l;
  }

  /** A cell inside a box `h` high has an index below the box's volume. */
  lemma IndexInBox(x: int, y: int, z: int, w: int, h: int, l: int)
    requires 0 <= x < w && 0 <= y < h && 0 <= z < l
    ensures 0 <= Index(x, y, z, w, l) < w * h * l
  {
    IndexRegroup(x, y, z, w, l);
    RowInLayer(x, z, w, l);
    LayerBelow(w * l, y, h);
    assert (w * l) * h == w * h * l;
  }

  lemma LayerBelow(p: int, y: int, h: int)
    requires p > 0 && 0 <= y < h
    ensures 0 <= p * y && p * y + p <= p * h
  {
    assert p * h - p * y == p * (h - y);
    MulAtLeast(p, h - y);
  }

  /** An index below the volume belongs to a cell below the top. */
  lemma BoxOfIndex(x: int, y: int, z: int, w: int, h: int, l: int)
    requires 0 <= x < w && 0 <= z < l && y >= 0 && h >= 0
    requires Index(x, y, z, w, l) < w * h * l
    ensures y < h
  {
    IndexRegroup(x, y, z, w, l);
    RowInLayer(x, z, w, l);
    assert (w * l) * h == w * h * l;
    if y >= h {
      MulMono(w * l, h, y);
    }
  }

  lemma MulMono(p: int, a: int, b: int)
    requires p >= 0 && a <= b
    ensures p * a <= p * b
  {
    assert p * b - p * a == p * (b - a);
  }
}

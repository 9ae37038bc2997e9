// Machine integer ranges and the optional value shared by every module.
module Common {

  const TWO32: int := 0x1_0000_0000

  type Uint16 = x: int | 0 <= x < 0x1_0000
  type Uint32 = x: int | 0 <= x < TWO32

  datatype Option<+T> = None | Some(value: T)

  function Min(a: int, b: int): int {
    if a < b then a else b
  }

  // ---------------------------------------------------------------- products

  lemma {:induction false} Distribute(x: int, y: int)
    ensures (x + 1) * y == x * y + y
  {
  }

  lemma {:induction false} ProductMonotone(x: int, y: int, z: int)
    requires x <= y && z >= 0
    ensures x * z <= y * z
  {
  }

  lemma {:induction false} QuotientAtLeast(n: nat, w: int, total: int)
    requires w > 0 && n * w <= total
    ensures n <= total / w
  {
    var q, r := total / w, total % w;
    assert total == q * w + r && r < w;
    if q < n {
      ProductMonotone(q + 1, n, w);
      Distribute(q, w);
      assert false;
    }
  }

  lemma {:induction false} QuotientBelow(n: int, w: int, total: int)
    requires w > 0 && total < n * w
    ensures total / w < n
  {
    var q := total / w;
    assert total == q * w + total % w && total % w >= 0;
    if n <= q {
      ProductMonotone(n, q, w);
      assert false;
    }
  }
}

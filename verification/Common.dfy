/** Types and small facts shared by the models. */
module Common {
  datatype Option<+T> = None | Some(value: T)

  type Byte = x: int | 0 <= x < 256

  lemma Assoc<T>(x: seq<T>, y: seq<T>, z: seq<T>)
    ensures x + y + z == x + (y + z)
  {
  }

  lemma {:induction false} MulStep(m: nat, x: int, y: int)
    requires x > y
    ensures m * x >= m * y + m
    decreases x - y
  {
    if x > y + 1 {
      MulStep(m, x - 1, y);
      assert m * x == m * (x - 1) + m;
    }
  }

  /** Quotient and remainder are unique. */
  lemma DivIs(n: int, m: int, q: int, r: int)
    requires 0 <= r < m && n == m * q + r
    ensures n / m == q && n % m == r
  {
    var k, s := n / m, n % m;
    assert m * k + s == m * q + r;
    if k > q {
      MulStep(m, k, q);
    } else if k < q {
      MulStep(m, q, k);
    }
  }
}

/** Types every part of the model shares. */
module Basics {

  datatype Option<+T> = None | Some(value: T)

  /** One octet of a stream, a file or a frame. */
  type Byte = b: int | 0 <= b < 256

  function Max(a: int, b: int): int {
    if a < b then b else a
  }

  function Min(a: int, b: int): int {
    if a < b then a else b
  }

  /** The `n` offsets from `at` on. */
  function Offsets(at: nat, n: nat): (offsets: set<nat>)
    ensures forall o :: o in offsets <==> at <= o < at + n
  {
    if n == 0 then {} else Offsets(at, n - 1) + {at + n - 1}
  }

  /** The sparse stream that holds `data` from offset `at` on and nothing else. */
  function Placed(at: nat, data: seq<Byte>): (m: map<nat, Byte>)
    ensures forall o :: o in m <==> at <= o < at + |data|
    ensures forall o :: o in m ==> m[o] == data[o - at]
  {
    map o | o in Offsets(at, |data|) :: data[o - at]
  }
}

/** Products, one step of algebra a lemma. Real products go through `Product`, whose
    definition only the first few lemmas need. */
module Products {
  function Product(x: real, y: real): real {
    x * y
  }

  lemma NonNegative(x: real, y: real)
    requires 0.0 <= x && 0.0 <= y
    ensures 0.0 <= Product(x, y)
  {
  }

  lemma Positive(x: real, y: real)
    requires 0.0 < x && 0.0 < y
    ensures 0.0 < Product(x, y)
  {
  }

  lemma One(x: real)
    ensures Product(x, 1.0) == x
  {
  }

  lemma Apart(x: real, y: real, z: real)
    ensures Product(x, y - z) == Product(x, y) - Product(x, z)
  {
  }

  lemma Commutes(x: real, y: real)
    ensures Product(x, y) == Product(y, x)
  {
  }

  lemma Associates(x: real, y: real, z: real)
    ensures Product(Product(x, y), z) == Product(x, Product(y, z))
  {
  }

  lemma OfIntegers(m: int, n: int)
    ensures Product(m as real, n as real) == (m * n) as real
  {
  }

  lemma PartOf(x: real, y: real)
    requires 0.0 <= x && 0.0 <= y <= 1.0
    ensures 0.0 <= Product(x, y) <= x
  {
    hide Product;
    NonNegative(x, y);
    NonNegative(x, 1.0 - y);
    Apart(x, 1.0, y);
    One(x);
  }

  /** Euclid's division, spelled out for the solver. */
  lemma Divides(n: nat, d: nat)
    requires d > 0
    ensures n == d * (n / d) + n % d && 0 <= n % d < d
  {
  }

  lemma Cancels(a: int, b: int, d: nat)
    requires a * d < b * d
    ensures a < b
  {
  }
}

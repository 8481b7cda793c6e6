/** Shared vocabulary: optional values, unsigned truncation and a few counting facts. */
module Basics {

  datatype Option<+T> = None | Some(value: T)

  const INT32_MAX: int := 0x7FFF_FFFF
  const UINT32_RANGE: int := 0x1_0000_0000

  type Int32 = x: int | -0x8000_0000 <= x <= 0x7FFF_FFFF

  /** Conversion of any integer to a 32-bit unsigned one, as a C++ cast does it. */
  function ToUint32(x: int): nat {
    x % UINT32_RANGE
  }

  /** A non-empty finite set of numbers has a least element. */
  lemma {:induction false} Least(s: set<nat>) returns (m: nat)
    requires s != {}
    ensures m in s && forall x :: x in s ==> m <= x
  {
    m :| m in s;
    if s != {m} {
      var k := Least(s - {m});
      assert forall x :: x in s ==> x == m || x in s - {m};
      if k < m { m := k; }
    }
  }

  /** A subset is no larger. */
  lemma SubsetSize<T>(a: set<T>, b: set<T>)
    requires a <= b
    ensures |a| <= |b|
  {
    assert b == a + (b - a);
  }
}

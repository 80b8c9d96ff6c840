/** Definitions shared by the models of the sinks and their clients. */
module Common {

  datatype Option<+T> = None | Some(value: T)

  const TWO_TO_THE_32: int := 0x1_0000_0000

  /** The value a 32-bit unsigned C++ expression keeps of the mathematical integer `x`. */
  function U32(x: int): (r: nat)
    ensures r < TWO_TO_THE_32
    ensures 0 <= x < TWO_TO_THE_32 ==> r == x
    ensures 0 <= x ==> r <= x
  {
    x % TWO_TO_THE_32
  }

  function Min(a: int, b: int): int {
    if a < b then a else b
  }

  lemma Associate<T>(x: seq<T>, y: seq<T>, z: seq<T>)
    ensures (x + y) + z == x + (y + z)
  {
  }

  lemma TakeFirst<T>(s: seq<T>)
    requires s != []
    ensures multiset(s) == multiset{s[0]} + multiset(s[1..])
  {
    assert s == [s[0]] + s[1..];
  }
}

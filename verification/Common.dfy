/** What several modules need: searching a list, a search that may fail, and a step that is repeated. */
module Common {

  datatype Option<T> = None | Some(value: T)

  /** The first index from `i` on of an element with this key, |list| if there is none. */
  function FirstWith<T, K(==)>(list: seq<T>, key: T -> K, k: K, i: nat): (r: nat)
    requires i <= |list|
    ensures i <= r <= |list|
    ensures r < |list| ==> key(list[r]) == k
    ensures forall j :: i <= j < r ==> key(list[j]) != k
    decreases |list| - i
  {
    if i == |list| || key(list[i]) == k then i else FirstWith(list, key, k, i + 1)
  }

  /** The first index from `i` on that holds `x`, |list| if none does. */
  function FirstIndex<T(==)>(list: seq<T>, x: T, i: nat): (r: nat)
    requires i <= |list|
    ensures i <= r <= |list|
    ensures r < |list| ==> list[r] == x
    ensures forall j :: i <= j < r ==> list[j] != x
  {
    FirstWith(list, (y: T) => y, x, i)
  }

  lemma Regroup<T>(a: seq<T>, b: seq<T>, c: seq<T>)
    ensures a + (b + c) == (a + b) + c
  {
  }

  function Iterate<T>(f: T -> T, x: T, n: nat): T
    decreases n
  {
    if n == 0 then x else f(Iterate(f, x, n - 1))
  }

  lemma {:induction false} IterateConcat<T>(f: T -> T, x: T, m: nat, n: nat)
    ensures Iterate(f, x, m + n) == Iterate(f, Iterate(f, x, m), n)
    decreases n
  {
    if n > 0 {
      IterateConcat(f, x, m, n - 1);
    }
  }
}

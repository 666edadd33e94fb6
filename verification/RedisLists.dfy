/** The Redis list commands the workers use. The head of a list (the side LPUSH adds to) is index 0. */
module RedisLists {

  function LPush<T>(list: seq<T>, x: T): seq<T> {
    [x] + list
  }

  /** `LREM list 1 x`: removes the first occurrence of `x`, counting from the head. */
  function LRem<T(==)>(list: seq<T>, x: T): seq<T> {
    if list == [] then []
    else if list[0] == x then list[1..]
    else [list[0]] + LRem(list[1..], x)
  }

  /** LREM takes away exactly one copy by value, and nothing when there is none. */
  lemma {:induction false} LRemByValue<T>(list: seq<T>, x: T)
    ensures multiset(LRem(list, x)) == multiset(list) - multiset{x}
    ensures x !in list ==> LRem(list, x) == list
  {
    if list != [] {
      assert list == [list[0]] + list[1..];
      if list[0] != x {
        LRemByValue(list[1..], x);
      }
    }
  }
}

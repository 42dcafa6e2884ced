/** Options, lists and facts about sequences that several models use. */
module Containers {

  datatype Option<+T> = None | Some(value: T)

  datatype List<+T> = Nil | Cons(head: T, tail: List<T>)

  function Length<T>(xs: List<T>): nat {
    match xs
    case Nil => 0
    case Cons(_, tail) => 1 + Length(tail)
  }

  function Append<T>(xs: List<T>, ys: List<T>): List<T> {
    match xs
    case Nil => ys
    case Cons(head, tail) => Cons(head, Append(tail, ys))
  }

  lemma {:induction false} AppendNil<T>(xs: List<T>)
    ensures Append(xs, Nil) == xs
  {
    if xs.Cons? {
      AppendNil(xs.tail);
    }
  }

  lemma {:induction false} Regroup<T>(a: seq<T>, b: seq<T>, c: seq<T>)
    ensures (a + b) + c == a + (b + c)
  {
  }

  /** There are no more elements than they take up places. */
  lemma {:induction false} CountFits(n: nat, size: nat)
    requires size > 0
    ensures n <= n * size
  {
  }
}

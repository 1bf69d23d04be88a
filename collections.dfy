/** Small sequence helpers shared by the lift model: optional values,
    flattening, minimum and maximum (the roles Java's Optional, OptionalInt and
    stream flatMap/min/max play in the kata). */
module Collections {

  datatype Option<T> = None | Some(value: T) {
    function GetOr(default: T): T {
      match this
      case Some(v) => v
      case None => default
    }

    /** The value as a sequence of zero or one elements (`ifPresent(list::add)`). */
    function Elements(): seq<T> {
      match this
      case Some(v) => [v]
      case None => []
    }
  }

  datatype Result<T> = Ok(value: T) | Err(message: string)

  /** All elements of all the sequences, in order. */
  function Flatten<T(!new)>(ss: seq<seq<T>>): (r: seq<T>)
    ensures forall x :: x in r <==> exists i :: 0 <= i < |ss| && x in ss[i]
  {
    if ss == [] then []
    else
      assert forall i :: 1 <= i < |ss| ==> ss[i] == ss[1..][i - 1];
      ss[0] + Flatten(ss[1..])
  }

  lemma {:induction false} FlattenEmpty<T(!new)>(ss: seq<seq<T>>)
    ensures Flatten(ss) == [] <==> forall i :: 0 <= i < |ss| ==> ss[i] == []
  {
    if ss != [] {
      FlattenEmpty(ss[1..]);
      assert forall i :: 1 <= i < |ss| ==> ss[i] == ss[1..][i - 1];
    }
  }

  /** Replacing one inner sequence swaps its elements in the flattened multiset. */
  lemma {:induction false} FlattenUpdate<T(!new)>(ss: seq<seq<T>>, i: nat, q: seq<T>)
    requires i < |ss|
    ensures multiset(Flatten(ss[i := q])) + multiset(ss[i]) == multiset(Flatten(ss)) + multiset(q)
  {
    if i == 0 {
      assert ss[i := q][1..] == ss[1..];
    } else {
      var rest := ss[1..][i - 1 := q];
      assert ss[i := q][1..] == rest && ss[i := q][0] == ss[0];
      assert Flatten(ss[i := q]) == ss[0] + Flatten(rest);
      FlattenUpdate(ss[1..], i - 1, q);
      assert ss[1..][i - 1] == ss[i];
      calc {
        multiset(Flatten(ss[i := q])) + multiset(ss[i]);
        multiset(ss[0]) + (multiset(Flatten(rest)) + multiset(ss[1..][i - 1]));
        multiset(ss[0]) + (multiset(Flatten(ss[1..])) + multiset(q));
        multiset(Flatten(ss)) + multiset(q);
      }
    }
  }

  lemma MultisetCancel<T>(a: multiset<T>, c: multiset<T>, q: multiset<T>)
    requires a + q == c + q
    ensures a == c
  {
    forall x
      ensures a[x] == c[x]
    {
      assert (a + q)[x] == (c + q)[x];
    }
  }

  /** The smallest element, if any. */
  function MinOf(xs: seq<int>): (r: Option<int>)
    ensures r.None? <==> xs == []
    ensures r.Some? ==> r.value in xs && forall x :: x in xs ==> r.value <= x
  {
    if xs == [] then None
    else
      assert xs == [xs[0]] + xs[1..];
      match MinOf(xs[1..])
      case None => Some(xs[0])
      case Some(m) => Some(if xs[0] <= m then xs[0] else m)
  }

  /** The largest element, if any. */
  function MaxOf(xs: seq<int>): (r: Option<int>)
    ensures r.None? <==> xs == []
    ensures r.Some? ==> r.value in xs && forall x :: x in xs ==> x <= r.value
  {
    if xs == [] then None
    else
      assert xs == [xs[0]] + xs[1..];
      match MaxOf(xs[1..])
      case None => Some(xs[0])
      case Some(m) => Some(if xs[0] >= m then xs[0] else m)
  }

  function Last<T>(s: seq<T>): T
    requires s != []
  {
    s[|s| - 1]
  }

  /** No two neighbouring elements are equal. */
  predicate NoStutter(s: seq<int>) {
    forall k :: 0 < k < |s| ==> s[k - 1] != s[k]
  }

  function Abs(x: int): nat {
    if x < 0 then -x else x
  }
}

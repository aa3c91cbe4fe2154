/** Options and duplicate-free lists, shared by the other modules. */
module Lists {

  datatype Option<+T> = None | Some(value: T)

  ghost predicate NoDup<T>(s: seq<T>) {
    forall i, j :: 0 <= i < j < |s| ==> s[i] != s[j]
  }

  function IndexOf<T(==)>(s: seq<T>, x: T): (i: nat)
    requires x in s
    ensures i < |s| && s[i] == x
    ensures forall j :: 0 <= j < i ==> s[j] != x
  {
    if s[0] == x then 0 else 1 + IndexOf(s[1..], x)
  }

  /** The elements behind `x`: what following the next pointer from `x` still yields. */
  function After<T(==)>(s: seq<T>, x: T): (r: seq<T>)
    requires x in s
    ensures |r| < |s|
  {
    s[IndexOf(s, x) + 1..]
  }

  function First<T>(s: seq<T>): Option<T> {
    if s == [] then None else Some(s[0])
  }

  lemma AfterHead<T>(s: seq<T>)
    requires s != []
    ensures After(s, s[0]) == s[1..]
  {
  }

  lemma AfterTail<T>(s: seq<T>, x: T)
    requires x in s && s[0] != x
    ensures x in s[1..] && After(s, x) == After(s[1..], x)
  {
  }

  /** Stepping twice along a list without duplicates. */
  lemma AfterNext<T>(s: seq<T>, x: T)
    requires NoDup(s) && x in s && After(s, x) != []
    ensures After(s, After(s, x)[0]) == After(s, x)[1..]
  {
    var i := IndexOf(s, x);
    assert After(s, x)[0] == s[i + 1];
    assert IndexOf(s, s[i + 1]) == i + 1;
  }

  lemma NoDupConcat<T>(a: seq<T>, b: seq<T>)
    requires NoDup(a) && NoDup(b) && forall x :: x in a ==> x !in b
    ensures NoDup(a + b)
  {
    forall i, j | 0 <= i < j < |a + b| ensures (a + b)[i] != (a + b)[j] {
      if i < |a| <= j { assert a[i] in a && b[j - |a|] in b; }
    }
  }

  lemma NoDupSnoc<T>(s: seq<T>, x: T)
    requires NoDup(s) && x !in s
    ensures NoDup(s + [x])
  {
  }

  /** The list without the first x in it. */
  function Without<T(==)>(s: seq<T>, x: T): seq<T> {
    if x in s then s[..IndexOf(s, x)] + After(s, x) else s
  }

  lemma WithoutNew<T>(s: seq<T>, x: T)
    requires x !in s
    ensures Without(s, x) == s && Without([x] + s, x) == s
  {
    AfterHead([x] + s);
  }

  /** The list without any x. */
  function Except<T(==)>(s: seq<T>, x: T): seq<T> {
    if s == [] then [] else (if s[0] == x then [] else [s[0]]) + Except(s[1..], x)
  }

  lemma {:induction false} ExceptConcat<T>(a: seq<T>, b: seq<T>, x: T)
    ensures Except(a + b, x) == Except(a, x) + Except(b, x)
  {
    if a == [] {
      assert a + b == b;
    } else {
      assert (a + b)[1..] == a[1..] + b;
      ExceptConcat(a[1..], b, x);
    }
  }

  lemma {:induction false} ExceptAbsent<T>(s: seq<T>, x: T)
    requires x !in s
    ensures Except(s, x) == s
  {
    if s != [] {
      ExceptAbsent(s[1..], x);
      assert s == [s[0]] + s[1..];
    }
  }

  lemma ExceptOne<T>(x: T)
    ensures Except([x], x) == []
  {
  }

  lemma ExceptBetween<T>(a: seq<T>, x: T, b: seq<T>)
    ensures Except(a + [x] + b, x) == Except(a, x) + Except(b, x)
  {
    hide Except;
    ExceptConcat(a + [x], b, x);
    ExceptConcat(a, [x], x);
    ExceptOne(x);
    assert Except(a, x) + [] == Except(a, x);
  }

  lemma {:induction false} ExceptHas<T>(s: seq<T>, x: T, y: T)
    ensures y in Except(s, x) <==> y in s && y != x
  {
    if s != [] {
      ExceptHas(s[1..], x, y);
      assert s == [s[0]] + s[1..];
    }
  }

  /** Some a stands before some b. */
  ghost predicate Before<T>(s: seq<T>, a: T, b: T) {
    exists i, j :: 0 <= i < j < |s| && s[i] == a && s[j] == b
  }

  lemma BeforeWithin<T>(pre: seq<T>, s: seq<T>, post: seq<T>, a: T, b: T)
    requires Before(s, a, b)
    ensures Before(pre + s + post, a, b)
  {
    var i, j :| 0 <= i < j < |s| && s[i] == a && s[j] == b;
    var w := pre + s + post;
    assert w[|pre| + i] == a && w[|pre| + j] == b;
  }
}

/** Sequences without repetition, shared by the intrusive lists of the model. */
module Lists {

  predicate NoDup<T(==)>(s: seq<T>) {
    s == [] || (s[0] !in s[1..] && NoDup(s[1..]))
  }

  /** `s` with every occurrence of `x` taken out. */
  function Without<T(==)>(s: seq<T>, x: T): (r: seq<T>)
    ensures forall y | y in r :: y in s && y != x
    ensures forall y | y in s :: y != x ==> y in r
    ensures x !in s ==> r == s
    ensures |r| <= |s|
  {
    if s == [] then []
    else if s[0] == x then Without(s[1..], x)
    else [s[0]] + Without(s[1..], x)
  }

  lemma {:induction false} NoDupWithout<T>(s: seq<T>, x: T)
    requires NoDup(s)
    ensures NoDup(Without(s, x))
    ensures |Without(s, x)| == if x in s then |s| - 1 else |s|
  {
    if s != [] {
      NoDupWithout(s[1..], x);
    }
  }

  lemma {:induction false} NoDupAppend<T>(s: seq<T>, x: T)
    requires NoDup(s) && x !in s
    ensures NoDup(s + [x])
  {
    if s != [] {
      NoDupAppend(s[1..], x);
      assert (s + [x])[1..] == s[1..] + [x];
    }
  }

  lemma NoDupPrepend<T>(s: seq<T>, x: T)
    requires NoDup(s) && x !in s
    ensures NoDup([x] + s)
  {
    assert ([x] + s)[1..] == s;
  }

  lemma {:induction false} NoDupConcat<T>(s: seq<T>, t: seq<T>)
    requires NoDup(s) && NoDup(t) && forall x | x in s :: x !in t
    ensures NoDup(s + t)
  {
    if s == [] {
      assert s + t == t;
    } else {
      NoDupConcat(s[1..], t);
      assert (s + t)[1..] == s[1..] + t;
    }
  }

  lemma WithoutHead<T>(s: seq<T>)
    requires s != [] && NoDup(s)
    ensures Without(s, s[0]) == s[1..]
  {
  }

  lemma SliceOfRest<T>(s: seq<T>, pos: nat, a: nat, b: nat)
    requires a <= b && pos + b <= |s|
    ensures s[pos..][a..b] == s[pos + a..pos + b]
  {
  }

  lemma RestOfRest<T>(s: seq<T>, pos: nat, a: nat)
    requires pos + a <= |s|
    ensures s[pos..][a..] == s[pos + a..]
  {
  }

  lemma Assoc<T>(a: seq<T>, b: seq<T>, c: seq<T>)
    ensures (a + b) + c == a + (b + c)
  {
  }
}

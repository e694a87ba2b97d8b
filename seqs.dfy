/** The array methods the application uses on lists: `filter` and `find`. */
module Seqs {
  import opened Wrappers

  /** `s.filter(f)`. */
  function Filter<T>(f: T -> bool, s: seq<T>): (r: seq<T>)
    ensures |r| <= |s|
    ensures forall i :: 0 <= i < |r| ==> f(r[i])
  {
    if s == [] then []
    else (if f(s[0]) then [s[0]] else []) + Filter(f, s[1..])
  }

  /** An element is kept exactly when it is in the input and passes the test. */
  lemma {:induction false} FilterMembers<T>(f: T -> bool, s: seq<T>)
    ensures forall x :: x in Filter(f, s) <==> x in s && f(x)
  {
    if s != [] {
      FilterMembers(f, s[1..]);
      assert s == [s[0]] + s[1..];
    }
  }

  /** Filtering distributes over concatenation: order is kept. */
  lemma {:induction false} FilterConcat<T>(f: T -> bool, a: seq<T>, b: seq<T>)
    ensures Filter(f, a + b) == Filter(f, a) + Filter(f, b)
  {
    if a == [] {
      assert a + b == b;
    } else {
      assert (a + b)[0] == a[0];
      assert (a + b)[1..] == a[1..] + b;
      FilterConcat(f, a[1..], b);
    }
  }

  /** Filtering a list none of whose elements pass yields the empty list. */
  lemma {:induction false} FilterNone<T>(f: T -> bool, s: seq<T>)
    requires forall i :: 0 <= i < |s| ==> !f(s[i])
    ensures Filter(f, s) == []
  {
    if s != [] {
      FilterNone(f, s[1..]);
    }
  }

  /** Filtering a list all of whose elements pass changes nothing. */
  lemma {:induction false} FilterAll<T>(f: T -> bool, s: seq<T>)
    requires forall i :: 0 <= i < |s| ==> f(s[i])
    ensures Filter(f, s) == s
  {
    if s != [] {
      FilterAll(f, s[1..]);
      assert s == [s[0]] + s[1..];
    }
  }

  /** Filtering by a stronger test after a weaker one is filtering by the
      stronger test alone. */
  lemma {:induction false} FilterNarrow<T>(f: T -> bool, g: T -> bool, s: seq<T>)
    requires forall x :: f(x) ==> g(x)
    ensures Filter(f, Filter(g, s)) == Filter(f, s)
  {
    if s != [] {
      FilterNarrow(f, g, s[1..]);
      FilterConcat(f, if g(s[0]) then [s[0]] else [], Filter(g, s[1..]));
    }
  }

  /** `s.find(f)`: the first element that passes the test. */
  function FindFirst<T>(f: T -> bool, s: seq<T>): (r: Option<T>)
    ensures r.None? <==> Filter(f, s) == []
    ensures r.Some? ==> r.value == Filter(f, s)[0]
  {
    if s == [] then None
    else if f(s[0]) then Some(s[0])
    else FindFirst(f, s[1..])
  }

  /** No element occurs twice. */
  predicate NoDup<T(==)>(s: seq<T>) {
    forall i, j :: 0 <= i < j < |s| ==> s[i] != s[j]
  }
}

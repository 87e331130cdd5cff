/** The order in which names are listed and sorted: lexicographic, by code point. */
module Order {
  predicate Before(a: string, b: string) {
    if b == [] then false
    else if a == [] then true
    else a[0] < b[0] || (a[0] == b[0] && Before(a[1..], b[1..]))
  }

  predicate NotAfter(a: string, b: string) { a == b || Before(a, b) }

  lemma {:induction false} Total(a: string, b: string)
    ensures Before(a, b) || a == b || Before(b, a)
    ensures !(Before(a, b) && Before(b, a)) && !Before(a, a)
  {
    if a != [] {
      Total(a[1..], a[1..]);
      if b != [] {
        Total(a[1..], b[1..]);
        assert a == [a[0]] + a[1..] && b == [b[0]] + b[1..];
      }
    }
  }

  lemma {:induction false} Transitive(a: string, b: string, c: string)
    requires Before(a, b) && Before(b, c)
    ensures Before(a, c)
  {
    if a != [] && a[0] == b[0] == c[0] { Transitive(a[1..], b[1..], c[1..]); }
  }

  /** Reference order: a is a proper prefix of b, or smaller where they first differ. */
  predicate Lexicographic(a: string, b: string) {
    || (|a| < |b| && b[..|a|] == a)
    || exists i | 0 <= i < |a| && i < |b| :: a[..i] == b[..i] && a[i] < b[i]
  }

  lemma {:induction false} BeforeIff(a: string, b: string)
    ensures Before(a, b) <==> Lexicographic(a, b)
  {
    if a != [] && b != [] {
      if a[0] == b[0] {
        BeforeIff(a[1..], b[1..]);
        TailsIff(a, b);
      } else {
        assert a[..0] == b[..0];
      }
    }
  }

  /** Texts with the same first character are ordered as their rests. */
  lemma TailsIff(a: string, b: string)
    requires a != [] && b != [] && a[0] == b[0]
    ensures Lexicographic(a, b) <==> Lexicographic(a[1..], b[1..])
  {
    assert forall i | 1 <= i <= |a| :: a[..i] == [a[0]] + a[1..][..i - 1];
    assert forall i | 1 <= i <= |b| :: b[..i] == [b[0]] + b[1..][..i - 1];
    if i :| 0 <= i < |a| && i < |b| && a[..i] == b[..i] && a[i] < b[i] {
      assert a[1..][..i - 1] == a[..i][1..] && b[1..][..i - 1] == b[..i][1..];
      assert a[1..][i - 1] < b[1..][i - 1];
    }
    if i :| 0 <= i < |a[1..]| && i < |b[1..]| && a[1..][..i] == b[1..][..i] && a[1..][i] < b[1..][i] {
      assert a[..i + 1] == b[..i + 1] && a[i + 1] < b[i + 1];
    }
    if |a| < |b| { assert b[1..][..|a| - 1] == b[..|a|][1..] && a == [a[0]] + a[1..]; }
  }

  ghost predicate Sorted(s: seq<string>) {
    forall i, j | 0 <= i < j < |s| :: Before(s[i], s[j])
  }

  /** Puts a new name in its place. */
  method InsertSorted(s: seq<string>, x: string) returns (r: seq<string>)
    requires Sorted(s) && x !in s
    ensures Sorted(r)
    ensures forall y :: y in r <==> y in s || y == x
  {
    var i := 0;
    while i < |s| && Before(s[i], x)
      invariant 0 <= i <= |s|
      invariant forall j | 0 <= j < i :: Before(s[j], x)
    {
      i := i + 1;
    }
    forall j | i <= j < |s| ensures Before(x, s[j]) {
      Total(s[i], x);
      if i < j { Transitive(x, s[i], s[j]); }
    }
    r := s[..i] + [x] + s[i..];
    assert s == s[..i] + s[i..];
  }

  /** The names of a set in order: what a directory listing yields. */
  method SortedNames(names: set<string>) returns (s: seq<string>)
    ensures Sorted(s)
    ensures forall x :: x in s <==> x in names
  {
    s := [];
    var rest := names;
    while rest != {}
      invariant rest <= names && Sorted(s)
      invariant forall x :: x in s <==> x in names && x !in rest
      decreases rest
    {
      var x :| x in rest;
      rest := rest - {x};
      s := InsertSorted(s, x);
    }
  }
}

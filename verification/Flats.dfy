/** Mapping each element of a list to a list and joining the results. */
module Flats {
  import opened Seqs

  function Flat<T, U>(s: seq<T>, f: T -> seq<U>): seq<U> {
    if s == [] then [] else Flat(s[..|s| - 1], f) + f(s[|s| - 1])
  }

  lemma FlatSnoc<T, U>(s: seq<T>, x: T, f: T -> seq<U>)
    ensures Flat(s + [x], f) == Flat(s, f) + f(x)
  {
    Snoc(s, x);
  }

  lemma FlatOne<T, U>(x: T, f: T -> seq<U>)
    ensures Flat([x], f) == f(x)
  {
    Unit(f(x));
    assert [x][..0] == [];
    assert Flat<T, U>([], f) == [];
  }

  lemma {:induction false} FlatConcat<T, U>(a: seq<T>, b: seq<T>, f: T -> seq<U>)
    ensures Flat(a + b, f) == Flat(a, f) + Flat(b, f)
    decreases |b|
  {
    if b == [] {
      Unit(a);
      Unit(Flat(a, f));
    } else {
      var k := |b| - 1;
      FlatConcat(a, b[..k], f);
      assert b == b[..k] + [b[k]];
      Assoc(a, b[..k], [b[k]]);
      FlatSnoc(a + b[..k], b[k], f);
      Assoc(Flat(a, f), Flat(b[..k], f), f(b[k]));
    }
  }

  lemma {:induction false} FlatNone<T, U>(s: seq<T>, f: T -> seq<U>)
    requires forall x :: x in s ==> f(x) == []
    ensures Flat(s, f) == []
    decreases |s|
  {
    if s != [] {
      FlatNone(s[..|s| - 1], f);
    }
  }

  lemma {:induction false} FlatMember<T, U>(s: seq<T>, f: T -> seq<U>, y: U)
    ensures y in Flat(s, f) <==> exists x :: x in s && y in f(x)
    decreases |s|
  {
    if s != [] {
      var k := |s| - 1;
      FlatMember(s[..k], f, y);
      assert s == s[..k] + [s[k]];
      if y in Flat(s[..k], f) {
        var x :| x in s[..k] && y in f(x);
        assert x in s;
      }
      if x :| x in s && y in f(x) && x != s[k] {
        assert x in s[..k];
      }
    }
  }

  lemma {:induction false} FlatSame<T, U>(s: seq<T>, f: T -> seq<U>, g: T -> seq<U>)
    requires forall x :: x in s ==> f(x) == g(x)
    ensures Flat(s, f) == Flat(s, g)
    decreases |s|
  {
    if s != [] {
      FlatSame(s[..|s| - 1], f, g);
    }
  }
}

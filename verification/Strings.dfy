/** Finding characters in strings. */
module Strings {
  import opened Seqs
  import opened JsonSyntax

  function IndexOf(s: string, c: char): (r: Option<nat>)
    ensures r.Some? ==> r.value < |s|
  {
    if s == "" then None
    else if s[0] == c then Some(0)
    else if IndexOf(s[1..], c).Some? then Some(1 + IndexOf(s[1..], c).value)
    else None
  }

  lemma {:induction false} IndexOfConcat(a: string, b: string, c: char)
    ensures IndexOf(a, c).Some? ==> IndexOf(a + b, c) == IndexOf(a, c)
    ensures IndexOf(a, c).None? ==>
              IndexOf(a + b, c) == if IndexOf(b, c).None? then None else Some(|a| + IndexOf(b, c).value)
  {
    if a == "" {
      Unit(b);
    } else {
      Cons(a, b);
      IndexOfConcat(a[1..], b, c);
    }
  }

  lemma {:induction false} IndexOfIs(s: string, c: char)
    ensures IndexOf(s, c).None? <==> c !in s
    ensures IndexOf(s, c).Some? ==> s[IndexOf(s, c).value] == c && c !in s[..IndexOf(s, c).value]
  {
    if s != "" && s[0] != c {
      IndexOfIs(s[1..], c);
      assert s == [s[0]] + s[1..];
      if IndexOf(s[1..], c).Some? {
        var k := IndexOf(s[1..], c).value;
        assert s[..k + 1] == [s[0]] + s[1..][..k];
      }
    }
  }

  /** The pieces between the occurrences of a character. */
  function SplitOn(s: string, c: char): (r: seq<string>)
    ensures r != []
    decreases |s|
  {
    var at := IndexOf(s, c);
    if at.None? then [s] else [s[..at.value]] + SplitOn(s[at.value + 1..], c)
  }

  lemma SplitNone(s: string, c: char)
    requires c !in s
    ensures SplitOn(s, c) == [s]
  {
    hide IndexOf;
    IndexOfIs(s, c);
  }

  lemma SplitFirst(a: string, c: char, b: string)
    requires c !in a
    ensures SplitOn(a + [c] + b, c) == [a] + SplitOn(b, c)
  {
    var s := a + [c] + b;
    IndexOfIs(a, c);
    IndexOfConcat(a, [c] + b, c);
    Append(a, c, b);
    assert IndexOf([c] + b, c) == Some(0);
    hide IndexOf;
    assert s[..|a|] == a && s[|a| + 1..] == b;
  }
}

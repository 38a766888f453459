/** What the structural diff counts as unchanged: the places where both documents have the same leaf, each counted once. */
module SharedLeaves {
  import opened Seqs
  import opened JsonSyntax
  import opened JsonTree
  import opened ValueDiff

  predicate IsLeaf(n: Node) {
    n.Scalar? || n.entries == []
  }

  /** Both trees have a leaf at the path, with the same text, below containers of the same kinds. */
  ghost predicate Shared(a: Option<Node>, b: Option<Node>, path: seq<string>, unquote: string -> string)
    decreases |path|
  {
    a.Some? && b.Some? &&
    if path == [] then IsLeaf(a.value) && IsLeaf(b.value) && NodeText(a.value) == NodeText(b.value)
    else
      SameShape(a.value, b.value) &&
      Shared(Get(NodeKids(a.value, unquote), path[0]), Get(NodeKids(b.value, unquote), path[0]), path[1..], unquote)
  }

  lemma PrefixedHas(k: string, ps: seq<seq<string>>, p: seq<string>)
    ensures p in Prefixed(k, ps) <==> p != [] && p[0] == k && p[1..] in ps
  {
    if p in Prefixed(k, ps) {
      var i :| 0 <= i < |ps| && Prefixed(k, ps)[i] == p;
      Tail(k, ps[i]);
    }
    if p != [] && p[0] == k && p[1..] in ps {
      var i :| 0 <= i < |ps| && ps[i] == p[1..];
      assert Prefixed(k, ps)[i] == p;
    }
  }

  lemma {:induction false} KidsHave(order: seq<string>, ka: map<string, Node>, kb: map<string, Node>, sa: nat, sb: nat, unquote: string -> string,
                                    p: seq<string>)
    requires sa > 0 && sb > 0
    requires (forall k :: k in ka ==> NodeSize(ka[k]) < sa) && (forall k :: k in kb ==> NodeSize(kb[k]) < sb)
    ensures p in CommonKids(order, ka, kb, sa, sb, unquote) <==>
            p != [] && p[0] in order && p[1..] in Common(Get(ka, p[0]), Get(kb, p[0]), unquote)
    decreases |order|
  {
    if order != [] {
      hide NodeSize, Common, Get, Prefixed;
      KidsHave(order[1..], ka, kb, sa, sb, unquote, p);
      PrefixedHas(order[0], Common(Get(ka, order[0]), Get(kb, order[0]), unquote), p);
      Around(order, 0);
    }
  }

  lemma GetWf(n: Node, k: string, unquote: string -> string)
    requires WfNode(n) && n.Container?
    ensures WfOpt(Get(NodeKids(n, unquote), k))
  {
    hide WfNode, NodeKids;
    NodeKidsWf(n, unquote);
  }

  lemma ShapesApart(a: Node, b: Node, p: seq<string>, unquote: string -> string)
    requires WfNode(a) && WfNode(b) && !SameShape(a, b)
    ensures p in Common(Some(a), Some(b), unquote) <==> Shared(Some(a), Some(b), p, unquote)
  {
    hide NodeText, WfNode, NodeKids;
    if NodeText(a) == NodeText(b) {
      NodeTextInjective(a, b);
    }
  }

  lemma EmptyPair(a: Node, b: Node, p: seq<string>, unquote: string -> string)
    requires SameShape(a, b) && a.entries == [] && b.entries == []
    ensures p in Common(Some(a), Some(b), unquote) <==> Shared(Some(a), Some(b), p, unquote)
  {
    if p != [] {
      assert NodeKids(a, unquote) == map[];
    }
  }

  /** The walk finds exactly the shared leaves. */
  lemma {:induction false} CommonAreShared(a: Option<Node>, b: Option<Node>, p: seq<string>, unquote: string -> string)
    requires WfOpt(a) && WfOpt(b)
    ensures p in Common(a, b, unquote) <==> Shared(a, b, p, unquote)
    decreases |p|
  {
    if a.Some? && b.Some? {
      var x, y := a.value, b.value;
      if !SameShape(x, y) {
        ShapesApart(x, y, p, unquote);
      } else if x.entries == [] && y.entries == [] {
        EmptyPair(x, y, p, unquote);
      } else {
        var order := Order(x.isObject, x.entries, y.entries, unquote);
        var ka, kb := NodeKids(x, unquote), NodeKids(y, unquote);
        OrderCovers(x.isObject, x.entries, y.entries, unquote);
        assert OptSize(a) > 0 && OptSize(b) > 0;
        assert Common(a, b, unquote) == CommonKids(order, ka, kb, OptSize(a), OptSize(b), unquote);
        hide NodeText, WfNode, NodeKids, Order, CommonKids, NodeSize, OptSize, Common;
        KidsHave(order, ka, kb, OptSize(a), OptSize(b), unquote, p);
        if p == [] {
          EmptyTexts(x, y);
        } else {
          GetWf(x, p[0], unquote);
          GetWf(y, p[0], unquote);
          CommonAreShared(Get(ka, p[0]), Get(kb, p[0]), p[1..], unquote);
          if p[0] !in order {
            NotAKid(x, y, p[0], unquote);
          }
        }
      }
    }
  }

  lemma EmptyTexts(a: Node, b: Node)
    requires SameShape(a, b) && !(a.entries == [] && b.entries == [])
    ensures !(IsLeaf(a) && IsLeaf(b))
  {
  }

  lemma NotAKid(a: Node, b: Node, k: string, unquote: string -> string)
    requires SameShape(a, b) && k !in Order(a.isObject, a.entries, b.entries, unquote)
    ensures Get(NodeKids(a, unquote), k).None?
  {
    hide Order;
    OrderCovers(a.isObject, a.entries, b.entries, unquote);
  }

  ghost predicate Apart(ps: seq<seq<string>>) {
    forall i, j :: 0 <= i < j < |ps| ==> ps[i] != ps[j]
  }

  lemma ApartConcat(a: seq<seq<string>>, b: seq<seq<string>>)
    requires Apart(a) && Apart(b) && forall p :: p in a ==> p !in b
    ensures Apart(a + b)
  {
    forall i, j | 0 <= i < j < |a + b|
      ensures (a + b)[i] != (a + b)[j]
    {
      if i < |a| <= j {
        assert a[i] in a && b[j - |a|] in b;
      }
    }
  }

  lemma PrefixedApart(k: string, ps: seq<seq<string>>)
    requires Apart(ps)
    ensures Apart(Prefixed(k, ps))
  {
    forall i, j | 0 <= i < j < |ps|
      ensures Prefixed(k, ps)[i] != Prefixed(k, ps)[j]
    {
      Tail(k, ps[i]);
      Tail(k, ps[j]);
    }
  }

  /** No leaf is counted twice. */
  lemma {:induction false} CommonApart(a: Option<Node>, b: Option<Node>, unquote: string -> string)
    ensures Apart(Common(a, b, unquote))
    decreases OptSize(a) + OptSize(b), 1, 0
  {
    if a.Some? && b.Some? && SameShape(a.value, b.value) && !(a.value.entries == [] && b.value.entries == []) {
      var x, y := a.value, b.value;
      OrderCovers(x.isObject, x.entries, y.entries, unquote);
      hide NodeText, NodeKids, Order, CommonKids, NodeSize;
      KidsApart(Order(x.isObject, x.entries, y.entries, unquote), NodeKids(x, unquote), NodeKids(y, unquote), OptSize(a), OptSize(b), unquote);
    }
  }

  lemma {:induction false} KidsApart(order: seq<string>, ka: map<string, Node>, kb: map<string, Node>, sa: nat, sb: nat,
                                     unquote: string -> string)
    requires sa > 0 && sb > 0 && Distinct(order)
    requires (forall k :: k in ka ==> NodeSize(ka[k]) < sa) && (forall k :: k in kb ==> NodeSize(kb[k]) < sb)
    ensures Apart(CommonKids(order, ka, kb, sa, sb, unquote))
    decreases sa + sb, 0, |order|
  {
    if order != [] {
      var k := order[0];
      GetSmaller(ka, kb, sa, sb, k);
      hide NodeSize, Common, Get, Prefixed, Apart;
      var first := Common(Get(ka, k), Get(kb, k), unquote);
      CommonApart(Get(ka, k), Get(kb, k), unquote);
      PrefixedApart(k, first);
      RestDistinct(order);
      KidsApart(order[1..], ka, kb, sa, sb, unquote);
      var rest := CommonKids(order[1..], ka, kb, sa, sb, unquote);
      forall p | p in Prefixed(k, first)
        ensures p !in rest
      {
        PrefixedHas(k, first, p);
        KidsHave(order[1..], ka, kb, sa, sb, unquote, p);
      }
      ApartConcat(Prefixed(k, first), rest);
    }
  }

  lemma RestDistinct(order: seq<string>)
    requires order != [] && Distinct(order)
    ensures Distinct(order[1..]) && order[0] !in order[1..]
  {
  }

  lemma {:induction false} ApartCounts(ps: seq<seq<string>>)
    requires Apart(ps)
    ensures |set p | p in ps| == |ps|
    decreases |ps|
  {
    if ps != [] {
      var k := |ps| - 1;
      ApartCounts(ps[..k]);
      assert (set p | p in ps) == (set p | p in ps[..k]) + {ps[k]};
    } else {
      assert (set p | p in ps) == {};
    }
  }

  /** The number of unchanged leaves is the number of paths at which the documents share a leaf. */
  lemma UnchangedCounts(a: Node, b: Node, unquote: string -> string)
    requires WfNode(a) && WfNode(b)
    ensures var shared := set p | p in Common(Some(a), Some(b), unquote);
            |shared| == |Common(Some(a), Some(b), unquote)| && forall p :: p in shared <==> Shared(Some(a), Some(b), p, unquote)
  {
    hide Common, Shared;
    CommonApart(Some(a), Some(b), unquote);
    ApartCounts(Common(Some(a), Some(b), unquote));
    forall p
      ensures p in Common(Some(a), Some(b), unquote) <==> Shared(Some(a), Some(b), p, unquote)
    {
      CommonAreShared(Some(a), Some(b), p, unquote);
    }
  }
}

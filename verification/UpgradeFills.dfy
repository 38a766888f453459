/**
  What becomes of a property that a stored object lacks, said on trees.

  A missing list may take over a string of the same object: the first one under the name that
  the schema declares for it or, if no name is declared, under its own name without the plural
  `s`, as long as the schema does not declare that name too.  It does so at once if the name is
  declared and the string is not empty, and otherwise when it is accepted; until then it is
  suggested, and not filled in otherwise (`FillOf`).  Any other wanted property gets the value
  the schema has it start with (`StartsAs`).  `AdditionsFill` says that the walk does just this.
*/
module UpgradeFills {
  import opened Seqs
  import opened JsonLex
  import opened JsonSyntax
  import opened Upgrade

  // ---- starting values --------------------------------------------------------------------------------------------

  /** There is a value for a property to start with; an object always starts, with the parts that can. */
  predicate CanStart(raw: Schema, host: Host) {
    var s := Normalized(raw);
    s.Some? &&
    if s.value.dflt.Default? then s.value.dflt.text.Some? && host.acceptsDefault(raw, Upgrade.Text(s.value.dflt.text.value))
    else host.allowsEmpty(s.value) || (s.value.isObject && raw.body.hasProperties)
  }

  /** The property starts as `n`, and `r` tells where in it there are defaults and empty lists. */
  ghost predicate StartsAs(raw: Schema, path: Path, n: Node, r: Report, host: Host)
    decreases raw, 0
  {
    CanStart(raw, host) &&
    var s := Normalized(raw).value;
    if s.dflt.Default? then n == Erase(s.dflt.text.value) && r == NOTHING.(defaults := [path])
    else if host.allowsEmpty(s) then n == Container(false, []) && r == NOTHING.(lists := [path])
    else n.Container? && n.isObject && PartsStart(raw.body.properties, s.required, path, n.entries, r, host)
  }

  /** The members are the required ones that can start, in that order. */
  ghost predicate PartsStart(ps: seq<Property>, required: seq<string>, path: Path, es: seq<Entry>, r: Report, host: Host)
    decreases ps, 1, |required|
  {
    if required == [] then es == [] && r == NOTHING
    else
      var init, key := required[..|required| - 1], required[|required| - 1];
      var i := FindProperty(ps, key);
      if i.None? || !CanStart(ps[i.value].schema, host) then PartsStart(ps, init, path, es, r, host)
      else
        es != [] && es[|es| - 1].key == Some(host.quote(key)) &&
        exists q, t :: r == Both(q, t) && PartsStart(ps, init, path, es[..|es| - 1], q, host) &&
                       PartStarts(ps[i.value], path, es[|es| - 1].node, t, host)
  }

  ghost predicate PartStarts(p: Property, path: Path, n: Node, r: Report, host: Host)
    decreases p, 0
  {
    StartsAs(p.schema, path + [p.name], n, r, host)
  }

  /** The value made for a missing property is the one it starts with, if it has one. */
  lemma {:induction false} InitialStarts(raw: Schema, path: Path, host: Host)
    ensures var made := Initial(raw, path, host);
            (made.value.Some? <==> CanStart(raw, host)) && (made.value.None? ==> made.report == NOTHING) &&
            (made.value.Some? ==> StartsAs(raw, path, Erase(made.value.value), made.report, host))
    decreases raw, 0
  {
    var s := Normalized(raw);
    if s.Some? {
      if s.value.dflt.Default? {
        if s.value.dflt.text.Some? {
          EraseTrim(s.value.dflt.text.value);
        }
      } else if !host.allowsEmpty(s.value) && s.value.isObject && raw.body.hasProperties {
        PartsInitial(raw.body.properties, s.value.required, path, host);
      }
    }
  }

  lemma {:induction false} PartsInitial(ps: seq<Property>, required: seq<string>, path: Path, host: Host)
    ensures var parts := InitialParts(ps, required, path, host); PartsStart(ps, required, path, EraseEntries(parts.0), parts.1, host)
    decreases ps, 1, |required|
  {
    if required != [] {
      var init, key := required[..|required| - 1], required[|required| - 1];
      var parts, i := InitialParts(ps, init, path, host), FindProperty(ps, key);
      hide EraseEntries, EraseEntry, Both, CanStart;
      PartsInitial(ps, init, path, host);
      if i.Some? {
        PartInitial(ps[i.value], path, host);
        hide InitialPart, PartStarts;
        var made := InitialPart(ps[i.value], path, host);
        if made.value.Some? {
          var e := BareEntry(Some(host.quote(key)), made.value.value);
          EraseSnoc(parts.0, e);
          Snoc(EraseEntries(parts.0), EraseEntry(e));
          BareErases(Some(host.quote(key)), made.value.value);
        } else {
          BothNothing(parts.1);
        }
      }
    }
  }

  lemma BareErases(key: Option<string>, c: Cst)
    ensures EraseEntry(BareEntry(key, c)) == Entry(key, Erase(c))
  {
  }

  lemma {:induction false} PartInitial(p: Property, path: Path, host: Host)
    ensures var made := InitialPart(p, path, host);
            (made.value.Some? <==> CanStart(p.schema, host)) && (made.value.None? ==> made.report == NOTHING) &&
            (made.value.Some? ==> PartStarts(p, path, Erase(made.value.value), made.report, host))
    decreases p, 0
  {
    hide CanStart, Erase;
    InitialStarts(p.schema, path + [p.name], host);
  }

  // ---- missing lists -------------------------------------------------------------------------------------------------

  ghost predicate Lacks(es: seq<Entry>, name: string, host: Host) {
    forall i :: 0 <= i < |es| ==> NodeKey(es[i], host) != name
  }

  /** The list may come from a member of this name. */
  ghost predicate ComesFrom(b: Body, p: Property, s: Option<Body>, key: string) {
    if Declared(b) then b.migrateFrom == Some(key)
    else
      (b.migrateFrom == Some(key) || (b.migrateFrom.None? && p.name == key + "s")) && !Declares(s, key) &&
      Normalized(b.items).Some? && Normalized(b.items).value.isString
  }

  /** Member `i`, the first of its name, is the one that the list may come from. */
  ghost predicate Offers(p: Property, s: Option<Body>, es: seq<Entry>, i: int, host: Host) {
    var b := Normalized(p.schema);
    b.Some? && b.value.isArray && 0 <= i < |es| && ComesFrom(b.value, p, s, NodeKey(es[i], host)) &&
    forall j :: 0 <= j < i ==> NodeKey(es[j], host) != NodeKey(es[i], host)
  }

  ghost function SourceOf(p: Property, s: Option<Body>, es: seq<Entry>, host: Host): (r: Option<Entry>)
    ensures r.Some? ==> Normalized(p.schema).Some?
  {
    if exists i :: Offers(p, s, es, i, host) then
      var i :| Offers(p, s, es, i, host);
      Some(es[i])
    else None
  }

  predicate IsFilledString(n: Node, host: Host) {
    n.Scalar? && n.kind == Str && host.unquote(n.text) != ""
  }

  predicate IsEmptyString(n: Node, host: Host) {
    n.Scalar? && n.kind == Str && host.unquote(n.text) == ""
  }

  /** A filled string fits as the one item, an empty one as no item. */
  predicate Fits(b: Body, n: Node, host: Host) {
    (IsFilledString(n, host) && !b.tupleKeywords && host.acceptsItem(b, n.text)) || (IsEmptyString(n, host) && host.allowsEmpty(b))
  }

  /** The string as the one item, or nothing if it is empty. */
  function ListOf(n: Node, host: Host): Node {
    Container(false, if IsEmptyString(n, host) then [] else [Entry(None, n)])
  }

  function ListText(n: Node, host: Host): string {
    if IsFilledString(n, host) then "[" + n.text + "]" else "[]"
  }

  /** What the object gets for a missing property, and what is reported about it. */
  datatype Fill = Fill(member: Option<Entry>, report: Report)

  predicate Wanted(p: Property, s: Option<Body>) {
    (s.Some? && p.name in s.value.required) || HasDefault(p.schema)
  }

  ghost function FillOf(p: Property, was: seq<Entry>, s: Option<Body>, path: Path, host: Host, accepted: set<Path>): Fill {
    if !Lacks(was, p.name, host) then Fill(None, NOTHING)
    else if SourceOf(p, s, was, host).Some? then ListFill(p, Normalized(p.schema).value, SourceOf(p, s, was, host).value, path, host, accepted)
    else if Wanted(p, s) && CanStart(p.schema, host) then
      var made := Initial(p.schema, path + [p.name], host);
      InitialStarts(p.schema, path + [p.name], host);
      Fill(Some(Entry(Some(host.quote(p.name)), Erase(made.value.value))), made.report.(added := [path + [p.name]]))
    else Fill(None, NOTHING)
  }

  /** A list that fits is moved if its name is declared and the string is filled, or if it is accepted; else it is suggested. */
  ghost function ListFill(p: Property, b: Body, source: Entry, path: Path, host: Host, accepted: set<Path>): Fill {
    var n, from, to := source.node, path + [NodeKey(source, host)], path + [p.name];
    if Fits(b, n, host) && ((Declared(b) && IsFilledString(n, host)) || to in accepted) then
      Fill(Some(Entry(Some(host.quote(p.name)), ListOf(n, host))),
           NOTHING.(added := [to], migrations := [Migration(from, to, Some(ListText(n, host)))]))
    else Fill(None, NOTHING.(suggestions := [Migration(from, to, if Fits(b, n, host) then Some(ListText(n, host)) else None)]))
  }

  /** All of them, in the order of the schema. */
  ghost function Fills(ps: seq<Property>, was: seq<Entry>, s: Option<Body>, path: Path, host: Host, accepted: set<Path>): (seq<Entry>, Report) {
    if ps == [] then ([], NOTHING)
    else
      var init, fill := Fills(ps[..|ps| - 1], was, s, path, host, accepted), FillOf(ps[|ps| - 1], was, s, path, host, accepted);
      (if fill.member.None? then init.0 else init.0 + [fill.member.value], Both(init.1, fill.report))
  }

  // ---- the walk fills in the same -------------------------------------------------------------------------------------------

  /** The walked entries have the keys and stored values of the members. */
  ghost predicate Alike(ws: seq<Walked>, es: seq<Entry>, host: Host) {
    |ws| == |es| && forall i :: 0 <= i < |ws| ==> ws[i].key == NodeKey(es[i], host) && es[i].node == Erase(ws[i].original)
  }

  lemma {:induction false} WalkedAlike(es: seq<CEntry>, s: Option<Body>, path: Path, host: Host, accepted: set<Path>)
    requires WfCEntries(true, es)
    ensures Alike(WalkObject(es, s, path, host, accepted).0, EraseEntries(es), host)
    decreases |es|
  {
    if es != [] {
      var init, e := es[..|es| - 1], es[|es| - 1];
      assert WfCEntry(true, e) && WfCEntries(true, init);
      assert es == init + [e];
      hide WalkEntry, ChildSchema, Forbids, Both, WfCst, WfCEntries, Erase, WalkObject, EraseEntries, Alike;
      WalkObjectSnoc(init, e, s, path, host, accepted);
      EraseSnoc(init, e);
      WalkedAlike(init, s, path, host, accepted);
      AlikeSnoc(WalkObject(init, s, path, host, accepted).0, LastWalked(e, s, path, host, accepted), EraseEntries(init), EraseEntry(e), host);
    }
  }

  lemma AlikeSnoc(ws: seq<Walked>, w: Walked, es: seq<Entry>, e: Entry, host: Host)
    requires Alike(ws, es, host) && w.key == NodeKey(e, host) && e.node == Erase(w.original)
    ensures Alike(ws + [w], es + [e], host)
  {
    hide NodeKey, Erase;
  }

  /** Every value as stored is a derivation. */
  ghost predicate Originals(ws: seq<Walked>) {
    forall i :: 0 <= i < |ws| ==> WfCst(ws[i].original)
  }

  lemma {:induction false} WalkedOriginals(es: seq<CEntry>, s: Option<Body>, path: Path, host: Host, accepted: set<Path>)
    requires WfCEntries(true, es)
    ensures Originals(WalkObject(es, s, path, host, accepted).0)
    decreases |es|
  {
    hide WfCst, WalkEntry, KeyOf, ChildSchema, Forbids, Both;
    if es != [] {
      assert WfCEntry(true, es[|es| - 1]);
      WalkedOriginals(es[..|es| - 1], s, path, host, accepted);
    }
  }

  lemma SourceIsWf(ws: seq<Walked>, key: string)
    requires Originals(ws) && FirstWith(ws, key).Some?
    ensures WfCst(FirstWith(ws, key).value.original)
  {
    var w := FirstWith(ws, key).value;
    var i :| 0 <= i < |ws| && ws[i] == w;
  }

  lemma SeenIsHad(ws: seq<Walked>, es: seq<Entry>, name: string, host: Host)
    requires Alike(ws, es, host)
    ensures Seen(ws, name) <==> !Lacks(es, name, host)
  {
    hide NodeKey, Erase;
    if !Lacks(es, name, host) {
      var i :| 0 <= i < |es| && NodeKey(es[i], host) == name;
      assert ws[i] in ws;
    }
  }

  lemma {:induction false} FirstIndex(ws: seq<Walked>, key: string) returns (i: nat)
    ensures FirstWith(ws, key).None? ==> forall j :: 0 <= j < |ws| ==> ws[j].key != key
    ensures FirstWith(ws, key).Some? ==> i < |ws| && ws[i] == FirstWith(ws, key).value && forall j :: 0 <= j < i ==> ws[j].key != key
    decreases |ws|
  {
    i := 0;
    if ws != [] && ws[0].key != key {
      var k := FirstIndex(ws[1..], key);
      i := k + 1;
      assert forall j :: 1 <= j < |ws| ==> ws[j] == ws[1..][j - 1];
    }
  }

  /** The names that a list may come from are one. */
  lemma SourceKeyIs(b: Body, p: Property, s: Option<Body>, key: string)
    ensures ComesFrom(b, p, s, key) <==>
            SourceKey(b, p.name) == Some(key) &&
            (Declared(b) || (!Declares(s, key) && Normalized(b.items).Some? && Normalized(b.items).value.isString))
  {
    hide Declares, Normalized;
    if b.migrateFrom.None? && p.name != "" && p.name[|p.name| - 1] == 's' {
      assert p.name == p.name[..|p.name| - 1] + "s";
    }
    assert (key + "s")[..|key|] == key;
  }

  /** The member a decision takes as its source is the one offered. */
  lemma SourceIs(p: Property, s: Option<Body>, ws: seq<Walked>, es: seq<Entry>, host: Host)
    requires Alike(ws, es, host)
    ensures var b := Normalized(p.schema);
            var key := if b.Some? && b.value.isArray then SourceKey(b.value, p.name) else None;
            var w := if key.Some? then FirstWith(ws, key.value) else None;
            var source := SourceOf(p, s, es, host);
            if w.Some? && ComesFrom(b.value, p, s, key.value) then
              source.Some? && source.value.node == Erase(w.value.original) && NodeKey(source.value, host) == key.value
            else source.None?
  {
    var b := Normalized(p.schema);
    hide Normalized, SourceKey, ComesFrom, Erase, NodeKey, FirstWith;
    if b.Some? && b.value.isArray {
      forall key
        ensures ComesFrom(b.value, p, s, key) ==> SourceKey(b.value, p.name) == Some(key)
      {
        SourceKeyIs(b.value, p, s, key);
      }
      if SourceKey(b.value, p.name).Some? {
        var key := SourceKey(b.value, p.name).value;
        var i := FirstIndex(ws, key);
        if FirstWith(ws, key).Some? && ComesFrom(b.value, p, s, key) {
          assert Offers(p, s, es, i, host);
          assert forall j :: Offers(p, s, es, j, host) ==> j == i;
        }
      }
    }
  }

  lemma ListTexts(c: Cst)
    ensures Unparse(BareContainer(false, [])) == "[]"
    ensures Unparse(BareContainer(false, [BareEntry(None, c)])) == "[" + Unparse(c) + "]"
  {
    BareText(false, []);
    BareText(false, [BareEntry(None, c)]);
    OneEntryText(c);
    assert UnparseEntries([]) == "";
    hide Unparse, UnparseEntries;
    assert "[" + "" + "]" == "[]";
  }

  lemma BareText(isObject: bool, es: seq<CEntry>)
    ensures Unparse(BareContainer(isObject, es)) == [OpenChar(isObject)] + UnparseEntries(es) + [CloseChar(isObject)]
  {
    hide UnparseEntries;
    Unit([OpenChar(isObject)]);
    Unit([CloseChar(isObject)]);
  }

  lemma OneEntryText(c: Cst)
    ensures UnparseEntries([BareEntry(None, c)]) == Unparse(c)
  {
    var e := BareEntry(None, c);
    assert [e][..0] == [];
    hide Unparse;
    Unit(Unparse(c));
    Unit(UnparseEntry(e));
  }

  lemma CandidateFits(b: Body, original: Cst, host: Host)
    ensures var n, list := Erase(original), Candidate(b, original, host);
            (Filled(original, host) <==> IsFilledString(n, host)) && (list.Some? <==> Fits(b, n, host)) &&
            (list.Some? ==> Erase(list.value) == ListOf(n, host) && Unparse(list.value) == ListText(n, host))
  {
    ListTexts(original);
    var e := BareEntry(None, original);
    assert EraseEntries([e]) == [EraseEntry(e)] by { EraseSnoc([], e); Unit([e]); }
  }

  /** What is decided about one property and added for it, in the words of `FillOf`. */
  ghost predicate Filling(fill: Fill, d: Decision, made: Made, p: Property, path: Path, host: Host) {
    var note := MigrationOf(p, d, path);
    fill.member == (if made.value.Some? then Some(Entry(Some(host.quote(p.name)), Erase(made.value.value))) else None) &&
    fill.report == made.report.(added := if made.value.Some? then [path + [p.name]] else [],
                                migrations := note.migrations, suggestions := note.suggestions)
  }

  lemma ListFills(p: Property, s: Option<Body>, ws: seq<Walked>, w: Walked, source: Entry, path: Path, host: Host, accepted: set<Path>)
    requires Normalized(p.schema).Some? && Normalized(p.schema).value.isArray && !Seen(ws, p.name)
    requires SourceKey(Normalized(p.schema).value, p.name) == Some(NodeKey(source, host)) && source.node == Erase(w.original)
    requires FirstWith(ws, NodeKey(source, host)) == Some(w) && ComesFrom(Normalized(p.schema).value, p, s, NodeKey(source, host))
    ensures var b := Normalized(p.schema).value;
            var d := Decide(p, s, ws, path, host, accepted);
            !d.Skip? && Filling(ListFill(p, b, source, path, host, accepted), d, Addition(p, s, ws, path, host, accepted), p, path, host)
  {
    var b := Normalized(p.schema).value;
    SourceKeyIs(b, p, s, NodeKey(source, host));
    CandidateFits(b, w.original, host);
    hide Normalized, SourceKey, ComesFrom, Erase, NodeKey, Declares, Seen, Candidate, Filled, Fits, IsFilledString, ListOf, ListText, Unparse;
  }

  lemma StartFills(p: Property, s: Option<Body>, was: seq<Entry>, ws: seq<Walked>, path: Path, host: Host, accepted: set<Path>)
    requires Decide(p, s, ws, path, host, accepted).Skip? && (Seen(ws, p.name) <==> !Lacks(was, p.name, host))
    requires SourceOf(p, s, was, host).None? || Seen(ws, p.name)
    ensures Filling(FillOf(p, was, s, path, host, accepted), Skip, Addition(p, s, ws, path, host, accepted), p, path, host)
  {
    InitialStarts(p.schema, path + [p.name], host);
    InitialReports(p.schema, path + [p.name], host);
    hide Decide, Initial, CanStart, Lacks, Seen, SourceOf, StartsAs;
  }

  lemma PropertyFills(p: Property, s: Option<Body>, ws: seq<Walked>, es: seq<Entry>, path: Path, host: Host, accepted: set<Path>)
    requires Alike(ws, es, host)
    ensures Filling(FillOf(p, es, s, path, host, accepted), Decide(p, s, ws, path, host, accepted), Addition(p, s, ws, path, host, accepted),
                    p, path, host)
  {
    SeenIsHad(ws, es, p.name, host);
    SourceIs(p, s, ws, es, host);
    var b := Normalized(p.schema);
    var source := SourceOf(p, s, es, host);
    hide Alike, Filling, Addition, Seen, Lacks, SourceOf, Erase, NodeKey, FirstWith, ListFill;
    if !Seen(ws, p.name) && source.Some? {
      ListFills(p, s, ws, FirstWith(ws, NodeKey(source.value, host)).value, source.value, path, host, accepted);
    } else {
      if b.Some? && b.value.isArray && SourceKey(b.value, p.name).Some? {
        SourceKeyIs(b.value, p, s, SourceKey(b.value, p.name).value);
      }
      StartFills(p, s, es, ws, path, host, accepted);
    }
  }

  /** The members and reports of the walk for missing properties are those of the fills. */
  lemma {:induction false} AdditionsFill(ps: seq<Property>, s: Option<Body>, ws: seq<Walked>, es: seq<Entry>, path: Path, host: Host, accepted: set<Path>)
    requires Alike(ws, es, host)
    ensures var more, decided := Additions(ps, s, ws, path, host, accepted), DecideAll(ps, s, ws, path, host, accepted);
            Fills(ps, es, s, path, host, accepted) ==
            (EraseEntries(more.0), more.1.(migrations := decided.migrations, suggestions := decided.suggestions))
    decreases |ps|
  {
    hide Alike, FillOf, Decide, Addition, EraseEntries, Erase, BareEntry, MigrationOf;
    if ps == [] {
      NothingErased();
    } else {
      var k := |ps| - 1;
      var p := ps[k];
      AdditionsFill(ps[..k], s, ws, es, path, host, accepted);
      PropertyFills(p, s, ws, es, path, host, accepted);
      var init, made := Additions(ps[..k], s, ws, path, host, accepted), Addition(p, s, ws, path, host, accepted);
      AdditionReports(p, s, ws, path, host, accepted);
      if made.value.Some? {
        var e := BareEntry(Some(host.quote(p.name)), made.value.value);
        EraseSnoc(init.0, e);
        BareErases(Some(host.quote(p.name)), made.value.value);
      }
    }
  }

  lemma NothingErased()
    ensures EraseEntries([]) == []
  {
  }
}

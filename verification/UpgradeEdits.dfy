/**
  How a prepared value comes from the stored one: by exactly the edits reported, each at its
  place.

  `Upgraded` relates the two trees and the report position by position, so it also tells
  repeated keys apart.  A scalar is the same or is the reported enum conversion; the items of an
  array are related one to one; an object leaves out the members that are forbidden and that no
  suggestion of its own is about, keeps all others in order, each under its own key, and after
  these has exactly the fills of the properties it lacked (`UpgradeFills`), given what was
  accepted.  The report is that of the parts together with what was left out and put in here:
  nothing is done unreported, and nothing reported is not done.  `WalkUpgrades` says the walk
  keeps it.
*/
module UpgradeEdits {
  import opened Seqs
  import opened JsonLex
  import opened JsonSyntax
  import opened Upgrade
  import opened UpgradeFills

  // ---- the relation ---------------------------------------------------------------------------------------------

  /** Reports one after the other. */
  function BothAll(rs: seq<Report>): Report {
    if rs == [] then NOTHING else Both(BothAll(rs[..|rs| - 1]), rs[|rs| - 1])
  }

  ghost predicate Upgraded(was: Node, now: Node, raw: Schema, path: Path, r: Report, host: Host, accepted: set<Path>)
    decreases was, 2
  {
    var s := Normalized(raw);
    match was
    case Scalar(kind, text) =>
      var name := if kind == Num then EnumName(s, text) else None;
      if name.None? then now == was && r == NOTHING
      else now == Scalar(Str, host.quote(name.value)) && r == NOTHING.(conversions := [Conversion(path, text, name.value)])
    case Container(isObject, es) =>
      now.Container? && now.isObject == isObject &&
      if isObject then exists k: nat, rs, own :: MembersUpgraded(es, now.entries, k, rs, own, s, path, r, host, accepted)
      else exists rs :: ItemsUpgraded(es, now.entries, rs, s, path, r, host, accepted)
  }

  /** First the `k` members that stay, then the new ones; `rs` is reported inside the stored members, `own` about them. */
  ghost predicate MembersUpgraded(was: seq<Entry>, now: seq<Entry>, k: nat, rs: seq<Report>, own: Report, s: Option<Body>, path: Path,
                                  r: Report, host: Host, accepted: set<Path>)
    decreases was, 1
  {
    k <= |now| && |rs| == |was| && r == Both(BothAll(rs), own) &&
    Stay(was, now[..k], rs, own.removed, own, s, path, host, accepted) &&
    (now[k..], own.(removed := [])) == Fills(PropertiesOf(s), was, s, path, host, accepted)
  }

  /** Forbidden, and no pending suggestion of this object takes its value from there. */
  ghost predicate Gone(e: Entry, own: Report, s: Option<Body>, path: Path, host: Host) {
    Forbids(s, NodeKey(e, host)) && !Suggested(own, path + [NodeKey(e, host)])
  }

  /** `now` is `was` in order, without the members that are gone, and `removed` lists these. */
  ghost predicate Stay(was: seq<Entry>, now: seq<Entry>, rs: seq<Report>, removed: seq<Path>, own: Report, s: Option<Body>, path: Path,
                       host: Host, accepted: set<Path>)
    requires |rs| == |was|
    decreases was, 0
  {
    if was == [] then now == [] && removed == []
    else
      var k := |was| - 1;
      if Gone(was[k], own, s, path, host) then
        rs[k] == NOTHING && removed != [] && removed[|removed| - 1] == path + [NodeKey(was[k], host)] &&
        Stay(was[..k], now, rs[..k], removed[..|removed| - 1], own, s, path, host, accepted)
      else
        now != [] && MemberStays(was[k], now[|now| - 1], rs[k], s, path, host, accepted) &&
        Stay(was[..k], now[..|now| - 1], rs[..k], removed, own, s, path, host, accepted)
  }

  ghost predicate MemberStays(e: Entry, f: Entry, r: Report, s: Option<Body>, path: Path, host: Host, accepted: set<Path>)
    decreases e, 0
  {
    var key := NodeKey(e, host);
    f.key == e.key && Upgraded(e.node, f.node, ChildSchema(s, key), path + [key], r, host, accepted)
  }

  ghost predicate ItemsUpgraded(was: seq<Entry>, now: seq<Entry>, rs: seq<Report>, s: Option<Body>, path: Path, r: Report, host: Host, accepted: set<Path>)
    decreases was, 1
  {
    |now| == |was| && |rs| == |was| && r == BothAll(rs) &&
    forall i :: 0 <= i < |was| ==> ItemUpgraded(was[i], now[i], i, rs[i], s, path, host, accepted)
  }

  ghost predicate ItemUpgraded(e: Entry, f: Entry, i: nat, r: Report, s: Option<Body>, path: Path, host: Host, accepted: set<Path>)
    decreases e, 0
  {
    f.key == e.key && Upgraded(e.node, f.node, ItemSchema(s, i), path + [IndexText(i)], r, host, accepted)
  }

  /** Members that the schema does not forbid all stay at their places, and none is reported as removed. */
  lemma {:induction false} AllowedStay(was: seq<Entry>, now: seq<Entry>, rs: seq<Report>, removed: seq<Path>, own: Report, s: Option<Body>,
                                       path: Path, host: Host, accepted: set<Path>)
    requires |rs| == |was| && Stay(was, now, rs, removed, own, s, path, host, accepted)
    requires forall i :: 0 <= i < |was| ==> !Forbids(s, NodeKey(was[i], host))
    ensures removed == [] && |now| == |was| && forall i :: 0 <= i < |was| ==> MemberStays(was[i], now[i], rs[i], s, path, host, accepted)
    decreases |was|
  {
    if was != [] {
      hide MemberStays, Forbids, NodeKey;
      AllowedStay(was[..|was| - 1], now[..|now| - 1], rs[..|was| - 1], removed, own, s, path, host, accepted);
    }
  }

  // ---- values without a schema ---------------------------------------------------------------------------------------

  /** Under a forbidden key there is no schema, so nothing is reported. */
  lemma {:induction false} NothingWithoutSchema(c: Cst, path: Path, host: Host, accepted: set<Path>)
    ensures Walk(c, NoSchema, path, host, accepted).report == NOTHING
    decreases c, 1
  {
    if c.CContainer? {
      if c.isObject {
        ObjectNothing(c.entries, path, host, accepted);
        var ws := WalkObject(c.entries, None, path, host, accepted).0;
        NoneForbidden(c.entries, path, host, accepted);
        NothingRemoved(ws, path);
      } else {
        ArrayNothing(c.entries, path, host, accepted);
      }
    }
  }

  lemma {:induction false} ObjectNothing(es: seq<CEntry>, path: Path, host: Host, accepted: set<Path>)
    ensures WalkObject(es, None, path, host, accepted).1 == NOTHING
    decreases es, 0
  {
    if es != [] {
      var e := es[|es| - 1];
      ObjectNothing(es[..|es| - 1], path, host, accepted);
      EntryNothing(e, path + [KeyOf(e, host)], host, accepted);
      hide WalkEntry, KeyOf;
    }
  }

  lemma {:induction false} ArrayNothing(es: seq<CEntry>, path: Path, host: Host, accepted: set<Path>)
    ensures WalkArray(es, None, path, host, accepted).1 == NOTHING
    decreases es, 0
  {
    if es != [] {
      var k := |es| - 1;
      ArrayNothing(es[..k], path, host, accepted);
      EntryNothing(es[k], path + [IndexText(k)], host, accepted);
      hide WalkEntry, IndexText;
    }
  }

  lemma {:induction false} EntryNothing(e: CEntry, path: Path, host: Host, accepted: set<Path>)
    ensures WalkEntry(e, NoSchema, path, host, accepted).report == NOTHING
    decreases e, 0
  {
    NothingWithoutSchema(e.value, path, host, accepted);
  }

  lemma {:induction false} NoneForbidden(es: seq<CEntry>, path: Path, host: Host, accepted: set<Path>)
    ensures forall w :: w in WalkObject(es, None, path, host, accepted).0 ==> !w.forbidden
    decreases |es|
  {
    if es != [] {
      NoneForbidden(es[..|es| - 1], path, host, accepted);
      hide WalkEntry, KeyOf;
    }
  }

  lemma {:induction false} NothingRemoved(ws: seq<Walked>, path: Path)
    requires forall w :: w in ws ==> !w.forbidden
    ensures RemovedPaths(ws, [], path) == []
    decreases |ws|
  {
    if ws != [] {
      assert ws[|ws| - 1] in ws;
      NothingRemoved(ws[..|ws| - 1], path);
    }
  }

  // ---- one entry ---------------------------------------------------------------------------------------------------------

  /** A walked entry is the stored one, its value upgraded as reported. */
  ghost predicate Fine(w: Walked, e: CEntry, r: Report, s: Option<Body>, path: Path, host: Host, accepted: set<Path>) {
    e.key.Some? && w.key == host.unquote(w.keyText) && w.keyText == e.key.value.text && w.original == e.value &&
    w.forbidden == Forbids(s, w.key) && (w.forbidden ==> r == NOTHING) && WfCst(w.child) && WfCst(w.original) &&
    Upgraded(Erase(e.value), Erase(w.child), ChildSchema(s, w.key), path + [w.key], r, host, accepted)
  }

  ghost predicate AllFine(ws: seq<Walked>, es: seq<CEntry>, rs: seq<Report>, s: Option<Body>, path: Path, host: Host, accepted: set<Path>) {
    |ws| == |es| && |rs| == |es| && forall i :: 0 <= i < |es| ==> Fine(ws[i], es[i], rs[i], s, path, host, accepted)
  }

  lemma FineKey(w: Walked, e: CEntry, r: Report, s: Option<Body>, path: Path, host: Host, accepted: set<Path>)
    requires Fine(w, e, r, s, path, host, accepted)
    ensures NodeKey(EraseEntry(e), host) == w.key && EraseEntry(e) == Entry(Some(w.keyText), Erase(w.original))
  {
    hide Upgraded, Erase, Forbids, ChildSchema, WfCst;
  }

  lemma StayingMember(w: Walked, e: CEntry, r: Report, own: Report, s: Option<Body>, path: Path, host: Host, accepted: set<Path>)
    requires Fine(w, e, r, s, path, host, accepted) && !Dropped(w, own.suggestions, path)
    ensures !Gone(EraseEntry(e), own, s, path, host)
    ensures MemberStays(EraseEntry(e), EraseEntry(BareEntry(Some(w.keyText), w.child)), r, s, path, host, accepted)
  {
    hide Upgraded, Erase, Forbids, ChildSchema, WfCst;
  }

  lemma GoneMember(w: Walked, e: CEntry, r: Report, own: Report, s: Option<Body>, path: Path, host: Host, accepted: set<Path>)
    requires Fine(w, e, r, s, path, host, accepted) && Dropped(w, own.suggestions, path)
    ensures Gone(EraseEntry(e), own, s, path, host) && r == NOTHING
  {
    hide Upgraded, Erase, Forbids, ChildSchema, WfCst;
  }

  // ---- members that stay ---------------------------------------------------------------------------------------------------

  lemma StaySnoc(was: seq<Entry>, now: seq<Entry>, rs: seq<Report>, removed: seq<Path>, e: Entry, f: Entry, r: Report, own: Report,
                 s: Option<Body>, path: Path, host: Host, accepted: set<Path>)
    requires |rs| == |was| && Stay(was, now, rs, removed, own, s, path, host, accepted)
    ensures Gone(e, own, s, path, host) && r == NOTHING ==>
              Stay(was + [e], now, rs + [r], removed + [path + [NodeKey(e, host)]], own, s, path, host, accepted)
    ensures !Gone(e, own, s, path, host) && MemberStays(e, f, r, s, path, host, accepted) ==>
              Stay(was + [e], now + [f], rs + [r], removed, own, s, path, host, accepted)
  {
    hide Gone, MemberStays, NodeKey;
    Snoc(was, e);
    Snoc(now, f);
    Snoc(rs, r);
    Snoc(removed, path + [NodeKey(e, host)]);
  }

  lemma {:induction false} KeptStay(ws: seq<Walked>, es: seq<CEntry>, rs: seq<Report>, own: Report, s: Option<Body>, path: Path,
                                    host: Host, accepted: set<Path>)
    requires AllFine(ws, es, rs, s, path, host, accepted)
    ensures Stay(EraseEntries(es), EraseEntries(Kept(ws, own.suggestions, path)), rs, RemovedPaths(ws, own.suggestions, path), own, s, path, host, accepted)
    decreases |ws|
  {
    if ws == [] {
      assert es == [] && Kept(ws, own.suggestions, path) == [];
    } else {
      var k, suggestions := |ws| - 1, own.suggestions;
      var w, e, r, init := ws[k], es[k], rs[k], Kept(ws[..k], suggestions, path);
      assert Fine(w, e, r, s, path, host, accepted) && AllFine(ws[..k], es[..k], rs[..k], s, path, host, accepted);
      hide Kept, Dropped, EraseEntries, MemberStays, Gone, EraseEntry, Fine, BareEntry, AllFine, RemovedPaths, Stay, NodeKey;
      AroundLast(es, k);
      AroundLast(ws, k);
      AroundLast(rs, k);
      KeptStay(ws[..k], es[..k], rs[..k], own, s, path, host, accepted);
      KeptSnoc(ws[..k], w, suggestions, path);
      EraseSnoc(es[..k], e);
      FineKey(w, e, r, s, path, host, accepted);
      var f := BareEntry(Some(w.keyText), w.child);
      StaySnoc(EraseEntries(es[..k]), EraseEntries(init), rs[..k], RemovedPaths(ws[..k], suggestions, path), EraseEntry(e), EraseEntry(f), r, own,
               s, path, host, accepted);
      if Dropped(w, suggestions, path) {
        Unit(init);
        GoneMember(w, e, r, own, s, path, host, accepted);
      } else {
        Unit(RemovedPaths(ws[..k], suggestions, path));
        StayingMember(w, e, r, own, s, path, host, accepted);
        EraseSnoc(init, f);
      }
    }
  }

  lemma AroundLast<T>(xs: seq<T>, k: nat)
    requires |xs| == k + 1
    ensures xs == xs[..k] + [xs[k]]
  {
  }

  /** When no entry is dropped or differs, the entries that stay are the stored ones. */
  lemma {:induction false} NothingDiffers(ws: seq<Walked>, es: seq<CEntry>, rs: seq<Report>, s: Option<Body>, path: Path,
                                          suggestions: seq<Migration>, host: Host, accepted: set<Path>)
    requires AllFine(ws, es, rs, s, path, host, accepted)
    requires forall w :: w in ws ==> !Dropped(w, suggestions, path) && Unparse(w.child) == Upgrade.Text(w.original)
    ensures EraseEntries(Kept(ws, suggestions, path)) == EraseEntries(es)
    decreases |ws|
  {
    if ws != [] {
      var k := |ws| - 1;
      var w, e := ws[k], es[k];
      assert w in ws;
      assert Fine(w, e, rs[k], s, path, host, accepted) && AllFine(ws[..k], es[..k], rs[..k], s, path, host, accepted);
      hide Kept, Dropped, EraseEntries, Fine, Erase, AllFine, Unparse, Upgrade.Text;
      AroundLast(es, k);
      AroundLast(ws, k);
      NothingDiffers(ws[..k], es[..k], rs[..k], s, path, suggestions, host, accepted);
      KeptSnoc(ws[..k], w, suggestions, path);
      EraseSnoc(es[..k], e);
      EraseSnoc(Kept(ws[..k], suggestions, path), BareEntry(Some(w.keyText), w.child));
      FineTexts(w, e, rs[k], s, path, host, accepted);
      FineKey(w, e, rs[k], s, path, host, accepted);
    }
  }

  lemma FineTexts(w: Walked, e: CEntry, r: Report, s: Option<Body>, path: Path, host: Host, accepted: set<Path>)
    requires Fine(w, e, r, s, path, host, accepted) && Unparse(w.child) == Upgrade.Text(w.original)
    ensures Erase(w.original) == Erase(w.child)
  {
    hide Upgraded, Unparse, Erase, Forbids, ChildSchema;
    TrimWf(w.original);
    SameTextSameTree(w.child, Trim(w.original));
    EraseTrim(w.original);
  }

  // ---- members put in --------------------------------------------------------------------------------------------------------

  lemma FineAlike(ws: seq<Walked>, es: seq<CEntry>, rs: seq<Report>, s: Option<Body>, path: Path, host: Host, accepted: set<Path>)
    requires AllFine(ws, es, rs, s, path, host, accepted)
    ensures Alike(ws, EraseEntries(es), host)
  {
    hide Fine, EraseEntries, EraseEntry, Erase, NodeKey;
    forall i | 0 <= i < |ws|
      ensures ws[i].key == NodeKey(EraseEntries(es)[i], host) && EraseEntries(es)[i].node == Erase(ws[i].original)
    {
      assert Fine(ws[i], es[i], rs[i], s, path, host, accepted);
      FineKey(ws[i], es[i], rs[i], s, path, host, accepted);
      EraseAt(es, i);
    }
  }

  // ---- a whole object ----------------------------------------------------------------------------------------------------------

  /** What an object reports about itself. */
  function OwnReport(ws: seq<Walked>, s: Option<Body>, path: Path, host: Host, accepted: set<Path>): Report {
    var decided := DecideAll(PropertiesOf(s), s, ws, path, host, accepted);
    Both(decided, Both(NOTHING.(removed := RemovedPaths(ws, decided.suggestions, path)), Additions(PropertiesOf(s), s, ws, path, host, accepted).1))
  }

  lemma OwnParts(ws: seq<Walked>, s: Option<Body>, path: Path, host: Host, accepted: set<Path>)
    ensures var own, decided := OwnReport(ws, s, path, host, accepted), DecideAll(PropertiesOf(s), s, ws, path, host, accepted);
            own.removed == RemovedPaths(ws, decided.suggestions, path) && own.suggestions == decided.suggestions &&
            own.(removed := []) == Additions(PropertiesOf(s), s, ws, path, host, accepted).1.(migrations := decided.migrations,
                                                                                            suggestions := decided.suggestions)
  {
    hide DecideAll, Additions, RemovedPaths, PropertiesOf;
    DecideReports(PropertiesOf(s), s, ws, path, host, accepted);
    AdditionsReports(PropertiesOf(s), s, ws, path, host, accepted, path);
  }

  lemma FinishIs(c: Cst, ws: seq<Walked>, below: Report, s: Option<Body>, path: Path, host: Host, accepted: set<Path>)
    requires c.CContainer?
    ensures var out, own := FinishObject(c, ws, below, s, path, host, accepted), OwnReport(ws, s, path, host, accepted);
            var kept, more := Kept(ws, own.suggestions, path), Additions(PropertiesOf(s), s, ws, path, host, accepted).0;
            out.report == Both(below, own) &&
            (out.cst == BareContainer(true, kept + more) ||
             (out.cst == Trim(c) && more == [] && own.removed == [] && !SomeDiffer(ws, own.suggestions, path)))
  {
    OwnParts(ws, s, path, host, accepted);
    hide DecideAll, Additions, RemovedPaths, PropertiesOf, Kept, SomeDiffer, Both, Trim;
    var ps := PropertiesOf(s);
    var decided, more := DecideAll(ps, s, ws, path, host, accepted), Additions(ps, s, ws, path, host, accepted);
    BothAssoc(below, decided, Both(NOTHING.(removed := RemovedPaths(ws, decided.suggestions, path)), more.1));
  }

  lemma FinishUpgraded(c: Cst, ws: seq<Walked>, rs: seq<Report>, raw: Schema, path: Path, host: Host, accepted: set<Path>)
    requires c.CContainer? && c.isObject && AllFine(ws, c.entries, rs, Normalized(raw), path, host, accepted)
    ensures var out := FinishObject(c, ws, BothAll(rs), Normalized(raw), path, host, accepted);
            Upgraded(Erase(c), Erase(out.cst), raw, path, out.report, host, accepted)
  {
    var s, es := Normalized(raw), c.entries;
    hide FinishObject, Normalized, PropertiesOf, DecideAll, Kept, Additions, AllFine, EraseEntries, Trim, SomeDiffer, RemovedPaths, Stay,
         Fills, Alike, MembersUpgraded, OwnReport, Erase;
    var ps, own := PropertiesOf(s), OwnReport(ws, s, path, host, accepted);
    var out := FinishObject(c, ws, BothAll(rs), s, path, host, accepted);
    var kept, more := Kept(ws, own.suggestions, path), Additions(ps, s, ws, path, host, accepted);
    OwnParts(ws, s, path, host, accepted);
    FinishIs(c, ws, BothAll(rs), s, path, host, accepted);
    KeptStay(ws, es, rs, own, s, path, host, accepted);
    FineAlike(ws, es, rs, s, path, host, accepted);
    AdditionsFill(ps, s, ws, EraseEntries(es), path, host, accepted);
    FineSize(ws, es, rs, s, path, host, accepted);
    StayThenNew(EraseEntries(es), EraseEntries(kept), EraseEntries(more.0), rs, own, s, path, host, accepted);
    EraseConcat(kept, more.0);
    EraseContainer(c);
    if out.cst == BareContainer(true, kept + more.0) {
      EraseContainer(out.cst);
    } else {
      Unit(kept);
      StillSame(ws, es, rs, s, path, own.suggestions, host, accepted);
      EraseTrim(c);
    }
  }

  lemma FineSize(ws: seq<Walked>, es: seq<CEntry>, rs: seq<Report>, s: Option<Body>, path: Path, host: Host, accepted: set<Path>)
    requires AllFine(ws, es, rs, s, path, host, accepted)
    ensures |rs| == |es| && |ws| == |es|
  {
    hide Fine;
  }

  lemma StillSame(ws: seq<Walked>, es: seq<CEntry>, rs: seq<Report>, s: Option<Body>, path: Path, suggestions: seq<Migration>, host: Host, accepted: set<Path>)
    requires AllFine(ws, es, rs, s, path, host, accepted) && RemovedPaths(ws, suggestions, path) == [] && !SomeDiffer(ws, suggestions, path)
    ensures EraseEntries(Kept(ws, suggestions, path)) == EraseEntries(es)
  {
    hide AllFine, RemovedPaths, Kept, EraseEntries, Dropped, Unparse, Upgrade.Text;
    NoneDropped(ws, suggestions, path);
    NothingDiffers(ws, es, rs, s, path, suggestions, host, accepted);
  }

  lemma StayThenNew(was: seq<Entry>, kept: seq<Entry>, more: seq<Entry>, rs: seq<Report>, own: Report, s: Option<Body>, path: Path, host: Host,
                    accepted: set<Path>)
    requires |rs| == |was| && Stay(was, kept, rs, own.removed, own, s, path, host, accepted)
    requires (more, own.(removed := [])) == Fills(PropertiesOf(s), was, s, path, host, accepted)
    ensures MembersUpgraded(was, kept + more, |kept|, rs, own, s, path, Both(BothAll(rs), own), host, accepted)
  {
    hide Stay, Fills, PropertiesOf, Both, BothAll;
    assert (kept + more)[..|kept|] == kept && (kept + more)[|kept|..] == more;
  }

  lemma {:induction false} EraseConcat(a: seq<CEntry>, b: seq<CEntry>)
    ensures EraseEntries(a + b) == EraseEntries(a) + EraseEntries(b)
    decreases |b|
  {
    hide EraseEntry;
    if b == [] {
      Unit(a);
      Unit(EraseEntries(a));
    } else {
      var k := |b| - 1;
      EraseConcat(a, b[..k]);
      assert b == b[..k] + [b[k]];
      assert a + b == (a + b[..k]) + [b[k]];
      EraseSnoc(a + b[..k], b[k]);
      EraseSnoc(b[..k], b[k]);
      hide EraseEntries;
      Assoc(EraseEntries(a), EraseEntries(b[..k]), [EraseEntry(b[k])]);
    }
  }

  // ---- one path, two objects --------------------------------------------------------------------------------------------------------

  const PLAIN := Body(false, [], Other(NoSchema), false, [], NoSchema, [], NoDefault, false, false, false, false, None, None, None)

  /** A list of strings. */
  const STRINGS := Plain(PLAIN.(isArray := true, items := Plain(PLAIN.(isString := true))))

  /** An object that may only have a list of strings `xs`. */
  const ONLY_XS := PLAIN.(hasProperties := true, properties := [Property("xs", STRINGS)], additional := Forbidden)

  function Stored(key: string, text: Cst): Walked {
    Walked(key, "\"" + key + "\"", text, text, key != "xs")
  }

  /**
    Under a repeated key the objects `{"x":"v"}` and `{"x":"v","xs":[]}` have one path, and so have
    their members `x`: the first is the source of a pending suggestion, the second is removed.
    Whether a member stays is therefore decided by the suggestions of its own object, not by
    those of the whole report.
  */
  lemma OnePathTwoFates(path: Path, host: Host)
    ensures var x, xs := Stored("x", CScalar(Str, "\"v\"")), Stored("xs", BareContainer(false, []));
            Suggested(OwnReport([x], Some(ONLY_XS), path, host, {}), path + ["x"]) &&
            path + ["x"] in OwnReport([x, xs], Some(ONLY_XS), path, host, {}).removed
  {
    var x, xs := Stored("x", CScalar(Str, "\"v\"")), Stored("xs", BareContainer(false, []));
    var p, s := Property("xs", STRINGS), Some(ONLY_XS);
    assert PropertiesOf(s) == [p] && [p][..0] == [];
    OwnParts([x], s, path, host, {});
    OwnParts([x, xs], s, path, host, {});
    PendingX(x, path, host);
    SettledX(x, xs, path, host);
  }

  lemma PendingX(x: Walked, path: Path, host: Host)
    requires x == Stored("x", CScalar(Str, "\"v\""))
    ensures Suggested(DecideAll([Property("xs", STRINGS)], Some(ONLY_XS), [x], path, host, {}), path + ["x"])
  {
    var p, s := Property("xs", STRINGS), Some(ONLY_XS);
    var d := Decide(p, s, [x], path, host, {});
    assert !Declares(s, "x") by { assert forall q :: q in PropertiesOf(s) ==> q.name == "xs"; }
    assert SourceKey(Normalized(STRINGS).value, "xs") == Some("x") by { assert "xs"[..1] == "x"; }
    assert FirstWith([x], "x") == Some(x);
    assert d.Pend? && d.source == "x";
    assert [p][..0] == [] && DecideAll([], s, [x], path, host, {}) == NOTHING;
    hide Decide, Unparse, OptText;
    var m := Migration(path + ["x"], path + ["xs"], OptText(d.candidate));
    assert m in DecideAll([p], s, [x], path, host, {}).suggestions;
  }

  lemma SettledX(x: Walked, xs: Walked, path: Path, host: Host)
    requires x == Stored("x", CScalar(Str, "\"v\"")) && xs == Stored("xs", BareContainer(false, []))
    ensures path + ["x"] in RemovedPaths([x, xs], DecideAll([Property("xs", STRINGS)], Some(ONLY_XS), [x, xs], path, host, {}).suggestions, path)
  {
    var p, s, ws := Property("xs", STRINGS), Some(ONLY_XS), [x, xs];
    assert xs in ws;
    assert Decide(p, s, ws, path, host, {}) == Skip;
    assert [p][..0] == [] && DecideAll([], s, ws, path, host, {}) == NOTHING;
    hide Decide;
    var suggestions := DecideAll([p], s, ws, path, host, {}).suggestions;
    assert suggestions == [];
    assert Dropped(x, suggestions, path) && !Dropped(xs, suggestions, path);
    assert ws[..1] == [x] && [x][..0] == [];
    assert RemovedPaths([x], suggestions, path) == [path + ["x"]];
  }

  // ---- a whole array -----------------------------------------------------------------------------------------------------------------

  ghost predicate FineItem(x: Cst, e: CEntry, i: nat, r: Report, s: Option<Body>, path: Path, host: Host, accepted: set<Path>) {
    e.key.None? && WfCst(x) && WfCst(e.value) && Upgraded(Erase(e.value), Erase(x), ItemSchema(s, i), path + [IndexText(i)], r, host, accepted)
  }

  ghost predicate AllItems(outs: seq<Cst>, es: seq<CEntry>, rs: seq<Report>, s: Option<Body>, path: Path, host: Host, accepted: set<Path>) {
    |outs| == |es| && |rs| == |es| && forall i :: 0 <= i < |es| ==> FineItem(outs[i], es[i], i, rs[i], s, path, host, accepted)
  }

  lemma FineItemUpgraded(x: Cst, e: CEntry, f: CEntry, i: nat, r: Report, s: Option<Body>, path: Path, host: Host, accepted: set<Path>)
    requires FineItem(x, e, i, r, s, path, host, accepted) && f.key.None? && WfCst(f.value) && Upgrade.Text(f.value) == Unparse(x)
    ensures ItemUpgraded(EraseEntry(e), EraseEntry(f), i, r, s, path, host, accepted)
  {
    hide Unparse, Erase, Upgraded, ItemSchema, WfCst, IndexText;
    TrimWf(f.value);
    SameTextSameTree(x, Trim(f.value));
    EraseTrim(f.value);
  }

  lemma FineItemBare(x: Cst, e: CEntry, i: nat, r: Report, s: Option<Body>, path: Path, host: Host, accepted: set<Path>)
    requires FineItem(x, e, i, r, s, path, host, accepted)
    ensures ItemUpgraded(EraseEntry(e), EraseEntry(BareEntry(None, x)), i, r, s, path, host, accepted)
  {
    hide Erase, Upgraded, ItemSchema, WfCst, IndexText;
  }

  lemma ArrayUpgraded(c: Cst, outs: seq<Cst>, rs: seq<Report>, raw: Schema, path: Path, host: Host, accepted: set<Path>)
    requires c.CContainer? && !c.isObject && AllItems(outs, c.entries, rs, Normalized(raw), path, host, accepted)
    ensures var out := FinishArray(c, outs, BothAll(rs)); Upgraded(Erase(c), Erase(out.cst), raw, path, out.report, host, accepted)
  {
    var s, es := Normalized(raw), c.entries;
    hide Normalized, ItemUpgraded, FineItem, EraseEntry, EraseEntries, Unparse, Upgrade.Text, FinishArray, AllItems, Erase, BothAll;
    AllItemsSize(outs, es, rs, s, path, host, accepted);
    var now := FinishedItems(c, outs, BothAll(rs));
    EraseContainer(c);
    forall i | 0 <= i < |es|
      ensures ItemUpgraded(EraseEntries(es)[i], EraseEntries(now)[i], i, rs[i], s, path, host, accepted)
    {
      ItemAt(outs, es, rs, i, s, path, host, accepted);
      EraseAt(es, i);
      EraseAt(now, i);
      if now[i] == BareEntry(None, outs[i]) {
        FineItemBare(outs[i], es[i], i, rs[i], s, path, host, accepted);
      } else {
        FineItemWf(outs[i], es[i], i, rs[i], s, path, host, accepted);
        FineItemUpgraded(outs[i], es[i], es[i], i, rs[i], s, path, host, accepted);
      }
    }
    assert ItemsUpgraded(EraseEntries(es), EraseEntries(now), rs, s, path, BothAll(rs), host, accepted);
  }

  lemma AllItemsSize(outs: seq<Cst>, es: seq<CEntry>, rs: seq<Report>, s: Option<Body>, path: Path, host: Host, accepted: set<Path>)
    requires AllItems(outs, es, rs, s, path, host, accepted)
    ensures |outs| == |es| && |rs| == |es|
  {
    hide FineItem;
  }

  lemma EraseContainer(c: Cst)
    requires c.CContainer?
    ensures Erase(c) == Container(c.isObject, EraseEntries(c.entries))
  {
  }

  lemma ItemAt(outs: seq<Cst>, es: seq<CEntry>, rs: seq<Report>, i: nat, s: Option<Body>, path: Path, host: Host, accepted: set<Path>)
    requires AllItems(outs, es, rs, s, path, host, accepted) && i < |es|
    ensures |outs| == |es| == |rs| && FineItem(outs[i], es[i], i, rs[i], s, path, host, accepted)
  {
    hide FineItem;
  }

  /** The items of a finished array: the new ones, or the stored ones if their texts are the same. */
  lemma FinishedItems(c: Cst, outs: seq<Cst>, below: Report) returns (now: seq<CEntry>)
    requires c.CContainer? && !c.isObject && |outs| == |c.entries|
    ensures Erase(FinishArray(c, outs, below).cst) == Container(false, EraseEntries(now)) && FinishArray(c, outs, below).report == below
    ensures |now| == |outs|
    ensures forall i :: 0 <= i < |outs| ==>
              now[i] == BareEntry(None, outs[i]) || (now[i] == c.entries[i] && Unparse(outs[i]) == Upgrade.Text(c.entries[i].value))
  {
    hide Unparse, Upgrade.Text, EraseEntries;
    EraseTrim(c);
    now := if exists i :: 0 <= i < |outs| && Unparse(outs[i]) != Upgrade.Text(c.entries[i].value) then Items(outs) else c.entries;
  }

  lemma FineItemWf(x: Cst, e: CEntry, i: nat, r: Report, s: Option<Body>, path: Path, host: Host, accepted: set<Path>)
    requires FineItem(x, e, i, r, s, path, host, accepted)
    ensures e.key.None? && WfCst(e.value)
  {
    hide Upgraded, WfCst;
  }

  // ---- the walk ------------------------------------------------------------------------------------------------------------------------

  /** The prepared tree is the stored one, upgraded exactly as reported. */
  lemma {:induction false} WalkUpgrades(c: Cst, raw: Schema, path: Path, host: Host, accepted: set<Path>)
    requires WfCst(c) && WfSchema(raw) && HostOk(host)
    ensures Upgraded(Erase(c), Erase(Walk(c, raw, path, host, accepted).cst), raw, path, Walk(c, raw, path, host, accepted).report, host, accepted)
    decreases c, 1
  {
    if c.CContainer? {
      var s := Normalized(raw);
      NormalizedWf(raw);
      assert WfCEntries(c.isObject, c.entries);
      var out := Walk(c, raw, path, host, accepted);
      if c.isObject {
        var walked := WalkObject(c.entries, s, path, host, accepted);
        assert out == FinishObject(c, walked.0, walked.1, s, path, host, accepted);
        hide Walk, WalkObject, Normalized, Erase, FinishObject, WfCEntries, Upgraded, AllFine, HostOk, WfOpt, BothAll;
        var rs := ObjectFine(c.entries, s, path, host, accepted);
        FinishUpgraded(c, walked.0, rs, raw, path, host, accepted);
      } else {
        var walked := WalkArray(c.entries, s, path, host, accepted);
        assert out == FinishArray(c, walked.0, walked.1);
        hide Walk, WalkArray, Normalized, WfCEntries, AllItems, HostOk, WfOpt, WfCst, FinishArray, Erase, Upgraded, BothAll;
        var rs := ItemsFine(c.entries, s, path, host, accepted);
        ArrayUpgraded(c, walked.0, rs, raw, path, host, accepted);
      }
    }
  }

  lemma BothAllSnoc(rs: seq<Report>, r: Report)
    ensures BothAll(rs + [r]) == Both(BothAll(rs), r)
  {
    hide Both;
    Snoc(rs, r);
  }

  lemma AllFineSnoc(ws: seq<Walked>, es: seq<CEntry>, rs: seq<Report>, w: Walked, e: CEntry, r: Report, s: Option<Body>, path: Path,
                    host: Host, accepted: set<Path>)
    requires AllFine(ws, es, rs, s, path, host, accepted) && Fine(w, e, r, s, path, host, accepted)
    ensures AllFine(ws + [w], es + [e], rs + [r], s, path, host, accepted)
  {
    hide Fine;
  }

  lemma {:induction false} LastFine(e: CEntry, s: Option<Body>, path: Path, host: Host, accepted: set<Path>)
    requires WfCEntry(true, e) && WfOpt(s) && HostOk(host)
    ensures var r := WalkEntry(e, ChildSchema(s, KeyOf(e, host)), path + [KeyOf(e, host)], host, accepted).report;
            Fine(LastWalked(e, s, path, host, accepted), e, r, s, path, host, accepted)
    decreases e, 1
  {
    var key := KeyOf(e, host);
    ChildSchemaWf(s, key);
    assert Forbids(s, key) ==> ChildSchema(s, key) == NoSchema;
    EntryNothing(e, path + [key], host, accepted);
    hide WalkEntry, ChildSchema, Forbids, Erase, Upgraded, WfSchema, WfCst, HostOk, WfOpt;
    EntryFine(e, ChildSchema(s, key), path + [key], host, accepted);
  }

  lemma {:induction false} ObjectFine(es: seq<CEntry>, s: Option<Body>, path: Path, host: Host, accepted: set<Path>) returns (rs: seq<Report>)
    requires WfCEntries(true, es) && WfOpt(s) && HostOk(host)
    ensures WalkObject(es, s, path, host, accepted).1 == BothAll(rs)
    ensures AllFine(WalkObject(es, s, path, host, accepted).0, es, rs, s, path, host, accepted)
    decreases es, 0
  {
    rs := [];
    if es != [] {
      var init, e := es[..|es| - 1], es[|es| - 1];
      assert WfCEntry(true, e) && e.key.Some? && WfCEntries(true, init);
      assert es == init + [e];
      hide WalkObject, LastWalked, Both, BothAll, HostOk, WfOpt, WfCEntry, WfCEntries, AllFine, Fine, KeyOf, ChildSchema, WalkEntry;
      var key := KeyOf(e, host);
      var r := WalkEntry(e, ChildSchema(s, key), path + [key], host, accepted).report;
      WalkObjectSnoc(init, e, s, path, host, accepted);
      var first := ObjectFine(init, s, path, host, accepted);
      LastFine(e, s, path, host, accepted);
      AllFineSnoc(WalkObject(init, s, path, host, accepted).0, init, first, LastWalked(e, s, path, host, accepted), e, r, s, path, host, accepted);
      BothAllSnoc(first, r);
      rs := first + [r];
    }
  }

  lemma AllItemsSnoc(outs: seq<Cst>, es: seq<CEntry>, rs: seq<Report>, x: Cst, e: CEntry, r: Report, s: Option<Body>, path: Path,
                     host: Host, accepted: set<Path>)
    requires AllItems(outs, es, rs, s, path, host, accepted) && FineItem(x, e, |es|, r, s, path, host, accepted)
    ensures AllItems(outs + [x], es + [e], rs + [r], s, path, host, accepted)
  {
    hide FineItem;
  }

  lemma {:induction false} LastItemFine(e: CEntry, k: nat, s: Option<Body>, path: Path, host: Host, accepted: set<Path>)
    requires WfCEntry(false, e) && WfOpt(s) && HostOk(host)
    ensures var out := WalkEntry(e, ItemSchema(s, k), path + [IndexText(k)], host, accepted);
            FineItem(out.cst, e, k, out.report, s, path, host, accepted)
    decreases e, 1
  {
    ItemSchemaWf(s, k);
    hide WalkEntry, ItemSchema, Erase, Upgraded, WfSchema, WfCst, HostOk, WfOpt, IndexText;
    EntryFine(e, ItemSchema(s, k), path + [IndexText(k)], host, accepted);
  }

  lemma {:induction false} ItemsFine(es: seq<CEntry>, s: Option<Body>, path: Path, host: Host, accepted: set<Path>) returns (rs: seq<Report>)
    requires WfCEntries(false, es) && WfOpt(s) && HostOk(host)
    ensures WalkArray(es, s, path, host, accepted).1 == BothAll(rs)
    ensures AllItems(WalkArray(es, s, path, host, accepted).0, es, rs, s, path, host, accepted)
    decreases es, 0
  {
    rs := [];
    if es != [] {
      var k := |es| - 1;
      var init, e := es[..k], es[k];
      assert WfCEntry(false, e) && WfCEntries(false, init);
      assert es == init + [e];
      hide WalkArray, WalkEntry, ItemSchema, Both, BothAll, HostOk, WfOpt, IndexText, WfCEntry, WfCEntries, AllItems, FineItem;
      var out := WalkEntry(e, ItemSchema(s, k), path + [IndexText(k)], host, accepted);
      WalkArraySnoc(init, e, s, path, host, accepted);
      var first := ItemsFine(init, s, path, host, accepted);
      LastItemFine(e, k, s, path, host, accepted);
      AllItemsSnoc(WalkArray(init, s, path, host, accepted).0, init, first, out.cst, e, out.report, s, path, host, accepted);
      BothAllSnoc(first, out.report);
      rs := first + [out.report];
    }
  }

  lemma {:induction false} EntryFine(e: CEntry, raw: Schema, path: Path, host: Host, accepted: set<Path>)
    requires WfCst(e.value) && WfSchema(raw) && HostOk(host)
    ensures var out := WalkEntry(e, raw, path, host, accepted);
            WfCst(out.cst) && Upgraded(Erase(e.value), Erase(out.cst), raw, path, out.report, host, accepted)
    decreases e, 0
  {
    hide Walk, Erase, Upgraded, WfSchema, WfCst, HostOk;
    WalkUpgrades(e.value, raw, path, host, accepted);
    WalkWellFormed(e.value, raw, path, host, accepted);
  }
}

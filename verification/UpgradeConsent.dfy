/**
  What acceptance does to list migrations: an empty string is discarded only by a migration that
  was accepted, whatever is migrated is also reported as added, nothing that could be migrated
  is still suggested once it is accepted, and accepting a suggestion turns it into a migration
  (`AcceptingMoves`).
*/
module UpgradeConsent {
  import opened JsonSyntax
  import opened Upgrade
  import opened UpgradeFills
  import opened UpgradePlaces

  /** The migration is among the additions, and accepted if it discards the old value. */
  predicate Consented(m: Migration, added: seq<Path>, accepted: set<Path>) {
    m.value.Some? && m.target in added && (m.value.value == "[]" ==> m.target in accepted)
  }

  /** A suggestion with a list to offer has not been accepted. */
  predicate Pending(m: Migration, accepted: set<Path>) {
    m.value.Some? ==> m.target !in accepted
  }

  ghost predicate AllConsented(r: Report, accepted: set<Path>) {
    (forall m :: m in r.migrations ==> Consented(m, r.added, accepted)) && (forall m :: m in r.suggestions ==> Pending(m, accepted))
  }

  lemma BothConsented(a: Report, b: Report, accepted: set<Path>)
    requires AllConsented(a, accepted) && AllConsented(b, accepted)
    ensures AllConsented(Both(a, b), accepted)
  {
  }

  lemma DecisionConsented(p: Property, body: Option<Body>, ws: seq<Walked>, path: Path, host: Host, accepted: set<Path>)
    requires Originals(ws) && Decide(p, body, ws, path, host, accepted).Convert?
    ensures !Seen(ws, p.name)
    ensures Unparse(Decide(p, body, ws, path, host, accepted).value) == "[]" ==> path + [p.name] in accepted
  {
    var s := Normalized(p.schema).value;
    var key := SourceKey(s, p.name).value;
    hide Originals, FirstWith, Seen, Normalized, SourceKey, Declares, Unparse;
    var original := FirstWith(ws, key).value.original;
    SourceIsWf(ws, key);
    FilledIsKept(s, original, host);
  }

  /** A filled string becomes a list that is not empty. */
  lemma FilledIsKept(body: Body, original: Cst, host: Host)
    requires WfCst(original) && Candidate(body, original, host).Some?
    ensures Filled(original, host) ==> Unparse(Candidate(body, original, host).value) != "[]"
  {
    hide BareContainer, BareEntry;
    ListTexts(original);
    if Filled(original, host) {
      ScalarStarts(original.kind, original.text);
      assert Unparse(original) == original.text;
      assert |"[" + original.text + "]"| > |"[]"|;
    }
  }

  lemma {:induction false} DecidedConsented(ps: seq<Property>, body: Option<Body>, ws: seq<Walked>, path: Path, host: Host, accepted: set<Path>,
                                            m: Migration)
    requires Originals(ws) && m in DecideAll(ps, body, ws, path, host, accepted).migrations
    ensures Consented(m, Additions(ps, body, ws, path, host, accepted).1.added, accepted)
    decreases |ps|
  {
    if ps != [] {
      var k := |ps| - 1;
      var init, p := ps[..k], ps[k];
      hide Decide, Addition, Originals, Unparse, Seen, BareEntry;
      if m in DecideAll(init, body, ws, path, host, accepted).migrations {
        DecidedConsented(init, body, ws, path, host, accepted, m);
      } else {
        DecisionConsented(p, body, ws, path, host, accepted);
        ConvertAdds(p, body, ws, path, host, accepted);
      }
    }
  }

  lemma {:induction false} DecidedPending(ps: seq<Property>, body: Option<Body>, ws: seq<Walked>, path: Path, host: Host, accepted: set<Path>,
                                          m: Migration)
    requires m in DecideAll(ps, body, ws, path, host, accepted).suggestions
    ensures Pending(m, accepted)
    decreases |ps|
  {
    if ps != [] {
      var init, p := ps[..|ps| - 1], ps[|ps| - 1];
      if m in DecideAll(init, body, ws, path, host, accepted).suggestions {
        DecidedPending(init, body, ws, path, host, accepted, m);
      } else {
        hide DecideAll, Seen, Normalized, SourceKey, Declares, FirstWith, Candidate, Filled, Unparse;
      }
    }
  }

  lemma ConvertAdds(p: Property, body: Option<Body>, ws: seq<Walked>, path: Path, host: Host, accepted: set<Path>)
    requires Decide(p, body, ws, path, host, accepted).Convert? && !Seen(ws, p.name)
    ensures Addition(p, body, ws, path, host, accepted).value.Some?
  {
    hide Decide, Seen, Initial;
  }

  lemma FinishConsented(c: Cst, ws: seq<Walked>, below: Report, body: Option<Body>, path: Path, host: Host, accepted: set<Path>)
    requires c.CContainer? && Originals(ws) && AllConsented(below, accepted)
    ensures AllConsented(FinishObject(c, ws, below, body, path, host, accepted).report, accepted)
  {
    hide PropertiesOf, DecideAll, Additions, RemovedPaths, Kept, SomeDiffer, Trim, Originals, Consented;
    var ps := PropertiesOf(body);
    var decided, more := DecideAll(ps, body, ws, path, host, accepted), Additions(ps, body, ws, path, host, accepted).1;
    AdditionsReports(ps, body, ws, path, host, accepted, path);
    var r := FinishObject(c, ws, below, body, path, host, accepted).report;
    assert r.migrations == below.migrations + decided.migrations && r.added == below.added + decided.added + more.added;
    assert r.suggestions == below.suggestions + decided.suggestions;
    forall m | m in r.migrations
      ensures Consented(m, r.added, accepted)
    {
      if m in below.migrations {
        ConsentedMore(m, below.added, r.added, accepted);
      } else {
        DecidedConsented(ps, body, ws, path, host, accepted, m);
        ConsentedMore(m, more.added, r.added, accepted);
      }
    }
    forall m | m in r.suggestions
      ensures Pending(m, accepted)
    {
      if m !in below.suggestions {
        DecidedPending(ps, body, ws, path, host, accepted, m);
      }
    }
  }

  lemma ConsentedMore(m: Migration, a: seq<Path>, b: seq<Path>, accepted: set<Path>)
    requires Consented(m, a, accepted) && (m.target in a ==> m.target in b)
    ensures Consented(m, b, accepted)
  {
  }

  /** Over the whole value: no migration discards anything unaccepted, each is an addition, and nothing accepted still waits. */
  lemma {:induction false} MigrationsConsented(c: Cst, raw: Schema, path: Path, host: Host, accepted: set<Path>)
    requires WfCst(c)
    ensures AllConsented(Walk(c, raw, path, host, accepted).report, accepted)
    decreases c, 1
  {
    var s := Normalized(raw);
    if c.CContainer? {
      assert WfCEntries(c.isObject, c.entries);
      if c.isObject {
        var walked := WalkObject(c.entries, s, path, host, accepted);
        hide FinishObject, WalkObject, WfCEntries, Normalized, AllConsented, Originals;
        ObjectConsented(c.entries, s, path, host, accepted);
        WalkedOriginals(c.entries, s, path, host, accepted);
        FinishConsented(c, walked.0, walked.1, s, path, host, accepted);
      } else {
        hide WalkArray, WfCEntries, Normalized, AllConsented;
        ArrayConsented(c.entries, s, path, host, accepted);
      }
    }
  }

  lemma {:induction false} ObjectConsented(es: seq<CEntry>, s: Option<Body>, path: Path, host: Host, accepted: set<Path>)
    requires WfCEntries(true, es)
    ensures AllConsented(WalkObject(es, s, path, host, accepted).1, accepted)
    decreases es, 0
  {
    if es != [] {
      var init, e := es[..|es| - 1], es[|es| - 1];
      assert WfCEntry(true, e) && WfCEntries(true, init);
      hide WfCEntries, WfCst, WalkEntry, AllConsented, ChildSchema, Forbids, KeyOf, Both;
      ObjectConsented(init, s, path, host, accepted);
      var key := KeyOf(e, host);
      EntryConsented(e, ChildSchema(s, key), path + [key], host, accepted);
      BothConsented(WalkObject(init, s, path, host, accepted).1, WalkEntry(e, ChildSchema(s, key), path + [key], host, accepted).report, accepted);
    }
  }

  lemma {:induction false} ArrayConsented(es: seq<CEntry>, s: Option<Body>, path: Path, host: Host, accepted: set<Path>)
    requires WfCEntries(false, es)
    ensures AllConsented(WalkArray(es, s, path, host, accepted).1, accepted)
    decreases es, 0
  {
    if es != [] {
      var k := |es| - 1;
      var init, e := es[..k], es[k];
      assert WfCEntry(false, e) && WfCEntries(false, init);
      hide WfCEntries, WfCst, WalkEntry, AllConsented, ItemSchema, IndexText, Both;
      ArrayConsented(init, s, path, host, accepted);
      EntryConsented(e, ItemSchema(s, k), path + [IndexText(k)], host, accepted);
      BothConsented(WalkArray(init, s, path, host, accepted).1,
                    WalkEntry(e, ItemSchema(s, k), path + [IndexText(k)], host, accepted).report, accepted);
    }
  }

  lemma {:induction false} EntryConsented(e: CEntry, raw: Schema, path: Path, host: Host, accepted: set<Path>)
    requires WfCst(e.value)
    ensures AllConsented(WalkEntry(e, raw, path, host, accepted).report, accepted)
    decreases e, 0
  {
    hide WfCst, AllConsented;
    MigrationsConsented(e.value, raw, path, host, accepted);
  }

  // ---- accepting a suggestion ---------------------------------------------------------------------------------------------

  lemma FillMoves(p: Property, was: seq<Entry>, s: Option<Body>, path: Path, host: Host, accepted: set<Path>, more: set<Path>, m: Migration)
    requires m in FillOf(p, was, s, path, host, accepted).report.suggestions && m.value.Some? && m.target in more
    ensures m in FillOf(p, was, s, path, host, more).report.migrations
  {
    InitialReports(p.schema, path + [p.name], host);
    hide Lacks, SourceOf, CanStart, Initial, Fits, IsFilledString, NodeKey, ListText, ListOf;
  }

  lemma {:induction false} FillsMove(ps: seq<Property>, was: seq<Entry>, s: Option<Body>, path: Path, host: Host, accepted: set<Path>,
                                     more: set<Path>, m: Migration)
    requires m in Fills(ps, was, s, path, host, accepted).1.suggestions && m.value.Some? && m.target in more
    ensures m in Fills(ps, was, s, path, host, more).1.migrations
    decreases |ps|
  {
    hide FillOf;
    if ps != [] {
      var init, p := ps[..|ps| - 1], ps[|ps| - 1];
      if m in Fills(init, was, s, path, host, accepted).1.suggestions {
        FillsMove(init, was, s, path, host, accepted, more, m);
      } else {
        FillMoves(p, was, s, path, host, accepted, more, m);
      }
    }
  }

  /** What an object reports about lists is what its members report and what is filled in. */
  lemma ObjectLists(c: Cst, s: Option<Body>, path: Path, host: Host, accepted: set<Path>)
    requires c.CContainer? && WfCEntries(true, c.entries)
    ensures var walked, fills := WalkObject(c.entries, s, path, host, accepted), Fills(PropertiesOf(s), EraseEntries(c.entries), s, path, host, accepted).1;
            var r := FinishObject(c, walked.0, walked.1, s, path, host, accepted).report;
            r.migrations == walked.1.migrations + fills.migrations && r.suggestions == walked.1.suggestions + fills.suggestions
  {
    hide WalkObject, WfCEntries, PropertiesOf, EraseEntries, Fills, Alike, DecideAll, Additions, RemovedPaths, Kept, SomeDiffer, Trim;
    var ps, walked := PropertiesOf(s), WalkObject(c.entries, s, path, host, accepted);
    WalkedAlike(c.entries, s, path, host, accepted);
    AdditionsFill(ps, s, walked.0, EraseEntries(c.entries), path, host, accepted);
    AdditionsReports(ps, s, walked.0, path, host, accepted, path);
  }

  /** Over the whole value: accepting a suggestion that has a list to offer makes it a migration, whatever else is accepted or no longer is. */
  lemma {:induction false} AcceptingMoves(c: Cst, raw: Schema, path: Path, host: Host, accepted: set<Path>, more: set<Path>, m: Migration)
    requires WfCst(c) && m in Walk(c, raw, path, host, accepted).report.suggestions && m.value.Some? && m.target in more
    ensures m in Walk(c, raw, path, host, more).report.migrations
    decreases c, 1
  {
    var s := Normalized(raw);
    if c.CContainer? {
      assert WfCEntries(c.isObject, c.entries);
      if c.isObject {
        hide FinishObject, WalkObject, WfCEntries, Normalized, Fills, EraseEntries, PropertiesOf;
        ObjectLists(c, s, path, host, accepted);
        ObjectLists(c, s, path, host, more);
        if m in WalkObject(c.entries, s, path, host, accepted).1.suggestions {
          ObjectMoves(c.entries, s, path, host, accepted, more, m);
        } else {
          FillsMove(PropertiesOf(s), EraseEntries(c.entries), s, path, host, accepted, more, m);
        }
      } else {
        hide WalkArray, WfCEntries, Normalized;
        ArrayMoves(c.entries, s, path, host, accepted, more, m);
      }
    }
  }

  lemma {:induction false} ObjectMoves(es: seq<CEntry>, s: Option<Body>, path: Path, host: Host, accepted: set<Path>, more: set<Path>, m: Migration)
    requires WfCEntries(true, es) && m in WalkObject(es, s, path, host, accepted).1.suggestions && m.value.Some? && m.target in more
    ensures m in WalkObject(es, s, path, host, more).1.migrations
    decreases es, 0
  {
    if es != [] {
      var init, e := es[..|es| - 1], es[|es| - 1];
      assert WfCEntry(true, e) && WfCEntries(true, init);
      hide WfCEntries, WfCst, WalkEntry, ChildSchema, Forbids, KeyOf;
      if m in WalkObject(init, s, path, host, accepted).1.suggestions {
        ObjectMoves(init, s, path, host, accepted, more, m);
      } else {
        EntryMoves(e, ChildSchema(s, KeyOf(e, host)), path + [KeyOf(e, host)], host, accepted, more, m);
      }
    }
  }

  lemma {:induction false} ArrayMoves(es: seq<CEntry>, s: Option<Body>, path: Path, host: Host, accepted: set<Path>, more: set<Path>, m: Migration)
    requires WfCEntries(false, es) && m in WalkArray(es, s, path, host, accepted).1.suggestions && m.value.Some? && m.target in more
    ensures m in WalkArray(es, s, path, host, more).1.migrations
    decreases es, 0
  {
    if es != [] {
      var k := |es| - 1;
      var init, e := es[..k], es[k];
      assert WfCEntry(false, e) && WfCEntries(false, init);
      hide WfCEntries, WfCst, WalkEntry, ItemSchema, IndexText;
      if m in WalkArray(init, s, path, host, accepted).1.suggestions {
        ArrayMoves(init, s, path, host, accepted, more, m);
      } else {
        EntryMoves(e, ItemSchema(s, k), path + [IndexText(k)], host, accepted, more, m);
      }
    }
  }

  lemma {:induction false} EntryMoves(e: CEntry, raw: Schema, path: Path, host: Host, accepted: set<Path>, more: set<Path>, m: Migration)
    requires WfCst(e.value) && m in WalkEntry(e, raw, path, host, accepted).report.suggestions && m.value.Some? && m.target in more
    ensures m in WalkEntry(e, raw, path, host, more).report.migrations
    decreases e, 0
  {
    hide WfCst;
    AcceptingMoves(e.value, raw, path, host, accepted, more, m);
  }
}

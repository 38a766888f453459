/**
  The upgrade rewriter as the console runs it: one cursor over the tokens, shared by the whole
  recursion, text slices for what stays, and a result that grows as it goes.
*/
module UpgradeRewrite {
  import opened Seqs
  import opened JsonLex
  import opened JsonSyntax
  import opened JsonTree
  import opened JsonSpans
  import opened JsonTokenizer
  import JsonText
  import opened Upgrade
  import opened UpgradeConsent
  import opened UpgradeFills
  import opened UpgradePlaces
  import opened UpgradeScript

  // ---- entries as texts ----------------------------------------------------------------------------------------------

  datatype Member = Member(key: string, keyText: string, child: string, original: string, forbidden: bool)

  function MemberOf(w: Walked): Member {
    Member(w.key, w.keyText, Unparse(w.child), Upgrade.Text(w.original), w.forbidden)
  }

  function Members(ws: seq<Walked>): (r: seq<Member>)
    ensures |r| == |ws| && forall i :: 0 <= i < |ws| ==> r[i] == MemberOf(ws[i])
  {
    seq(|ws|, i requires 0 <= i < |ws| => MemberOf(ws[i]))
  }

  predicate SeenKey(ms: seq<Member>, key: string) {
    exists m :: m in ms && m.key == key
  }

  lemma SeenIs(ws: seq<Walked>, key: string)
    ensures SeenKey(Members(ws), key) == Seen(ws, key)
  {
    hide MemberOf, Unparse, Upgrade.Text;
    var ms := Members(ws);
    if m :| m in ms && m.key == key {
      var i :| 0 <= i < |ms| && ms[i] == m;
      KeyOfMember(ws[i]);
      assert ws[i] in ws;
    }
    if w :| w in ws && w.key == key {
      var i :| 0 <= i < |ws| && ws[i] == w;
      KeyOfMember(w);
      assert ms[i] in ms;
    }
  }

  lemma KeyOfMember(w: Walked)
    ensures MemberOf(w).key == w.key
  {
  }

  function FindMember(ms: seq<Member>, key: string): Option<Member> {
    if ms == [] then None else if ms[0].key == key then Some(ms[0]) else FindMember(ms[1..], key)
  }

  lemma {:induction false} FindIs(ws: seq<Walked>, key: string)
    ensures FindMember(Members(ws), key) == if FirstWith(ws, key).None? then None else Some(MemberOf(FirstWith(ws, key).value))
    decreases |ws|
  {
    if ws != [] {
      FindIs(ws[1..], key);
      assert Members(ws)[1..] == Members(ws[1..]);
    }
  }

  predicate IsStringText(text: string) {
    text != "" && text[0] == '\"'
  }

  lemma StringTextIs(c: Cst)
    requires WfCst(c)
    ensures IsStringText(Upgrade.Text(c)) == IsStringValue(c) && (IsStringValue(c) ==> Upgrade.Text(c) == c.text)
  {
    if c.CScalar? {
      ScalarStarts(c.kind, c.text);
    } else {
      hide UnparseEntries;
      assert Upgrade.Text(c)[0] == OpenChar(c.isObject);
    }
  }

  // ---- list migrations on texts -----------------------------------------------------------------------------------------

  datatype Verdict = Ignore | Take(source: string, value: string) | Wait(source: string, candidate: Option<string>)

  function VerdictOf(d: Decision): Verdict {
    match d
    case Skip => Ignore
    case Convert(source, value) => Take(source, Unparse(value))
    case Pend(source, candidate) => Wait(source, OptText(candidate))
  }

  predicate FilledText(original: string, host: Host) {
    IsStringText(original) && host.unquote(original) != ""
  }

  function CandidateText(body: Body, original: string, host: Host): Option<string> {
    if FilledText(original, host) && !body.tupleKeywords && host.acceptsItem(body, original) then Some("[" + original + "]")
    else if IsStringText(original) && !FilledText(original, host) && host.allowsEmpty(body) then Some("[]")
    else None
  }

  lemma CandidateIs(body: Body, original: Cst, host: Host)
    requires WfCst(original)
    ensures CandidateText(body, Upgrade.Text(original), host) == OptText(Candidate(body, original, host))
    ensures FilledText(Upgrade.Text(original), host) == Filled(original, host)
  {
    StringTextIs(original);
    ListTexts(original);
    assert IsStringValue(original) ==> Unparse(original) == original.text;
    hide Unparse, Upgrade.Text, BareContainer, BareEntry;
  }

  function Judge(p: Property, body: Option<Body>, ms: seq<Member>, path: Path, host: Host, accepted: set<Path>): Verdict {
    var s := Normalized(p.schema);
    if SeenKey(ms, p.name) || s.None? || !s.value.isArray then Ignore
    else
      var declared := Declared(s.value);
      var sourceKey := SourceKey(s.value, p.name);
      var source := if sourceKey.Some? then FindMember(ms, sourceKey.value) else None;
      if source.None? || (!declared && Declares(body, source.value.key)) then Ignore
      else
        var items := Normalized(s.value.items);
        if !declared && !(items.Some? && items.value.isString) then Ignore
        else
          var original := source.value.original;
          var candidate := CandidateText(s.value, original, host);
          if candidate.Some? && ((declared && FilledText(original, host)) || path + [p.name] in accepted) then
            Take(source.value.key, candidate.value)
          else Wait(source.value.key, candidate)
  }

  lemma JudgeIs(p: Property, body: Option<Body>, ws: seq<Walked>, path: Path, host: Host, accepted: set<Path>)
    requires Originals(ws)
    ensures Judge(p, body, Members(ws), path, host, accepted) == VerdictOf(Decide(p, body, ws, path, host, accepted))
  {
    hide Originals, FindMember, FirstWith, Members, MemberOf, SeenKey, Seen, Normalized, SourceKey, Declares, Unparse, Upgrade.Text, Candidate,
         CandidateText, Filled, FilledText, OptText;
    SeenIs(ws, p.name);
    var s := Normalized(p.schema);
    if s.Some? && SourceKey(s.value, p.name).Some? {
      var key := SourceKey(s.value, p.name).value;
      FindIs(ws, key);
      if FirstWith(ws, key).Some? {
        var w := FirstWith(ws, key).value;
        SourceIsWf(ws, key);
        MemberHas(w);
        CandidateIs(s.value, w.original, host);
        OptTextIs(Candidate(s.value, w.original, host));
      }
    }
  }

  lemma MemberHas(w: Walked)
    ensures MemberOf(w).key == w.key && MemberOf(w).original == Upgrade.Text(w.original)
  {
  }

  lemma OptTextIs(c: Option<Cst>)
    ensures OptText(c).Some? <==> c.Some?
    ensures c.Some? ==> OptText(c).value == Unparse(c.value)
  {
  }

  // ---- joined parts -----------------------------------------------------------------------------------------------------

  function Parts(es: seq<CEntry>): (r: seq<string>)
    ensures |r| == |es| && forall i :: 0 <= i < |es| ==> r[i] == UnparseEntry(es[i])
  {
    seq(|es|, i requires 0 <= i < |es| => UnparseEntry(es[i]))
  }

  ghost predicate Bare(es: seq<CEntry>) {
    forall i :: 0 <= i < |es| ==> es[i].sep == BARE
  }

  lemma PartsConcat(a: seq<CEntry>, b: seq<CEntry>)
    ensures Parts(a + b) == Parts(a) + Parts(b)
  {
    hide UnparseEntry;
  }

  lemma PartsOne(e: CEntry)
    ensures Parts([e]) == [UnparseEntry(e)]
  {
    hide UnparseEntry;
  }

  lemma NoParts()
    ensures Parts([]) == [] && Bare([]) && UnparseEntries([]) == "" && Join([], ",") == ""
  {
  }

  lemma MemberPart(keyText: string, child: Cst)
    ensures UnparseEntry(BareEntry(Some(keyText), child)) == keyText + ":" + Unparse(child)
  {
    hide Unparse;
    Unit(":");
  }

  lemma ItemPart(child: Cst)
    ensures UnparseEntry(BareEntry(None, child)) == Unparse(child)
  {
    hide Unparse;
    Unit(Unparse(child));
  }

  lemma {:induction false} BareJoin(es: seq<CEntry>)
    requires Bare(es)
    ensures UnparseEntries(es) == Join(Parts(es), ",")
    decreases |es|
  {
    hide UnparseEntry, UnparseEntries, Join, Parts;
    NoParts();
    if es != [] {
      var init, last := es[..|es| - 1], es[|es| - 1];
      BareJoin(init);
      Around(es, |es| - 1);
      Unit(init + [last]);
      PartsConcat(init, [last]);
      PartsOne(last);
      JoinSnoc(Parts(init), UnparseEntry(last), ",");
      SnocText(es);
    }
  }

  lemma SnocText(es: seq<CEntry>)
    requires es != [] && Bare(es)
    ensures var init, last := es[..|es| - 1], es[|es| - 1];
            UnparseEntries(es) == UnparseEntries(init) + (if init == [] then "" else ",") + UnparseEntry(last)
    ensures |es| == 1 ==> UnparseEntries(es) == UnparseEntry(es[0])
  {
    hide UnparseEntry;
    Unit(",");
    Unit(UnparseEntry(es[|es| - 1]));
  }

  lemma JoinedText(isObject: bool, es: seq<CEntry>)
    requires Bare(es)
    ensures Unparse(BareContainer(isObject, es)) == [OpenChar(isObject)] + Join(Parts(es), ",") + [CloseChar(isObject)]
  {
    hide Unparse, Join, Parts, Bare, UnparseEntries, BareContainer;
    BareText(isObject, es);
    BareJoin(es);
  }

  // ---- initial values, step by step -----------------------------------------------------------------------------------------

  lemma InitialStep(ps: seq<Property>, required: seq<string>, k: nat, path: Path, host: Host)
    requires k < |required|
    ensures var was, now := InitialParts(ps, required[..k], path, host), InitialParts(ps, required[..k + 1], path, host);
            var i := FindProperty(ps, required[k]);
            if i.None? then now == was
            else
              var made := Initial(ps[i.value].schema, path + [required[k]], host);
              now.1 == Both(was.1, made.report) &&
              now.0 == if made.value.None? then was.0 else was.0 + [BareEntry(Some(host.quote(required[k])), made.value.value)]
  {
    hide Initial, Both, BareEntry, FindProperty;
    assert required[..k + 1][..k] == required[..k];
  }

  lemma {:induction false} InitialPartsBare(ps: seq<Property>, required: seq<string>, path: Path, host: Host)
    ensures Bare(InitialParts(ps, required, path, host).0)
    decreases |required|
  {
    if required != [] {
      hide InitialPart, FindProperty, Both;
      InitialPartsBare(ps, required[..|required| - 1], path, host);
    }
  }

  lemma InitialObject(raw: Schema, path: Path, host: Host)
    requires var s := Normalized(raw);
             s.Some? && s.value.dflt.NoDefault? && !host.allowsEmpty(s.value) && s.value.isObject && s.value.hasProperties
    ensures (raw.Plain? || raw.Nullable?) && Normalized(raw).value.required == raw.body.required
    ensures var parts := InitialParts(raw.body.properties, raw.body.required, path, host);
            OptText(Initial(raw, path, host).value) == Some("{" + Join(Parts(parts.0), ",") + "}") &&
            Initial(raw, path, host).report == parts.1
  {
    hide InitialParts, Unparse, BareContainer, Parts, Join;
    var parts := InitialParts(raw.body.properties, raw.body.required, path, host);
    InitialPartsBare(raw.body.properties, raw.body.required, path, host);
    JoinedText(true, parts.0);
  }

  // ---- finishing an object, step by step ------------------------------------------------------------------------------------

  function NoteOf(p: Property, v: Verdict, path: Path): Report {
    match v
    case Ignore => NOTHING
    case Take(source, value) => NOTHING.(migrations := [Migration(path + [source], path + [p.name], Some(value))])
    case Wait(source, candidate) => NOTHING.(suggestions := [Migration(path + [source], path + [p.name], candidate)])
  }

  lemma NoteIs(p: Property, d: Decision, path: Path)
    ensures NoteOf(p, VerdictOf(d), path) == MigrationOf(p, d, path)
  {
    hide Unparse;
  }

  lemma DecideStep(ps: seq<Property>, k: nat, body: Option<Body>, ws: seq<Walked>, path: Path, host: Host, accepted: set<Path>)
    requires k < |ps|
    ensures DecideAll(ps[..k + 1], body, ws, path, host, accepted) ==
            Both(DecideAll(ps[..k], body, ws, path, host, accepted),
                 MigrationOf(ps[k], Decide(ps[k], body, ws, path, host, accepted), path))
  {
    hide Both, Decide, MigrationOf;
    assert ps[..k + 1][..k] == ps[..k];
  }

  /** The keys some missing list waits for. */
  ghost predicate Holds(held: set<string>, suggestions: seq<Migration>, path: Path) {
    forall key :: key in held <==> Protected(key, suggestions, path)
  }

  lemma NothingDecided(body: Option<Body>, ws: seq<Walked>, path: Path, host: Host, accepted: set<Path>)
    ensures DecideAll([], body, ws, path, host, accepted) == NOTHING && Holds({}, [], path)
  {
  }

  lemma HoldsStep(held: set<string>, r: Report, p: Property, v: Verdict, path: Path)
    requires Holds(held, r.suggestions, path)
    ensures Holds(if v.Wait? then held + {v.source} else held, Both(r, NoteOf(p, v, path)).suggestions, path)
  {
    var note := NoteOf(p, v, path).suggestions;
    if v.Wait? {
      var m := note[0];
      forall key
        ensures key in held + {v.source} <==> Protected(key, r.suggestions + note, path)
      {
        if key == v.source {
          assert m in r.suggestions + note;
        }
        if Protected(key, r.suggestions + note, path) {
          var q :| q in r.suggestions + note && q.source == path + [key];
          if q == m {
            assert (path + [key])[|path|] == (path + [v.source])[|path|];
          }
        }
        if Protected(key, r.suggestions, path) {
          var q :| q in r.suggestions && q.source == path + [key];
          assert q in r.suggestions + note;
        }
      }
    } else {
      Unit(r.suggestions);
    }
  }

  lemma KeptStep(ws: seq<Walked>, k: nat, suggestions: seq<Migration>, path: Path)
    requires k < |ws|
    ensures var w := ws[k];
            var gone := Dropped(w, suggestions, path);
            var kept, removed := Kept(ws[..k], suggestions, path), RemovedPaths(ws[..k], suggestions, path);
            Kept(ws[..k + 1], suggestions, path) == (if gone then kept else kept + [BareEntry(Some(w.keyText), w.child)]) &&
            RemovedPaths(ws[..k + 1], suggestions, path) == (if gone then removed + [path + [w.key]] else removed)
  {
    hide Dropped, BareEntry;
    assert ws[..k + 1][..k] == ws[..k];
  }

  lemma DifferStep(ws: seq<Walked>, k: nat, suggestions: seq<Migration>, path: Path)
    requires k < |ws|
    ensures var w := ws[k];
            SomeDiffer(ws[..k + 1], suggestions, path) ==
            (SomeDiffer(ws[..k], suggestions, path) || (!Dropped(w, suggestions, path) && Unparse(w.child) != Upgrade.Text(w.original)))
  {
    hide Dropped, Unparse, Upgrade.Text;
    assert ws[..k + 1] == ws[..k] + [ws[k]];
    assert ws[k] in ws[..k + 1];
    assert forall w :: w in ws[..k + 1] <==> w in ws[..k] || w == ws[k];
  }

  lemma {:induction false} KeptBare(ws: seq<Walked>, suggestions: seq<Migration>, path: Path)
    ensures Bare(Kept(ws, suggestions, path))
    decreases |ws|
  {
    if ws != [] {
      hide Dropped;
      KeptBare(ws[..|ws| - 1], suggestions, path);
    }
  }

  lemma NoneKept(suggestions: seq<Migration>, path: Path)
    ensures Parts(Kept([], suggestions, path)) == [] && RemovedPaths([], suggestions, path) == [] && !SomeDiffer([], suggestions, path)
  {
  }

  lemma DroppedIs(w: Walked, held: set<string>, suggestions: seq<Migration>, path: Path)
    requires Holds(held, suggestions, path)
    ensures Dropped(w, suggestions, path) == (w.forbidden && w.key !in held)
  {
    hide Protected;
  }

  lemma RemovedNote(a: seq<Path>, x: Path)
    ensures Both(NOTHING.(removed := a), NOTHING.(removed := [x])) == NOTHING.(removed := a + [x])
  {
  }

  lemma AddedNote(r: Report, x: Path)
    requires r.added == []
    ensures r.(added := [x]) == Both(r, NOTHING.(added := [x]))
  {
    Unit(r.removed);
    Unit(r.lists);
    Unit(r.defaults);
    Unit(r.migrations);
    Unit(r.suggestions);
    Unit(r.conversions);
  }

  lemma AdditionsStep(ps: seq<Property>, k: nat, body: Option<Body>, ws: seq<Walked>, path: Path, host: Host, accepted: set<Path>)
    requires k < |ps|
    ensures var p, made := ps[k], Addition(ps[k], body, ws, path, host, accepted);
            var was, now := Additions(ps[..k], body, ws, path, host, accepted), Additions(ps[..k + 1], body, ws, path, host, accepted);
            if made.value.None? then now == (was.0, Both(was.1, made.report))
            else
              now == (was.0 + [BareEntry(Some(host.quote(p.name)), made.value.value)],
                      Both(Both(was.1, made.report), NOTHING.(added := [path + [p.name]])))
  {
    hide Addition, BareEntry, Both, Initial;
    assert ps[..k + 1][..k] == ps[..k];
    var p, made := ps[k], Addition(ps[k], body, ws, path, host, accepted);
    AdditionReports(p, body, ws, path, host, accepted);
    AddedNote(made.report, path + [p.name]);
    BothAssoc(Additions(ps[..k], body, ws, path, host, accepted).1, made.report, NOTHING.(added := [path + [p.name]]));
  }

  lemma NoneAdded(body: Option<Body>, ws: seq<Walked>, path: Path, host: Host, accepted: set<Path>)
    ensures Additions([], body, ws, path, host, accepted) == ([], NOTHING) && Parts([]) == []
  {
  }

  lemma {:induction false} AdditionsBare(ps: seq<Property>, body: Option<Body>, ws: seq<Walked>, path: Path, host: Host, accepted: set<Path>)
    ensures Bare(Additions(ps, body, ws, path, host, accepted).0)
    decreases |ps|
  {
    if ps != [] {
      hide Addition, Both;
      AdditionsBare(ps[..|ps| - 1], body, ws, path, host, accepted);
    }
  }

  // ---- entries, one more ------------------------------------------------------------------------------------------------------

  /** One entry walked, and what was done to its value. */
  function WalkedOf(e: CEntry, s: Option<Body>, path: Path, host: Host, accepted: set<Path>): (Walked, Report)
    requires e.key.Some?
  {
    var key := host.unquote(e.key.value.text);
    var out := Upgrade.Walk(e.value, ChildSchema(s, key), path + [key], host, accepted);
    (Walked(key, e.key.value.text, out.cst, e.value, Forbids(s, key)), out.report)
  }

  lemma WalkObjectStep(es: seq<CEntry>, i: nat, s: Option<Body>, path: Path, host: Host, accepted: set<Path>)
    requires i < |es| && es[i].key.Some?
    ensures var was, now := WalkObject(es[..i], s, path, host, accepted), WalkObject(es[..i + 1], s, path, host, accepted);
            var one := WalkedOf(es[i], s, path, host, accepted);
            now == (was.0 + [one.0], Both(was.1, one.1))
  {
    hide Upgrade.Walk, ChildSchema, Forbids, Both;
    assert es[..i + 1][..i] == es[..i];
  }

  lemma WalkArrayStep(es: seq<CEntry>, i: nat, s: Option<Body>, path: Path, host: Host, accepted: set<Path>)
    requires i < |es|
    ensures var was, now := WalkArray(es[..i], s, path, host, accepted), WalkArray(es[..i + 1], s, path, host, accepted);
            var out := Upgrade.Walk(es[i].value, ItemSchema(s, i), path + [IndexText(i)], host, accepted);
            now == (was.0 + [out.cst], Both(was.1, out.report))
  {
    hide Upgrade.Walk, ItemSchema, IndexText, Both;
    assert es[..i + 1][..i] == es[..i];
  }

  lemma NothingWalked(s: Option<Body>, path: Path, host: Host, accepted: set<Path>)
    ensures WalkObject([], s, path, host, accepted) == ([], NOTHING) && WalkArray([], s, path, host, accepted) == ([], NOTHING)
    ensures Members([]) == [] && Texts([]) == [] && !Differ([], [])
  {
  }

  lemma MembersSnoc(ws: seq<Walked>, w: Walked)
    ensures Members(ws + [w]) == Members(ws) + [MemberOf(w)]
  {
    hide MemberOf;
  }

  function Texts(outs: seq<Cst>): (r: seq<string>)
    ensures |r| == |outs| && forall i :: 0 <= i < |outs| ==> r[i] == Unparse(outs[i])
  {
    seq(|outs|, i requires 0 <= i < |outs| => Unparse(outs[i]))
  }

  /** Some item came out with another text than it had. */
  ghost predicate Differ(outs: seq<Cst>, es: seq<CEntry>)
    requires |outs| == |es|
  {
    exists i :: 0 <= i < |outs| && Unparse(outs[i]) != Upgrade.Text(es[i].value)
  }

  lemma DifferSnoc(outs: seq<Cst>, x: Cst, es: seq<CEntry>, i: nat)
    requires |outs| == i < |es|
    ensures Differ(outs + [x], es[..i + 1]) == (Differ(outs, es[..i]) || Unparse(x) != Upgrade.Text(es[i].value))
    ensures Texts(outs + [x]) == Texts(outs) + [Unparse(x)]
  {
    hide Unparse, Upgrade.Text;
    var all := outs + [x];
    if Differ(outs, es[..i]) {
      var j :| 0 <= j < i && Unparse(outs[j]) != Upgrade.Text(es[..i][j].value);
      assert all[j] == outs[j] && es[..i + 1][j] == es[..i][j];
    }
    if Differ(all, es[..i + 1]) {
      var j :| 0 <= j < i + 1 && Unparse(all[j]) != Upgrade.Text(es[..i + 1][j].value);
      if j < i {
        assert all[j] == outs[j] && es[..i + 1][j] == es[..i][j];
      }
    }
    assert all[i] == x && es[..i + 1][i] == es[i];
  }

  lemma ItemTexts(outs: seq<Cst>)
    ensures Parts(Items(outs)) == Texts(outs) && Bare(Items(outs))
  {
    hide Unparse, UnparseEntry;
    forall i | 0 <= i < |outs|
      ensures Parts(Items(outs))[i] == Texts(outs)[i]
    {
      ItemPart(outs[i]);
    }
  }

  /** What becomes of an array, in terms of its items' texts. */
  lemma FinishArrayIs(c: Cst, outs: seq<Cst>, below: Report)
    requires c.CContainer? && |outs| == |c.entries|
    ensures FinishArray(c, outs, below).report == below
    ensures Unparse(FinishArray(c, outs, below).cst) == if Differ(outs, c.entries) then "[" + Join(Texts(outs), ",") + "]" else Upgrade.Text(c)
  {
    hide Unparse, Parts, Texts, Join, Items, Trim, BareContainer, Bare;
    ItemTexts(outs);
    JoinedText(false, Items(outs));
    assert Unparse(Trim(c)) == Upgrade.Text(c);
  }

  /** What becomes of an object, in terms of its parts' texts. */
  lemma FinishObjectIs(c: Cst, ws: seq<Walked>, below: Report, body: Option<Body>, path: Path, host: Host, accepted: set<Path>)
    requires c.CContainer?
    ensures var ps := PropertiesOf(body);
            var decided, more := DecideAll(ps, body, ws, path, host, accepted), Additions(ps, body, ws, path, host, accepted);
            var kept, removed := Kept(ws, decided.suggestions, path), RemovedPaths(ws, decided.suggestions, path);
            var out := FinishObject(c, ws, below, body, path, host, accepted);
            out.report == Both(Both(below, decided), Both(NOTHING.(removed := removed), more.1)) &&
            Unparse(out.cst) == if removed == [] && more.0 == [] && !SomeDiffer(ws, decided.suggestions, path) then Upgrade.Text(c)
                                else "{" + Join(Parts(kept) + Parts(more.0), ",") + "}"
  {
    hide Unparse, Parts, Join, Trim, BareContainer, Bare, DecideAll, Additions, Kept, RemovedPaths, SomeDiffer, Both, PropertiesOf;
    var ps := PropertiesOf(body);
    var decided, more := DecideAll(ps, body, ws, path, host, accepted), Additions(ps, body, ws, path, host, accepted);
    var kept := Kept(ws, decided.suggestions, path);
    KeptBare(ws, decided.suggestions, path);
    AdditionsBare(ps, body, ws, path, host, accepted);
    BareConcat(kept, more.0);
    PartsConcat(kept, more.0);
    JoinedText(true, kept + more.0);
    assert Unparse(Trim(c)) == Upgrade.Text(c);
  }

  lemma ScalarText(kind: Kind, text: string)
    ensures Unparse(CScalar(kind, text)) == text
  {
  }

  lemma EntriesAreWf(c: Cst)
    requires c.CContainer? && WfCst(c)
    ensures WfCEntries(c.isObject, c.entries)
  {
  }

  lemma BareConcat(a: seq<CEntry>, b: seq<CEntry>)
    requires Bare(a) && Bare(b)
    ensures Bare(a + b)
  {
  }

  lemma ReportOrder(first: Report, below: Report, decided: Report, removed: Report, more: Report)
    ensures Both(Both(Both(Both(first, below), decided), removed), more) == Both(first, Both(Both(below, decided), Both(removed, more)))
  {
    hide Both;
    BothAssoc(first, below, decided);
    BothAssoc(first, Both(below, decided), removed);
    BothAssoc(first, Both(Both(below, decided), removed), more);
    BothAssoc(Both(below, decided), removed, more);
  }

  class Rewriter {
    const value: string
    const tokens: seq<Token>
    const host: Host
    const accepted: set<Path>
    var cursor: nat
    var report: Report

    constructor (value: string, tokens: seq<Token>, host: Host, accepted: set<Path>)
      ensures this.value == value && this.tokens == tokens && this.host == host && this.accepted == accepted
      ensures cursor == 0 && report == NOTHING
    {
      this.value, this.tokens, this.host, this.accepted := value, tokens, host, accepted;
      cursor, report := 0, NOTHING;
    }

    /** Appends to the lists of the result. */
    method Note(more: Report)
      modifies this`report
      ensures report == Both(old(report), more)
    {
      report := Both(report, more);
    }

    /** The text a missing property starts with. */
    method MakeInitial(raw: Schema, path: Path) returns (text: Option<string>)
      modifies this`report
      ensures text == OptText(Initial(raw, path, host).value)
      ensures report == Both(old(report), Initial(raw, path, host).report)
      decreases raw
    {
      hide InitialParts, Unparse, Join, Parts, Both, FindProperty;
      BothNothing(report);
      var s := Normalized(raw);
      if s.None? {
        return None;
      }
      if s.value.dflt.Default? {
        if s.value.dflt.text.None? || !host.acceptsDefault(raw, Upgrade.Text(s.value.dflt.text.value)) {
          return None;
        }
        Note(NOTHING.(defaults := [path]));
        return Some(Upgrade.Text(s.value.dflt.text.value));
      }
      if host.allowsEmpty(s.value) {
        ListTexts(CScalar(Null, ""));
        Note(NOTHING.(lists := [path]));
        return Some("[]");
      }
      if s.value.isObject && s.value.hasProperties {
        InitialObject(raw, path, host);
        text := MakeObject(raw.body, path);
        return;
      }
      return None;
    }

    /** An object of the required parts that have a value to start with. */
    method MakeObject(body: Body, path: Path) returns (text: Option<string>)
      modifies this`report
      ensures text == Some("{" + Join(Parts(InitialParts(body.properties, body.required, path, host).0), ",") + "}")
      ensures report == Both(old(report), InitialParts(body.properties, body.required, path, host).1)
      decreases body
    {
      var ps, required := body.properties, body.required;
      var parts: seq<string> := [];
      NoParts();
      BothNothing(report);
      assert InitialParts(ps, [], path, host) == ([], NOTHING);
      hide InitialParts, Initial, Unparse, Join, Parts, Both, FindProperty, BareEntry;
      for k := 0 to |required|
        invariant parts == Parts(InitialParts(ps, required[..k], path, host).0)
        invariant report == Both(old(report), InitialParts(ps, required[..k], path, host).1)
      {
        var key := required[k];
        InitialStep(ps, required, k, path, host);
        ghost var was := InitialParts(ps, required[..k], path, host);
        var i := FindProperty(ps, key);
        if i.Some? {
          var entry := MakeInitial(ps[i.value].schema, path + [key]);
          ghost var made := Initial(ps[i.value].schema, path + [key], host);
          BothAssoc(old(report), was.1, made.report);
          if entry.Some? {
            parts := parts + [host.quote(key) + ":" + entry.value];
            ghost var e := BareEntry(Some(host.quote(key)), made.value.value);
            PartsConcat(was.0, [e]);
            PartsOne(e);
            MemberPart(host.quote(key), made.value.value);
          }
        }
      }
      assert required[..|required|] == required;
      return Some("{" + Join(parts, ",") + "}");
    }

    /** What to do about each missing list, and the keys some of them wait for. */
    method Migrate(ps: seq<Property>, body: Option<Body>, ms: seq<Member>, path: Path, ghost ws: seq<Walked>)
      returns (verdicts: seq<Verdict>, held: set<string>)
      requires ms == Members(ws) && Originals(ws)
      modifies this`report
      ensures |verdicts| == |ps|
      ensures forall i :: 0 <= i < |ps| ==> verdicts[i] == VerdictOf(Decide(ps[i], body, ws, path, host, accepted))
      ensures Holds(held, DecideAll(ps, body, ws, path, host, accepted).suggestions, path)
      ensures report == Both(old(report), DecideAll(ps, body, ws, path, host, accepted))
    {
      hide Members, Originals, VerdictOf, Decide, DecideAll, Holds, Both, Judge, NoteOf, MigrationOf;
      verdicts, held := [], {};
      BothNothing(report);
      NothingDecided(body, ws, path, host, accepted);
      for k := 0 to |ps|
        invariant |verdicts| == k
        invariant forall i :: 0 <= i < k ==> verdicts[i] == VerdictOf(Decide(ps[i], body, ws, path, host, accepted))
        invariant Holds(held, DecideAll(ps[..k], body, ws, path, host, accepted).suggestions, path)
        invariant report == Both(old(report), DecideAll(ps[..k], body, ws, path, host, accepted))
      {
        var p := ps[k];
        var v := Judge(p, body, ms, path, host, accepted);
        verdicts := verdicts + [v];
        ghost var was := DecideAll(ps[..k], body, ws, path, host, accepted);
        JudgeIs(p, body, ws, path, host, accepted);
        NoteIs(p, Decide(p, body, ws, path, host, accepted), path);
        DecideStep(ps, k, body, ws, path, host, accepted);
        HoldsStep(held, was, p, v, path);
        BothAssoc(old(report), was, NoteOf(p, v, path));
        Note(NoteOf(p, v, path));
        if v.Wait? {
          held := held + {v.source};
        }
      }
      assert ps[..|ps|] == ps;
    }

    /** The parts that stay, and whether any part changed. */
    method Keep(ms: seq<Member>, held: set<string>, path: Path, ghost ws: seq<Walked>, ghost suggestions: seq<Migration>)
      returns (parts: seq<string>, changed: bool)
      requires ms == Members(ws) && Holds(held, suggestions, path)
      modifies this`report
      ensures parts == Parts(Kept(ws, suggestions, path))
      ensures changed == (RemovedPaths(ws, suggestions, path) != [] || SomeDiffer(ws, suggestions, path))
      ensures report == Both(old(report), NOTHING.(removed := RemovedPaths(ws, suggestions, path)))
    {
      hide Kept, RemovedPaths, SomeDiffer, Parts, Both, Dropped, Holds, Unparse, Upgrade.Text, BareEntry;
      parts, changed := [], false;
      BothNothing(report);
      NoneKept(suggestions, path);
      for k := 0 to |ms|
        invariant parts == Parts(Kept(ws[..k], suggestions, path))
        invariant changed == (RemovedPaths(ws[..k], suggestions, path) != [] || SomeDiffer(ws[..k], suggestions, path))
        invariant report == Both(old(report), NOTHING.(removed := RemovedPaths(ws[..k], suggestions, path)))
      {
        var m := ms[k];
        ghost var w := ws[k];
        assert m == MemberOf(w);
        KeptStep(ws, k, suggestions, path);
        DifferStep(ws, k, suggestions, path);
        DroppedIs(w, held, suggestions, path);
        if m.forbidden && m.key !in held {
          ghost var removed := RemovedPaths(ws[..k], suggestions, path);
          RemovedNote(removed, path + [m.key]);
          BothAssoc(old(report), NOTHING.(removed := removed), NOTHING.(removed := [path + [m.key]]));
          Note(NOTHING.(removed := [path + [m.key]]));
          changed := true;
        } else {
          ghost var e := BareEntry(Some(w.keyText), w.child);
          PartsConcat(Kept(ws[..k], suggestions, path), [e]);
          PartsOne(e);
          MemberPart(w.keyText, w.child);
          parts := parts + [m.keyText + ":" + m.child];
          changed := changed || m.child != m.original;
        }
      }
      assert ws[..|ws|] == ws;
    }

    /** The parts added for missing properties. */
    method AddMissing(ps: seq<Property>, body: Option<Body>, ms: seq<Member>, verdicts: seq<Verdict>, path: Path, ghost ws: seq<Walked>)
      returns (parts: seq<string>)
      requires ms == Members(ws) && |verdicts| == |ps|
      requires forall i :: 0 <= i < |ps| ==> verdicts[i] == VerdictOf(Decide(ps[i], body, ws, path, host, accepted))
      modifies this`report
      ensures parts == Parts(Additions(ps, body, ws, path, host, accepted).0)
      ensures report == Both(old(report), Additions(ps, body, ws, path, host, accepted).1)
    {
      hide Members, Decide, Addition, Additions, Parts, Both, BareEntry, Unparse, VerdictOf, Seen, SeenKey;
      parts := [];
      BothNothing(report);
      NoneAdded(body, ws, path, host, accepted);
      for k := 0 to |ps|
        invariant parts == Parts(Additions(ps[..k], body, ws, path, host, accepted).0)
        invariant report == Both(old(report), Additions(ps[..k], body, ws, path, host, accepted).1)
      {
        var p := ps[k];
        ghost var was := Additions(ps[..k], body, ws, path, host, accepted);
        ghost var made := Addition(p, body, ws, path, host, accepted);
        AdditionsStep(ps, k, body, ws, path, host, accepted);
        BothAssoc(old(report), was.1, made.report);
        ghost var more := NOTHING.(added := [path + [p.name]]);
        BothAssoc(old(report), Both(was.1, made.report), more);
        var child := AddOne(p, body, ms, verdicts[k], path, ws);
        if child.Some? {
          ghost var e := BareEntry(Some(host.quote(p.name)), made.value.value);
          PartsConcat(was.0, [e]);
          PartsOne(e);
          MemberPart(host.quote(p.name), made.value.value);
          parts := parts + [host.quote(p.name) + ":" + child.value];
          Note(NOTHING.(added := [path + [p.name]]));
        }
      }
      assert ps[..|ps|] == ps;
    }

    /** The text added for one property, if it is missing and has one. */
    method AddOne(p: Property, body: Option<Body>, ms: seq<Member>, v: Verdict, path: Path, ghost ws: seq<Walked>) returns (child: Option<string>)
      requires ms == Members(ws) && v == VerdictOf(Decide(p, body, ws, path, host, accepted))
      modifies this`report
      ensures child == OptText(Addition(p, body, ws, path, host, accepted).value)
      ensures report == Both(old(report), Addition(p, body, ws, path, host, accepted).report)
    {
      hide Members, Decide, Both, Unparse, Seen, SeenKey, Initial;
      SeenIs(ws, p.name);
      BothNothing(report);
      if SeenKey(ms, p.name) || v.Wait? {
        return None;
      }
      if v.Ignore? && !(body.Some? && p.name in body.value.required) && !HasDefault(p.schema) {
        return None;
      }
      if v.Take? {
        return Some(v.value);
      }
      child := MakeInitial(p.schema, path + [p.name]);
    }

    /** The parts of an object once its entries are walked, and whether they differ from what was stored. */
    method Assemble(s: Option<Body>, path: Path, ms: seq<Member>, ghost ws: seq<Walked>) returns (parts: seq<string>, changed: bool)
      requires ms == Members(ws) && Originals(ws)
      modifies this`report
      ensures var ps := PropertiesOf(s);
              var decided, more := DecideAll(ps, s, ws, path, host, accepted), Additions(ps, s, ws, path, host, accepted);
              var kept, removed := Kept(ws, decided.suggestions, path), RemovedPaths(ws, decided.suggestions, path);
              parts == Parts(kept) + Parts(more.0) &&
              changed == !(removed == [] && more.0 == [] && !SomeDiffer(ws, decided.suggestions, path)) &&
              report == Both(Both(Both(old(report), decided), NOTHING.(removed := removed)), more.1)
    {
      hide Members, Originals, VerdictOf, Decide, DecideAll, Additions, Kept, RemovedPaths, SomeDiffer, Holds, Both, PropertiesOf, Parts;
      var ps := PropertiesOf(s);
      var verdicts, held := Migrate(ps, s, ms, path, ws);
      parts, changed := Keep(ms, held, path, ws, DecideAll(ps, s, ws, path, host, accepted).suggestions);
      var more := AddMissing(ps, s, ms, verdicts, path, ws);
      parts, changed := parts + more, changed || more != [];
    }

    /** Rewrites the value at the cursor and moves the cursor past it. */
    method Walk(raw: Schema, path: Path, ghost c: Cst, ghost at: nat) returns (text: string)
      requires WfCst(c) && Stands(value, tokens, c, at, cursor)
      modifies this
      ensures cursor == old(cursor) + |Spans(c, at)|
      ensures text == Unparse(Upgrade.Walk(c, raw, path, host, accepted).cst)
      ensures report == Both(old(report), Upgrade.Walk(c, raw, path, host, accepted).report)
      decreases c, 1
    {
      hide WfCst, Stands, Spans, Unparse, Both, WalkObject, WalkArray, FinishObject, FinishArray, EnumName;
      Opening(value, tokens, c, at, cursor);
      BothNothing(report);
      var s := Normalized(raw);
      var ch := value[tokens[cursor].start..tokens[cursor].end];
      if ch == "{" {
        text := WalkMembers(s, path, c, at);
      } else if ch == "[" {
        text := WalkItems(s, path, c, at);
      } else {
        text := ch;
        cursor := cursor + 1;
        var name := if tokens[cursor - 1].kind == Num then EnumName(s, text) else None;
        if name.Some? {
          Note(NOTHING.(conversions := [Conversion(path, text, name.value)]));
          text := host.quote(name.value);
        }
        ScalarText(c.kind, ch);
        ScalarText(Str, text);
      }
    }

    /** Puts the object at the cursor together again, or leaves its text as it is if nothing about it changed. */
    method WalkMembers(s: Option<Body>, path: Path, ghost c: Cst, ghost at: nat) returns (text: string)
      requires c.CContainer? && c.isObject && WfCst(c) && Stands(value, tokens, c, at, cursor)
      modifies this
      ensures cursor == old(cursor) + |Spans(c, at)|
      ensures var walked := WalkObject(c.entries, s, path, host, accepted);
              var out := FinishObject(c, walked.0, walked.1, s, path, host, accepted);
              text == Unparse(out.cst) && report == Both(old(report), out.report)
      decreases c, 0, 1
    {
      hide WfCst, Stands, Spans, Unparse, Both, WalkObject, FinishObject, Members, Upgrade.Text, Originals, DecideAll, Additions, Kept, RemovedPaths,
           SomeDiffer, Parts, Join, PropertiesOf, WfCEntries;
      ghost var k, first := cursor, report;
      SliceIsText(value, tokens, c, at, k);
      var start := tokens[cursor].start;
      var ms := ReadMembers(s, path, c, at);
      ghost var walked := WalkObject(c.entries, s, path, host, accepted);
      EntriesAreWf(c);
      WalkedOriginals(c.entries, s, path, host, accepted);
      var parts, changed := Assemble(s, path, ms, walked.0);
      FinishObjectIs(c, walked.0, walked.1, s, path, host, accepted);
      ghost var ps := PropertiesOf(s);
      ghost var decided := DecideAll(ps, s, walked.0, path, host, accepted);
      ReportOrder(first, walked.1, decided, NOTHING.(removed := RemovedPaths(walked.0, decided.suggestions, path)),
                  Additions(ps, s, walked.0, path, host, accepted).1);
      text := if changed then "{" + Join(parts, ",") + "}" else value[start..tokens[cursor - 1].end];
    }

    /** Walks the entries of the object at the cursor, keeping each one's text as stored beside the new one. */
    method ReadMembers(s: Option<Body>, path: Path, ghost c: Cst, ghost at: nat) returns (ms: seq<Member>)
      requires c.CContainer? && c.isObject && WfCst(c) && Stands(value, tokens, c, at, cursor)
      modifies this
      ensures cursor == old(cursor) + |Spans(c, at)|
      ensures ms == Members(WalkObject(c.entries, s, path, host, accepted).0)
      ensures report == Both(old(report), WalkObject(c.entries, s, path, host, accepted).1)
      decreases c, 0, 0
    {
      hide WfCst, Stands, Spans, Both, WalkObject, WalkedOf, Members, MemberOf, Here, After, ValueAt;
      ghost var k, es, first := cursor, c.entries, report;
      cursor := cursor + 1;
      ms := [];
      ghost var i := 0;
      StartStep(c, at, k);
      NothingWalked(s, path, host, accepted);
      BothNothing(report);
      EndStep(value, tokens, c, at, k);
      if es != [] {
        MemberStep(value, tokens, c, at, k, 0);
      }
      while value[tokens[cursor].start] != '}'
        invariant i <= |es| && cursor == Here(c, at, k, i) < |tokens| && tokens[cursor].start < |value|
        invariant value[tokens[cursor].start] == '}' <==> i == |es|
        invariant ms == Members(WalkObject(es[..i], s, path, host, accepted).0)
        invariant report == Both(first, WalkObject(es[..i], s, path, host, accepted).1)
        decreases |es| - i
      {
        MemberStep(value, tokens, c, at, k, i);
        ghost var e, vat, was := es[i], ValueAt(c, at, i), WalkObject(es[..i], s, path, host, accepted);
        var m := ReadMember(s, path, e, vat);
        ms := ms + [m];
        WalkObjectStep(es, i, s, path, host, accepted);
        ghost var w := WalkedOf(e, s, path, host, accepted);
        MembersSnoc(was.0, w.0);
        BothAssoc(first, was.1, w.1);
        i := i + 1;
        NextStep(value, tokens, c, at, k, i);
        if value[tokens[cursor].start] == ',' {
          cursor := cursor + 1;
        }
        if i < |es| {
          MemberStep(value, tokens, c, at, k, i);
        }
      }
      cursor := cursor + 1;
      assert es[..i] == es;
    }

    /** Walks one entry. */
    method ReadMember(s: Option<Body>, path: Path, ghost e: CEntry, ghost at: nat) returns (m: Member)
      requires MemberHere(value, tokens, e, at, cursor)
      modifies this
      ensures cursor == old(cursor) + 2 + |Spans(e.value, at)|
      ensures var w := WalkedOf(e, s, path, host, accepted);
              m == MemberOf(w.0) && report == Both(old(report), w.1)
      decreases e
    {
      hide WfCst, Stands, Spans, Unparse, Both, Upgrade.Walk, Upgrade.Text, ChildSchema, Forbids;
      var keyText := value[tokens[cursor].start..tokens[cursor].end];
      var key := host.unquote(keyText);
      cursor := cursor + 2;
      SliceIsText(value, tokens, e.value, at, cursor);
      var childStart := tokens[cursor].start;
      var child := Walk(ChildSchema(s, key), path + [key], e.value, at);
      var original := value[childStart..tokens[cursor - 1].end];
      m := Member(key, keyText, child, original, Forbids(s, key));
    }

    /** Rewrites the items of the array at the cursor. */
    method WalkItems(s: Option<Body>, path: Path, ghost c: Cst, ghost at: nat) returns (text: string)
      requires c.CContainer? && !c.isObject && WfCst(c) && Stands(value, tokens, c, at, cursor)
      modifies this
      ensures cursor == old(cursor) + |Spans(c, at)|
      ensures var walked := WalkArray(c.entries, s, path, host, accepted);
              var out := FinishArray(c, walked.0, walked.1);
              text == Unparse(out.cst) && report == Both(old(report), out.report)
      decreases c, 0
    {
      hide WfCst, Stands, Spans, Unparse, Both, WalkArray, FinishArray, Here, After, ValueAt, Upgrade.Walk, Upgrade.Text, ItemSchema, Differ, Texts,
           Join;
      ghost var k, es, first := cursor, c.entries, report;
      SliceIsText(value, tokens, c, at, k);
      var start := tokens[cursor].start;
      cursor := cursor + 1;
      var parts: seq<string>, changed := [], false;
      ghost var i := 0;
      StartStep(c, at, k);
      NothingWalked(s, path, host, accepted);
      BothNothing(report);
      EndStep(value, tokens, c, at, k);
      if es != [] {
        ItemStep(value, tokens, c, at, k, 0);
      }
      while value[tokens[cursor].start] != ']'
        invariant i == |parts| <= |es| && cursor == Here(c, at, k, i) < |tokens| && tokens[cursor].start < |value|
        invariant value[tokens[cursor].start] == ']' <==> i == |es|
        invariant parts == Texts(WalkArray(es[..i], s, path, host, accepted).0)
        invariant changed == Differ(WalkArray(es[..i], s, path, host, accepted).0, es[..i])
        invariant report == Both(first, WalkArray(es[..i], s, path, host, accepted).1)
        decreases |es| - i
      {
        ItemStep(value, tokens, c, at, k, i);
        ghost var e, vat, was := es[i], ValueAt(c, at, i), WalkArray(es[..i], s, path, host, accepted);
        SliceIsText(value, tokens, e.value, vat, cursor);
        var childStart := tokens[cursor].start;
        var index := |parts|;
        var child := Walk(ItemSchema(s, index), path + [IndexText(index)], e.value, vat);
        changed := changed || child != value[childStart..tokens[cursor - 1].end];
        parts := parts + [child];
        WalkArrayStep(es, i, s, path, host, accepted);
        ghost var out := Upgrade.Walk(e.value, ItemSchema(s, i), path + [IndexText(i)], host, accepted);
        DifferSnoc(was.0, out.cst, es, i);
        BothAssoc(first, was.1, out.report);
        i := i + 1;
        NextStep(value, tokens, c, at, k, i);
        if value[tokens[cursor].start] == ',' {
          cursor := cursor + 1;
        }
        if i < |es| {
          ItemStep(value, tokens, c, at, k, i);
        }
      }
      cursor := cursor + 1;
      assert es[..i] == es;
      ghost var walked := WalkArray(es, s, path, host, accepted);
      FinishArrayIs(c, walked.0, walked.1);
      text := if changed then "[" + Join(parts, ",") + "]" else value[start..tokens[cursor - 1].end];
    }
  }

  // ---- the whole value --------------------------------------------------------------------------------------------------------

  /** The value and report are those of the walk over a derivation of the stored text. */
  ghost predicate Outcome(value: string, prepared: string, report: Report, raw: Schema, host: Host, accepted: set<Path>) {
    exists c, before, after ::
      Derives(c, before, after, value) && prepared == Prepared(c, before, after, raw, host, accepted) &&
      report == Upgrade.Walk(c, raw, [], host, accepted).report
  }

  lemma OutcomeIsFaithful(value: string, prepared: string, report: Report, raw: Schema, host: Host, accepted: set<Path>)
    requires Outcome(value, prepared, report, raw, host, accepted) && WfSchema(raw) && HostOk(host)
    ensures Faithful(value, prepared, report, raw, host, accepted)
  {
    hide Derives, Prepared, Upgrade.Walk, WfSchema, HostOk, Faithful;
    var c, before, after :| Derives(c, before, after, value) && prepared == Prepared(c, before, after, raw, host, accepted) &&
                            report == Upgrade.Walk(c, raw, [], host, accepted).report;
    PreparedIsFaithful(c, before, after, value, raw, host, accepted);
  }

  /** Prepares a stored value; without a schema, or if it is no JSON, it is left alone. */
  method PrepareUpgradeValue(value: string, raw: Schema, host: Host, accepted: set<Path>) returns (prepared: string, report: Report)
    ensures raw.NoSchema? || !Derivable(value) ==> prepared == value && report == NOTHING
    ensures !raw.NoSchema? && Derivable(value) ==> Outcome(value, prepared, report, raw, host, accepted) && AllConsented(report, accepted)
    ensures !raw.NoSchema? && Derivable(value) && WfSchema(raw) && HostOk(host) ==>
              Faithful(value, prepared, report, raw, host, accepted)
  {
    var problem := JsonText.CheckJson(value);
    if raw.NoSchema? || problem.Some? {
      return value, NOTHING;
    }
    ghost var c, before, after :| Derives(c, before, after, value);
    assert WfCst(c) && value == before + Unparse(c) + after;
    hide Derives, WfCst, Unparse, Stands, Spans, SolidOnes, Tokens, Upgrade.Walk, Both, WfSchema, HostOk, Faithful, AllConsented;
    var all := TokenizeJson(value);
    var rewriter := new Rewriter(value, SolidOnes(all), host, accepted);
    DocumentStands(c, before, after, value);
    var text := rewriter.Walk(raw, [], c, |before|);
    BothNothing(Upgrade.Walk(c, raw, [], host, accepted).report);
    MigrationsConsented(c, raw, [], host, accepted);
    report := rewriter.report;
    prepared := if Edited(report) then text else value;
    assert prepared == Prepared(c, before, after, raw, host, accepted);
    if WfSchema(raw) && HostOk(host) {
      OutcomeIsFaithful(value, prepared, report, raw, host, accepted);
    }
  }
}

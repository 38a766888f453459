/** What was migrated is there: the prepared tree has each migrated list at the place reported. */
module UpgradeShown {
  import opened JsonSyntax
  import opened JsonTree
  import opened Upgrade
  import opened UpgradeEdits
  import opened UpgradeFills

  /** A string written and read again is the same. */
  ghost predicate QuoteOk(host: Host) {
    forall s :: host.unquote(host.quote(s)) == s
  }

  /** The tree at `path` has a part with this text at `at`. */
  ghost predicate Shows(n: Node, path: Path, at: Path, text: string, host: Host)
    decreases n, 1
  {
    (at == path && NodeText(n) == text) ||
    (n.Container? && exists i :: 0 <= i < |n.entries| && EntryShows(n.entries[i], path + [StepTo(n, i, host)], at, text, host))
  }

  function StepTo(n: Node, i: nat, host: Host): string
    requires n.Container? && i < |n.entries|
  {
    if n.isObject then NodeKey(n.entries[i], host) else IndexText(i)
  }

  ghost predicate EntryShows(e: Entry, path: Path, at: Path, text: string, host: Host)
    decreases e, 0
  {
    Shows(e.node, path, at, text, host)
  }

  ghost predicate MigrationShown(m: Migration, now: Node, path: Path, host: Host) {
    m.value.Some? && Shows(now, path, m.target, m.value.value, host)
  }

  ghost predicate AllShown(r: Report, now: Node, path: Path, host: Host) {
    QuoteOk(host) ==> forall m :: m in r.migrations ==> MigrationShown(m, now, path, host)
  }

  lemma PartShows(n: Node, i: nat, path: Path, m: Migration, host: Host)
    requires n.Container? && i < |n.entries| && MigrationShown(m, n.entries[i].node, path + [StepTo(n, i, host)], host)
    ensures MigrationShown(m, n, path, host)
  {
    hide Shows, StepTo;
    assert EntryShows(n.entries[i], path + [StepTo(n, i, host)], m.target, m.value.value, host);
    ShowsIn(n, i, path, m.target, m.value.value, host);
  }

  lemma ShowsIn(n: Node, i: nat, path: Path, at: Path, text: string, host: Host)
    requires n.Container? && i < |n.entries| && EntryShows(n.entries[i], path + [StepTo(n, i, host)], at, text, host)
    ensures Shows(n, path, at, text, host)
  {
    hide EntryShows, StepTo;
  }

  lemma {:induction false} InSome(rs: seq<Report>, m: Migration) returns (i: nat)
    requires m in BothAll(rs).migrations
    ensures i < |rs| && m in rs[i].migrations
    decreases |rs|
  {
    var k := |rs| - 1;
    if m in rs[k].migrations {
      i := k;
    } else {
      i := InSome(rs[..k], m);
    }
  }

  /** A member about which something is reported stays. */
  lemma {:induction false} StaysAt(was: seq<Entry>, now: seq<Entry>, rs: seq<Report>, removed: seq<Path>, own: Report, s: Option<Body>, path: Path,
                                   host: Host, accepted: set<Path>, i: nat) returns (j: nat)
    requires |rs| == |was| && i < |was| && rs[i] != NOTHING && Stay(was, now, rs, removed, own, s, path, host, accepted)
    ensures j < |now| && MemberStays(was[i], now[j], rs[i], s, path, host, accepted)
    decreases |was|
  {
    hide MemberStays, Gone, NodeKey;
    var k := |was| - 1;
    if Gone(was[k], own, s, path, host) {
      j := StaysAt(was[..k], now, rs[..k], removed[..|removed| - 1], own, s, path, host, accepted, i);
    } else if i == k {
      j := |now| - 1;
    } else {
      j := StaysAt(was[..k], now[..|now| - 1], rs[..k], removed, own, s, path, host, accepted, i);
    }
  }

  lemma FillShown(p: Property, was: seq<Entry>, s: Option<Body>, path: Path, host: Host, accepted: set<Path>, m: Migration)
    requires QuoteOk(host) && m in FillOf(p, was, s, path, host, accepted).report.migrations
    ensures var e := FillOf(p, was, s, path, host, accepted).member;
            e.Some? && MigrationShown(m, e.value.node, path + [NodeKey(e.value, host)], host)
  {
    InitialReports(p.schema, path + [p.name], host);
    var source := SourceOf(p, s, was, host);
    hide Lacks, SourceOf, CanStart, Initial;
    assert source.Some?;
    ListShown(source.value.node, host);
    hide ListOf, ListText, NodeText, IsEmptyString, IsFilledString, Fits;
    assert m.target == path + [p.name];
    assert host.unquote(host.quote(p.name)) == p.name;
  }

  lemma ListShown(n: Node, host: Host)
    requires IsFilledString(n, host) || IsEmptyString(n, host)
    ensures NodeText(ListOf(n, host)) == ListText(n, host)
  {
    var e := Entry(None, n);
    assert [e][..0] == [] && EntryText(e) == n.text;
    assert EntryTexts([e]) == EntryTexts([]) + [n.text] == [n.text];
    assert Join([n.text], ",") == n.text;
    assert EntryTexts([]) == [] && Join([], ",") == "";
  }

  lemma {:induction false} FillsShown(ps: seq<Property>, was: seq<Entry>, s: Option<Body>, path: Path, host: Host, accepted: set<Path>, m: Migration)
    returns (j: nat)
    requires QuoteOk(host) && m in Fills(ps, was, s, path, host, accepted).1.migrations
    ensures var es := Fills(ps, was, s, path, host, accepted).0;
            j < |es| && MigrationShown(m, es[j].node, path + [NodeKey(es[j], host)], host)
    decreases |ps|
  {
    hide FillOf, MigrationShown, NodeKey, QuoteOk;
    var init, p := ps[..|ps| - 1], ps[|ps| - 1];
    if m in Fills(init, was, s, path, host, accepted).1.migrations {
      j := FillsShown(init, was, s, path, host, accepted, m);
    } else {
      j := |Fills(init, was, s, path, host, accepted).0|;
      FillShown(p, was, s, path, host, accepted, m);
    }
  }

  /** Every migration reported of an upgraded tree has put its list there. */
  lemma {:induction false} MigratedShown(was: Node, now: Node, raw: Schema, path: Path, r: Report, host: Host, accepted: set<Path>, m: Migration)
    requires Upgraded(was, now, raw, path, r, host, accepted) && QuoteOk(host) && m in r.migrations
    ensures MigrationShown(m, now, path, host)
    decreases was, 1
  {
    var s := Normalized(raw);
    if was.Container? && was.isObject {
      var k: nat, rs, own :| MembersUpgraded(was.entries, now.entries, k, rs, own, s, path, r, host, accepted);
      hide Upgraded, MembersUpgraded, MigrationShown, QuoteOk, Normalized;
      ObjectShown(was.entries, now, k, rs, own, s, path, r, host, accepted, m);
    } else if was.Container? {
      var rs :| ItemsUpgraded(was.entries, now.entries, rs, s, path, r, host, accepted);
      hide Upgraded, ItemUpgraded, MigrationShown, BothAll, QuoteOk, Normalized;
      var i := InSome(rs, m);
      assert ItemUpgraded(was.entries[i], now.entries[i], i, rs[i], s, path, host, accepted);
      ItemShown(was.entries[i], now.entries[i], i, s, path, rs[i], host, accepted, m);
      PartShows(now, i, path, m, host);
    }
  }

  lemma {:induction false} ObjectShown(was: seq<Entry>, now: Node, k: nat, rs: seq<Report>, own: Report, s: Option<Body>, path: Path, r: Report,
                                       host: Host, accepted: set<Path>, m: Migration)
    requires now.Container? && now.isObject && MembersUpgraded(was, now.entries, k, rs, own, s, path, r, host, accepted)
    requires QuoteOk(host) && m in r.migrations
    ensures MigrationShown(m, now, path, host)
    decreases was, 0
  {
    hide MigrationShown, Fills, Stay, MemberStays, BothAll, QuoteOk, PropertiesOf, NodeKey;
    if m in own.migrations {
      var j := FillsShown(PropertiesOf(s), was, s, path, host, accepted, m);
      assert now.entries[k..][j] == now.entries[k + j];
      PartShows(now, k + j, path, m, host);
    } else {
      var i := InSome(rs, m);
      assert rs[i] != NOTHING;
      var j := StaysAt(was, now.entries[..k], rs, own.removed, own, s, path, host, accepted, i);
      MemberShown(was[i], now.entries[j], s, path, rs[i], host, accepted, m);
      PartShows(now, j, path, m, host);
    }
  }

  lemma {:induction false} MemberShown(e: Entry, f: Entry, s: Option<Body>, path: Path, r: Report, host: Host, accepted: set<Path>, m: Migration)
    requires MemberStays(e, f, r, s, path, host, accepted) && QuoteOk(host) && m in r.migrations
    ensures MigrationShown(m, f.node, path + [NodeKey(f, host)], host)
    decreases e, 0
  {
    hide Upgraded, QuoteOk, ChildSchema, MigrationShown;
    var key := NodeKey(e, host);
    MigratedShown(e.node, f.node, ChildSchema(s, key), path + [key], r, host, accepted, m);
  }

  lemma {:induction false} ItemShown(e: Entry, f: Entry, i: nat, s: Option<Body>, path: Path, r: Report, host: Host, accepted: set<Path>, m: Migration)
    requires ItemUpgraded(e, f, i, r, s, path, host, accepted) && QuoteOk(host) && m in r.migrations
    ensures MigrationShown(m, f.node, path + [IndexText(i)], host)
    decreases e, 0
  {
    hide Upgraded, QuoteOk, ItemSchema, MigrationShown, IndexText;
    MigratedShown(e.node, f.node, ItemSchema(s, i), path + [IndexText(i)], r, host, accepted, m);
  }

  lemma UpgradedShows(was: Node, now: Node, raw: Schema, path: Path, r: Report, host: Host, accepted: set<Path>)
    requires Upgraded(was, now, raw, path, r, host, accepted)
    ensures AllShown(r, now, path, host)
  {
    hide Upgraded, MigrationShown, QuoteOk;
    if QuoteOk(host) {
      forall m | m in r.migrations
        ensures MigrationShown(m, now, path, host)
      {
        MigratedShown(was, now, raw, path, r, host, accepted, m);
      }
    }
  }
}

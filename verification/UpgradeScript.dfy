/**
  The edits of an upgrade as a script over tokens.

  Every token of the stored value stays in place, unless it belongs to a whole member that is
  left out, with at most one comma beside it, or is a number swapped for its name; every other
  token of the prepared value belongs to a whole member put in.  Each of these stands in the
  tree at the path it is reported for, and the script has each reported edit exactly once, as
  often as it is reported.  Which of several equal members at one path an edit is about is said
  by `Upgraded`, which goes by position.
*/
module UpgradeScript {
  import opened Seqs
  import opened Flats
  import opened JsonLex
  import opened JsonSyntax
  import opened Upgrade
  import opened UpgradeEdits
  import opened UpgradeFills
  import opened UpgradeShown

  // ---- places in a tree ---------------------------------------------------------------------------------------------

  function StepText(isObject: bool, e: Entry, i: nat, host: Host): string {
    if isObject then NodeKey(e, host) else IndexText(i)
  }

  /** The tree `n` at `path` has the value `v` at `at`. */
  ghost predicate HasValue(n: Node, path: Path, at: Path, v: Node, host: Host)
    decreases n, 1
  {
    (at == path && v == n) || (n.Container? && exists i :: 0 <= i < |n.entries| && BelowEntry(n.isObject, n.entries[i], i, path, at, v, host))
  }

  ghost predicate BelowEntry(isObject: bool, e: Entry, i: nat, path: Path, at: Path, v: Node, host: Host)
    decreases e, 0
  {
    HasValue(e.node, path + [StepText(isObject, e, i, host)], at, v, host)
  }

  /** An object of the tree has the member `e`, and the path ends in `name` below it. */
  ghost predicate HasMember(n: Node, path: Path, at: Path, e: Entry, name: string, host: Host) {
    at != [] && at[|at| - 1] == name &&
    exists es :: HasValue(n, path, at[..|at| - 1], Container(true, es), host) && e in es
  }

  // ---- scripts ---------------------------------------------------------------------------------------------------------

  /** What happens to tokens: one kept, a number swapped, a member left out or put in with its comma. */
  datatype Mark =
    | Same(l: Lexeme)
    | Swap(l: Lexeme, name: string, at: Path)
    | Cut(e: Entry, at: Path, lead: bool, trail: bool)
    | Put(e: Entry, at: Path, lead: bool)

  function CommaIf(b: bool): seq<Lexeme> {
    if b then [P(',')] else []
  }

  function OldTokens(m: Mark): seq<Lexeme> {
    match m
    case Same(l) => [l]
    case Swap(l, _, _) => [l]
    case Cut(e, _, lead, trail) => CommaIf(lead) + EntryTokens(e) + CommaIf(trail)
    case Put(_, _, _) => []
  }

  function NewTokens(host: Host): Mark -> seq<Lexeme> {
    (m: Mark) => NewOf(m, host)
  }

  function NewOf(m: Mark, host: Host): seq<Lexeme> {
    match m
    case Same(l) => [l]
    case Swap(_, name, _) => [Lexeme(Str, host.quote(name))]
    case Cut(_, _, _, _) => []
    case Put(e, _, lead) => CommaIf(lead) + EntryTokens(e)
  }

  /** How often which edit is made. */
  datatype Tally = Tally(removed: multiset<Path>, added: multiset<Path>, conversions: multiset<Conversion>)

  const ZERO := Tally(multiset{}, multiset{}, multiset{})

  function Sum(a: Tally, b: Tally): Tally {
    Tally(a.removed + b.removed, a.added + b.added, a.conversions + b.conversions)
  }

  function TallyOf(m: Mark): Tally {
    match m
    case Same(_) => ZERO
    case Swap(l, name, at) => ZERO.(conversions := multiset{Conversion(at, l.text, name)})
    case Cut(_, at, _, _) => ZERO.(removed := multiset{at})
    case Put(_, at, _) => ZERO.(added := multiset{at})
  }

  function TallyAll(ms: seq<Mark>): Tally {
    if ms == [] then ZERO else Sum(TallyAll(ms[..|ms| - 1]), TallyOf(ms[|ms| - 1]))
  }

  /** The edits a report lists. */
  function Listed(r: Report): Tally {
    Tally(multiset(r.removed), multiset(r.added), multiset(r.conversions))
  }

  function Removals(removed: seq<Path>): Tally {
    ZERO.(removed := multiset(removed))
  }

  function Addings(added: seq<Path>): Tally {
    ZERO.(added := multiset(added))
  }

  lemma SumAssoc(a: Tally, b: Tally, c: Tally)
    ensures Sum(Sum(a, b), c) == Sum(a, Sum(b, c))
  {
  }

  lemma SumZero(a: Tally)
    ensures Sum(a, ZERO) == a && Sum(ZERO, a) == a
  {
  }

  lemma {:induction false} TallyConcat(x: seq<Mark>, y: seq<Mark>)
    ensures TallyAll(x + y) == Sum(TallyAll(x), TallyAll(y))
    decreases |y|
  {
    hide Sum, TallyOf;
    if y == [] {
      Unit(x);
      SumZero(TallyAll(x));
    } else {
      var k := |y| - 1;
      TallyConcat(x, y[..k]);
      AroundLast(y, k);
      Assoc(x, y[..k], [y[k]]);
      Snoc(x + y[..k], y[k]);
      SumAssoc(TallyAll(x), TallyAll(y[..k]), TallyOf(y[k]));
    }
  }

  lemma ListedBoth(a: Report, b: Report)
    ensures Listed(Both(a, b)) == Sum(Listed(a), Listed(b)) && Listed(NOTHING) == ZERO
  {
  }

  /** The edit stands in the trees at its path. */
  ghost predicate Placed(m: Mark, was: Node, now: Node, path: Path, host: Host) {
    match m
    case Same(_) => true
    case Swap(l, name, at) => l.kind == Num && HasValue(was, path, at, Scalar(Num, l.text), host)
    case Cut(e, at, lead, trail) => !(lead && trail) && HasMember(was, path, at, e, NodeKey(e, host), host)
    case Put(e, at, _) => at != [] && e.key == Some(host.quote(at[|at| - 1])) && HasMember(now, path, at, e, at[|at| - 1], host)
  }

  ghost predicate AllPlaced(ms: seq<Mark>, was: Node, now: Node, path: Path, host: Host) {
    forall m :: m in ms ==> Placed(m, was, now, path, host)
  }

  /** The marks turn the tokens `a` into the tokens `b`, by edits placed in the two trees and counted by `t`. */
  ghost predicate Turns(ms: seq<Mark>, a: seq<Lexeme>, b: seq<Lexeme>, was: Node, now: Node, path: Path, t: Tally, host: Host) {
    Flat(ms, OldTokens) == a && Flat(ms, NewTokens(host)) == b && AllPlaced(ms, was, now, path, host) && TallyAll(ms) == t
  }

  lemma TurnsConcat(x: seq<Mark>, a: seq<Lexeme>, b: seq<Lexeme>, t: Tally, y: seq<Mark>, a': seq<Lexeme>, b': seq<Lexeme>, t': Tally,
                    was: Node, now: Node, path: Path, host: Host)
    requires Turns(x, a, b, was, now, path, t, host) && Turns(y, a', b', was, now, path, t', host)
    ensures Turns(x + y, a + a', b + b', was, now, path, Sum(t, t'), host)
  {
    hide Flat, Placed, TallyAll;
    FlatConcat(x, y, OldTokens);
    FlatConcat(x, y, NewTokens(host));
    TallyConcat(x, y);
  }

  lemma TurnsOne(m: Mark, was: Node, now: Node, path: Path, host: Host)
    requires Placed(m, was, now, path, host)
    ensures Turns([m], OldTokens(m), NewOf(m, host), was, now, path, TallyOf(m), host)
  {
    hide Placed, OldTokens, NewOf, TallyOf;
    FlatOne(m, OldTokens);
    FlatOne(m, NewTokens(host));
    assert [m][..0] == [] && TallyAll([]) == ZERO;
    SumZero(TallyOf(m));
  }

  lemma TurnsNone(was: Node, now: Node, path: Path, host: Host)
    ensures Turns([], [], [], was, now, path, ZERO, host)
  {
  }

  lemma TurnsSame(ls: seq<Lexeme>, was: Node, now: Node, path: Path, host: Host) returns (ms: seq<Mark>)
    ensures Turns(ms, ls, ls, was, now, path, ZERO, host)
    decreases |ls|
  {
    hide Turns;
    if ls == [] {
      ms := [];
      TurnsNone(was, now, path, host);
    } else {
      var k := |ls| - 1;
      var first := TurnsSame(ls[..k], was, now, path, host);
      TurnsOne(Same(ls[k]), was, now, path, host);
      TurnsConcat(first, ls[..k], ls[..k], ZERO, [Same(ls[k])], [ls[k]], [ls[k]], ZERO, was, now, path, host);
      ms := first + [Same(ls[k])];
      AroundLast(ls, k);
      SumZero(ZERO);
    }
  }

  // ---- scripts of an entry are scripts of its container ---------------------------------------------------------------------

  lemma ValueLifts(n: Node, i: nat, path: Path, at: Path, v: Node, host: Host)
    requires n.Container? && i < |n.entries|
    requires HasValue(n.entries[i].node, path + [StepText(n.isObject, n.entries[i], i, host)], at, v, host)
    ensures HasValue(n, path, at, v, host)
  {
    hide StepText;
    assert BelowEntry(n.isObject, n.entries[i], i, path, at, v, host);
  }

  lemma MemberLifts(n: Node, i: nat, path: Path, at: Path, e: Entry, name: string, host: Host)
    requires n.Container? && i < |n.entries|
    requires HasMember(n.entries[i].node, path + [StepText(n.isObject, n.entries[i], i, host)], at, e, name, host)
    ensures HasMember(n, path, at, e, name, host)
  {
    hide StepText, HasValue;
    var step := StepText(n.isObject, n.entries[i], i, host);
    var es :| HasValue(n.entries[i].node, path + [step], at[..|at| - 1], Container(true, es), host) && e in es;
    ValueLifts(n, i, path, at[..|at| - 1], Container(true, es), host);
  }

  lemma PlacedLifts(m: Mark, was: Node, i: nat, now: Node, j: nat, step: string, path: Path, host: Host)
    requires was.Container? && now.Container? && i < |was.entries| && j < |now.entries|
    requires StepText(was.isObject, was.entries[i], i, host) == step == StepText(now.isObject, now.entries[j], j, host)
    requires Placed(m, was.entries[i].node, now.entries[j].node, path + [step], host)
    ensures Placed(m, was, now, path, host)
  {
    hide StepText, HasValue, HasMember, NodeKey;
    match m
    case Same(_) =>
    case Swap(l, name, at) => ValueLifts(was, i, path, at, Scalar(Num, l.text), host);
    case Cut(e, at, _, _) => MemberLifts(was, i, path, at, e, NodeKey(e, host), host);
    case Put(e, at, _) => MemberLifts(now, j, path, at, e, at[|at| - 1], host);
  }

  lemma TurnsLifts(ms: seq<Mark>, a: seq<Lexeme>, b: seq<Lexeme>, t: Tally, was: Node, i: nat, now: Node, j: nat, step: string, path: Path,
                   host: Host)
    requires was.Container? && now.Container? && i < |was.entries| && j < |now.entries|
    requires StepText(was.isObject, was.entries[i], i, host) == step == StepText(now.isObject, now.entries[j], j, host)
    requires Turns(ms, a, b, was.entries[i].node, now.entries[j].node, path + [step], t, host)
    ensures Turns(ms, a, b, was, now, path, t, host)
  {
    hide Placed, Flat, StepText, TallyAll;
    forall m | m in ms
      ensures Placed(m, was, now, path, host)
    {
      PlacedLifts(m, was, i, now, j, step, path, host);
    }
  }

  // ---- members left out and put in ---------------------------------------------------------------------------------------------

  lemma OwnMember(n: Node, i: nat, path: Path, name: string, host: Host)
    requires n.Container? && n.isObject && i < |n.entries|
    ensures HasMember(n, path, path + [name], n.entries[i], name, host)
  {
    Snoc(path, name);
    assert HasValue(n, path, path, Container(true, n.entries), host);
  }

  /** The tokens of one entry more. */
  lemma TokensSnoc(es: seq<Entry>, i: nat)
    requires i < |es|
    ensures EntriesTokens(es[..i + 1]) == EntriesTokens(es[..i]) + CommaIf(i > 0) + EntryTokens(es[i])
  {
    hide EntryTokens;
    assert es[..i + 1][..i] == es[..i];
  }

  lemma CutScript(was: Node, now: Node, i: nat, lead: bool, trail: bool, path: Path, host: Host) returns (m: Mark)
    requires was.Container? && was.isObject && i < |was.entries| && !(lead && trail)
    ensures var at := path + [NodeKey(was.entries[i], host)];
            Turns([m], CommaIf(lead) + EntryTokens(was.entries[i]) + CommaIf(trail), [], was, now, path, Removals([at]), host)
  {
    hide Turns, HasMember, EntryTokens, CommaIf, NodeKey;
    var e := was.entries[i];
    OwnMember(was, i, path, NodeKey(e, host), host);
    m := Cut(e, path + [NodeKey(e, host)], lead, trail);
    TurnsOne(m, was, now, path, host);
    assert multiset([path + [NodeKey(e, host)]]) == multiset{path + [NodeKey(e, host)]};
  }

  /** What is reported inside the stored members, and the removals. */
  function StayTally(rs: seq<Report>, removed: seq<Path>): Tally {
    Sum(Listed(BothAll(rs)), Removals(removed))
  }

  lemma StayTallyGone(rs: seq<Report>, removed: seq<Path>)
    requires rs != [] && removed != [] && rs[|rs| - 1] == NOTHING
    ensures StayTally(rs, removed) == Sum(StayTally(rs[..|rs| - 1], removed[..|removed| - 1]), Removals([removed[|removed| - 1]]))
  {
    var k, n := |rs| - 1, |removed| - 1;
    ListedBoth(BothAll(rs[..k]), NOTHING);
    assert multiset(removed) == multiset(removed[..n]) + multiset([removed[n]]) by { AroundLast(removed, n); }
    hide Listed, Both, BothAll;
    assert Listed(BothAll(rs)) == Sum(Listed(BothAll(rs[..k])), ZERO) by { BothAllLast(rs); }
  }

  lemma BothAllLast(rs: seq<Report>)
    requires rs != []
    ensures BothAll(rs) == Both(BothAll(rs[..|rs| - 1]), rs[|rs| - 1])
  {
  }

  lemma StayTallyKept(rs: seq<Report>, removed: seq<Path>)
    requires rs != []
    ensures StayTally(rs, removed) == Sum(StayTally(rs[..|rs| - 1], removed), Listed(rs[|rs| - 1]))
  {
    hide Listed, Both, BothAll;
    BothAllLast(rs);
    ListedBoth(BothAll(rs[..|rs| - 1]), rs[|rs| - 1]);
  }

  lemma StayTallyNone()
    ensures StayTally([], []) == ZERO
  {
  }

  /** Members left out in front of the first that stays take the comma after them. */
  lemma {:induction false} GoneScript(was: Node, now: Node, i: nat, rs: seq<Report>, removed: seq<Path>, own: Report, s: Option<Body>, path: Path,
                                      host: Host, accepted: set<Path>) returns (ms: seq<Mark>)
    requires was.Container? && was.isObject && 0 < i <= |was.entries| && |rs| == i
    requires Stay(was.entries[..i], [], rs, removed, own, s, path, host, accepted)
    ensures Turns(ms, EntriesTokens(was.entries[..i]) + [P(',')], [], was, now, path, StayTally(rs, removed), host)
    decreases i
  {
    hide Turns, EntriesTokens, Stay, EntryTokens, StayTally, Sum, NodeKey, Removals;
    var es, n := was.entries, |removed| - 1;
    LastGone(es, i, rs, removed, own, s, path, host, accepted);
    StayTallyGone(rs, removed);
    TokensSnoc(es, i - 1);
    var m := CutScript(was, now, i - 1, false, true, path, host);
    var tail := EntryTokens(es[i - 1]) + [P(',')];
    Unit(EntryTokens(es[i - 1]));
    if i == 1 {
      NoTokens(es);
      Unit(EntryTokens(es[0]));
      assert rs[..0] == [];
      StayTallyNone();
      SumZero(Removals([removed[n]]));
      ms := [m];
    } else {
      var first := GoneScript(was, now, i - 1, rs[..i - 1], removed[..n], own, s, path, host, accepted);
      ms := first + [m];
      Unit<Lexeme>([]);
      TurnsConcat(first, EntriesTokens(es[..i - 1]) + [P(',')], [], StayTally(rs[..i - 1], removed[..n]), [m], tail, [], Removals([removed[n]]),
                  was, now, path, host);
      Assoc(EntriesTokens(es[..i - 1]) + [P(',')], EntryTokens(es[i - 1]), [P(',')]);
    }
  }

  lemma LastGone(es: seq<Entry>, i: nat, rs: seq<Report>, removed: seq<Path>, own: Report, s: Option<Body>, path: Path, host: Host, accepted: set<Path>)
    requires 0 < i <= |es| && |rs| == i && Stay(es[..i], [], rs, removed, own, s, path, host, accepted)
    ensures removed != [] && rs[i - 1] == NOTHING && removed[|removed| - 1] == path + [NodeKey(es[i - 1], host)]
    ensures Stay(es[..i - 1], [], rs[..i - 1], removed[..|removed| - 1], own, s, path, host, accepted) && (i == 1 ==> removed[..|removed| - 1] == [])
  {
    hide NodeKey, Gone, MemberStays;
    assert es[..i][..i - 1] == es[..i - 1] && es[..i][i - 1] == es[i - 1];
  }

  lemma NoTokens(es: seq<Entry>)
    ensures EntriesTokens(es[..0]) == []
  {
  }

  /** What stays of the first `i` members is the first `j` of the new ones. */
  lemma {:induction false} StayScript(was: Node, now: Node, i: nat, j: nat, rs: seq<Report>, removed: seq<Path>, own: Report, s: Option<Body>,
                                      path: Path, host: Host, accepted: set<Path>) returns (ms: seq<Mark>)
    requires was.Container? && was.isObject && i <= |was.entries| && now.Container? && now.isObject && j <= |now.entries| && |rs| == i
    requires Stay(was.entries[..i], now.entries[..j], rs, removed, own, s, path, host, accepted)
    ensures Turns(ms, EntriesTokens(was.entries[..i]), EntriesTokens(now.entries[..j]), was, now, path, StayTally(rs, removed), host)
    decreases was, 0, i, 0
  {
    hide Turns, EntriesTokens, Stay, Gone, MemberStays, EntryTokens, StayTally, NodeKey, Removals, Sum, CommaIf;
    var es, fs := was.entries, now.entries;
    LastStays(es, fs, i, j, rs, removed, own, s, path, host, accepted);
    if i == 0 {
      NoTokens(es);
      NoTokens(fs);
      StayTallyNone();
      ms := [];
      TurnsNone(was, now, path, host);
    } else if Gone(es[i - 1], own, s, path, host) {
      var k, n := i - 1, |removed| - 1;
      var first := StayScript(was, now, k, j, rs[..k], removed[..n], own, s, path, host, accepted);
      ms := CutLast(was, now, k, EntriesTokens(fs[..j]), StayTally(rs[..k], removed[..n]), first, path, host);
      StayTallyGone(rs, removed);
    } else {
      var k := i - 1;
      var last := MemberScript(was, now, k, j - 1, rs[k], s, path, host, accepted);
      var comma := CommaScript(was, now, k, j - 1, rs[..k], removed, own, s, path, host, accepted);
      TokensSnoc(es, k);
      TokensSnoc(fs, j - 1);
      ms := comma + last;
      TurnsConcat(comma, EntriesTokens(es[..k]) + CommaIf(k > 0), EntriesTokens(fs[..j - 1]) + CommaIf(j - 1 > 0), StayTally(rs[..k], removed),
                  last, EntryTokens(es[k]), EntryTokens(fs[j - 1]), Listed(rs[k]), was, now, path, host);
      StayTallyKept(rs, removed);
    }
  }

  /** The last of the first `i` members is gone, or is the last of the first `j` new ones. */
  lemma LastStays(es: seq<Entry>, fs: seq<Entry>, i: nat, j: nat, rs: seq<Report>, removed: seq<Path>, own: Report, s: Option<Body>, path: Path,
                  host: Host, accepted: set<Path>)
    requires i <= |es| && j <= |fs| && |rs| == i && Stay(es[..i], fs[..j], rs, removed, own, s, path, host, accepted)
    ensures i == 0 ==> j == 0 && rs == [] && removed == []
    ensures i > 0 && Gone(es[i - 1], own, s, path, host) ==>
              removed != [] && rs[i - 1] == NOTHING && removed[|removed| - 1] == path + [NodeKey(es[i - 1], host)] &&
              Stay(es[..i - 1], fs[..j], rs[..i - 1], removed[..|removed| - 1], own, s, path, host, accepted)
    ensures i > 0 && !Gone(es[i - 1], own, s, path, host) ==>
              j > 0 && MemberStays(es[i - 1], fs[j - 1], rs[i - 1], s, path, host, accepted) &&
              Stay(es[..i - 1], fs[..j - 1], rs[..i - 1], removed, own, s, path, host, accepted) && (i == 1 ==> j == 1)
  {
    hide NodeKey, Gone, MemberStays;
    if i > 0 {
      assert es[..i][..i - 1] == es[..i - 1] && es[..i][i - 1] == es[i - 1];
      if j > 0 {
        assert fs[..j][..j - 1] == fs[..j - 1] && fs[..j][j - 1] == fs[j - 1];
      }
    }
  }

  lemma CutLast(was: Node, now: Node, k: nat, b: seq<Lexeme>, t: Tally, first: seq<Mark>, path: Path, host: Host) returns (ms: seq<Mark>)
    requires was.Container? && was.isObject && k < |was.entries|
    requires Turns(first, EntriesTokens(was.entries[..k]), b, was, now, path, t, host)
    ensures Turns(ms, EntriesTokens(was.entries[..k + 1]), b, was, now, path, Sum(t, Removals([path + [NodeKey(was.entries[k], host)]])), host)
  {
    hide Turns, EntriesTokens, EntryTokens, CommaIf, Sum, NodeKey, Removals;
    var m := CutScript(was, now, k, k > 0, false, path, host);
    ms := first + [m];
    var gone := CommaIf(k > 0) + EntryTokens(was.entries[k]);
    assert CommaIf(false) == [] by { NoComma(); }
    Unit(gone);
    Unit(b);
    TokensSnoc(was.entries, k);
    TurnsConcat(first, EntriesTokens(was.entries[..k]), b, t, [m], gone, [], Removals([path + [NodeKey(was.entries[k], host)]]),
                was, now, path, host);
    Assoc(EntriesTokens(was.entries[..k]), CommaIf(k > 0), EntryTokens(was.entries[k]));
  }

  lemma NoComma()
    ensures CommaIf(false) == []
  {
  }

  /** The members in front of one that stays, with the comma between. */
  lemma {:induction false} CommaScript(was: Node, now: Node, k: nat, j: nat, rs: seq<Report>, removed: seq<Path>, own: Report, s: Option<Body>,
                                       path: Path, host: Host, accepted: set<Path>) returns (ms: seq<Mark>)
    requires was.Container? && was.isObject && k < |was.entries| && now.Container? && now.isObject && j < |now.entries| && |rs| == k
    requires Stay(was.entries[..k], now.entries[..j], rs, removed, own, s, path, host, accepted) && (k == 0 ==> j == 0)
    ensures Turns(ms, EntriesTokens(was.entries[..k]) + CommaIf(k > 0), EntriesTokens(now.entries[..j]) + CommaIf(j > 0), was, now, path,
                  StayTally(rs, removed), host)
    decreases was, 0, k, 1
  {
    hide Turns, EntriesTokens, Stay, StayTally;
    var es, fs := was.entries, now.entries;
    NoTokens(fs);
    if k > 0 && j == 0 {
      assert fs[..0] == [];
      ms := GoneScript(was, now, k, rs, removed, own, s, path, host, accepted);
      Unit<Lexeme>([]);
    } else {
      var first := StayScript(was, now, k, j, rs, removed, own, s, path, host, accepted);
      var comma := TurnsSame(CommaIf(k > 0), was, now, path, host);
      ms := first + comma;
      SumZero(StayTally(rs, removed));
      TurnsConcat(first, EntriesTokens(es[..k]), EntriesTokens(fs[..j]), StayTally(rs, removed), comma, CommaIf(k > 0), CommaIf(k > 0), ZERO,
                  was, now, path, host);
    }
  }

  /** A member that stays: its key as it is, its value by its own script. */
  lemma {:induction false} MemberScript(was: Node, now: Node, i: nat, j: nat, r: Report, s: Option<Body>, path: Path, host: Host, accepted: set<Path>)
    returns (ms: seq<Mark>)
    requires was.Container? && was.isObject && i < |was.entries| && now.Container? && now.isObject && j < |now.entries|
    requires MemberStays(was.entries[i], now.entries[j], r, s, path, host, accepted)
    ensures Turns(ms, EntryTokens(was.entries[i]), EntryTokens(now.entries[j]), was, now, path, Listed(r), host)
    decreases was, 0, 0
  {
    var e, f, key := was.entries[i], now.entries[j], NodeKey(was.entries[i], host);
    assert NodeKey(f, host) == key;
    hide Turns, Upgraded, TokensOf, KeyTokens, ChildSchema, NodeKey, Listed;
    var child := EditScript(e.node, f.node, ChildSchema(s, key), path + [key], r, host, accepted);
    TurnsLifts(child, TokensOf(e.node), TokensOf(f.node), Listed(r), was, i, now, j, key, path, host);
    var first := TurnsSame(KeyTokens(e.key), was, now, path, host);
    ms := first + child;
    SumZero(Listed(r));
    TurnsConcat(first, KeyTokens(e.key), KeyTokens(e.key), ZERO, child, TokensOf(e.node), TokensOf(f.node), Listed(r), was, now, path, host);
  }

  /** Each new member is for the path listed beside it. */
  ghost predicate AllNew(now: seq<Entry>, added: seq<Path>, was: seq<Entry>, path: Path, host: Host) {
    |added| == |now| && forall i :: 0 <= i < |now| ==> IsNew(now[i], added[i], was, path, host)
  }

  ghost predicate IsNew(e: Entry, at: Path, was: seq<Entry>, path: Path, host: Host) {
    exists p: Property :: at == path + [p.name] && e.key == Some(host.quote(p.name)) && Lacks(was, p.name, host)
  }

  lemma FillIsNew(p: Property, was: seq<Entry>, s: Option<Body>, path: Path, host: Host, accepted: set<Path>)
    ensures var fill := FillOf(p, was, s, path, host, accepted);
            fill.report.removed == [] && fill.report.conversions == [] &&
            if fill.member.None? then fill.report.added == []
            else fill.report.added == [path + [p.name]] && IsNew(fill.member.value, path + [p.name], was, path, host)
  {
    InitialReports(p.schema, path + [p.name], host);
    InitialStarts(p.schema, path + [p.name], host);
    hide Lacks, Initial, CanStart, SourceOf, Fits, IsFilledString, NodeKey, StartsAs;
  }

  lemma {:induction false} FillsAreNew(ps: seq<Property>, was: seq<Entry>, s: Option<Body>, path: Path, host: Host, accepted: set<Path>)
    ensures var fills := Fills(ps, was, s, path, host, accepted);
            AllNew(fills.0, fills.1.added, was, path, host) && fills.1.conversions == []
    decreases |ps|
  {
    hide FillOf, IsNew;
    if ps != [] {
      var init, p := ps[..|ps| - 1], ps[|ps| - 1];
      FillsAreNew(init, was, s, path, host, accepted);
      FillIsNew(p, was, s, path, host, accepted);
    }
  }

  /** The `n` members put in after the first `k`. */
  lemma {:induction false} NewScript(was: Node, now: Node, k: nat, n: nat, added: seq<Path>, path: Path, host: Host)
    returns (ms: seq<Mark>, b: seq<Lexeme>)
    requires was.Container? && now.Container? && now.isObject && k + n <= |now.entries|
    requires AllNew(now.entries[k..], added, was.entries, path, host)
    ensures n <= |added| && Turns(ms, [], b, was, now, path, Addings(added[..n]), host)
    ensures EntriesTokens(now.entries[..k]) + b == EntriesTokens(now.entries[..k + n])
    decreases n
  {
    hide Turns, EntriesTokens, EntryTokens, IsNew, CommaIf, Addings, Sum;
    var fs := now.entries;
    if n == 0 {
      ms, b := [], [];
      TurnsNone(was, now, path, host);
      Unit(EntriesTokens(fs[..k]));
      AdditionsNone(added);
    } else {
      var at := k + n - 1;
      var first, b' := NewScript(was, now, k, n - 1, added, path, host);
      assert fs[k..][n - 1] == fs[at];
      var m := PutScript(was, now, at, added[n - 1], path, host);
      ms := first + [m];
      var tail := CommaIf(at > 0) + EntryTokens(fs[at]);
      b := b' + tail;
      Unit<Lexeme>([]);
      TurnsConcat(first, [], b', Addings(added[..n - 1]), [m], [], tail, Addings([added[n - 1]]), was, now, path, host);
      AdditionsNext(added, n - 1);
      TokensSnoc(fs, at);
      Assoc(EntriesTokens(fs[..k]), b', tail);
      Assoc(EntriesTokens(fs[..at]), CommaIf(at > 0), EntryTokens(fs[at]));
    }
  }

  lemma AdditionsNone(added: seq<Path>)
    ensures Addings(added[..0]) == ZERO
  {
  }

  lemma AdditionsNext(added: seq<Path>, n: nat)
    requires n < |added|
    ensures Addings(added[..n + 1]) == Sum(Addings(added[..n]), Addings([added[n]]))
  {
    assert added[..n + 1] == added[..n] + [added[n]];
  }

  lemma PutScript(was: Node, now: Node, i: nat, at: Path, path: Path, host: Host) returns (m: Mark)
    requires was.Container? && now.Container? && now.isObject && i < |now.entries|
    requires IsNew(now.entries[i], at, was.entries, path, host)
    ensures Turns([m], [], CommaIf(i > 0) + EntryTokens(now.entries[i]), was, now, path, Addings([at]), host)
  {
    hide Turns, HasMember, EntryTokens, CommaIf, Lacks;
    var f := now.entries[i];
    var p: Property :| at == path + [p.name] && f.key == Some(host.quote(p.name)) && Lacks(was.entries, p.name, host);
    OwnMember(now, i, path, p.name, host);
    m := Put(f, at, i > 0);
    Snoc(path, p.name);
    TurnsOne(m, was, now, path, host);
    assert multiset([at]) == multiset{at};
  }

  // ---- items -------------------------------------------------------------------------------------------------------------------

  lemma {:induction false} ItemsScript(was: Node, now: Node, i: nat, rs: seq<Report>, s: Option<Body>, path: Path, r: Report, host: Host, accepted: set<Path>)
    returns (ms: seq<Mark>)
    requires was.Container? && !was.isObject && now.Container? && !now.isObject && i <= |was.entries|
    requires ItemsUpgraded(was.entries, now.entries, rs, s, path, r, host, accepted)
    ensures Turns(ms, EntriesTokens(was.entries[..i]), EntriesTokens(now.entries[..i]), was, now, path, Listed(BothAll(rs[..i])), host)
    decreases was, 0, i
  {
    hide Turns, EntriesTokens, EntryTokens, ItemsUpgraded, Listed, BothAll, Both, Sum;
    ItemsSize(was.entries, now.entries, rs, s, path, r, host, accepted);
    if i == 0 {
      NoTokens(was.entries);
      NoTokens(now.entries);
      assert rs[..0] == [];
      StayTallyNothing();
      ms := [];
      TurnsNone(was, now, path, host);
    } else {
      var first := ItemsScript(was, now, i - 1, rs, s, path, r, host, accepted);
      ItemIsUpgraded(was.entries, now.entries, i - 1, rs, s, path, r, host, accepted);
      var last := ItemScript(was, now, i - 1, rs[i - 1], s, path, host, accepted);
      ms := ItemLast(was, now, i - 1, rs, first, last, path, host);
    }
  }

  lemma ItemsSize(was: seq<Entry>, now: seq<Entry>, rs: seq<Report>, s: Option<Body>, path: Path, r: Report, host: Host, accepted: set<Path>)
    requires ItemsUpgraded(was, now, rs, s, path, r, host, accepted)
    ensures |now| == |was| == |rs| && r == BothAll(rs)
  {
    hide ItemUpgraded, BothAll;
  }

  lemma ItemIsUpgraded(was: seq<Entry>, now: seq<Entry>, i: nat, rs: seq<Report>, s: Option<Body>, path: Path, r: Report, host: Host, accepted: set<Path>)
    requires ItemsUpgraded(was, now, rs, s, path, r, host, accepted) && i < |was|
    ensures |now| == |was| == |rs| && ItemUpgraded(was[i], now[i], i, rs[i], s, path, host, accepted)
  {
    hide ItemUpgraded, BothAll;
  }

  lemma ItemLast(was: Node, now: Node, k: nat, rs: seq<Report>, first: seq<Mark>, last: seq<Mark>, path: Path, host: Host) returns (ms: seq<Mark>)
    requires was.Container? && now.Container? && k < |was.entries| && k < |now.entries| && k < |rs|
    requires Turns(first, EntriesTokens(was.entries[..k]), EntriesTokens(now.entries[..k]), was, now, path, Listed(BothAll(rs[..k])), host)
    requires Turns(last, EntryTokens(was.entries[k]), EntryTokens(now.entries[k]), was, now, path, Listed(rs[k]), host)
    ensures Turns(ms, EntriesTokens(was.entries[..k + 1]), EntriesTokens(now.entries[..k + 1]), was, now, path, Listed(BothAll(rs[..k + 1])), host)
  {
    hide Turns, EntriesTokens, EntryTokens, Listed, BothAll, Both, Sum, CommaIf;
    var es, fs, t := was.entries, now.entries, Listed(BothAll(rs[..k]));
    var comma := TurnsSame(CommaIf(k > 0), was, now, path, host);
    TurnsConcat(first, EntriesTokens(es[..k]), EntriesTokens(fs[..k]), t, comma, CommaIf(k > 0), CommaIf(k > 0), ZERO, was, now, path, host);
    SumZero(t);
    ms := first + comma + last;
    TurnsConcat(first + comma, EntriesTokens(es[..k]) + CommaIf(k > 0), EntriesTokens(fs[..k]) + CommaIf(k > 0), t,
                last, EntryTokens(es[k]), EntryTokens(fs[k]), Listed(rs[k]), was, now, path, host);
    TokensSnoc(es, k);
    TokensSnoc(fs, k);
    assert rs[..k + 1] == rs[..k] + [rs[k]];
    BothAllSnoc(rs[..k], rs[k]);
    ListedBoth(BothAll(rs[..k]), rs[k]);
  }

  lemma StayTallyNothing()
    ensures Listed(BothAll([])) == ZERO
  {
  }

  lemma {:induction false} ItemScript(was: Node, now: Node, i: nat, r: Report, s: Option<Body>, path: Path,
                                      host: Host, accepted: set<Path>) returns (ms: seq<Mark>)
    requires was.Container? && !was.isObject && i < |was.entries| && now.Container? && !now.isObject && i < |now.entries|
    requires ItemUpgraded(was.entries[i], now.entries[i], i, r, s, path, host, accepted)
    ensures Turns(ms, EntryTokens(was.entries[i]), EntryTokens(now.entries[i]), was, now, path, Listed(r), host)
    decreases was, 0, 0
  {
    var e, f := was.entries[i], now.entries[i];
    hide Turns, Upgraded, TokensOf, KeyTokens, ItemSchema, IndexText, Listed;
    var child := EditScript(e.node, f.node, ItemSchema(s, i), path + [IndexText(i)], r, host, accepted);
    TurnsLifts(child, TokensOf(e.node), TokensOf(f.node), Listed(r), was, i, now, i, IndexText(i), path, host);
    var first := TurnsSame(KeyTokens(e.key), was, now, path, host);
    ms := first + child;
    SumZero(Listed(r));
    TurnsConcat(first, KeyTokens(e.key), KeyTokens(e.key), ZERO, child, TokensOf(e.node), TokensOf(f.node), Listed(r), was, now, path, host);
  }

  // ---- the whole value --------------------------------------------------------------------------------------------------------------

  lemma ScalarScript(was: Node, now: Node, raw: Schema, path: Path, r: Report, host: Host, accepted: set<Path>) returns (ms: seq<Mark>)
    requires was.Scalar? && Upgraded(was, now, raw, path, r, host, accepted)
    ensures Turns(ms, TokensOf(was), TokensOf(now), was, now, path, Listed(r), host)
  {
    var name := if was.kind == Num then EnumName(Normalized(raw), was.text) else None;
    var m := if name.None? then Same(Lexeme(was.kind, was.text)) else Swap(Lexeme(was.kind, was.text), name.value, path);
    assert Placed(m, was, now, path, host);
    assert TallyOf(m) == Listed(r);
    TurnsOne(m, was, now, path, host);
    ms := [m];
    hide Turns;
  }

  lemma WrapScript(inner: seq<Mark>, t: Tally, was: Node, now: Node, path: Path, host: Host) returns (ms: seq<Mark>)
    requires was.Container? && now.Container? && was.isObject == now.isObject
    requires Turns(inner, EntriesTokens(was.entries), EntriesTokens(now.entries), was, now, path, t, host)
    ensures Turns(ms, TokensOf(was), TokensOf(now), was, now, path, t, host)
  {
    hide Turns, EntriesTokens, Sum;
    var o, x := P(OpenChar(was.isObject)), P(CloseChar(was.isObject));
    TurnsOne(Same(o), was, now, path, host);
    TurnsOne(Same(x), was, now, path, host);
    SumZero(t);
    TurnsConcat([Same(o)], [o], [o], ZERO, inner, EntriesTokens(was.entries), EntriesTokens(now.entries), t, was, now, path, host);
    ms := [Same(o)] + inner + [Same(x)];
    TurnsConcat([Same(o)] + inner, [o] + EntriesTokens(was.entries), [o] + EntriesTokens(now.entries), t, [Same(x)], [x], [x], ZERO,
                was, now, path, host);
  }

  /** Trees related by an upgrade have tokens related by a script of placed edits, one for each that is reported. */
  lemma {:induction false} EditScript(was: Node, now: Node, raw: Schema, path: Path, r: Report, host: Host, accepted: set<Path>) returns (ms: seq<Mark>)
    requires Upgraded(was, now, raw, path, r, host, accepted)
    ensures Turns(ms, TokensOf(was), TokensOf(now), was, now, path, Listed(r), host)
    decreases was, 1
  {
    if was.Scalar? {
      hide Turns, Upgraded, TokensOf, Listed;
      ms := ScalarScript(was, now, raw, path, r, host, accepted);
    } else {
      var s := Normalized(raw);
      if was.isObject {
        var k: nat, rs, own :| MembersUpgraded(was.entries, now.entries, k, rs, own, s, path, r, host, accepted);
        hide Turns, Upgraded, TokensOf, Normalized, MembersUpgraded, Listed;
        ms := ObjectScript(was, now, k, rs, own, s, path, r, host, accepted);
      } else {
        var rs :| ItemsUpgraded(was.entries, now.entries, rs, s, path, r, host, accepted);
        hide Turns, Upgraded, TokensOf, EntriesTokens, Normalized, ItemsUpgraded, Listed, BothAll;
        ItemsSize(was.entries, now.entries, rs, s, path, r, host, accepted);
        assert was.entries[..|was.entries|] == was.entries && now.entries[..|was.entries|] == now.entries && rs[..|was.entries|] == rs;
        var inner := ItemsScript(was, now, |was.entries|, rs, s, path, r, host, accepted);
        ms := WrapScript(inner, Listed(r), was, now, path, host);
      }
    }
  }

  lemma {:induction false} ObjectScript(was: Node, now: Node, k: nat, rs: seq<Report>, own: Report, s: Option<Body>, path: Path, r: Report,
                                        host: Host, accepted: set<Path>)
    returns (ms: seq<Mark>)
    requires was.Container? && was.isObject && now.Container? && now.isObject
    requires MembersUpgraded(was.entries, now.entries, k, rs, own, s, path, r, host, accepted)
    ensures Turns(ms, TokensOf(was), TokensOf(now), was, now, path, Listed(r), host)
    decreases was, 0, |was.entries| + 1
  {
    hide Turns, TokensOf, EntriesTokens, Stay, Fills, AllNew, PropertiesOf, StayTally, Addings, BothAll, Both, Listed, MembersUpgraded, Sum;
    var es, fs := was.entries, now.entries;
    MembersParts(es, fs, k, rs, own, s, path, r, host, accepted);
    Whole(es);
    Whole(fs);
    var stay := StayScript(was, now, |es|, k, rs, own.removed, own, s, path, host, accepted);
    var more, b := NewMembers(was, now, k, own, s, path, host, accepted);
    Unit(EntriesTokens(es));
    TurnsConcat(stay, EntriesTokens(es), EntriesTokens(fs[..k]), StayTally(rs, own.removed), more, [], b, Addings(own.added), was, now, path, host);
    OwnTally(rs, own);
    ms := WrapScript(stay + more, Listed(r), was, now, path, host);
  }

  lemma Whole<T>(xs: seq<T>)
    ensures xs[..|xs|] == xs
  {
  }

  lemma MembersParts(was: seq<Entry>, now: seq<Entry>, k: nat, rs: seq<Report>, own: Report, s: Option<Body>, path: Path, r: Report,
                     host: Host, accepted: set<Path>)
    requires MembersUpgraded(was, now, k, rs, own, s, path, r, host, accepted)
    ensures k <= |now| && |rs| == |was| && r == Both(BothAll(rs), own) && Stay(was, now[..k], rs, own.removed, own, s, path, host, accepted) &&
            (now[k..], own.(removed := [])) == Fills(PropertiesOf(s), was, s, path, host, accepted)
  {
    hide Stay, Fills, Both, BothAll, PropertiesOf;
  }

  /** All members put in. */
  lemma NewMembers(was: Node, now: Node, k: nat, own: Report, s: Option<Body>, path: Path, host: Host, accepted: set<Path>)
    returns (ms: seq<Mark>, b: seq<Lexeme>)
    requires was.Container? && now.Container? && now.isObject && k <= |now.entries|
    requires (now.entries[k..], own.(removed := [])) == Fills(PropertiesOf(s), was.entries, s, path, host, accepted)
    ensures Turns(ms, [], b, was, now, path, Addings(own.added), host) && own.conversions == []
    ensures EntriesTokens(now.entries[..k]) + b == EntriesTokens(now.entries)
  {
    hide Turns, EntriesTokens, Fills, AllNew, PropertiesOf, Addings;
    var fs := now.entries;
    FillsAreNew(PropertiesOf(s), was.entries, s, path, host, accepted);
    NewSize(fs[k..], own.added, was.entries, path, host);
    Whole(fs);
    Whole(own.added);
    ms, b := NewScript(was, now, k, |fs| - k, own.added, path, host);
  }

  lemma NewSize(now: seq<Entry>, added: seq<Path>, was: seq<Entry>, path: Path, host: Host)
    requires AllNew(now, added, was, path, host)
    ensures |added| == |now|
  {
    hide IsNew;
  }

  lemma OwnTally(rs: seq<Report>, own: Report)
    requires own.conversions == []
    ensures Sum(StayTally(rs, own.removed), Addings(own.added)) == Listed(Both(BothAll(rs), own))
  {
    ListedBoth(BothAll(rs), own);
    hide Both, BothAll;
  }

  // ---- the prepared value -----------------------------------------------------------------------------------------------------------

  /**
    The prepared text is JSON, its tree is the stored one upgraded exactly as reported, its
    tokens come from the stored ones by a script with each reported edit once, and without an
    edit it is the stored text itself.
  */
  ghost predicate Faithful(value: string, prepared: string, report: Report, raw: Schema, host: Host, accepted: set<Path>) {
    Derivable(prepared) && (exists was, now :: TreesUpgraded(was, now, value, prepared, report, raw, host, accepted)) &&
    (!Edited(report) ==> prepared == value)
  }

  ghost predicate TreesUpgraded(was: Node, now: Node, value: string, prepared: string, report: Report, raw: Schema, host: Host, accepted: set<Path>) {
    WfNode(was) && WfNode(now) && Solids(value) == TokensOf(was) && Solids(prepared) == TokensOf(now) &&
    Upgraded(was, now, raw, [], report, host, accepted) && AllShown(report, now, [], host) &&
    exists ms :: Turns(ms, Solids(value), Solids(prepared), was, now, [], Listed(report), host)
  }

  lemma PreparedText(c: Cst, before: string, after: string, value: string, raw: Schema, host: Host, accepted: set<Path>)
    requires Derives(c, before, after, value)
    ensures WfCst(c)
    ensures var out := Walk(c, raw, [], host, accepted);
            Prepared(c, before, after, raw, host, accepted) == if Edited(out.report) then Unparse(out.cst) else value
  {
    hide Walk, WfCst, Unparse, Edited;
  }

  /** The prepared text has the tokens of the prepared tree, also when it is the stored text. */
  lemma PreparedTokens(c: Cst, before: string, after: string, value: string, raw: Schema, host: Host, accepted: set<Path>)
    requires Derives(c, before, after, value) && WfSchema(raw) && HostOk(host)
    ensures var prepared := Prepared(c, before, after, raw, host, accepted);
            Derivable(prepared) && Solids(prepared) == TokensOf(Erase(Walk(c, raw, [], host, accepted).cst))
  {
    hide Walk, Prepared, WfSchema, HostOk, WfCst, Unparse, Erase, TokensOf, Solids, Edited, Derives;
    var out := Walk(c, raw, [], host, accepted);
    PreparedText(c, before, after, value, raw, host, accepted);
    WalkWellFormed(c, raw, [], host, accepted);
    if Edited(out.report) {
      PlainDerives(out.cst);
      SolidsDerives(out.cst, "", "", Unparse(out.cst));
    } else {
      SolidsDerives(c, before, after, value);
      NoEditsNoChange(c, raw, [], host, accepted);
      TrimWf(c);
      SameTextSameTree(out.cst, Trim(c));
      EraseTrim(c);
    }
  }

  lemma PreparedIsFaithful(c: Cst, before: string, after: string, value: string, raw: Schema, host: Host, accepted: set<Path>)
    requires Derives(c, before, after, value) && WfSchema(raw) && HostOk(host)
    ensures Faithful(value, Prepared(c, before, after, raw, host, accepted), Walk(c, raw, [], host, accepted).report, raw, host, accepted)
  {
    hide Walk, Prepared, Turns, Upgraded, WfSchema, HostOk, WfCst, WfNode, Unparse, Erase, TokensOf, Solids, Edited, Derives, Derivable, Listed, AllShown;
    var out := Walk(c, raw, [], host, accepted);
    PreparedText(c, before, after, value, raw, host, accepted);
    PreparedTokens(c, before, after, value, raw, host, accepted);
    WalkWellFormed(c, raw, [], host, accepted);
    WalkUpgrades(c, raw, [], host, accepted);
    UpgradedShows(Erase(c), Erase(out.cst), raw, [], out.report, host, accepted);
    EraseWf(c);
    EraseWf(out.cst);
    SolidsDerives(c, before, after, value);
    var ms := EditScript(Erase(c), Erase(out.cst), raw, [], out.report, host, accepted);
    assert TreesUpgraded(Erase(c), Erase(out.cst), value, Prepared(c, before, after, raw, host, accepted), out.report, raw, host, accepted);
  }
}

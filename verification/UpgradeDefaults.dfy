/**
  The exact spelling of every default in a schema document, so that numbers the host language
  would round are copied and not reprinted.

  One walk over the tokens runs beside the parsed document, whose nodes are named by the route
  to them; an object holds, for each decoded key, the last member with that key.  A member that
  a later one hides is walked too, and notes its defaults at whatever object the later one has
  there.  `NotedIff` says exactly which objects end up with a note; where the object has a
  default of its own the note is its exact text (`CollectsExactDefaults`), and where it has none
  (`StrayNote`) the note is never read, because a note is only looked up for a schema that has
  a default: `ReadsExactly` and `ReadsNullable` say that what is read is right everywhere.
*/
module UpgradeDefaults {
  import opened Seqs
  import opened JsonLex
  import opened JsonSyntax
  import opened JsonSpans
  import opened JsonTokenizer
  import JsonText
  import opened Upgrade
  import opened UpgradePlaces

  datatype Step = Named(name: string) | Item(position: nat)

  type Route = seq<Step>

  const DEFAULT := "default"

  // ---- the parsed document --------------------------------------------------------------------------------------

  /** The member an object holds under a key. */
  function LastMember(es: seq<CEntry>, key: string, host: Host): (r: Option<nat>)
    ensures r.Some? ==> r.value < |es| && KeyOf(es[r.value], host) == key
    ensures forall j :: (if r.Some? then r.value + 1 else 0) <= j < |es| ==> KeyOf(es[j], host) != key
  {
    if es == [] then None
    else if KeyOf(es[|es| - 1], host) == key then Some(|es| - 1)
    else LastMember(es[..|es| - 1], key, host)
  }

  function ChildIndex(c: Cst, step: Step, host: Host): (r: Option<nat>)
    ensures r.Some? ==> c.CContainer? && r.value < |c.entries|
  {
    if c.CScalar? then None
    else if c.isObject then if step.Named? then LastMember(c.entries, step.name, host) else None
    else if step.Item? && step.position < |c.entries| then Some(step.position)
    else None
  }

  /** The node a route leads to. */
  function At(root: Cst, route: Route, host: Host): Option<Cst> {
    if route == [] then Some(root)
    else
      var parent := At(root, route[..|route| - 1], host);
      if parent.None? then None
      else
        var i := ChildIndex(parent.value, route[|route| - 1], host);
        if i.None? then None else Some(parent.value.entries[i.value].value)
  }

  predicate IsObjectAt(root: Cst, route: Route, host: Host) {
    var o := At(root, route, host);
    o.Some? && o.value.CContainer? && o.value.isObject
  }

  // ---- what the walk notes -------------------------------------------------------------------------------------------

  type Notes = map<Route, string>

  function StepOf(isObject: bool, es: seq<CEntry>, i: nat, host: Host): Step
    requires i < |es|
  {
    if isObject then Named(KeyOf(es[i], host)) else Item(i)
  }

  /** The notes after walking the text of `c` beside the node at `route`. */
  function Gather(c: Cst, route: Route, root: Cst, host: Host, notes: Notes): Notes
    decreases c, 1
  {
    if c.CScalar? then notes else GatherEntries(c.isObject, c.entries, route, root, host, notes)
  }

  function GatherEntries(isObject: bool, es: seq<CEntry>, route: Route, root: Cst, host: Host, notes: Notes): Notes
    decreases es, 0
  {
    if es == [] then notes
    else
      var k := |es| - 1;
      NoteEntry(isObject, es[k], StepOf(isObject, es, k, host), route, root, host, GatherEntries(isObject, es[..k], route, root, host, notes))
  }

  function NoteEntry(isObject: bool, e: CEntry, step: Step, route: Route, root: Cst, host: Host, notes: Notes): Notes
    decreases e, 0
  {
    var below := Gather(e.value, route + [step], root, host, notes);
    if isObject && step == Named(DEFAULT) && IsObjectAt(root, route, host) then below[route := Upgrade.Text(e.value)] else below
  }

  // ---- what a walk leaves alone -----------------------------------------------------------------------------------------

  ghost predicate SameAt(a: Notes, b: Notes, q: Route) {
    (q in a <==> q in b) && (q in a ==> a[q] == b[q])
  }

  /** Entry `i` may note something at `q`. */
  ghost predicate Touches(isObject: bool, step: Step, route: Route, q: Route) {
    route + [step] <= q || (q == route && isObject && step == Named(DEFAULT))
  }

  lemma {:induction false} GatherStays(c: Cst, route: Route, root: Cst, host: Host, notes: Notes, q: Route)
    requires !(route <= q)
    ensures SameAt(Gather(c, route, root, host, notes), notes, q)
    decreases c, 1
  {
    if c.CContainer? {
      hide GatherEntries;
      EntriesStay(c.isObject, c.entries, route, root, host, notes, q);
    }
  }

  lemma {:induction false} EntriesStay(isObject: bool, es: seq<CEntry>, route: Route, root: Cst, host: Host, notes: Notes, q: Route)
    requires !(route <= q)
    ensures SameAt(GatherEntries(isObject, es, route, root, host, notes), notes, q)
    decreases es, 0
  {
    if es != [] {
      hide NoteEntry, StepOf;
      var k := |es| - 1;
      EntriesStay(isObject, es[..k], route, root, host, notes, q);
      NotBelow(route, StepOf(isObject, es, k, host), q);
      EntryStays(isObject, es[k], StepOf(isObject, es, k, host), route, root, host, GatherEntries(isObject, es[..k], route, root, host, notes), q);
    }
  }

  lemma NotBelow(route: Route, step: Step, q: Route)
    requires !(route <= q)
    ensures !(route + [step] <= q)
  {
  }

  lemma {:induction false} EntryStays(isObject: bool, e: CEntry, step: Step, route: Route, root: Cst, host: Host, notes: Notes, q: Route)
    requires !Touches(isObject, step, route, q)
    ensures SameAt(NoteEntry(isObject, e, step, route, root, host, notes), notes, q)
    decreases e, 0
  {
    hide Gather, IsObjectAt;
    GatherStays(e.value, route + [step], root, host, notes, q);
  }

  /** Entries after entry `i` that do not touch `q` leave what is noted there. */
  lemma {:induction false} LaterStay(isObject: bool, es: seq<CEntry>, i: nat, n: nat, route: Route, root: Cst, host: Host, notes: Notes, q: Route)
    requires i <= n <= |es|
    requires forall j :: i <= j < n ==> !Touches(isObject, StepOf(isObject, es, j, host), route, q)
    ensures SameAt(GatherEntries(isObject, es[..n], route, root, host, notes), GatherEntries(isObject, es[..i], route, root, host, notes), q)
    decreases n
  {
    hide NoteEntry, StepOf, Touches;
    if i < n {
      LaterStay(isObject, es, i, n - 1, route, root, host, notes, q);
      EntriesStep(isObject, es, n - 1, route, root, host, notes);
      var step := StepOf(isObject, es, n - 1, host);
      EntryStays(isObject, es[n - 1], step, route, root, host, GatherEntries(isObject, es[..n - 1], route, root, host, notes), q);
      hide GatherEntries;
    }
  }

  lemma EntriesStep(isObject: bool, es: seq<CEntry>, i: nat, route: Route, root: Cst, host: Host, notes: Notes)
    requires i < |es|
    ensures GatherEntries(isObject, es[..i + 1], route, root, host, notes) ==
            NoteEntry(isObject, es[i], StepOf(isObject, es, i, host), route, root, host,
                      GatherEntries(isObject, es[..i], route, root, host, notes))
  {
    hide NoteEntry;
    assert es[..i + 1][..i] == es[..i];
  }

  // ---- what a walk finds ---------------------------------------------------------------------------------------------------

  /** The default an object holds, as it is spelled. */
  function DefaultText(o: Cst, host: Host): Option<string> {
    if o.CScalar? || !o.isObject || LastMember(o.entries, DEFAULT, host).None? then None
    else Some(Upgrade.Text(o.entries[LastMember(o.entries, DEFAULT, host).value].value))
  }

  /** Walked beside its own node, a text leaves the right note at every object below. */
  lemma {:induction false} GatherFinds(c: Cst, route: Route, root: Cst, host: Host, notes: Notes, q: Route)
    requires At(root, route, host) == Some(c) && route <= q
    requires At(root, q, host).Some? && DefaultText(At(root, q, host).value, host).Some?
    ensures var now := Gather(c, route, root, host, notes);
            q in now && now[q] == DefaultText(At(root, q, host).value, host).value
    decreases c
  {
    hide At, GatherEntries, NoteEntry, LastMember, StepOf, DefaultText, ChildIndex, Upgrade.Text;
    if q == route {
      OwnDefault(c, route, root, host, notes);
    } else {
      var step := q[|route|];
      assert q[..|route| + 1] == route + [step];
      PrefixLeads(root, q, |route| + 1, host);
      ChildLeads(root, route, step, host);
      var i := ChildIndex(c, step, host).value;
      var e := c.entries[i];
      var was := GatherEntries(c.isObject, c.entries[..i], route, root, host, notes);
      GatherFinds(e.value, route + [step], root, host, was, q);
      ChildStep(c, step, host);
      BelowStays(c.isObject, e, step, route, root, host, was, q);
      EntriesStep(c.isObject, c.entries, i, route, root, host, notes);
      LaterStepsMiss(c, step, route, q, host);
      LaterStay(c.isObject, c.entries, i + 1, |c.entries|, route, root, host, notes, q);
      assert c.entries[..|c.entries|] == c.entries;
    }
  }

  lemma OwnDefault(c: Cst, route: Route, root: Cst, host: Host, notes: Notes)
    requires At(root, route, host) == Some(c) && DefaultText(c, host).Some?
    ensures var now := Gather(c, route, root, host, notes);
            route in now && now[route] == DefaultText(c, host).value
  {
    var i := LastMember(c.entries, DEFAULT, host).value;
    var es := c.entries;
    assert IsObjectAt(root, route, host);
    hide At, IsObjectAt, GatherEntries, LastMember, KeyOf, Upgrade.Text;
    EntriesStep(true, es, i, route, root, host, notes);
    hide Gather;
    forall j | i + 1 <= j < |es|
      ensures !Touches(true, StepOf(true, es, j, host), route, route)
    {
      assert KeyOf(es[j], host) != DEFAULT;
    }
    LaterStay(true, es, i + 1, |es|, route, root, host, notes, route);
    assert es[..|es|] == es;
    assert Gather(c, route, root, host, notes) == GatherEntries(true, es, route, root, host, notes) by { GatherObject(c, route, root, host, notes); }
  }

  lemma GatherObject(c: Cst, route: Route, root: Cst, host: Host, notes: Notes)
    requires c.CContainer?
    ensures Gather(c, route, root, host, notes) == GatherEntries(c.isObject, c.entries, route, root, host, notes)
  {
  }

  lemma {:induction false} PrefixLeads(root: Cst, q: Route, n: nat, host: Host)
    requires n <= |q| && At(root, q, host).Some?
    ensures At(root, q[..n], host).Some?
    decreases |q|
  {
    if n < |q| {
      assert q[..|q| - 1][..n] == q[..n];
      PrefixLeads(root, q[..|q| - 1], n, host);
    } else {
      assert q[..n] == q;
    }
  }

  lemma ChildLeads(root: Cst, route: Route, step: Step, host: Host)
    requires At(root, route, host).Some? && At(root, route + [step], host).Some?
    ensures var c := At(root, route, host).value;
            ChildIndex(c, step, host).Some? && At(root, route + [step], host).value == c.entries[ChildIndex(c, step, host).value].value
  {
    hide ChildIndex;
    Snoc(route, step);
  }

  lemma ChildStep(c: Cst, step: Step, host: Host)
    requires ChildIndex(c, step, host).Some?
    ensures StepOf(c.isObject, c.entries, ChildIndex(c, step, host).value, host) == step
  {
  }

  lemma BelowStays(isObject: bool, e: CEntry, step: Step, route: Route, root: Cst, host: Host, notes: Notes, q: Route)
    requires q != route
    ensures SameAt(NoteEntry(isObject, e, step, route, root, host, notes), Gather(e.value, route + [step], root, host, notes), q)
  {
    hide Gather, IsObjectAt;
  }

  lemma LaterStepsMiss(c: Cst, step: Step, route: Route, q: Route, host: Host)
    requires ChildIndex(c, step, host).Some? && route + [step] <= q
    ensures forall j :: ChildIndex(c, step, host).value + 1 <= j < |c.entries| ==> !Touches(c.isObject, StepOf(c.isObject, c.entries, j, host), route, q)
  {
    hide KeyOf;
    forall j | ChildIndex(c, step, host).value + 1 <= j < |c.entries|
      ensures !Touches(c.isObject, StepOf(c.isObject, c.entries, j, host), route, q)
    {
      var other := StepOf(c.isObject, c.entries, j, host);
      assert other != step;
      assert q[|route|] == step;
      assert (route + [other])[|route|] == other;
    }
  }

  /** Every default of the parsed schema is noted with the very text of the member the parser keeps. */
  lemma CollectsExactDefaults(root: Cst, host: Host, q: Route)
    requires At(root, q, host).Some? && DefaultText(At(root, q, host).value, host).Some?
    ensures var notes := Gather(root, [], root, host, map[]);
            q in notes && notes[q] == DefaultText(At(root, q, host).value, host).value
  {
    hide Gather, DefaultText;
    GatherFinds(root, [], root, host, map[], q);
  }

  // ---- which notes stand ------------------------------------------------------------------------------------------------------

  /** Walked beside the node at `route`, the text has a default member beside the node at `q`. */
  ghost predicate Mentions(c: Cst, route: Route, q: Route, host: Host)
    decreases c, 1
  {
    c.CContainer? && exists i :: 0 <= i < |c.entries| && MentionsIn(c.isObject, c.entries[i], StepOf(c.isObject, c.entries, i, host), route, q, host)
  }

  ghost predicate MentionsIn(isObject: bool, e: CEntry, step: Step, route: Route, q: Route, host: Host)
    decreases e, 0
  {
    (isObject && step == Named(DEFAULT) && q == route) || Mentions(e.value, route + [step], q, host)
  }

  /** A note stands exactly at the objects beside which some default member was walked, hidden or not. */
  lemma {:induction false} NotedIff(c: Cst, route: Route, root: Cst, host: Host, notes: Notes, q: Route)
    ensures q in Gather(c, route, root, host, notes) <==> q in notes || (IsObjectAt(root, q, host) && Mentions(c, route, q, host))
    decreases c, 1
  {
    if c.CContainer? {
      var es := c.entries;
      assert es[..|es|] == es;
      hide GatherEntries, IsObjectAt, MentionsIn, StepOf;
      EntriesNoted(c, |es|, route, root, host, notes, q);
    }
  }

  lemma {:induction false} EntriesNoted(c: Cst, n: nat, route: Route, root: Cst, host: Host, notes: Notes, q: Route)
    requires c.CContainer? && n <= |c.entries|
    ensures q in GatherEntries(c.isObject, c.entries[..n], route, root, host, notes) <==>
            q in notes ||
            (IsObjectAt(root, q, host) &&
             exists i :: 0 <= i < n && MentionsIn(c.isObject, c.entries[i], StepOf(c.isObject, c.entries, i, host), route, q, host))
    decreases c, 0, n
  {
    hide IsObjectAt, MentionsIn, StepOf, NoteEntry;
    if n > 0 {
      var k := n - 1;
      EntriesNoted(c, k, route, root, host, notes, q);
      EntriesStep(c.isObject, c.entries, k, route, root, host, notes);
      EntryNoted(c.isObject, c.entries[k], StepOf(c.isObject, c.entries, k, host), route, root, host,
                 GatherEntries(c.isObject, c.entries[..k], route, root, host, notes), q);
      hide GatherEntries;
    }
  }

  lemma {:induction false} EntryNoted(isObject: bool, e: CEntry, step: Step, route: Route, root: Cst, host: Host, notes: Notes, q: Route)
    ensures q in NoteEntry(isObject, e, step, route, root, host, notes) <==>
            q in notes || (IsObjectAt(root, q, host) && MentionsIn(isObject, e, step, route, q, host))
    decreases e, 0
  {
    hide Gather, IsObjectAt, Mentions;
    NotedIff(e.value, route + [step], root, host, notes, q);
  }

  /** In {"a":{"default":1},"a":{}} the hidden default leaves a note at an object without a default. */
  lemma StrayNote(host: Host)
    requires host.unquote("\"a\"") == "a" && host.unquote("\"default\"") == DEFAULT
    ensures var one := BareEntry(Some("\"default\""), CScalar(Num, "1"));
            var root := BareContainer(true, [BareEntry(Some("\"a\""), BareContainer(true, [one])), BareEntry(Some("\"a\""), BareContainer(true, []))]);
            var q := [Named("a")];
            q in Gather(root, [], root, host, map[]) && At(root, q, host) == Some(BareContainer(true, [])) &&
            DefaultText(BareContainer(true, []), host).None?
  {
    var one := BareEntry(Some("\"default\""), CScalar(Num, "1"));
    var inner, none := BareContainer(true, [one]), BareContainer(true, []);
    var first, second := BareEntry(Some("\"a\""), inner), BareEntry(Some("\"a\""), none);
    var root := BareContainer(true, [first, second]);
    var q := [Named("a")];
    assert KeyOf(first, host) == "a" && KeyOf(second, host) == "a" && KeyOf(one, host) == DEFAULT;
    assert LastMember([first, second], "a", host) == Some(1);
    assert At(root, [], host) == Some(root) && q[..0] == [];
    assert At(root, q, host) == Some(none);
    hide Gather;
    NotedIff(root, [], root, host, map[], q);
    assert StepOf(true, inner.entries, 0, host) == Named(DEFAULT);
    assert MentionsIn(true, inner.entries[0], Named(DEFAULT), q, q, host);
    assert Mentions(inner, q, q, host);
    assert StepOf(true, root.entries, 0, host) == Named("a") && [] + q == q;
    assert MentionsIn(true, root.entries[0], Named("a"), [], q, host);
    assert Mentions(root, [], q, host);
  }

  // ---- what is read -------------------------------------------------------------------------------------------------------------

  predicate HasOwnDefault(o: Cst, host: Host) {
    o.CContainer? && o.isObject && LastMember(o.entries, DEFAULT, host).Some?
  }

  /** The exact text looked up for a schema: only one that has a default is looked up. */
  function ReadDefault(notes: Notes, o: Cst, q: Route, host: Host): Option<string> {
    if HasOwnDefault(o, host) && q in notes then Some(notes[q]) else None
  }

  /** The same for a schema wrapped to allow null: the note is taken from the wrapper unless what it wraps has a default. */
  function ReadWrapped(notes: Notes, wrapper: Cst, q: Route, inner: Cst, at: Route, host: Host): Option<string> {
    var owner := if HasOwnDefault(inner, host) then at else q;
    if (HasOwnDefault(inner, host) || HasOwnDefault(wrapper, host)) && owner in notes then Some(notes[owner]) else None
  }

  /** For every node: its default as it is spelled, and nothing where it has none. */
  lemma ReadsExactly(root: Cst, host: Host, q: Route)
    requires At(root, q, host).Some?
    ensures ReadDefault(Gather(root, [], root, host, map[]), At(root, q, host).value, q, host) == DefaultText(At(root, q, host).value, host)
  {
    hide Gather, At, LastMember;
    if DefaultText(At(root, q, host).value, host).Some? {
      CollectsExactDefaults(root, host, q);
    }
  }

  /** For a wrapped schema: the default of what it wraps, or else the wrapper's. */
  lemma ReadsNullable(root: Cst, host: Host, q: Route, at: Route)
    requires At(root, q, host).Some? && At(root, at, host).Some?
    ensures var wrapper, inner := At(root, q, host).value, At(root, at, host).value;
            ReadWrapped(Gather(root, [], root, host, map[]), wrapper, q, inner, at, host) ==
            if DefaultText(inner, host).Some? then DefaultText(inner, host) else DefaultText(wrapper, host)
  {
    hide Gather, At, LastMember;
    ReadsExactly(root, host, q);
    ReadsExactly(root, host, at);
  }

  // ---- the walk over the tokens ----------------------------------------------------------------------------------------------

  /** What the parser built, as far as the walk asks. */
  ghost predicate Parsed(isObject: Route -> bool, root: Cst, host: Host) {
    forall r :: isObject(r) == IsObjectAt(root, r, host)
  }

  class Collector {
    const source: string
    const tokens: seq<Token>
    const host: Host
    const isObject: Route -> bool
    var position: nat
    var defaults: Notes

    constructor (source: string, tokens: seq<Token>, host: Host, isObject: Route -> bool)
      ensures this.source == source && this.tokens == tokens && this.host == host && this.isObject == isObject
      ensures position == 0 && defaults == map[]
    {
      this.source, this.tokens, this.host, this.isObject := source, tokens, host, isObject;
      position, defaults := 0, map[];
    }

    /** Walks the value at the position beside the node at `route`, and moves past it. */
    method Collect(route: Route, ghost root: Cst, ghost c: Cst, ghost at: nat)
      requires WfCst(c) && Stands(source, tokens, c, at, position) && Parsed(isObject, root, host)
      modifies this
      ensures position == old(position) + |Spans(c, at)|
      ensures defaults == Gather(c, route, root, host, old(defaults))
      decreases c, 1
    {
      hide WfCst, Stands, Spans, Parsed, GatherEntries;
      Opening(source, tokens, c, at, position);
      var opening := source[tokens[position].start..tokens[position].end];
      if opening == "{" {
        CollectMembers(route, root, c, at);
      } else if opening == "[" {
        CollectItems(route, root, c, at);
      } else {
        position := position + 1;
      }
    }

    method CollectMembers(route: Route, ghost root: Cst, ghost c: Cst, ghost at: nat)
      requires c.CContainer? && c.isObject && WfCst(c) && Stands(source, tokens, c, at, position) && Parsed(isObject, root, host)
      modifies this
      ensures position == old(position) + |Spans(c, at)|
      ensures defaults == GatherEntries(true, c.entries, route, root, host, old(defaults))
      decreases c, 0
    {
      hide WfCst, Stands, Spans, Parsed, GatherEntries, NoteEntry, StepOf, MemberHere, Here, After, ValueAt;
      ghost var k, es, first := position, c.entries, defaults;
      position := position + 1;
      ghost var i := 0;
      StartStep(c, at, k);
      NoneGathered(true, route, root, host, first);
      EndStep(source, tokens, c, at, k);
      if es != [] {
        MemberStep(source, tokens, c, at, k, 0);
        MemberOpens(source, tokens, es[0], ValueAt(c, at, 0), Here(c, at, k, 0));
      }
      while source[tokens[position].start] != '}'
        invariant i <= |es| && position == Here(c, at, k, i) < |tokens| && tokens[position].start < |source|
        invariant source[tokens[position].start] == '}' <==> i == |es|
        invariant defaults == GatherEntries(true, es[..i], route, root, host, first)
        decreases |es| - i
      {
        MemberStep(source, tokens, c, at, k, i);
        EntriesStep(true, es, i, route, root, host, first);
        MemberStepOf(es, i, host);
        CollectMember(route, root, es[i], ValueAt(c, at, i));
        i := i + 1;
        NextStep(source, tokens, c, at, k, i);
        if source[tokens[position].start] == ',' {
          position := position + 1;
        }
        if i < |es| {
          MemberStep(source, tokens, c, at, k, i);
          MemberOpens(source, tokens, es[i], ValueAt(c, at, i), Here(c, at, k, i));
        }
      }
      position := position + 1;
      assert es[..i] == es;
    }

    /** One member: what is below it, and its text if it is a default. */
    method CollectMember(route: Route, ghost root: Cst, ghost e: CEntry, ghost at: nat)
      requires MemberHere(source, tokens, e, at, position) && Parsed(isObject, root, host)
      modifies this
      ensures position == old(position) + 2 + |Spans(e.value, at)|
      ensures defaults == NoteEntry(true, e, Named(KeyOf(e, host)), route, root, host, old(defaults))
      decreases e
    {
      hide WfCst, Stands, Spans, Gather, Upgrade.Text, IsObjectAt;
      var key := host.unquote(source[tokens[position].start..tokens[position].end]);
      position := position + 2;
      SliceIsText(source, tokens, e.value, at, position);
      var start := tokens[position].start;
      Collect(route + [Named(key)], root, e.value, at);
      if key == DEFAULT && isObject(route) {
        defaults := defaults[route := source[start..tokens[position - 1].end]];
      }
    }

    method CollectItems(route: Route, ghost root: Cst, ghost c: Cst, ghost at: nat)
      requires c.CContainer? && !c.isObject && WfCst(c) && Stands(source, tokens, c, at, position) && Parsed(isObject, root, host)
      modifies this
      ensures position == old(position) + |Spans(c, at)|
      ensures defaults == GatherEntries(false, c.entries, route, root, host, old(defaults))
      decreases c, 0
    {
      hide WfCst, Stands, Spans, Parsed, GatherEntries, Gather, Here, After, ValueAt, IsObjectAt, Upgrade.Text, KeyOf;
      ghost var k, es, first := position, c.entries, defaults;
      position := position + 1;
      var index := 0;
      StartStep(c, at, k);
      NoneGathered(false, route, root, host, first);
      EndStep(source, tokens, c, at, k);
      if es != [] {
        ItemStep(source, tokens, c, at, k, 0);
      }
      while source[tokens[position].start] != ']'
        invariant index <= |es| && position == Here(c, at, k, index) < |tokens| && tokens[position].start < |source|
        invariant source[tokens[position].start] == ']' <==> index == |es|
        invariant defaults == GatherEntries(false, es[..index], route, root, host, first)
        decreases |es| - index
      {
        ItemStep(source, tokens, c, at, k, index);
        EntriesStep(false, es, index, route, root, host, first);
        Collect(route + [Item(index)], root, es[index].value, ValueAt(c, at, index));
        index := index + 1;
        NextStep(source, tokens, c, at, k, index);
        if source[tokens[position].start] == ',' {
          position := position + 1;
        }
        if index < |es| {
          ItemStep(source, tokens, c, at, k, index);
        }
      }
      position := position + 1;
      assert es[..index] == es;
    }
  }

  lemma NoneGathered(isObject: bool, route: Route, root: Cst, host: Host, notes: Notes)
    ensures GatherEntries(isObject, [], route, root, host, notes) == notes
  {
  }

  lemma MemberOpens(value: string, tokens: seq<Token>, e: CEntry, at: nat, j: nat)
    requires MemberHere(value, tokens, e, at, j)
    ensures j < |tokens| && tokens[j].start < |value| && value[tokens[j].start] != '}'
  {
    hide WfCst, Stands;
  }

  lemma MemberStepOf(es: seq<CEntry>, i: nat, host: Host)
    requires i < |es|
    ensures StepOf(true, es, i, host) == Named(KeyOf(es[i], host))
  {
  }

  /**
    Whatever is looked up for a node of the parsed document is the exact text of its default, or
    nothing if it has none; and there is a note exactly where a default member was walked.
  */
  ghost predicate Exact(notes: Notes, root: Cst, host: Host) {
    (forall q :: At(root, q, host).Some? ==>
       ReadDefault(notes, At(root, q, host).value, q, host) == DefaultText(At(root, q, host).value, host)) &&
    forall q :: q in notes <==> IsObjectAt(root, q, host) && Mentions(root, [], q, host)
  }

  /** The defaults of a schema document; nothing if it is no JSON object. */
  method CollectDefaults(source: string, host: Host, isObject: Route -> bool, ghost root: Cst, ghost before: string, ghost after: string)
    returns (r: Option<Notes>)
    requires Derivable(source) ==> Derives(root, before, after, source) && Parsed(isObject, root, host)
    ensures r.Some? <==> Derivable(source) && root.CContainer? && root.isObject
    ensures r.Some? ==> Exact(r.value, root, host)
  {
    var problem := JsonText.CheckJson(source);
    assert Derivable(source) ==> isObject([]) == (root.CContainer? && root.isObject);
    hide Derivable, Derives, Parsed, Exact, Stands, WfCst, Spans, SolidOnes, Tokens, Gather;
    if problem.Some? || !isObject([]) {
      return None;
    }
    var all := TokenizeJson(source);
    var collector := new Collector(source, SolidOnes(all), host, isObject);
    DocumentStands(root, before, after, source);
    collector.Collect([], root, root, |before|);
    AllExact(root, host);
    r := Some(collector.defaults);
  }

  lemma AllExact(root: Cst, host: Host)
    ensures Exact(Gather(root, [], root, host, map[]), root, host)
  {
    hide Gather, At, DefaultText, ReadDefault, IsObjectAt, Mentions;
    forall q
      ensures q in Gather(root, [], root, host, map[]) <==> IsObjectAt(root, q, host) && Mentions(root, [], q, host)
    {
      NotedIff(root, [], root, host, map[], q);
    }
    forall q | At(root, q, host).Some?
      ensures ReadDefault(Gather(root, [], root, host, map[]), At(root, q, host).value, q, host) == DefaultText(At(root, q, host).value, host)
    {
      ReadsExactly(root, host, q);
    }
  }
}

/**
  Preparing a stored value for a new schema version, editing its text as little as possible.

  The value is its RFC 8259 derivation, so that untouched parts keep their exact spelling and
  whitespace.  What is prepared is again a derivation (`WalkWellFormed`), nothing changes when
  nothing is reported (`NoEditsNoChange`), and what is removed was forbidden
  (`RemovedAreForbidden`).  How the prepared tree comes from the stored one is in
  `UpgradeEdits`.

  Reading defaults off the schema text, parsing and quoting strings and full validation are
  foreign: the schema carries the exact text of its defaults, and the rest are parameters.
*/
module Upgrade {
  import opened Seqs
  import opened Decimals
  import opened JsonLex
  import opened JsonGrammar
  import opened JsonSyntax
  import opened JsonTree

  type Path = seq<string>

  // ---- schemas ----------------------------------------------------------------------------------------

  /** A default has a text, unless it is a parsed number whose spelling is lost. */
  datatype Dflt = NoDefault | Default(text: Option<Cst>)

  datatype EnumNumber = EnumNumber(name: string, number: int)

  datatype Property = Property(name: string, schema: Schema)

  /** `additionalProperties`: false, or a schema for other keys (none if it is absent or true). */
  datatype Additional = Forbidden | Other(schema: Schema)

  datatype Body = Body(hasProperties: bool, properties: seq<Property>, additional: Additional, patterns: bool, required: seq<string>,
                       items: Schema, prefixItems: seq<Schema>, dflt: Dflt, isArray: bool, isObject: bool, isString: bool,
                       tupleKeywords: bool, migrateFrom: Option<string>, enumNames: Option<seq<string>>,
                       enumNumbers: Option<seq<EnumNumber>>)

  /** No schema at all, one that uses a combinator, a plain one, or one wrapped to allow null. */
  datatype Schema =
    | NoSchema
    | Complex
    | Plain(body: Body)
    | Nullable(body: Body, dflt: Dflt, migrateFrom: Option<string>, enumNumbers: Option<seq<EnumNumber>>)

  /** The schema to go by: a null wrapper is merged into what it wraps. */
  function Normalized(raw: Schema): Option<Body> {
    match raw
    case NoSchema => None
    case Complex => None
    case Plain(body) => Some(body)
    case Nullable(body, dflt, migrateFrom, enumNumbers) =>
      Some(body.(dflt := if body.dflt.NoDefault? then dflt else body.dflt,
                 migrateFrom := if body.migrateFrom.None? then migrateFrom else body.migrateFrom,
                 enumNumbers := if body.enumNumbers.None? then enumNumbers else body.enumNumbers))
  }

  /** The schema itself, before unwrapping, has a default. */
  predicate HasDefault(raw: Schema) {
    (raw.Plain? && raw.body.dflt.Default?) || (raw.Nullable? && raw.dflt.Default?)
  }

  function PropertiesOf(body: Option<Body>): seq<Property> {
    if body.Some? && body.value.hasProperties then body.value.properties else []
  }

  function FindProperty(ps: seq<Property>, key: string): (r: Option<nat>)
    ensures r.Some? ==> r.value < |ps| && ps[r.value].name == key
    ensures r.None? ==> forall p :: p in ps ==> p.name != key
  {
    if ps == [] then None
    else if ps[|ps| - 1].name == key then Some(|ps| - 1)
    else FindProperty(ps[..|ps| - 1], key)
  }

  function Lookup(ps: seq<Property>, key: string): Schema {
    var i := FindProperty(ps, key);
    if i.Some? then ps[i.value].schema else NoSchema
  }

  predicate Declares(body: Option<Body>, key: string) {
    FindProperty(PropertiesOf(body), key).Some?
  }

  /** Neither declared nor allowed, and no pattern could allow it. */
  predicate Forbids(body: Option<Body>, key: string) {
    body.Some? && body.value.additional.Forbidden? && !Declares(body, key) && !body.value.patterns
  }

  function ChildSchema(body: Option<Body>, key: string): Schema {
    if Forbids(body, key) then NoSchema
    else if Declares(body, key) then Lookup(PropertiesOf(body), key)
    else if body.Some? && body.value.additional.Other? then body.value.additional.schema
    else NoSchema
  }

  function ItemSchema(body: Option<Body>, index: nat): Schema {
    if body.None? then NoSchema
    else if index < |body.value.prefixItems| then body.value.prefixItems[index]
    else body.value.items
  }

  /** Foreign calls: JSON strings read and written, and what the validator accepts. */
  datatype Host = Host(unquote: string -> string, quote: string -> string, acceptsDefault: (Schema, string) -> bool,
                       acceptsItem: (Body, string) -> bool, allowsEmpty: Body -> bool)

  // ---- reports -------------------------------------------------------------------------------------------

  datatype Migration = Migration(source: Path, target: Path, value: Option<string>)

  datatype Conversion = Conversion(path: Path, from: string, to: string)

  datatype Report = Report(added: seq<Path>, removed: seq<Path>, lists: seq<Path>, defaults: seq<Path>,
                           migrations: seq<Migration>, suggestions: seq<Migration>, conversions: seq<Conversion>)

  const NOTHING := Report([], [], [], [], [], [], [])

  function Both(a: Report, b: Report): Report {
    Report(a.added + b.added, a.removed + b.removed, a.lists + b.lists, a.defaults + b.defaults, a.migrations + b.migrations,
           a.suggestions + b.suggestions, a.conversions + b.conversions)
  }

  // ---- derivations without outer whitespace -----------------------------------------------------------------

  const BARE := Pad("", "")

  /** The derivation of the text from the first token to the last. */
  function Trim(c: Cst): Cst {
    match c
    case CScalar(_, _) => c
    case CContainer(isObject, open, entries, close) =>
      CContainer(isObject, Pad("", open.after), entries, Pad(close.before, ""))
  }

  function Text(c: Cst): string {
    Unparse(Trim(c))
  }

  function BareEntry(key: Option<string>, value: Cst): CEntry {
    CEntry(BARE, if key.Some? then Some(CKey(key.value, BARE)) else None, value)
  }

  function BareContainer(isObject: bool, entries: seq<CEntry>): Cst {
    CContainer(isObject, BARE, entries, BARE)
  }

  // ---- initial values -------------------------------------------------------------------------------------------

  datatype Made = Made(value: Option<Cst>, report: Report)

  /** The value to start a missing property with: its default, an empty list, or an object of required parts. */
  function Initial(raw: Schema, path: Path, host: Host): Made
    decreases raw, 0
  {
    var s := Normalized(raw);
    if s.None? then Made(None, NOTHING)
    else if s.value.dflt.Default? then
      if s.value.dflt.text.Some? && host.acceptsDefault(raw, Text(s.value.dflt.text.value)) then
        Made(Some(Trim(s.value.dflt.text.value)), NOTHING.(defaults := [path]))
      else Made(None, NOTHING)
    else if host.allowsEmpty(s.value) then Made(Some(BareContainer(false, [])), NOTHING.(lists := [path]))
    else if s.value.isObject && raw.body.hasProperties then
      var parts := InitialParts(raw.body.properties, s.value.required, path, host);
      Made(Some(BareContainer(true, parts.0)), parts.1)
    else Made(None, NOTHING)
  }

  function InitialParts(ps: seq<Property>, required: seq<string>, path: Path, host: Host): (seq<CEntry>, Report)
    decreases ps, 1, |required|
  {
    if required == [] then ([], NOTHING)
    else
      var init := InitialParts(ps, required[..|required| - 1], path, host);
      var key := required[|required| - 1];
      var i := FindProperty(ps, key);
      if i.None? then init
      else
        var made := InitialPart(ps[i.value], path, host);
        (if made.value.None? then init.0 else init.0 + [BareEntry(Some(host.quote(key)), made.value.value)], Both(init.1, made.report))
  }

  function InitialPart(p: Property, path: Path, host: Host): Made
    decreases p, 0
  {
    Initial(p.schema, path + [p.name], host)
  }

  // ---- stored enum numbers ------------------------------------------------------------------------------------------

  /** A whole number as JSON spells it. */
  predicate IsIntegerText(text: string) {
    var digits := if text != "" && text[0] == '-' then text[1..] else text;
    digits != "" && AllDigitChars(digits) && (digits[0] == '0' ==> digits == "0")
  }

  function IntegerOf(text: string): int
    requires IsIntegerText(text)
  {
    if text[0] == '-' then -(DecimalValue(text[1..]) as int) else DecimalValue(text)
  }

  function FirstName(numbers: seq<EnumNumber>, names: seq<string>, n: int): Option<string> {
    if numbers == [] then None
    else if numbers[0].number == n && numbers[0].name in names then Some(numbers[0].name)
    else FirstName(numbers[1..], names, n)
  }

  /** The name a schema gives to exactly this number, if it does. */
  function EnumName(s: Option<Body>, text: string): Option<string> {
    if s.None? || s.value.enumNames.None? || s.value.enumNumbers.None? || !IsIntegerText(text) then None
    else FirstName(s.value.enumNumbers.value, s.value.enumNames.value, IntegerOf(text))
  }

  // ---- list migrations --------------------------------------------------------------------------------------------------

  /** One entry of an object being walked: its decoded key, its value as stored and as walked. */
  datatype Walked = Walked(key: string, keyText: string, child: Cst, original: Cst, forbidden: bool)

  datatype Decision = Skip | Convert(source: string, value: Cst) | Pend(source: string, candidate: Option<Cst>)

  function FirstWith(ws: seq<Walked>, key: string): (r: Option<Walked>)
    ensures r.Some? ==> r.value in ws && r.value.key == key
  {
    if ws == [] then None else if ws[0].key == key then Some(ws[0]) else FirstWith(ws[1..], key)
  }

  predicate Seen(ws: seq<Walked>, key: string) {
    exists w :: w in ws && w.key == key
  }

  /** An empty name declares nothing. */
  predicate Declared(body: Body) {
    body.migrateFrom.Some? && body.migrateFrom.value != ""
  }

  /** The key whose value a missing list may take over. */
  function SourceKey(body: Body, key: string): Option<string> {
    if body.migrateFrom.Some? then body.migrateFrom
    else if key != "" && key[|key| - 1] == 's' then Some(key[..|key| - 1])
    else None
  }

  predicate IsStringValue(c: Cst) {
    c.CScalar? && c.kind == Str
  }

  predicate Filled(original: Cst, host: Host) {
    IsStringValue(original) && host.unquote(original.text) != ""
  }

  /** The list a stored string becomes: itself as the one item, or nothing if it is empty. */
  function Candidate(body: Body, original: Cst, host: Host): Option<Cst> {
    if Filled(original, host) && !body.tupleKeywords && host.acceptsItem(body, Text(original)) then
      Some(BareContainer(false, [BareEntry(None, original)]))
    else if IsStringValue(original) && !Filled(original, host) && host.allowsEmpty(body) then Some(BareContainer(false, []))
    else None
  }

  /** What to do about a missing list property, given the entries of the object. */
  function Decide(p: Property, body: Option<Body>, ws: seq<Walked>, path: Path, host: Host, accepted: set<Path>): Decision {
    var s := Normalized(p.schema);
    if Seen(ws, p.name) || s.None? || !s.value.isArray then Skip
    else
      var declared := Declared(s.value);
      var sourceKey := SourceKey(s.value, p.name);
      var source := if sourceKey.Some? then FirstWith(ws, sourceKey.value) else None;
      if source.None? || (!declared && Declares(body, source.value.key)) then Skip
      else
        var items := Normalized(s.value.items);
        if !declared && !(items.Some? && items.value.isString) then Skip
        else
          var original := source.value.original;
          var candidate := Candidate(s.value, original, host);
          if candidate.Some? && ((declared && Filled(original, host)) || path + [p.name] in accepted) then
            Convert(source.value.key, candidate.value)
          else Pend(source.value.key, candidate)
  }

  function OptText(c: Option<Cst>): Option<string> {
    if c.Some? then Some(Unparse(c.value)) else None
  }

  function MigrationOf(p: Property, d: Decision, path: Path): Report {
    match d
    case Skip => NOTHING
    case Convert(source, value) => NOTHING.(migrations := [Migration(path + [source], path + [p.name], Some(Unparse(value)))])
    case Pend(source, value) => NOTHING.(suggestions := [Migration(path + [source], path + [p.name], OptText(value))])
  }

  function DecideAll(ps: seq<Property>, body: Option<Body>, ws: seq<Walked>, path: Path, host: Host, accepted: set<Path>): Report {
    if ps == [] then NOTHING
    else
      var p := ps[|ps| - 1];
      Both(DecideAll(ps[..|ps| - 1], body, ws, path, host, accepted),
           MigrationOf(p, Decide(p, body, ws, path, host, accepted), path))
  }

  /** Some missing list waits for the value under this key. */
  predicate Protected(key: string, suggestions: seq<Migration>, path: Path) {
    exists m :: m in suggestions && m.source == path + [key]
  }

  // ---- the walk ---------------------------------------------------------------------------------------------------------------

  datatype Out = Out(cst: Cst, report: Report)

  predicate Dropped(w: Walked, suggestions: seq<Migration>, path: Path) {
    w.forbidden && !Protected(w.key, suggestions, path)
  }

  /** The entries that stay. */
  function Kept(ws: seq<Walked>, suggestions: seq<Migration>, path: Path): seq<CEntry> {
    if ws == [] then []
    else
      var init, w := Kept(ws[..|ws| - 1], suggestions, path), ws[|ws| - 1];
      if Dropped(w, suggestions, path) then init else init + [BareEntry(Some(w.keyText), w.child)]
  }

  function RemovedPaths(ws: seq<Walked>, suggestions: seq<Migration>, path: Path): seq<Path> {
    if ws == [] then []
    else
      var init, w := RemovedPaths(ws[..|ws| - 1], suggestions, path), ws[|ws| - 1];
      if Dropped(w, suggestions, path) then init + [path + [w.key]] else init
  }

  predicate SomeDiffer(ws: seq<Walked>, suggestions: seq<Migration>, path: Path) {
    exists w :: w in ws && !Dropped(w, suggestions, path) && Unparse(w.child) != Text(w.original)
  }

  /** The value added for a missing property, if one is. */
  function Addition(p: Property, body: Option<Body>, ws: seq<Walked>, path: Path, host: Host, accepted: set<Path>): Made {
    var d := Decide(p, body, ws, path, host, accepted);
    if Seen(ws, p.name) || d.Pend? then Made(None, NOTHING)
    else if d.Convert? then Made(Some(d.value), NOTHING)
    else if (body.Some? && p.name in body.value.required) || HasDefault(p.schema) then Initial(p.schema, path + [p.name], host)
    else Made(None, NOTHING)
  }

  function Additions(ps: seq<Property>, body: Option<Body>, ws: seq<Walked>, path: Path, host: Host, accepted: set<Path>)
    : (seq<CEntry>, Report)
  {
    if ps == [] then ([], NOTHING)
    else
      var init, p := Additions(ps[..|ps| - 1], body, ws, path, host, accepted), ps[|ps| - 1];
      var made := Addition(p, body, ws, path, host, accepted);
      if made.value.None? then (init.0, Both(init.1, made.report))
      else
        (init.0 + [BareEntry(Some(host.quote(p.name)), made.value.value)],
         Both(init.1, made.report.(added := [path + [p.name]])))
  }

  /** Puts the object together again, or leaves it as it is if nothing about it changed. */
  function FinishObject(c: Cst, ws: seq<Walked>, below: Report, body: Option<Body>, path: Path, host: Host, accepted: set<Path>): Out
    requires c.CContainer?
  {
    var ps := PropertiesOf(body);
    var decided := DecideAll(ps, body, ws, path, host, accepted);
    var kept, removed := Kept(ws, decided.suggestions, path), RemovedPaths(ws, decided.suggestions, path);
    var more := Additions(ps, body, ws, path, host, accepted);
    var report := Both(Both(below, decided), Both(NOTHING.(removed := removed), more.1));
    if removed == [] && more.0 == [] && !SomeDiffer(ws, decided.suggestions, path) then Out(Trim(c), report)
    else Out(BareContainer(true, kept + more.0), report)
  }

  function FinishArray(c: Cst, outs: seq<Cst>, below: Report): Out
    requires c.CContainer? && |outs| == |c.entries|
  {
    if exists i :: 0 <= i < |outs| && Unparse(outs[i]) != Text(c.entries[i].value) then
      Out(BareContainer(false, Items(outs)), below)
    else Out(Trim(c), below)
  }

  function Items(outs: seq<Cst>): (r: seq<CEntry>)
    ensures |r| == |outs| && forall i :: 0 <= i < |outs| ==> r[i] == BareEntry(None, outs[i])
  {
    seq(|outs|, i requires 0 <= i < |outs| => BareEntry(None, outs[i]))
  }

  function KeyOf(e: CEntry, host: Host): string {
    host.unquote(if e.key.Some? then e.key.value.text else "")
  }

  /** The decoded key of a member of the tree. */
  function NodeKey(e: Entry, host: Host): string {
    host.unquote(if e.key.Some? then e.key.value else "")
  }

  function IndexText(i: nat): string {
    Decimal(i)
  }

  /** The text prepared for a value, as a derivation without outer whitespace, and what was done to it. */
  function Walk(c: Cst, raw: Schema, path: Path, host: Host, accepted: set<Path>): Out
    decreases c, 1
  {
    var s := Normalized(raw);
    match c
    case CScalar(kind, text) =>
      var name := if kind == Num then EnumName(s, text) else None;
      if name.None? then Out(c, NOTHING)
      else Out(CScalar(Str, host.quote(name.value)), NOTHING.(conversions := [Conversion(path, text, name.value)]))
    case CContainer(isObject, _, entries, _) =>
      if isObject then
        var walked := WalkObject(entries, s, path, host, accepted);
        FinishObject(c, walked.0, walked.1, s, path, host, accepted)
      else
        var walked := WalkArray(entries, s, path, host, accepted);
        FinishArray(c, walked.0, walked.1)
  }

  function WalkObject(es: seq<CEntry>, s: Option<Body>, path: Path, host: Host, accepted: set<Path>): (r: (seq<Walked>, Report))
    ensures |r.0| == |es|
    decreases es, 0
  {
    if es == [] then ([], NOTHING)
    else
      var init, e := WalkObject(es[..|es| - 1], s, path, host, accepted), es[|es| - 1];
      var key := KeyOf(e, host);
      var out := WalkEntry(e, ChildSchema(s, key), path + [key], host, accepted);
      (init.0 + [Walked(key, if e.key.Some? then e.key.value.text else "", out.cst, e.value, Forbids(s, key))],
       Both(init.1, out.report))
  }

  function WalkArray(es: seq<CEntry>, s: Option<Body>, path: Path, host: Host, accepted: set<Path>): (r: (seq<Cst>, Report))
    ensures |r.0| == |es|
    decreases es, 0
  {
    if es == [] then ([], NOTHING)
    else
      var k := |es| - 1;
      var init := WalkArray(es[..k], s, path, host, accepted);
      var out := WalkEntry(es[k], ItemSchema(s, k), path + [IndexText(k)], host, accepted);
      (init.0 + [out.cst], Both(init.1, out.report))
  }

  function WalkEntry(e: CEntry, raw: Schema, path: Path, host: Host, accepted: set<Path>): Out
    decreases e, 0
  {
    Walk(e.value, raw, path, host, accepted)
  }

  /** The value offered: the prepared one if anything was added, removed or converted, else the value itself. */
  function Prepared(c: Cst, before: string, after: string, raw: Schema, host: Host, accepted: set<Path>): string {
    var out := Walk(c, raw, [], host, accepted);
    if Edited(out.report) then Unparse(out.cst) else before + Unparse(c) + after
  }

  predicate Edited(r: Report) {
    r.added != [] || r.removed != [] || r.conversions != []
  }

  // ---- what is prepared is well-formed ----------------------------------------------------------------------------------------

  ghost predicate HostOk(host: Host) {
    forall s :: IsString(host.quote(s))
  }

  ghost predicate WfDflt(d: Dflt) {
    d.Default? && d.text.Some? ==> WfCst(d.text.value)
  }

  /** Every default the schema may add is the text of a JSON value. */
  ghost predicate WfSchema(raw: Schema)
    decreases raw, 2
  {
    (raw.Plain? ==> WfBody(raw.body)) && (raw.Nullable? ==> WfBody(raw.body) && WfDflt(raw.dflt))
  }

  ghost predicate WfBody(b: Body)
    decreases b, 2
  {
    WfDflt(b.dflt) && WfSchema(b.items) && (b.additional.Other? ==> WfSchema(b.additional.schema)) &&
    WfProperties(b.properties) && WfSchemas(b.prefixItems)
  }

  ghost predicate WfProperties(ps: seq<Property>)
    decreases ps, 1
  {
    forall i :: 0 <= i < |ps| ==> WfProperty(ps[i])
  }

  ghost predicate WfProperty(p: Property)
    decreases p, 0
  {
    WfSchema(p.schema)
  }

  ghost predicate WfSchemas(ss: seq<Schema>)
    decreases ss, 1
  {
    forall i :: 0 <= i < |ss| ==> WfSchema(ss[i])
  }

  ghost predicate WfOpt(s: Option<Body>) {
    s.Some? ==> WfBody(s.value)
  }

  lemma NormalizedWf(raw: Schema)
    requires WfSchema(raw)
    ensures WfOpt(Normalized(raw))
  {
  }

  lemma PropertiesWf(s: Option<Body>)
    requires WfOpt(s)
    ensures WfProperties(PropertiesOf(s))
  {
  }

  lemma ChildSchemaWf(s: Option<Body>, key: string)
    requires WfOpt(s)
    ensures WfSchema(ChildSchema(s, key))
  {
    PropertiesWf(s);
    var i := FindProperty(PropertiesOf(s), key);
    if i.Some? {
      assert WfProperty(PropertiesOf(s)[i.value]);
    }
  }

  lemma ItemSchemaWf(s: Option<Body>, index: nat)
    requires WfOpt(s)
    ensures WfSchema(ItemSchema(s, index))
  {
    if s.Some? {
      assert WfSchema(s.value.items) && WfSchemas(s.value.prefixItems);
      hide WfSchema;
    } else {
      assert WfSchema(NoSchema);
    }
  }

  lemma TrimWf(c: Cst)
    requires WfCst(c)
    ensures WfCst(Trim(c))
  {
  }

  lemma BareWf(isObject: bool, es: seq<CEntry>)
    requires WfCEntries(isObject, es)
    ensures WfCst(BareContainer(isObject, es))
  {
  }

  lemma BareEntryWf(key: Option<string>, value: Cst)
    requires WfCst(value) && (key.Some? ==> IsString(key.value))
    ensures WfCEntry(key.Some?, BareEntry(key, value))
  {
  }

  lemma SnocEntryWf(isObject: bool, es: seq<CEntry>, e: CEntry)
    requires WfCEntries(isObject, es) && WfCEntry(isObject, e)
    ensures WfCEntries(isObject, es + [e])
  {
    hide WfCEntry;
  }

  lemma ConcatEntriesWf(isObject: bool, a: seq<CEntry>, b: seq<CEntry>)
    requires WfCEntries(isObject, a) && WfCEntries(isObject, b)
    ensures WfCEntries(isObject, a + b)
  {
    hide WfCEntry;
  }

  lemma {:induction false} InitialWf(raw: Schema, path: Path, host: Host)
    requires WfSchema(raw) && HostOk(host)
    ensures var made := Initial(raw, path, host); made.value.Some? ==> WfCst(made.value.value)
    decreases raw, 0
  {
    var s := Normalized(raw);
    NormalizedWf(raw);
    if s.Some? {
      if s.value.dflt.Default? {
        if s.value.dflt.text.Some? {
          TrimWf(s.value.dflt.text.value);
        }
      } else if host.allowsEmpty(s.value) {
        BareWf(false, []);
      } else if s.value.isObject && raw.body.hasProperties {
        assert WfProperties(raw.body.properties);
        hide WfSchema, HostOk;
        InitialPartsWf(raw.body.properties, s.value.required, path, host);
        BareWf(true, InitialParts(raw.body.properties, s.value.required, path, host).0);
      }
    }
  }

  lemma {:induction false} InitialPartsWf(ps: seq<Property>, required: seq<string>, path: Path, host: Host)
    requires WfProperties(ps) && HostOk(host)
    ensures WfCEntries(true, InitialParts(ps, required, path, host).0)
    decreases ps, 1, |required|
  {
    if required != [] {
      var init, key := required[..|required| - 1], required[|required| - 1];
      InitialPartsWf(ps, init, path, host);
      var i := FindProperty(ps, key);
      if i.Some? {
        var p := ps[i.value];
        assert WfProperty(p);
        InitialPartWf(p, path, host);
        var made := InitialPart(p, path, host);
        if made.value.Some? {
          assert IsString(host.quote(key));
          hide IsString, InitialPart, WfCst;
          BareEntryWf(Some(host.quote(key)), made.value.value);
          SnocEntryWf(true, InitialParts(ps, init, path, host).0, BareEntry(Some(host.quote(key)), made.value.value));
        }
      }
    }
  }

  lemma {:induction false} InitialPartWf(p: Property, path: Path, host: Host)
    requires WfProperty(p) && HostOk(host)
    ensures var made := InitialPart(p, path, host); made.value.Some? ==> WfCst(made.value.value)
    decreases p, 0
  {
    InitialWf(p.schema, path + [p.name], host);
  }

  ghost predicate WfWalked(ws: seq<Walked>) {
    forall i :: 0 <= i < |ws| ==> WfOne(ws[i])
  }

  ghost predicate WfOne(w: Walked) {
    WfCst(w.child) && WfCst(w.original) && IsString(w.keyText)
  }

  lemma ConvertWf(p: Property, body: Option<Body>, ws: seq<Walked>, path: Path, host: Host, accepted: set<Path>)
    requires WfWalked(ws)
    ensures var d := Decide(p, body, ws, path, host, accepted); d.Convert? ==> WfCst(d.value)
  {
    var d := Decide(p, body, ws, path, host, accepted);
    if d.Convert? {
      var s := Normalized(p.schema).value;
      var source := FirstWith(ws, SourceKey(s, p.name).value).value;
      var i :| 0 <= i < |ws| && ws[i] == source;
      assert WfOne(ws[i]);
      BareEntryWf(None, source.original);
      BareWf(false, [BareEntry(None, source.original)]);
      BareWf(false, []);
    }
  }

  lemma {:induction false} KeptWf(ws: seq<Walked>, suggestions: seq<Migration>, path: Path)
    requires WfWalked(ws)
    ensures WfCEntries(true, Kept(ws, suggestions, path))
    decreases |ws|
  {
    if ws != [] {
      var w := ws[|ws| - 1];
      assert WfOne(w);
      hide Dropped, WfCst, IsString;
      KeptWf(ws[..|ws| - 1], suggestions, path);
      BareEntryWf(Some(w.keyText), w.child);
      SnocEntryWf(true, Kept(ws[..|ws| - 1], suggestions, path), BareEntry(Some(w.keyText), w.child));
    }
  }

  lemma AdditionWf(p: Property, body: Option<Body>, ws: seq<Walked>, path: Path, host: Host, accepted: set<Path>)
    requires WfProperty(p) && WfWalked(ws) && HostOk(host)
    ensures var made := Addition(p, body, ws, path, host, accepted); made.value.Some? ==> WfCst(made.value.value)
  {
    hide Decide, Initial, HostOk, WfCst;
    ConvertWf(p, body, ws, path, host, accepted);
    InitialWf(p.schema, path + [p.name], host);
  }

  lemma {:induction false} AdditionsWf(ps: seq<Property>, body: Option<Body>, ws: seq<Walked>, path: Path, host: Host, accepted: set<Path>)
    requires WfProperties(ps) && WfWalked(ws) && HostOk(host)
    ensures WfCEntries(true, Additions(ps, body, ws, path, host, accepted).0)
    decreases |ps|
  {
    if ps != [] {
      var p := ps[|ps| - 1];
      assert WfProperty(p) && IsString(host.quote(p.name));
      hide Addition, WfCst, IsString, WfProperty, HostOk, WfWalked;
      AdditionsWf(ps[..|ps| - 1], body, ws, path, host, accepted);
      AdditionWf(p, body, ws, path, host, accepted);
      var made := Addition(p, body, ws, path, host, accepted);
      if made.value.Some? {
        BareEntryWf(Some(host.quote(p.name)), made.value.value);
        SnocEntryWf(true, Additions(ps[..|ps| - 1], body, ws, path, host, accepted).0,
                    BareEntry(Some(host.quote(p.name)), made.value.value));
      }
    }
  }

  lemma FinishObjectWf(c: Cst, ws: seq<Walked>, below: Report, body: Option<Body>, path: Path, host: Host, accepted: set<Path>)
    requires c.CContainer? && WfCst(c) && WfOpt(body) && WfWalked(ws) && HostOk(host)
    ensures WfCst(FinishObject(c, ws, below, body, path, host, accepted).cst)
  {
    var ps := PropertiesOf(body);
    PropertiesWf(body);
    TrimWf(c);
    hide WfCst, WfOpt, WfWalked, HostOk, Kept, Additions, DecideAll, RemovedPaths, SomeDiffer, PropertiesOf, WfProperties;
    var suggestions := DecideAll(ps, body, ws, path, host, accepted).suggestions;
    KeptWf(ws, suggestions, path);
    AdditionsWf(ps, body, ws, path, host, accepted);
    ConcatEntriesWf(true, Kept(ws, suggestions, path), Additions(ps, body, ws, path, host, accepted).0);
    BareWf(true, Kept(ws, suggestions, path) + Additions(ps, body, ws, path, host, accepted).0);
  }

  lemma FinishArrayWf(c: Cst, outs: seq<Cst>, below: Report)
    requires c.CContainer? && |outs| == |c.entries| && WfCst(c) && forall i :: 0 <= i < |outs| ==> WfCst(outs[i])
    ensures WfCst(FinishArray(c, outs, below).cst)
  {
    TrimWf(c);
    var es := Items(outs);
    forall i | 0 <= i < |es|
      ensures WfCEntry(false, es[i])
    {
      BareEntryWf(None, outs[i]);
    }
    BareWf(false, es);
  }

  /** The prepared value is JSON. */
  lemma {:induction false} WalkWellFormed(c: Cst, raw: Schema, path: Path, host: Host, accepted: set<Path>)
    requires WfCst(c) && WfSchema(raw) && HostOk(host)
    ensures WfCst(Walk(c, raw, path, host, accepted).cst)
    decreases c, 1
  {
    var s := Normalized(raw);
    NormalizedWf(raw);
    if c.CScalar? {
      var name := if c.kind == Num then EnumName(s, c.text) else None;
      if name.Some? {
        assert IsString(host.quote(name.value));
        assert LexemeOk(Lexeme(Str, host.quote(name.value)));
      }
    } else if c.isObject {
      assert WfCEntries(true, c.entries);
      hide WfCst, HostOk, FinishObject, WfOpt;
      WalkObjectWf(c.entries, s, path, host, accepted);
      var walked := WalkObject(c.entries, s, path, host, accepted);
      FinishObjectWf(c, walked.0, walked.1, s, path, host, accepted);
    } else {
      assert WfCEntries(false, c.entries);
      hide WfCst, HostOk, FinishArray, WfOpt;
      WalkArrayWf(c.entries, s, path, host, accepted);
      var walked := WalkArray(c.entries, s, path, host, accepted);
      FinishArrayWf(c, walked.0, walked.1);
    }
  }

  lemma {:induction false} WalkObjectWf(es: seq<CEntry>, s: Option<Body>, path: Path, host: Host, accepted: set<Path>)
    requires WfCEntries(true, es) && WfOpt(s) && HostOk(host)
    ensures WfWalked(WalkObject(es, s, path, host, accepted).0)
    decreases es, 0
  {
    if es != [] {
      var e := es[|es| - 1];
      var key := KeyOf(e, host);
      assert WfCEntry(true, e);
      WalkObjectWf(es[..|es| - 1], s, path, host, accepted);
      ChildSchemaWf(s, key);
      WalkEntryWf(true, e, ChildSchema(s, key), path + [key], host, accepted);
      var out := WalkEntry(e, ChildSchema(s, key), path + [key], host, accepted);
      var w := Walked(key, e.key.value.text, out.cst, e.value, Forbids(s, key));
      assert WfOne(w);
      hide WfOne, WalkEntry, KeyOf, ChildSchema, Forbids;
    }
  }

  lemma {:induction false} WalkArrayWf(es: seq<CEntry>, s: Option<Body>, path: Path, host: Host, accepted: set<Path>)
    requires WfCEntries(false, es) && WfOpt(s) && HostOk(host)
    ensures forall i :: 0 <= i < |es| ==> WfCst(WalkArray(es, s, path, host, accepted).0[i])
    decreases es, 0
  {
    if es != [] {
      var k := |es| - 1;
      assert WfCEntry(false, es[k]);
      WalkArrayWf(es[..k], s, path, host, accepted);
      ItemSchemaWf(s, k);
      WalkEntryWf(false, es[k], ItemSchema(s, k), path + [IndexText(k)], host, accepted);
      hide WfCst, WalkEntry, ItemSchema;
    }
  }

  lemma {:induction false} WalkEntryWf(isObject: bool, e: CEntry, raw: Schema, path: Path, host: Host, accepted: set<Path>)
    requires WfCEntry(isObject, e) && WfSchema(raw) && HostOk(host)
    ensures WfCst(WalkEntry(e, raw, path, host, accepted).cst)
    decreases e, 0
  {
    WalkWellFormed(e.value, raw, path, host, accepted);
  }

  // ---- no reported edit, no change ---------------------------------------------------------------------------------------------

  lemma EditedBoth(a: Report, b: Report)
    ensures Edited(Both(a, b)) == (Edited(a) || Edited(b))
  {
  }

  lemma {:induction false} NothingAdded(ps: seq<Property>, body: Option<Body>, ws: seq<Walked>, path: Path, host: Host, accepted: set<Path>)
    requires Additions(ps, body, ws, path, host, accepted).1.added == []
    ensures Additions(ps, body, ws, path, host, accepted).0 == []
    decreases |ps|
  {
    if ps != [] {
      hide Addition;
      NothingAdded(ps[..|ps| - 1], body, ws, path, host, accepted);
    }
  }

  ghost predicate SameText(ws: seq<Walked>) {
    forall w :: w in ws ==> Unparse(w.child) == Text(w.original)
  }

  lemma FinishObjectSame(c: Cst, ws: seq<Walked>, below: Report, body: Option<Body>, path: Path, host: Host, accepted: set<Path>)
    requires c.CContainer? && SameText(ws) && !Edited(FinishObject(c, ws, below, body, path, host, accepted).report)
    ensures FinishObject(c, ws, below, body, path, host, accepted).cst == Trim(c)
  {
    var ps := PropertiesOf(body);
    hide Kept, Additions, DecideAll, PropertiesOf, Trim, Unparse, Dropped;
    var decided, more := DecideAll(ps, body, ws, path, host, accepted), Additions(ps, body, ws, path, host, accepted);
    EditedBoth(Both(below, decided), Both(NOTHING.(removed := RemovedPaths(ws, decided.suggestions, path)), more.1));
    EditedBoth(NOTHING.(removed := RemovedPaths(ws, decided.suggestions, path)), more.1);
    NothingAdded(ps, body, ws, path, host, accepted);
  }

  /** What is below is part of the report. */
  lemma FinishObjectBelow(c: Cst, ws: seq<Walked>, below: Report, body: Option<Body>, path: Path, host: Host, accepted: set<Path>)
    requires c.CContainer? && !Edited(FinishObject(c, ws, below, body, path, host, accepted).report)
    ensures !Edited(below)
  {
    hide Kept, Additions, DecideAll, PropertiesOf, Trim, Dropped, SomeDiffer, RemovedPaths;
  }

  /** When nothing is added, removed or converted, every character between the first and the last token stays. */
  lemma {:induction false} NoEditsNoChange(c: Cst, raw: Schema, path: Path, host: Host, accepted: set<Path>)
    requires !Edited(Walk(c, raw, path, host, accepted).report)
    ensures Unparse(Walk(c, raw, path, host, accepted).cst) == Text(c)
    decreases c, 1
  {
    var s := Normalized(raw);
    if c.CContainer? {
      if c.isObject {
        hide FinishObject, Unparse, Trim, Normalized;
        var walked := WalkObject(c.entries, s, path, host, accepted);
        FinishObjectBelow(c, walked.0, walked.1, s, path, host, accepted);
        ObjectSame(c.entries, s, path, host, accepted);
        FinishObjectSame(c, walked.0, walked.1, s, path, host, accepted);
      } else {
        hide Unparse, Trim, Normalized;
        ArraySame(c.entries, s, path, host, accepted);
      }
    }
  }

  lemma {:induction false} ObjectSame(es: seq<CEntry>, s: Option<Body>, path: Path, host: Host, accepted: set<Path>)
    requires !Edited(WalkObject(es, s, path, host, accepted).1)
    ensures SameText(WalkObject(es, s, path, host, accepted).0)
    decreases es, 0
  {
    if es != [] {
      var e := es[|es| - 1];
      var key := KeyOf(e, host);
      hide Edited, Both, Unparse, Text, WalkEntry, ChildSchema, KeyOf, Forbids;
      EditedBoth(WalkObject(es[..|es| - 1], s, path, host, accepted).1,
                 WalkEntry(e, ChildSchema(s, key), path + [key], host, accepted).report);
      ObjectSame(es[..|es| - 1], s, path, host, accepted);
      EntrySame(e, ChildSchema(s, key), path + [key], host, accepted);
    }
  }

  lemma {:induction false} ArraySame(es: seq<CEntry>, s: Option<Body>, path: Path, host: Host, accepted: set<Path>)
    requires !Edited(WalkArray(es, s, path, host, accepted).1)
    ensures forall i :: 0 <= i < |es| ==> Unparse(WalkArray(es, s, path, host, accepted).0[i]) == Text(es[i].value)
    decreases es, 0
  {
    if es != [] {
      var k := |es| - 1;
      hide Edited, Both, Unparse, Text, WalkEntry, ItemSchema;
      EditedBoth(WalkArray(es[..k], s, path, host, accepted).1,
                 WalkEntry(es[k], ItemSchema(s, k), path + [IndexText(k)], host, accepted).report);
      ArraySame(es[..k], s, path, host, accepted);
      EntrySame(es[k], ItemSchema(s, k), path + [IndexText(k)], host, accepted);
    }
  }

  lemma {:induction false} EntrySame(e: CEntry, raw: Schema, path: Path, host: Host, accepted: set<Path>)
    requires !Edited(WalkEntry(e, raw, path, host, accepted).report)
    ensures Unparse(WalkEntry(e, raw, path, host, accepted).cst) == Text(e.value)
    decreases e, 0
  {
    hide Edited, Unparse, Text;
    NoEditsNoChange(e.value, raw, path, host, accepted);
  }

  // ---- parts of reports and of walks ---------------------------------------------------------------------------------------------

  lemma BothAssoc(a: Report, b: Report, c: Report)
    ensures Both(a, Both(b, c)) == Both(Both(a, b), c)
  {
    Assoc(a.added, b.added, c.added);
    Assoc(a.removed, b.removed, c.removed);
    Assoc(a.lists, b.lists, c.lists);
    Assoc(a.defaults, b.defaults, c.defaults);
    Assoc(a.migrations, b.migrations, c.migrations);
    Assoc(a.suggestions, b.suggestions, c.suggestions);
    Assoc(a.conversions, b.conversions, c.conversions);
  }

  lemma BothNothing(a: Report)
    ensures Both(a, NOTHING) == a && Both(NOTHING, a) == a
  {
    Unit(a.added);
    Unit(a.removed);
    Unit(a.lists);
    Unit(a.defaults);
    Unit(a.migrations);
    Unit(a.suggestions);
    Unit(a.conversions);
  }

  lemma EraseTrim(c: Cst)
    ensures Erase(Trim(c)) == Erase(c)
  {
  }

  lemma EraseSnoc(es: seq<CEntry>, e: CEntry)
    ensures EraseEntries(es + [e]) == EraseEntries(es) + [EraseEntry(e)]
  {
    Snoc(es, e);
  }

  lemma KeptSnoc(ws: seq<Walked>, w: Walked, suggestions: seq<Migration>, path: Path)
    ensures Kept(ws + [w], suggestions, path) ==
            Kept(ws, suggestions, path) + if Dropped(w, suggestions, path) then [] else [BareEntry(Some(w.keyText), w.child)]
    ensures RemovedPaths(ws + [w], suggestions, path) ==
            RemovedPaths(ws, suggestions, path) + if Dropped(w, suggestions, path) then [path + [w.key]] else []
  {
    Snoc(ws, w);
    hide Dropped;
    Unit(Kept(ws, suggestions, path));
    Unit(RemovedPaths(ws, suggestions, path));
  }

  /** A suggestion for the value at this path is pending. */
  ghost predicate Suggested(r: Report, path: Path) {
    exists m :: m in r.suggestions && m.source == path
  }

  /** Derivations of one text derive one tree. */
  lemma SameTextSameTree(a: Cst, b: Cst)
    requires WfCst(a) && WfCst(b) && Unparse(a) == Unparse(b)
    ensures Erase(a) == Erase(b)
  {
    hide WfCst, Unparse, Erase, TokensOf, Solids;
    var text := Unparse(a);
    PlainDerives(a);
    PlainDerives(b);
    SolidsDerives(a, "", "", text);
    SolidsDerives(b, "", "", text);
    EraseWf(a);
    EraseWf(b);
    TokensDetermineTree(Erase(a), Erase(b));
  }

  lemma PlainDerives(c: Cst)
    requires WfCst(c)
    ensures Derives(c, "", "", Unparse(c))
  {
    Unit(Unparse(c));
  }

  lemma {:induction false} NoneDropped(ws: seq<Walked>, suggestions: seq<Migration>, path: Path)
    requires RemovedPaths(ws, suggestions, path) == []
    ensures forall w :: w in ws ==> !Dropped(w, suggestions, path)
    decreases |ws|
  {
    hide Dropped;
    if ws != [] {
      NoneDropped(ws[..|ws| - 1], suggestions, path);
      assert ws == ws[..|ws| - 1] + [ws[|ws| - 1]];
    }
  }

  lemma {:induction false} EraseAt(es: seq<CEntry>, i: nat)
    requires i < |es|
    ensures EraseEntries(es)[i] == EraseEntry(es[i])
    decreases |es|
  {
    hide EraseEntry;
    if i < |es| - 1 {
      EraseAt(es[..|es| - 1], i);
    }
  }

  /** The last entry of an object, walked. */
  function LastWalked(e: CEntry, s: Option<Body>, path: Path, host: Host, accepted: set<Path>): Walked
    requires e.key.Some?
  {
    var key := KeyOf(e, host);
    Walked(key, e.key.value.text, WalkEntry(e, ChildSchema(s, key), path + [key], host, accepted).cst, e.value, Forbids(s, key))
  }

  lemma WalkObjectSnoc(init: seq<CEntry>, e: CEntry, s: Option<Body>, path: Path, host: Host, accepted: set<Path>)
    requires e.key.Some?
    ensures var walked := WalkObject(init, s, path, host, accepted);
            WalkObject(init + [e], s, path, host, accepted) ==
            (walked.0 + [LastWalked(e, s, path, host, accepted)],
             Both(walked.1, WalkEntry(e, ChildSchema(s, KeyOf(e, host)), path + [KeyOf(e, host)], host, accepted).report))
  {
    Snoc(init, e);
    hide WalkEntry, ChildSchema, KeyOf, Forbids, Both;
  }

  lemma WalkArraySnoc(init: seq<CEntry>, e: CEntry, s: Option<Body>, path: Path, host: Host, accepted: set<Path>)
    ensures var walked, k := WalkArray(init, s, path, host, accepted), |init|;
            var out := WalkEntry(e, ItemSchema(s, k), path + [IndexText(k)], host, accepted);
            WalkArray(init + [e], s, path, host, accepted) == (walked.0 + [out.cst], Both(walked.1, out.report))
  {
    Snoc(init, e);
    hide WalkEntry, ItemSchema, IndexText, Both;
  }

  // ---- what is removed, added and converted ------------------------------------------------------------------------------------------

  /** The stored tree has at `at` a key that its schema forbids. */
  ghost predicate ForbiddenAt(n: Node, raw: Schema, path: Path, at: Path, host: Host)
    decreases n, 1
  {
    n.Container? &&
    if n.isObject then ForbiddenMembers(n.entries, Normalized(raw), path, at, host)
    else ForbiddenItems(n.entries, Normalized(raw), path, at, host)
  }

  ghost predicate ForbiddenMembers(es: seq<Entry>, s: Option<Body>, path: Path, at: Path, host: Host)
    decreases es, 0
  {
    exists i :: 0 <= i < |es| && ForbiddenMember(es[i], s, path, at, host)
  }

  ghost predicate ForbiddenMember(e: Entry, s: Option<Body>, path: Path, at: Path, host: Host)
    decreases e, 0
  {
    var key := NodeKey(e, host);
    (at == path + [key] && Forbids(s, key)) || ForbiddenAt(e.node, ChildSchema(s, key), path + [key], at, host)
  }

  ghost predicate ForbiddenItems(es: seq<Entry>, s: Option<Body>, path: Path, at: Path, host: Host)
    decreases es, 0
  {
    exists i :: 0 <= i < |es| && ForbiddenItem(es[i], i, s, path, at, host)
  }

  ghost predicate ForbiddenItem(e: Entry, i: nat, s: Option<Body>, path: Path, at: Path, host: Host)
    decreases e, 0
  {
    ForbiddenAt(e.node, ItemSchema(s, i), path + [IndexText(i)], at, host)
  }

  lemma {:induction false} InitialReports(raw: Schema, path: Path, host: Host)
    ensures var r := Initial(raw, path, host).report;
            r.added == [] && r.removed == [] && r.conversions == [] && r.migrations == [] && r.suggestions == []
    decreases raw, 0
  {
    var s := Normalized(raw);
    if s.Some? && s.value.dflt.NoDefault? && !host.allowsEmpty(s.value) && s.value.isObject && raw.body.hasProperties {
      PartsReport(raw.body.properties, s.value.required, path, host);
    }
  }

  lemma {:induction false} PartsReport(ps: seq<Property>, required: seq<string>, path: Path, host: Host)
    ensures var r := InitialParts(ps, required, path, host).1;
            r.added == [] && r.removed == [] && r.conversions == [] && r.migrations == [] && r.suggestions == []
    decreases ps, 1, |required|
  {
    if required != [] {
      PartsReport(ps, required[..|required| - 1], path, host);
      var i := FindProperty(ps, required[|required| - 1]);
      if i.Some? {
        PartReports(ps[i.value], path, host);
      }
    }
  }

  lemma {:induction false} PartReports(p: Property, path: Path, host: Host)
    ensures var r := InitialPart(p, path, host).report;
            r.added == [] && r.removed == [] && r.conversions == [] && r.migrations == [] && r.suggestions == []
    decreases p, 0
  {
    InitialReports(p.schema, path + [p.name], host);
  }

  lemma {:induction false} DecideReports(ps: seq<Property>, body: Option<Body>, ws: seq<Walked>, path: Path, host: Host, accepted: set<Path>)
    ensures var r := DecideAll(ps, body, ws, path, host, accepted);
            r.added == [] && r.removed == [] && r.conversions == [] && r.lists == [] && r.defaults == []
    decreases |ps|
  {
    hide Decide;
    if ps != [] {
      DecideReports(ps[..|ps| - 1], body, ws, path, host, accepted);
    }
  }

  lemma AdditionReports(p: Property, body: Option<Body>, ws: seq<Walked>, path: Path, host: Host, accepted: set<Path>)
    ensures var made := Addition(p, body, ws, path, host, accepted);
            made.report.added == [] && made.report.removed == [] && made.report.conversions == [] && made.report.migrations == [] &&
            made.report.suggestions == [] && (made.value.Some? ==> !Seen(ws, p.name))
  {
    hide Decide, Initial;
    InitialReports(p.schema, path + [p.name], host);
  }

  /** Only properties that the object lacks are added. */
  ghost predicate LacksOne(at: Path, ps: seq<Property>, ws: seq<Walked>, path: Path) {
    exists p :: p in ps && at == path + [p.name] && !Seen(ws, p.name)
  }

  lemma {:induction false} AdditionsReports(ps: seq<Property>, body: Option<Body>, ws: seq<Walked>, path: Path, host: Host, accepted: set<Path>,
                                            at: Path)
    ensures var r := Additions(ps, body, ws, path, host, accepted).1;
            r.removed == [] && r.conversions == [] && r.migrations == [] && r.suggestions == [] && (at in r.added ==> LacksOne(at, ps, ws, path))
    decreases |ps|
  {
    hide Addition, Seen;
    if ps != [] {
      var k := |ps| - 1;
      AdditionsReports(ps[..k], body, ws, path, host, accepted, at);
      AdditionReports(ps[k], body, ws, path, host, accepted);
      if LacksOne(at, ps[..k], ws, path) {
        var p :| p in ps[..k] && at == path + [p.name] && !Seen(ws, p.name);
        assert p in ps;
      }
      assert ps[k] in ps;
    }
  }

  lemma {:induction false} RemovedAre(ws: seq<Walked>, suggestions: seq<Migration>, path: Path, at: Path)
    ensures at in RemovedPaths(ws, suggestions, path) ==> exists i :: 0 <= i < |ws| && ws[i].forbidden && at == path + [ws[i].key]
    decreases |ws|
  {
    if ws != [] {
      var k := |ws| - 1;
      RemovedAre(ws[..k], suggestions, path, at);
      hide Protected;
    }
  }

  /** What an object reports is reported below it, or is one of its own. */
  lemma FinishOwn(c: Cst, ws: seq<Walked>, below: Report, body: Option<Body>, path: Path, host: Host, accepted: set<Path>, at: Path)
    requires c.CContainer?
    ensures var r := FinishObject(c, ws, below, body, path, host, accepted).report;
            (at in r.removed ==> at in below.removed || exists i :: 0 <= i < |ws| && ws[i].forbidden && at == path + [ws[i].key]) &&
            (at in r.added ==> at in below.added || LacksOne(at, PropertiesOf(body), ws, path)) &&
            r.conversions == below.conversions
  {
    var ps := PropertiesOf(body);
    hide PropertiesOf, DecideAll, Additions, RemovedPaths, Kept, SomeDiffer, Trim, LacksOne;
    var decided := DecideAll(ps, body, ws, path, host, accepted);
    DecideReports(ps, body, ws, path, host, accepted);
    AdditionsReports(ps, body, ws, path, host, accepted, at);
    RemovedAre(ws, decided.suggestions, path, at);
  }

  /** Every path reported as removed held a key that the schema forbids. */
  lemma {:induction false} RemovedAreForbidden(c: Cst, raw: Schema, path: Path, host: Host, accepted: set<Path>, at: Path)
    requires WfCst(c) && at in Walk(c, raw, path, host, accepted).report.removed
    ensures ForbiddenAt(Erase(c), raw, path, at, host)
    decreases c, 1
  {
    var s := Normalized(raw);
    if c.CContainer? {
      assert WfCEntries(c.isObject, c.entries);
      if c.isObject {
        var walked := WalkObject(c.entries, s, path, host, accepted);
        hide FinishObject, WalkObject, WfCEntries, Normalized, ForbiddenMembers, EraseEntries;
        FinishOwn(c, walked.0, walked.1, s, path, host, accepted, at);
        ObjectRemoved(c.entries, s, path, host, accepted, at);
      } else {
        hide WalkArray, WfCEntries, Normalized, ForbiddenItems, EraseEntries;
        ArrayRemoved(c.entries, s, path, host, accepted, at);
      }
    }
  }

  lemma ForbiddenSnoc(es: seq<CEntry>, e: CEntry, s: Option<Body>, path: Path, at: Path, host: Host)
    requires ForbiddenMembers(EraseEntries(es), s, path, at, host) || ForbiddenMember(EraseEntry(e), s, path, at, host)
    ensures ForbiddenMembers(EraseEntries(es + [e]), s, path, at, host)
  {
    hide ForbiddenMember, EraseEntries, EraseEntry;
    EraseSnoc(es, e);
    var all := EraseEntries(es) + [EraseEntry(e)];
    if ForbiddenMembers(EraseEntries(es), s, path, at, host) {
      var i :| 0 <= i < |EraseEntries(es)| && ForbiddenMember(EraseEntries(es)[i], s, path, at, host);
      assert all[i] == EraseEntries(es)[i];
    } else {
      assert all[|EraseEntries(es)|] == EraseEntry(e);
    }
  }

  lemma {:induction false} ObjectRemoved(es: seq<CEntry>, s: Option<Body>, path: Path, host: Host, accepted: set<Path>, at: Path)
    requires WfCEntries(true, es)
    requires at in WalkObject(es, s, path, host, accepted).1.removed ||
             exists i :: 0 <= i < |es| && WalkObject(es, s, path, host, accepted).0[i].forbidden &&
                         at == path + [WalkObject(es, s, path, host, accepted).0[i].key]
    ensures ForbiddenMembers(EraseEntries(es), s, path, at, host)
    decreases es, 0
  {
    if es != [] {
      var init, e := es[..|es| - 1], es[|es| - 1];
      var key := KeyOf(e, host);
      assert WfCEntry(true, e) && WfCEntries(true, init);
      assert es == init + [e];
      var walked, w := WalkObject(init, s, path, host, accepted), LastWalked(e, s, path, host, accepted);
      var out := WalkEntry(e, ChildSchema(s, key), path + [key], host, accepted);
      WalkObjectSnoc(init, e, s, path, host, accepted);
      hide WalkObject, WalkEntry, ForbiddenMembers, ForbiddenMember, EraseEntries, ChildSchema, Forbids, WfCEntries, WfCst;
      if at in walked.1.removed || exists i :: 0 <= i < |init| && walked.0[i].forbidden && at == path + [walked.0[i].key] {
        ObjectRemoved(init, s, path, host, accepted, at);
      } else {
        if at !in out.report.removed {
          var i :| 0 <= i < |es| && (walked.0 + [w])[i].forbidden && at == path + [(walked.0 + [w])[i].key];
          assert i == |init|;
        }
        MemberRemoved(e, s, path, host, accepted, at);
      }
      ForbiddenSnoc(init, e, s, path, at, host);
    }
  }

  lemma {:induction false} MemberRemoved(e: CEntry, s: Option<Body>, path: Path, host: Host, accepted: set<Path>, at: Path)
    requires WfCEntry(true, e)
    requires at in WalkEntry(e, ChildSchema(s, KeyOf(e, host)), path + [KeyOf(e, host)], host, accepted).report.removed ||
             (Forbids(s, KeyOf(e, host)) && at == path + [KeyOf(e, host)])
    ensures ForbiddenMember(EraseEntry(e), s, path, at, host)
    decreases e, 0
  {
    hide ChildSchema, Forbids, ForbiddenAt, Walk;
    var key := KeyOf(e, host);
    if at in WalkEntry(e, ChildSchema(s, key), path + [key], host, accepted).report.removed {
      RemovedAreForbidden(e.value, ChildSchema(s, key), path + [key], host, accepted, at);
    }
  }

  lemma {:induction false} ArrayRemoved(es: seq<CEntry>, s: Option<Body>, path: Path, host: Host, accepted: set<Path>, at: Path)
    requires WfCEntries(false, es) && at in WalkArray(es, s, path, host, accepted).1.removed
    ensures ForbiddenItems(EraseEntries(es), s, path, at, host)
    decreases es, 0
  {
    if es != [] {
      var k := |es| - 1;
      var init, e := es[..k], es[k];
      assert WfCEntry(false, e) && WfCEntries(false, init);
      assert es == init + [e];
      var walked := WalkArray(init, s, path, host, accepted);
      WalkArraySnoc(init, e, s, path, host, accepted);
      EraseSnoc(init, e);
      hide WalkArray, WalkEntry, ForbiddenItem, EraseEntries, ItemSchema, WfCEntries, WfCst, EraseEntry, IndexText;
      if at in walked.1.removed {
        ArrayRemoved(init, s, path, host, accepted, at);
        var i :| 0 <= i < |EraseEntries(init)| && ForbiddenItem(EraseEntries(init)[i], i, s, path, at, host);
        assert (EraseEntries(init) + [EraseEntry(e)])[i] == EraseEntries(init)[i];
      } else {
        ItemRemoved(e, k, s, path, host, accepted, at);
        assert (EraseEntries(init) + [EraseEntry(e)])[k] == EraseEntry(e);
      }
    }
  }

  lemma {:induction false} ItemRemoved(e: CEntry, k: nat, s: Option<Body>, path: Path, host: Host, accepted: set<Path>, at: Path)
    requires WfCEntry(false, e) && at in WalkEntry(e, ItemSchema(s, k), path + [IndexText(k)], host, accepted).report.removed
    ensures ForbiddenItem(EraseEntry(e), k, s, path, at, host)
    decreases e, 0
  {
    hide ItemSchema, ForbiddenAt, Walk, IndexText;
    RemovedAreForbidden(e.value, ItemSchema(s, k), path + [IndexText(k)], host, accepted, at);
  }

  lemma {:induction false} FirstNameIs(numbers: seq<EnumNumber>, names: seq<string>, n: int)
    ensures var r := FirstName(numbers, names, n);
            (r.None? <==> forall x :: x in numbers && x.number == n ==> x.name !in names) &&
            (r.Some? ==> r.value in names && EnumNumber(r.value, n) in numbers)
  {
    if numbers != [] {
      FirstNameIs(numbers[1..], names, n);
      assert numbers == [numbers[0]] + numbers[1..];
    }
  }

  /** A stored whole number becomes a name exactly when the schema gives that very number one of its names. */
  lemma ConvertsExactly(s: Body, text: string)
    requires s.enumNames.Some? && s.enumNumbers.Some? && IsIntegerText(text)
    ensures var name := EnumName(Some(s), text);
            (name.Some? <==> exists x :: x in s.enumNumbers.value && x.number == IntegerOf(text) && x.name in s.enumNames.value) &&
            (name.Some? ==> name.value in s.enumNames.value && EnumNumber(name.value, IntegerOf(text)) in s.enumNumbers.value)
  {
    FirstNameIs(s.enumNumbers.value, s.enumNames.value, IntegerOf(text));
  }
}

/**
  The string keys of form paths, and what becomes of input drafts when a list item is removed.

  A key can be decoded (`PathKeyRoundTrip`), so keys are injective, and one path continues
  another exactly when its key continues the other's after a space (`PrefixIff`, the empty
  path excepted; a list in a form always has a field above it, so its path is never empty).
  Removing an item moves each draft to the path its item now has and drops exactly those of
  the item (`DraftFollowsItem`), whatever the order they are visited in.
*/
module PathKeys {
  import opened Seqs
  import opened Strings
  import opened Decimals
  import opened JsonSyntax
  import opened JsonTree

  type Path = seq<string>

  // ---- escaping -----------------------------------------------------------------------------------------

  function ReplaceAll(s: string, c: char, t: string): string {
    if s == "" then "" else (if s[0] == c then t else [s[0]]) + ReplaceAll(s[1..], c, t)
  }

  /** A part with `%`, space and NUL escaped; a lone `%` stands for the empty part. */
  function EscapePart(part: string): string {
    var escaped := ReplaceAll(ReplaceAll(ReplaceAll(part, '%', "%25"), ' ', "%20"), '\0', "%00");
    if escaped == "" then "%" else escaped
  }

  function EscapeAll(path: Path): (r: seq<string>)
    ensures |r| == |path| && forall i :: 0 <= i < |path| ==> r[i] == EscapePart(path[i])
  {
    seq(|path|, i requires 0 <= i < |path| => EscapePart(path[i]))
  }

  function PathKey(path: Path): string {
    Join(EscapeAll(path), " ")
  }

  function EscapeChar(c: char): string {
    if c == '%' then "%25" else if c == ' ' then "%20" else if c == '\0' then "%00" else [c]
  }

  function EscapeChars(s: string): string {
    if s == "" then "" else EscapeChar(s[0]) + EscapeChars(s[1..])
  }

  lemma {:induction false} ReplaceConcat(a: string, b: string, c: char, t: string)
    ensures ReplaceAll(a + b, c, t) == ReplaceAll(a, c, t) + ReplaceAll(b, c, t)
  {
    if a == "" {
      Unit(b);
      Unit(ReplaceAll(b, c, t));
    } else {
      Cons(a, b);
      ReplaceConcat(a[1..], b, c, t);
      Assoc(if a[0] == c then t else [a[0]], ReplaceAll(a[1..], c, t), ReplaceAll(b, c, t));
    }
  }

  lemma ReplaceOne(x: char, c: char, t: string)
    ensures ReplaceAll([x], c, t) == if x == c then t else [x]
  {
    Unit(if x == c then t else [x]);
    assert [x][1..] == "";
  }

  lemma {:induction false} ReplaceAbsent(s: string, c: char, t: string)
    requires c !in s
    ensures ReplaceAll(s, c, t) == s
  {
    if s != "" {
      ReplaceAbsent(s[1..], c, t);
      assert s == [s[0]] + s[1..];
    }
  }

  lemma EscapeOne(x: char)
    ensures ReplaceAll(ReplaceAll(ReplaceAll([x], '%', "%25"), ' ', "%20"), '\0', "%00") == EscapeChar(x)
  {
    hide ReplaceAll;
    ReplaceOne(x, '%', "%25");
    if x == '%' {
      ReplaceAbsent("%25", ' ', "%20");
      ReplaceAbsent("%25", '\0', "%00");
    } else {
      ReplaceOne(x, ' ', "%20");
      ReplaceAbsent("%20", '\0', "%00");
      ReplaceOne(x, '\0', "%00");
    }
  }

  /** The three replacements one after the other replace each character once. */
  lemma {:induction false} ReplacementsAreCharwise(s: string)
    ensures ReplaceAll(ReplaceAll(ReplaceAll(s, '%', "%25"), ' ', "%20"), '\0', "%00") == EscapeChars(s)
  {
    if s != "" {
      ReplacementsAreCharwise(s[1..]);
      EscapeOne(s[0]);
      assert s == [s[0]] + s[1..];
      hide ReplaceAll;
      ReplaceConcat([s[0]], s[1..], '%', "%25");
      ReplaceConcat(ReplaceAll([s[0]], '%', "%25"), ReplaceAll(s[1..], '%', "%25"), ' ', "%20");
      ReplaceConcat(ReplaceAll(ReplaceAll([s[0]], '%', "%25"), ' ', "%20"),
                    ReplaceAll(ReplaceAll(s[1..], '%', "%25"), ' ', "%20"), '\0', "%00");
    }
  }

  lemma EscapePartIs(part: string)
    ensures EscapePart(part) == if part == "" then "%" else EscapeChars(part)
  {
    ReplacementsAreCharwise(part);
  }

  // ---- decoding -------------------------------------------------------------------------------------------

  function UnescapeChars(s: string): string
    decreases |s|
  {
    if s == "" then ""
    else if |s| >= 3 && s[0] == '%' then
      [if s[1..3] == "25" then '%' else if s[1..3] == "20" then ' ' else '\0'] + UnescapeChars(s[3..])
    else [s[0]] + UnescapeChars(s[1..])
  }

  function DecodePart(s: string): string {
    if s == "%" then "" else UnescapeChars(s)
  }

  function DecodeAll(parts: seq<string>): (r: Path)
    ensures |r| == |parts| && forall i :: 0 <= i < |parts| ==> r[i] == DecodePart(parts[i])
  {
    seq(|parts|, i requires 0 <= i < |parts| => DecodePart(parts[i]))
  }

  function DecodeKey(key: string): Path {
    if key == "" then [] else DecodeAll(SplitOn(key, ' '))
  }

  lemma UnescapeOne(c: char, rest: string)
    ensures UnescapeChars(EscapeChar(c) + rest) == [c] + UnescapeChars(rest)
  {
    var s := EscapeChar(c) + rest;
    if |EscapeChar(c)| == 3 {
      assert s[..3] == EscapeChar(c) && s[3..] == rest;
      assert s[1..3] == EscapeChar(c)[1..3];
      assert "%25"[1..3] == "25" && "%20"[1..3] == "20" && "%00"[1..3] == "00";
    } else {
      assert s[0] == c && s[1..] == rest;
    }
  }

  lemma {:induction false} UnescapeEscape(s: string)
    ensures UnescapeChars(EscapeChars(s)) == s
  {
    if s != "" {
      hide UnescapeChars, EscapeChar;
      UnescapeOne(s[0], EscapeChars(s[1..]));
      UnescapeEscape(s[1..]);
      assert s == [s[0]] + s[1..];
    }
  }

  lemma {:induction false} EscapeCharsPlain(s: string)
    ensures ' ' !in EscapeChars(s) && '\0' !in EscapeChars(s) && (s != "" ==> EscapeChars(s) != "")
    ensures EscapeChars(s) != "%"
  {
    if s != "" {
      EscapeCharsPlain(s[1..]);
    }
  }

  lemma PartRoundTrip(part: string)
    ensures DecodePart(EscapePart(part)) == part
    ensures ' ' !in EscapePart(part) && '\0' !in EscapePart(part) && EscapePart(part) != ""
  {
    EscapePartIs(part);
    EscapeCharsPlain(part);
    UnescapeEscape(part);
  }

  ghost predicate SpaceFree(parts: seq<string>) {
    forall i :: 0 <= i < |parts| ==> ' ' !in parts[i]
  }

  lemma {:induction false} SplitJoin(parts: seq<string>)
    requires parts != [] && SpaceFree(parts)
    ensures SplitOn(Join(parts, " "), ' ') == parts
    decreases |parts|
  {
    hide SplitOn;
    if |parts| == 1 {
      SplitNone(parts[0], ' ');
    } else {
      SplitJoin(parts[1..]);
      SplitFirst(parts[0], ' ', Join(parts[1..], " "));
      assert parts == [parts[0]] + parts[1..];
    }
  }

  lemma EscapesSpaceFree(path: Path)
    ensures SpaceFree(EscapeAll(path))
  {
    hide EscapePart;
    forall i | 0 <= i < |path|
      ensures ' ' !in EscapeAll(path)[i]
    {
      PartRoundTrip(path[i]);
    }
  }

  lemma PathKeyRoundTrip(path: Path)
    ensures DecodeKey(PathKey(path)) == path
  {
    hide EscapePart, DecodePart, SplitOn;
    if path != [] {
      EscapesSpaceFree(path);
      SplitJoin(EscapeAll(path));
      PartRoundTrip(path[0]);
      assert PathKey(path) != "" by {
        assert EscapeAll(path)[0] != "";
      }
      forall i | 0 <= i < |path|
        ensures DecodePart(EscapePart(path[i])) == path[i]
      {
        PartRoundTrip(path[i]);
      }
    }
  }

  lemma PathKeyInjective(p: Path, q: Path)
    requires PathKey(p) == PathKey(q)
    ensures p == q
  {
    PathKeyRoundTrip(p);
    PathKeyRoundTrip(q);
  }

  // ---- prefixes ---------------------------------------------------------------------------------------------

  lemma {:induction false} JoinConcat(a: seq<string>, b: seq<string>)
    requires a != [] && b != []
    ensures Join(a + b, " ") == Join(a, " ") + " " + Join(b, " ")
    decreases |a|
  {
    if |a| == 1 {
      assert a + b == [a[0]] + b;
      Tail(a[0], b);
    } else {
      Cons(a, b);
      JoinConcat(a[1..], b);
      JoinRegroup(a[0], Join(a[1..], " "), Join(b, " "));
    }
  }

  lemma JoinRegroup(x: string, y: string, z: string)
    ensures x + " " + (y + " " + z) == x + " " + y + " " + z
  {
    Assoc(x + " ", y + " ", z);
    Assoc(x + " ", y, " ");
  }

  lemma KeyConcat(p: Path, q: Path)
    requires p != [] && q != []
    ensures PathKey(p + q) == PathKey(p) + " " + PathKey(q)
  {
    assert EscapeAll(p + q) == EscapeAll(p) + EscapeAll(q);
    hide EscapePart;
    JoinConcat(EscapeAll(p), EscapeAll(q));
  }

  /** A space-free list of parts whose join continues another's after a space continues the list. */
  lemma {:induction false} JoinPrefix(a: seq<string>, b: seq<string>, rest: string)
    requires a != [] && b != [] && SpaceFree(a) && SpaceFree(b) && Join(b, " ") == Join(a, " ") + " " + rest
    ensures |a| < |b| && a == b[..|a|]
    decreases |a|
  {
    hide SplitOn;
    var tail := if |a| == 1 then rest else Join(a[1..], " ") + " " + rest;
    assert Join(b, " ") == a[0] + " " + tail by {
      if |a| > 1 {
        JoinRegroup(a[0], Join(a[1..], " "), rest);
      }
    }
    SplitFirst(a[0], ' ', tail);
    SplitJoin(b);
    assert ([a[0]] + SplitOn(tail, ' '))[0] == a[0];
    assert b[0] == a[0] && |b| > 1;
    if |a| > 1 {
      assert (a[0] + " " + tail)[|a[0]| + 1..] == tail;
      assert (b[0] + " " + Join(b[1..], " "))[|b[0]| + 1..] == Join(b[1..], " ");
      JoinPrefix(a[1..], b[1..], rest);
      assert b[..|a|] == [b[0]] + b[1..][..|a| - 1];
      assert a == [a[0]] + a[1..];
    }
  }

  lemma {:induction false} EscapePrefix(p: Path, q: Path)
    requires |p| <= |q| && EscapeAll(p) == EscapeAll(q)[..|p|]
    ensures p == q[..|p|]
  {
    forall i | 0 <= i < |p|
      ensures p[i] == q[i]
    {
      assert EscapeAll(p)[i] == EscapeAll(q)[i];
      PartRoundTrip(p[i]);
      PartRoundTrip(q[i]);
    }
  }

  /** Paths below a nonempty path are those whose key continues its key after a space. */
  lemma PrefixIff(p: Path, q: Path)
    requires p != []
    ensures PathKey(p) + " " <= PathKey(q) <==> p < q
  {
    hide EscapePart, Join;
    if p < q {
      assert q == p + q[|p|..];
      KeyConcat(p, q[|p|..]);
    }
    if PathKey(p) + " " <= PathKey(q) {
      var rest := PathKey(q)[|PathKey(p)| + 1..];
      Split(PathKey(q), |PathKey(p)| + 1);
      assert PathKey(q) == PathKey(p) + " " + rest;
      EmptyKey();
      EscapesSpaceFree(p);
      EscapesSpaceFree(q);
      JoinPrefix(EscapeAll(p), EscapeAll(q), rest);
      EscapePrefix(p, q);
    }
  }

  lemma EmptyKey()
    ensures PathKey([]) == ""
  {
  }

  /** No key continues the key of the empty path: the rule does not hold there. */
  lemma NothingBelowRootKey(q: Path)
    ensures !(PathKey([]) + " " <= PathKey(q))
  {
    EmptyKey();
    if q != [] {
      PartRoundTrip(q[0]);
      hide EscapePart;
      assert PathKey(q)[0] == EscapeAll(q)[0][0];
      assert EscapeAll(q)[0][0] in EscapeAll(q)[0];
    }
  }

  // ---- drafts of a list --------------------------------------------------------------------------------------

  /** The item index a key part spells, if it spells one the way indexes are written. */
  function IndexPart(s: string): Option<nat> {
    if s != "" && AllDigitChars(s) && (s[0] == '0' ==> s == "0") then Some(DecimalValue(s)) else None
  }

  /** The key of a draft once item `removed` of the list is gone; none if the draft is dropped. */
  function NewKey(listKey: string, removed: nat, key: string): Option<string> {
    var prefix := listKey + " ";
    if !(prefix <= key) then Some(key)
    else
      var path := SplitOn(key[|prefix|..], ' ');
      var index := IndexPart(path[0]);
      if index.None? || index.value < removed then Some(key)
      else if index.value > removed then Some(prefix + Join([Decimal(index.value - 1)] + path[1..], " "))
      else None
  }

  lemma IndexOfDecimal(i: nat)
    ensures IndexPart(Decimal(i)) == Some(i) && ' ' !in Decimal(i) && EscapePart(Decimal(i)) == Decimal(i)
  {
    DecimalRoundTrip(i);
    EscapePartIs(Decimal(i));
    DigitsUnescaped(Decimal(i));
  }

  lemma {:induction false} DigitsUnescaped(s: string)
    requires AllDigitChars(s)
    ensures EscapeChars(s) == s
  {
    if s != "" {
      DigitsUnescaped(s[1..]);
      assert IsDigitChar(s[0]);
      assert s == [s[0]] + s[1..];
    }
  }

  lemma IndexPartIs(s: string)
    requires IndexPart(s).Some?
    ensures Decimal(IndexPart(s).value) == s
  {
    DecimalCanonical(s);
  }

  lemma {:induction false} JoinSplit(s: string)
    ensures Join(SplitOn(s, ' '), " ") == s && SpaceFree(SplitOn(s, ' '))
    decreases |s|
  {
    var at := IndexOf(s, ' ');
    IndexOfIs(s, ' ');
    hide IndexOf;
    if at.Some? {
      var k := at.value;
      JoinSplit(s[k + 1..]);
      Tail(s[..k], SplitOn(s[k + 1..], ' '));
      assert s == s[..k] + " " + s[k + 1..];
    }
  }

  /** The path of something inside item `i` of the list at `list`. */
  function ItemPath(list: Path, i: nat, rest: Path): Path {
    list + ([Decimal(i)] + rest)
  }

  lemma ItemKey(list: Path, i: nat, rest: Path)
    requires list != []
    ensures PathKey(ItemPath(list, i, rest)) == PathKey(list) + " " + Join([Decimal(i)] + EscapeAll(rest), " ")
  {
    IndexOfDecimal(i);
    KeyConcat(list, [Decimal(i)] + rest);
    assert EscapeAll([Decimal(i)] + rest) == [Decimal(i)] + EscapeAll(rest);
  }

  // ---- marked drafts -----------------------------------------------------------------------------------------

  /** What a draft key may end in after its path: nothing, or a part beginning with NUL. */
  predicate IsMark(mark: string) {
    mark == "" || (mark[0] == '\0' && ' ' !in mark)
  }

  const NEW_ITEM := "\0new"

  const NEW_MAP_KEY := "\0newkey"

  /** The one draft key that has no path. */
  const EXTRAS := "\0extras"

  /** The key of a field's draft, or of a new item or map key under way there. */
  function DraftKey(path: Path, mark: string): string {
    if mark == "" then PathKey(path) else PathKey(path) + " " + mark
  }

  function MarkParts(mark: string): seq<string> {
    if mark == "" then [] else [mark]
  }

  /** A marked key is no field's key. */
  lemma MarkedApart(path: Path, mark: string, other: Path)
    requires IsMark(mark) && mark != ""
    ensures DraftKey(path, mark) != PathKey(other)
  {
    hide PathKey;
    KeyNulFree(other);
    assert DraftKey(path, mark)[|PathKey(path)| + 1] == mark[0];
  }

  function Parts(i: nat, rest: Path, mark: string): seq<string> {
    [Decimal(i)] + (EscapeAll(rest) + MarkParts(mark))
  }

  lemma MarkedItemKey(list: Path, i: nat, rest: Path, mark: string)
    requires list != []
    ensures DraftKey(ItemPath(list, i, rest), mark) == PathKey(list) + " " + Join(Parts(i, rest, mark), " ")
  {
    hide PathKey, Join, EscapePart, Decimal;
    ItemKey(list, i, rest);
    var parts := [Decimal(i)] + EscapeAll(rest);
    if mark == "" {
      Unit(EscapeAll(rest));
    } else {
      JoinSnoc(parts, mark, " ");
      Assoc([Decimal(i)], EscapeAll(rest), [mark]);
      var k, t := PathKey(list) + " ", Join(parts, " ");
      Assoc(k, t, " ");
      Assoc(k, t + " ", mark);
    }
  }

  lemma MarkedItemParts(i: nat, rest: Path, mark: string)
    requires IsMark(mark)
    ensures SplitOn(Join(Parts(i, rest, mark), " "), ' ') == Parts(i, rest, mark)
  {
    hide EscapePart, Decimal;
    IndexOfDecimal(i);
    EscapesSpaceFree(rest);
    SplitJoin(Parts(i, rest, mark));
  }

  /** What becomes of a draft inside an item. */
  lemma NewKeyOfItem(list: Path, i: nat, rest: Path, mark: string, removed: nat)
    requires list != [] && IsMark(mark)
    ensures NewKey(PathKey(list), removed, DraftKey(ItemPath(list, i, rest), mark)) ==
            if i < removed then Some(DraftKey(ItemPath(list, i, rest), mark))
            else if i == removed then None
            else Some(DraftKey(ItemPath(list, i - 1, rest), mark))
  {
    hide EscapePart, Decimal, SplitOn, PathKey, IndexPart, ItemPath, Join, IsMark, DraftKey;
    var prefix, tail := PathKey(list) + " ", Join(Parts(i, rest, mark), " ");
    MarkedItemKey(list, i, rest, mark);
    MarkedItemParts(i, rest, mark);
    IndexOfDecimal(i);
    assert (prefix + tail)[|prefix|..] == tail;
    Tail(Decimal(i), EscapeAll(rest) + MarkParts(mark));
    if i > removed {
      MarkedItemKey(list, i - 1, rest, mark);
    }
  }

  /** Drafts elsewhere, the ones of the list itself included, stay where they are. */
  lemma NewKeyElsewhere(list: Path, path: Path, mark: string, removed: nat)
    requires list != [] && IsMark(mark) && !(list < path)
    ensures NewKey(PathKey(list), removed, DraftKey(path, mark)) == Some(DraftKey(path, mark))
  {
    hide PathKey, SplitOn, IndexPart, Decimal;
    PrefixIff(list, path);
    var prefix, key := PathKey(list) + " ", DraftKey(path, mark);
    if mark != "" && prefix <= key {
      MarkedPrefix(list, path, mark);
      assert key[|prefix|..] == mark;
      SplitNone(mark, ' ');
      NotAnIndex(mark);
    }
  }

  lemma NotAnIndex(mark: string)
    requires IsMark(mark) && mark != ""
    ensures IndexPart(mark).None?
  {
    assert !IsDigitChar(mark[0]);
  }

  /** Only marks of the list itself or of what is below it continue the list's key. */
  lemma MarkedPrefix(list: Path, path: Path, mark: string)
    requires list != [] && IsMark(mark) && mark != "" && !(list < path) && PathKey(list) + " " <= DraftKey(path, mark)
    ensures path == list
  {
    hide PathKey;
    var a, b, key := PathKey(list), PathKey(path), DraftKey(path, mark);
    PrefixIff(list, path);
    assert key[|a|] == ' ' && a == key[..|a|];
    if |a| == |b| {
      assert a == b;
      PathKeyInjective(list, path);
    }
  }

  /** A marked draft of the list itself stays, and has no key that a path has. */
  lemma ListMarkStays(list: Path, mark: string, removed: nat, path: Path)
    requires IsMark(mark) && mark != ""
    ensures NewKey(PathKey(list), removed, DraftKey(list, mark)) == Some(DraftKey(list, mark))
    ensures DraftKey(list, mark) != PathKey(path)
  {
    hide PathKey, SplitOn, IndexPart, Decimal;
    var prefix := PathKey(list) + " ";
    assert DraftKey(list, mark)[|prefix|..] == mark;
    SplitNone(mark, ' ');
    NotAnIndex(mark);
    MarkedApart(list, mark, path);
  }

  /** The drafts of an item or a map key being added stay, and neither has a key that a path or the other has. */
  lemma NewItemStays(list: Path, removed: nat, path: Path)
    ensures NewKey(PathKey(list), removed, DraftKey(list, NEW_ITEM)) == Some(DraftKey(list, NEW_ITEM))
    ensures NewKey(PathKey(list), removed, DraftKey(list, NEW_MAP_KEY)) == Some(DraftKey(list, NEW_MAP_KEY))
    ensures DraftKey(list, NEW_ITEM) != PathKey(path) && DraftKey(list, NEW_MAP_KEY) != PathKey(path)
    ensures DraftKey(list, NEW_ITEM) != DraftKey(list, NEW_MAP_KEY)
  {
    assert |DraftKey(list, NEW_ITEM)| < |DraftKey(list, NEW_MAP_KEY)|;
    hide PathKey, NewKey, DraftKey;
    ListMarkStays(list, NEW_ITEM, removed, path);
    ListMarkStays(list, NEW_MAP_KEY, removed, path);
  }

  lemma {:induction false} KeyNulFree(path: Path)
    ensures '\0' !in PathKey(path)
    decreases |path|
  {
    if path != [] {
      PartRoundTrip(path[0]);
      hide EscapePart;
      KeyNulFree(path[1..]);
      assert EscapeAll(path)[1..] == EscapeAll(path[1..]);
    }
  }

  /** Whether a draft moves, and if it does, from which index and with which parts after it. */
  predicate Moves(listKey: string, removed: nat, key: string) {
    listKey + " " <= key && IndexPart(SplitOn(key[|listKey| + 1..], ' ')[0]).Some? &&
    IndexPart(SplitOn(key[|listKey| + 1..], ' ')[0]).value > removed
  }

  lemma MovedParts(listKey: string, removed: nat, key: string)
    requires Moves(listKey, removed, key)
    ensures var parts := SplitOn(key[|listKey| + 1..], ' ');
            var index := IndexPart(parts[0]).value;
            NewKey(listKey, removed, key).Some? &&
            listKey + " " <= NewKey(listKey, removed, key).value &&
            SplitOn(NewKey(listKey, removed, key).value[|listKey| + 1..], ' ') == [Decimal(index - 1)] + parts[1..] &&
            key == listKey + " " + Join(parts, " ")
  {
    hide SplitOn, Join, IndexPart, Decimal;
    var prefix := listKey + " ";
    var parts := SplitOn(key[|prefix|..], ' ');
    var index := IndexPart(parts[0]).value;
    var tail := Join([Decimal(index - 1)] + parts[1..], " ");
    JoinSplit(key[|prefix|..]);
    Split(key, |prefix|);
    IndexOfDecimal(index - 1);
    SplitJoin([Decimal(index - 1)] + parts[1..]);
    assert (prefix + tail)[|prefix|..] == tail;
  }

  /** No two drafts end up under one key. */
  lemma NewKeyInjective(listKey: string, removed: nat, a: string, b: string)
    requires NewKey(listKey, removed, a).Some? && NewKey(listKey, removed, a) == NewKey(listKey, removed, b)
    ensures a == b
  {
    hide SplitOn, Join, IndexPart, Decimal;
    if Moves(listKey, removed, a) && Moves(listKey, removed, b) {
      MovedParts(listKey, removed, a);
      MovedParts(listKey, removed, b);
      var p, q := SplitOn(a[|listKey| + 1..], ' '), SplitOn(b[|listKey| + 1..], ' ');
      SameMoved(p, q);
    } else if Moves(listKey, removed, a) {
      MovedLands(listKey, removed, a);
    } else if Moves(listKey, removed, b) {
      MovedLands(listKey, removed, b);
    }
  }

  lemma SameMoved(p: seq<string>, q: seq<string>)
    requires p != [] && q != [] && IndexPart(p[0]).Some? && IndexPart(q[0]).Some?
    requires IndexPart(p[0]).value > 0 && IndexPart(q[0]).value > 0
    requires [Decimal(IndexPart(p[0]).value - 1)] + p[1..] == [Decimal(IndexPart(q[0]).value - 1)] + q[1..]
    ensures p == q
  {
    hide IndexPart, Decimal;
    var i, j := IndexPart(p[0]).value, IndexPart(q[0]).value;
    Tail(Decimal(i - 1), p[1..]);
    Tail(Decimal(j - 1), q[1..]);
    DecimalInjective(i - 1, j - 1);
    IndexPartIs(p[0]);
    IndexPartIs(q[0]);
    assert p == [p[0]] + p[1..] && q == [q[0]] + q[1..];
  }

  /** A moved draft lands on a key that is itself moved or dropped. */
  lemma MovedLands(listKey: string, removed: nat, key: string)
    requires Moves(listKey, removed, key)
    ensures var k := NewKey(listKey, removed, key).value;
            Moves(listKey, removed, k) || NewKey(listKey, removed, k).None?
  {
    hide SplitOn, Join, IndexPart, Decimal;
    MovedParts(listKey, removed, key);
    var index := IndexPart(SplitOn(key[|listKey| + 1..], ' ')[0]).value;
    IndexOfDecimal(index - 1);
  }

  // ---- the loop over the drafts ----------------------------------------------------------------------------------

  /** Every draft of `keys` is in `next` under its new key, and nothing else is. */
  ghost predicate Reindexed<D(!new)>(drafts: map<string, D>, keys: set<string>, next: map<string, D>, listKey: string, removed: nat) {
    (forall key :: key in keys && key in drafts && NewKey(listKey, removed, key).Some? ==>
       Lands(drafts, next, key, NewKey(listKey, removed, key).value)) &&
    (forall k :: k in next ==> exists key :: key in keys && NewKey(listKey, removed, key) == Some(k))
  }

  ghost predicate Lands<D(!new)>(drafts: map<string, D>, next: map<string, D>, key: string, at: string)
    requires key in drafts
  {
    at in next && next[at] == drafts[key]
  }

  method ReindexListDrafts<D(!new)>(previous: map<string, D>, listKey: string, removed: nat) returns (next: map<string, D>)
    ensures Reindexed(previous, previous.Keys, next, listKey, removed)
  {
    hide NewKey;
    next := map[];
    var left := previous.Keys;
    ghost var done: set<string> := {};
    while left != {}
      invariant done + left == previous.Keys && done !! left
      invariant Reindexed(previous, done, next, listKey, removed)
      decreases left
    {
      var key :| key in left;
      var at := NewKey(listKey, removed, key);
      forall other | other in done && NewKey(listKey, removed, other) == at && at.Some?
        ensures other == key
      {
        NewKeyInjective(listKey, removed, other, key);
      }
      if at.Some? {
        next := next[at.value := previous[key]];
      }
      left := left - {key};
      done := done + {key};
    }
    assert done == previous.Keys;
  }

  /** The index an item had before item `removed` went. */
  function OldIndex(i: nat, removed: nat): nat {
    if i < removed then i else i + 1
  }

  /**
    After item `removed` is gone, the draft found inside item `i` is the one its item had
    before, marked or not, and there is one exactly if there was; the drafts of the removed
    item are gone.
  */
  lemma DraftFollowsItem<D(!new)>(drafts: map<string, D>, next: map<string, D>, list: Path, removed: nat, i: nat, rest: Path, mark: string)
    requires list != [] && IsMark(mark) && Reindexed(drafts, drafts.Keys, next, PathKey(list), removed)
    ensures var was, now := DraftKey(ItemPath(list, OldIndex(i, removed), rest), mark), DraftKey(ItemPath(list, i, rest), mark);
            (now in next <==> was in drafts) && (now in next && was in drafts ==> next[now] == drafts[was])
  {
    hide NewKey, DraftKey, PathKey, ItemPath, IsMark;
    var was, now := DraftKey(ItemPath(list, OldIndex(i, removed), rest), mark), DraftKey(ItemPath(list, i, rest), mark);
    NewKeyOfItem(list, OldIndex(i, removed), rest, mark, removed);
    assert NewKey(PathKey(list), removed, was) == Some(now);
    if was in drafts {
      assert Lands(drafts, next, was, now);
    }
    if now in next {
      var key :| key in drafts.Keys && NewKey(PathKey(list), removed, key) == Some(now);
      NewKeyInjective(PathKey(list), removed, key, was);
    }
  }

  /** Drafts of other fields, of whatever is being added there or to the list, and of the extra keys are not disturbed. */
  lemma OtherDraftsStay<D(!new)>(drafts: map<string, D>, next: map<string, D>, list: Path, removed: nat, key: string)
    requires list != [] && Reindexed(drafts, drafts.Keys, next, PathKey(list), removed)
    requires key == EXTRAS || exists path, mark :: IsMark(mark) && !(list < path) && key == DraftKey(path, mark)
    ensures (key in next <==> key in drafts) && (key in next && key in drafts ==> next[key] == drafts[key])
  {
    hide NewKey, PathKey, DraftKey, IsMark;
    assert NewKey(PathKey(list), removed, key) == Some(key) by {
      if path, mark :| IsMark(mark) && !(list < path) && key == DraftKey(path, mark) {
        NewKeyElsewhere(list, path, mark, removed);
      } else {
        ExtrasStay(PathKey(list), removed);
      }
    }
    if key in drafts {
      assert Lands(drafts, next, key, key);
    }
    if key in next {
      var other :| other in drafts.Keys && NewKey(PathKey(list), removed, other) == Some(key);
      NewKeyInjective(PathKey(list), removed, other, key);
    }
  }

  lemma ExtrasStay(listKey: string, removed: nat)
    ensures NewKey(listKey, removed, EXTRAS) == Some(EXTRAS)
  {
    hide SplitOn, Join, IndexPart, Decimal;
    var prefix := listKey + " ";
    assert prefix[|listKey|] == ' ' && ' ' !in EXTRAS;
  }
}

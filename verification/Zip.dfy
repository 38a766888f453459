/**
  The stored-method ZIP archives of the console: local headers, central directory, end record.

  The reference is a reader after sections 4.3.7, 4.3.12 and 4.3.16 of PKWARE APPNOTE.TXT: it
  starts from the end record, walks the central directory, which must fill the size stated, and
  follows each offset to a local header, which must agree with the central one.  `ZipReadsBack`:
  it recovers every entry, in order, from every archive shorter than 2^32 bytes.
*/
module Zip {
  import opened Seqs
  import opened JsonSyntax
  import opened Crc

  type Bytes = seq<Byte>

  // ---- little-endian numbers -----------------------------------------------------------------------

  function Pow256(n: nat): (r: nat)
    ensures r > 0
  {
    if n == 0 then 1 else 256 * Pow256(n - 1)
  }

  /** The lowest `width` bytes of a number, lowest first; what does not fit is dropped. */
  function Le(width: nat, v: nat): (b: Bytes)
    ensures |b| == width
  {
    if width == 0 then [] else [v % 256] + Le(width - 1, v / 256)
  }

  function Value(b: Bytes): nat {
    if b == [] then 0 else b[0] + 256 * Value(b[1..])
  }

  lemma {:induction false} ValueOfLe(width: nat, v: nat)
    requires v < Pow256(width)
    ensures Value(Le(width, v)) == v
    decreases width
  {
    if width > 0 {
      ValueOfLe(width - 1, v / 256);
      Tail(v % 256, Le(width - 1, v / 256));
    }
  }

  // ---- records of fixed-width fields ----------------------------------------------------------------------

  datatype Field = Field(width: nat, value: nat)

  predicate Fit(fs: seq<Field>) {
    forall i :: 0 <= i < |fs| ==> fs[i].value < Pow256(fs[i].width)
  }

  function Encode(fs: seq<Field>): Bytes {
    if fs == [] then [] else Le(fs[0].width, fs[0].value) + Encode(fs[1..])
  }

  function Widths(fs: seq<Field>): (ws: seq<nat>)
    ensures |ws| == |fs| && forall i :: 0 <= i < |fs| ==> ws[i] == fs[i].width
  {
    seq(|fs|, i requires 0 <= i < |fs| => fs[i].width)
  }

  function Values(fs: seq<Field>): (vs: seq<nat>)
    ensures |vs| == |fs| && forall i :: 0 <= i < |fs| ==> vs[i] == fs[i].value
  {
    seq(|fs|, i requires 0 <= i < |fs| => fs[i].value)
  }

  function Total(ws: seq<nat>): nat {
    if ws == [] then 0 else ws[0] + Total(ws[1..])
  }

  /** The numbers found at a position, given their widths. */
  function FieldsAt(a: Bytes, pos: nat, ws: seq<nat>): (vs: seq<nat>)
    requires pos + Total(ws) <= |a|
    ensures |vs| == |ws|
    decreases |ws|
  {
    if ws == [] then [] else [Value(a[pos..pos + ws[0]])] + FieldsAt(a, pos + ws[0], ws[1..])
  }

  lemma {:induction false} EncodeLength(fs: seq<Field>)
    ensures |Encode(fs)| == Total(Widths(fs))
    decreases |fs|
  {
    if fs != [] {
      EncodeLength(fs[1..]);
      assert Widths(fs)[1..] == Widths(fs[1..]);
    }
  }

  lemma {:induction false} FieldsReadBack(pre: Bytes, fs: seq<Field>, post: Bytes)
    requires Fit(fs)
    ensures |pre| + Total(Widths(fs)) <= |pre + (Encode(fs) + post)|
    ensures FieldsAt(pre + (Encode(fs) + post), |pre|, Widths(fs)) == Values(fs)
    decreases |fs|
  {
    EncodeLength(fs);
    if fs != [] {
      hide Le, Value;
      var b, e := Le(fs[0].width, fs[0].value), Encode(fs[1..]);
      assert Widths(fs)[1..] == Widths(fs[1..]);
      assert Fit(fs[1..]);
      FieldsReadBack(pre + b, fs[1..], post);
      ValueOfLe(fs[0].width, fs[0].value);
      assert Values(fs) == [fs[0].value] + Values(fs[1..]);
      ReadFirst(pre, b, e, post);
    }
  }

  lemma ReadFirst(pre: Bytes, b: Bytes, e: Bytes, post: Bytes)
    ensures pre + ((b + e) + post) == (pre + b) + (e + post)
    ensures (pre + ((b + e) + post))[|pre|..|pre| + |b|] == b
  {
    Assoc(b, e, post);
    Assoc(pre, b, e + post);
  }

  // ---- the records -------------------------------------------------------------------------------------------

  const LOCAL: nat := 0x04034b50
  const CENTRAL: nat := 0x02014b50
  const END: nat := 0x06054b50

  /** What is stored of an entry. */
  datatype Stored = Stored(name: Bytes, mode: nat, content: Bytes)

  function Number(r: bv32): (n: nat)
    ensures n < 0x1_0000_0000
  {
    r as int
  }

  function Checksum(content: Bytes): (n: nat)
    ensures n < 0x1_0000_0000
  {
    Number(CrcOf(MessageBits(content)))
  }

  function LocalFields(f: Stored): (fs: seq<Field>)
    ensures |fs| == 11
  {
    [Field(4, LOCAL), Field(2, 20), Field(2, 0x0800), Field(2, 0), Field(2, 0), Field(2, 33),
     Field(4, Checksum(f.content)), Field(4, |f.content|), Field(4, |f.content|), Field(2, |f.name|), Field(2, 0)]
  }

  function Local(f: Stored): Bytes {
    Encode(LocalFields(f)) + (f.name + f.content)
  }

  /** Unix regular file type and permission bits in the upper half. */
  function Attributes(mode: nat): nat {
    (0x8000 + mode) * 0x1_0000
  }

  function CentralFields(f: Stored, offset: nat): (fs: seq<Field>)
    ensures |fs| == 17
  {
    [Field(4, CENTRAL), Field(2, 3 * 256 + 20), Field(2, 20), Field(2, 0x0800), Field(2, 0), Field(2, 0), Field(2, 33),
     Field(4, Checksum(f.content)), Field(4, |f.content|), Field(4, |f.content|), Field(2, |f.name|),
     Field(2, 0), Field(2, 0), Field(2, 0), Field(2, 0), Field(4, Attributes(f.mode)), Field(4, offset)]
  }

  function Central(f: Stored, offset: nat): Bytes {
    Encode(CentralFields(f, offset)) + f.name
  }

  function EndFields(count: nat, size: nat, offset: nat): (fs: seq<Field>)
    ensures |fs| == 8
  {
    [Field(4, END), Field(2, 0), Field(2, 0), Field(2, count), Field(2, count), Field(4, size), Field(4, offset), Field(2, 0)]
  }

  function Locals(fs: seq<Stored>): Bytes {
    if fs == [] then [] else Locals(fs[..|fs| - 1]) + Local(fs[|fs| - 1])
  }

  function Centrals(fs: seq<Stored>): Bytes {
    if fs == [] then [] else Centrals(fs[..|fs| - 1]) + Central(fs[|fs| - 1], |Locals(fs[..|fs| - 1])|)
  }

  function Archive(fs: seq<Stored>): Bytes {
    Locals(fs) + (Centrals(fs) + Encode(EndFields(|fs|, |Centrals(fs)|, |Locals(fs)|)))
  }

  // ---- a reader -------------------------------------------------------------------------------------------------

  const LOCAL_WIDTHS: seq<nat> := [4, 2, 2, 2, 2, 2, 4, 4, 4, 2, 2]
  const CENTRAL_WIDTHS: seq<nat> := [4, 2, 2, 2, 2, 2, 2, 4, 4, 4, 2, 2, 2, 2, 2, 4, 4]
  const END_WIDTHS: seq<nat> := [4, 2, 2, 2, 2, 4, 4, 2]

  /** Bit 11 of the flags marks UTF-8 names (section 4.4.4); 3 is the Unix host (section 4.4.2). */
  const UTF8_NAMES: nat := 0x0800
  const UNIX: nat := 3

  /** Calendar date of a packed date (section 4.4.6). */
  datatype Date = Date(year: nat, month: nat, day: nat)

  function DateOf(packed: nat): Date {
    Date(1980 + packed / 512, packed / 32 % 16, packed % 32)
  }

  /** What a reader learns of one file. */
  datatype File = File(name: Bytes, writer: nat, date: Date, time: nat, unixMode: nat, dosAttributes: nat, size: nat, checksum: nat, content: Bytes)

  /** Stored, not encrypted, no trailing descriptor, named in UTF-8, and no more than version 2.0 asked of the reader. */
  predicate Supported(version: nat, flags: nat, compression: nat) {
    version <= 20 && flags == UTF8_NAMES && compression == 0
  }

  function RecordAt(a: Bytes, pos: nat, ws: seq<nat>): Option<seq<nat>> {
    if pos + Total(ws) > |a| then None else Some(FieldsAt(a, pos, ws))
  }

  function SliceAt(a: Bytes, pos: nat, n: nat): Option<Bytes> {
    if pos + n > |a| then None else Some(a[pos..pos + n])
  }

  predicate CentralOk(c: seq<nat>) {
    |c| == 17 && c[0] == CENTRAL && c[1] / 256 == UNIX && Supported(c[2], c[3], c[4]) && c[13] == 0
  }

  /** A local header repeats time, date, checksum and both sizes of the central one. */
  predicate LocalOk(h: seq<nat>, c: seq<nat>) {
    |h| == 11 && |c| == 17 && h[0] == LOCAL && Supported(h[1], h[2], h[3]) && h[4..9] == c[5..10]
  }

  function Described(name: Bytes, c: seq<nat>, content: Bytes): File
    requires |c| == 17
  {
    File(name, c[1], DateOf(c[6]), c[5], c[15] / 0x1_0000, c[15] % 0x1_0000, c[9], c[7], content)
  }

  /** The stored file whose local header is at `pos` and agrees with its central header. */
  function ReadLocal(a: Bytes, name: Bytes, c: seq<nat>, pos: nat): Option<File> {
    var h := RecordAt(a, pos, LOCAL_WIDTHS);
    if h.None? || !LocalOk(h.value, c) then None
    else
      var localName := SliceAt(a, pos + 30, h.value[9]);
      var content := SliceAt(a, pos + 30 + h.value[9] + h.value[10], c[8]);
      if localName != Some(name) || content.None? then None
      else Some(Described(name, c, content.value))
  }

  /** The next `n` entries of a central directory, which are to fill it up to `end`. */
  function ReadEntries(a: Bytes, pos: nat, n: nat, end: nat): Option<seq<File>>
    decreases n
  {
    if n == 0 then (if pos == end then Some([]) else None)
    else
      var h := RecordAt(a, pos, CENTRAL_WIDTHS);
      if h.None? || !CentralOk(h.value) then None
      else
        var name := SliceAt(a, pos + 46, h.value[10]);
        if name.None? then None
        else
          var file := ReadLocal(a, name.value, h.value, h.value[16]);
          var rest := ReadEntries(a, pos + 46 + h.value[10] + h.value[11] + h.value[12], n - 1, end);
          if file.None? || rest.None? then None else Some([file.value] + rest.value)
  }

  /** One disk, both counts alike, and the directory right before the end record. */
  predicate EndOk(e: seq<nat>, at: nat) {
    |e| == 8 && e[0] == END && e[1] == 0 && e[2] == 0 && e[3] == e[4] && e[6] + e[5] == at && e[7] == 0
  }

  function ReadZip(a: Bytes): Option<seq<File>> {
    if |a| < 22 then None
    else
      var e := RecordAt(a, |a| - 22, END_WIDTHS);
      if e.None? || !EndOk(e.value, |a| - 22) then None
      else ReadEntries(a, e.value[6], e.value[4], |a| - 22)
  }

  // ---- reading back -------------------------------------------------------------------------------------------------

  predicate Storable(f: Stored) {
    |f.name| <= 0xffff && f.mode <= 0x1ff
  }

  function FileOf(f: Stored): File {
    File(f.name, 0x0314, Date(1980, 1, 1), 0, 0x8000 + f.mode, 0, |f.content|, Checksum(f.content), f.content)
  }

  function FilesOf(fs: seq<Stored>): (r: seq<File>)
    ensures |r| == |fs| && forall i :: 0 <= i < |fs| ==> r[i] == FileOf(fs[i])
  {
    seq(|fs|, i requires 0 <= i < |fs| => FileOf(fs[i]))
  }

  lemma Powers()
    ensures Pow256(2) == 0x1_0000 && Pow256(4) == 0x1_0000_0000
  {
    assert Pow256(1) == 256;
    assert Pow256(3) == 0x100_0000;
  }

  lemma LocalRead(pre: Bytes, f: Stored, post: Bytes)
    requires Storable(f) && |f.content| < 0x1_0000_0000
    ensures RecordAt(pre + (Local(f) + post), |pre|, LOCAL_WIDTHS) == Some(Values(LocalFields(f)))
  {
    hide Checksum, Encode, FieldsAt;
    Powers();
    var fs := LocalFields(f);
    assert Fit(fs);
    assert Widths(fs) == LOCAL_WIDTHS;
    Assoc(Encode(fs), f.name + f.content, post);
    FieldsReadBack(pre, fs, (f.name + f.content) + post);
  }

  lemma CentralRead(pre: Bytes, f: Stored, offset: nat, post: Bytes)
    requires Storable(f) && |f.content| < 0x1_0000_0000 && offset < 0x1_0000_0000
    ensures RecordAt(pre + (Central(f, offset) + post), |pre|, CENTRAL_WIDTHS) == Some(Values(CentralFields(f, offset)))
  {
    hide Checksum, Encode, FieldsAt;
    Powers();
    var fs := CentralFields(f, offset);
    assert Fit(fs);
    assert Widths(fs) == CENTRAL_WIDTHS;
    Assoc(Encode(fs), f.name, post);
    FieldsReadBack(pre, fs, f.name + post);
  }

  lemma EndRead(pre: Bytes, count: nat, size: nat, offset: nat)
    requires count <= 0xffff && size < 0x1_0000_0000 && offset < 0x1_0000_0000
    ensures RecordAt(pre + Encode(EndFields(count, size, offset)), |pre|, END_WIDTHS) == Some(Values(EndFields(count, size, offset)))
    ensures |Encode(EndFields(count, size, offset))| == 22
  {
    hide Encode, FieldsAt;
    Powers();
    var fs := EndFields(count, size, offset);
    assert Fit(fs);
    assert Widths(fs) == END_WIDTHS;
    EncodeLength(fs);
    EndTotal();
    Unit(Encode(fs));
    FieldsReadBack(pre, fs, []);
  }

  lemma TotalCons(w: nat, ws: seq<nat>)
    ensures Total([w] + ws) == w + Total(ws)
  {
    Tail(w, ws);
  }

  lemma EndTotal()
    ensures Total(END_WIDTHS) == 22
  {
    var a: seq<nat> := [4, 2, 2, 2];
    var b: seq<nat> := [2, 4, 4, 2];
    assert END_WIDTHS == a + b;
    TotalOf4(4, 2, 2, 2, b);
    TotalOf4(2, 4, 4, 2, []);
    assert b == [2, 4, 4, 2] + [];
  }

  lemma TotalOf4(a: nat, b: nat, c: nat, d: nat, ws: seq<nat>)
    ensures Total([a, b, c, d] + ws) == a + b + c + d + Total(ws)
  {
    hide Total;
    assert [a, b, c, d] + ws == [a] + ([b] + ([c] + ([d] + ws)));
    TotalCons(a, [b] + ([c] + ([d] + ws)));
    TotalCons(b, [c] + ([d] + ws));
    TotalCons(c, [d] + ws);
    TotalCons(d, ws);
  }

  lemma LocalLength(f: Stored)
    ensures |Encode(LocalFields(f))| == 30
  {
    hide Checksum, Encode, Total;
    var fs := LocalFields(f);
    EncodeLength(fs);
    assert Widths(fs) == [4, 2, 2, 2] + ([2, 2, 4, 4] + [4, 2, 2]);
    TotalOf4(4, 2, 2, 2, [2, 2, 4, 4] + [4, 2, 2]);
    TotalOf4(2, 2, 4, 4, [4, 2, 2]);
    TotalOf3(4, 2, 2);
  }

  lemma TotalOf3(a: nat, b: nat, c: nat)
    ensures Total([a, b, c]) == a + b + c
  {
    TotalCons(a, [b, c]);
    TotalCons(b, [c]);
    TotalOf1(c);
    assert [a, b, c] == [a] + [b, c] && [b, c] == [b] + [c];
  }

  lemma CentralLength(f: Stored, offset: nat)
    ensures |Encode(CentralFields(f, offset))| == 46
  {
    hide Checksum, Encode, Total, Attributes;
    var fs := CentralFields(f, offset);
    EncodeLength(fs);
    var tail: seq<nat> := [2, 2, 2, 4] + [4];
    assert Widths(fs) == [4, 2, 2, 2] + ([2, 2, 2, 4] + ([4, 4, 2, 2] + tail));
    TotalOf4(4, 2, 2, 2, [2, 2, 2, 4] + ([4, 4, 2, 2] + tail));
    TotalOf4(2, 2, 2, 4, [4, 4, 2, 2] + tail);
    TotalOf4(4, 4, 2, 2, tail);
    TotalOf4(2, 2, 2, 4, [4]);
    assert Total([4]) == 4 by {
      TotalOf1(4);
    }
  }

  lemma TotalOf1(a: nat)
    ensures Total([a]) == a
  {
    assert [a][1..] == [];
  }

  lemma SliceMiddle(pre: Bytes, h: Bytes, x: Bytes, post: Bytes)
    ensures SliceAt(pre + ((h + x) + post), |pre| + |h|, |x|) == Some(x)
  {
    ReadFirst(pre + h, x, [], post);
    Unit(x);
    Assoc(h, x, post);
    Assoc(pre, h, x + post);
  }

  lemma CentralValues(f: Stored, offset: nat)
    ensures var h := Values(CentralFields(f, offset));
            CentralOk(h) && h[1] == 0x0314 && h[5] == 0 && h[6] == 33 && h[7] == Checksum(f.content) && h[8] == |f.content| && h[9] == |f.content| &&
            h[10] == |f.name| && h[11] == 0 && h[12] == 0 && h[15] == Attributes(f.mode) && h[16] == offset
  {
    hide Checksum, Attributes;
  }

  lemma LocalValues(f: Stored, offset: nat)
    ensures var h := Values(LocalFields(f));
            LocalOk(h, Values(CentralFields(f, offset))) && h[9] == |f.name| && h[10] == 0
  {
    hide Checksum, Attributes;
  }

  lemma AttributesSplit(mode: nat)
    ensures Attributes(mode) / 0x1_0000 == 0x8000 + mode && Attributes(mode) % 0x1_0000 == 0
  {
  }

  /** The file of a local header and the central header that points to it. */
  lemma LocalFile(pre: Bytes, f: Stored, post: Bytes, offset: nat)
    requires Storable(f) && |f.content| < 0x1_0000_0000
    ensures ReadLocal(pre + (Local(f) + post), f.name, Values(CentralFields(f, offset)), |pre|) == Some(FileOf(f))
  {
    hide Checksum, Encode, RecordAt, SliceAt, CentralFields, LocalFields, CentralOk, LocalOk, Attributes;
    CentralValues(f, offset);
    LocalValues(f, offset);
    AttributesSplit(f.mode);
    var h := Encode(LocalFields(f));
    LocalRead(pre, f, post);
    LocalLength(f);
    assert Local(f) + post == (h + f.name) + (f.content + post) by {
      Assoc(h, f.name, f.content);
      Assoc(h + f.name, f.content, post);
    }
    SliceMiddle(pre, h, f.name, f.content + post);
    Assoc(h, f.name, f.content);
    SliceMiddle(pre, h + f.name, f.content, post);
  }

  lemma {:induction false} LocalsSplit(fs: seq<Stored>, i: nat) returns (tail: Bytes)
    requires i < |fs|
    ensures Locals(fs) == Locals(fs[..i]) + (Local(fs[i]) + tail)
    decreases |fs|
  {
    hide Local;
    var k := |fs| - 1;
    if i == k {
      tail := [];
      Unit(Local(fs[k]));
    } else {
      var t := LocalsSplit(fs[..k], i);
      assert fs[..k][..i] == fs[..i];
      tail := t + Local(fs[k]);
      Assoc(Locals(fs[..i]), Local(fs[i]) + t, Local(fs[k]));
      Assoc(Local(fs[i]), t, Local(fs[k]));
    }
  }

  function CentralOf(fs: seq<Stored>, i: nat): Bytes
    requires i < |fs|
  {
    Central(fs[i], |Locals(fs[..i])|)
  }

  lemma CentralOfInit(fs: seq<Stored>, i: nat, k: nat)
    requires i < k <= |fs|
    ensures CentralOf(fs[..k], i) == CentralOf(fs, i)
  {
    hide Central, Locals;
    assert fs[..k][..i] == fs[..i];
  }

  lemma {:induction false} CentralsSplit(fs: seq<Stored>, i: nat) returns (tail: Bytes)
    requires i < |fs|
    ensures Centrals(fs) == Centrals(fs[..i]) + (CentralOf(fs, i) + tail)
    decreases |fs|
  {
    hide CentralOf, Centrals;
    var k := |fs| - 1;
    CentralsNext(fs, k);
    assert fs[..|fs|] == fs;
    if i == k {
      tail := [];
      Unit(CentralOf(fs, k));
    } else {
      var t := CentralsSplit(fs[..k], i);
      assert fs[..k][..i] == fs[..i];
      CentralOfInit(fs, i, k);
      tail := t + CentralOf(fs, k);
      Assoc(Centrals(fs[..i]), CentralOf(fs, i) + t, CentralOf(fs, k));
      Assoc(CentralOf(fs, i), t, CentralOf(fs, k));
    }
  }

  lemma CentralsNext(fs: seq<Stored>, i: nat)
    requires i < |fs|
    ensures Centrals(fs[..i + 1]) == Centrals(fs[..i]) + CentralOf(fs, i)
  {
    hide Central;
    assert fs[..i + 1][..i] == fs[..i];
  }

  ghost predicate AllStorable(fs: seq<Stored>) {
    forall i :: 0 <= i < |fs| ==> Storable(fs[i])
  }

  function EndOf(fs: seq<Stored>): Bytes {
    Encode(EndFields(|fs|, |Centrals(fs)|, |Locals(fs)|))
  }

  /** The archive around the local header of entry `i`. */
  lemma AroundLocal(fs: seq<Stored>, i: nat) returns (post: Bytes)
    requires i < |fs|
    ensures Archive(fs) == Locals(fs[..i]) + (Local(fs[i]) + post)
  {
    hide Locals, Local, Centrals, Encode;
    var tail := LocalsSplit(fs, i);
    var rest := Centrals(fs) + EndOf(fs);
    post := tail + rest;
    Assoc(Locals(fs[..i]), Local(fs[i]) + tail, rest);
    Assoc(Local(fs[i]), tail, rest);
  }

  /** The archive around the central header of entry `i`. */
  lemma AroundCentral(fs: seq<Stored>, i: nat) returns (post: Bytes)
    requires i < |fs|
    ensures Archive(fs) == (Locals(fs) + Centrals(fs[..i])) + (CentralOf(fs, i) + post)
  {
    hide Locals, CentralOf, Centrals, Encode;
    var tail := CentralsSplit(fs, i);
    post := tail + EndOf(fs);
    var c := CentralOf(fs, i);
    Assoc(Centrals(fs[..i]), c + tail, EndOf(fs));
    Assoc(c, tail, EndOf(fs));
    Assoc(Locals(fs), Centrals(fs[..i]), c + post);
  }

  lemma OffsetFits(fs: seq<Stored>, i: nat)
    requires i < |fs| && |Archive(fs)| < 0x1_0000_0000
    ensures |Locals(fs[..i])| < 0x1_0000_0000 && |fs[i].content| < 0x1_0000_0000
  {
    hide Locals, Centrals, Encode, LocalFields, Archive;
    var post := AroundLocal(fs, i);
  }

  /** Where the central header of entry `i` starts. */
  function CentralAt(fs: seq<Stored>, i: nat): nat
    requires i <= |fs|
  {
    |Locals(fs)| + |Centrals(fs[..i])|
  }

  lemma CentralAtNext(fs: seq<Stored>, i: nat)
    requires i < |fs|
    ensures CentralAt(fs, i + 1) == CentralAt(fs, i) + 46 + |fs[i].name|
  {
    hide Locals, Centrals, Encode, CentralFields;
    CentralsNext(fs, i);
    CentralLength(fs[i], |Locals(fs[..i])|);
  }

  /** What the reader finds at the central header of entry `i`. */
  lemma CentralHeader(fs: seq<Stored>, i: nat)
    requires i < |fs| && AllStorable(fs) && |Archive(fs)| < 0x1_0000_0000
    ensures RecordAt(Archive(fs), CentralAt(fs, i), CENTRAL_WIDTHS) == Some(Values(CentralFields(fs[i], |Locals(fs[..i])|)))
    ensures SliceAt(Archive(fs), CentralAt(fs, i) + 46, |fs[i].name|) == Some(fs[i].name)
  {
    hide Locals, Centrals, Encode, Archive, RecordAt, SliceAt, CentralFields, Values;
    var pre, f, offset := Locals(fs) + Centrals(fs[..i]), fs[i], |Locals(fs[..i])|;
    assert Storable(f);
    OffsetFits(fs, i);
    var post := AroundCentral(fs, i);
    CentralRead(pre, f, offset, post);
    CentralLength(f, offset);
    SliceMiddle(pre, Encode(CentralFields(f, offset)), f.name, post);
  }

  lemma LocalHeader(fs: seq<Stored>, i: nat)
    requires i < |fs| && AllStorable(fs) && |Archive(fs)| < 0x1_0000_0000
    ensures var f := fs[i];
            ReadLocal(Archive(fs), f.name, Values(CentralFields(f, |Locals(fs[..i])|)), |Locals(fs[..i])|) == Some(FileOf(f))
  {
    hide Locals, Archive, ReadLocal, CentralFields, Values, FileOf, Local;
    assert Storable(fs[i]);
    OffsetFits(fs, i);
    var post := AroundLocal(fs, i);
    LocalFile(Locals(fs[..i]), fs[i], post, |Locals(fs[..i])|);
  }

  lemma EntryRead(fs: seq<Stored>, i: nat)
    requires i < |fs| && AllStorable(fs) && |Archive(fs)| < 0x1_0000_0000
    ensures ReadEntries(Archive(fs), CentralAt(fs, i), |fs| - i, CentralAt(fs, |fs|)) ==
            var rest := ReadEntries(Archive(fs), CentralAt(fs, i + 1), |fs| - (i + 1), CentralAt(fs, |fs|));
            if rest.None? then None else Some([FileOf(fs[i])] + rest.value)
  {
    hide *;
    var f, offset := fs[i], |Locals(fs[..i])|;
    CentralHeader(fs, i);
    CentralValues(f, offset);
    LocalHeader(fs, i);
    CentralAtNext(fs, i);
    EntryUnfold(Archive(fs), CentralAt(fs, i), |fs| - i, CentralAt(fs, |fs|), Values(CentralFields(f, offset)), f);
  }

  lemma EntryUnfold(a: Bytes, pos: nat, n: nat, end: nat, h: seq<nat>, f: Stored)
    requires n > 0 && CentralOk(h)
    requires RecordAt(a, pos, CENTRAL_WIDTHS) == Some(h) && SliceAt(a, pos + 46, h[10]) == Some(f.name)
    requires ReadLocal(a, f.name, h, h[16]) == Some(FileOf(f))
    ensures ReadEntries(a, pos, n, end) ==
            var rest := ReadEntries(a, pos + 46 + h[10] + h[11] + h[12], n - 1, end);
            if rest.None? then None else Some([FileOf(f)] + rest.value)
  {
    hide RecordAt, SliceAt, ReadLocal, FileOf;
  }

  lemma NoEntries(a: Bytes, pos: nat)
    ensures ReadEntries(a, pos, 0, pos) == Some([])
  {
  }

  lemma {:induction false} EntriesRead(fs: seq<Stored>, i: nat)
    requires i <= |fs| && AllStorable(fs) && |Archive(fs)| < 0x1_0000_0000
    ensures ReadEntries(Archive(fs), CentralAt(fs, i), |fs| - i, CentralAt(fs, |fs|)) == Some(FilesOf(fs[i..]))
    decreases |fs| - i
  {
    hide Archive, Locals, Centrals, ReadEntries, FileOf, CentralAt, AllStorable;
    if i == |fs| {
      NoEntries(Archive(fs), CentralAt(fs, i));
      assert fs[i..] == [] && FilesOf(fs[i..]) == [];
    } else {
      EntriesRead(fs, i + 1);
      EntryRead(fs, i);
      assert FilesOf(fs[i..]) == [FileOf(fs[i])] + FilesOf(fs[i + 1..]);
    }
  }

  lemma EndValues(count: nat, size: nat, offset: nat)
    ensures var e := Values(EndFields(count, size, offset));
            EndOk(e, offset + size) && e[4] == count && e[6] == offset
  {
  }

  lemma EndUnfold(a: Bytes, e: seq<nat>)
    requires |a| >= 22 && RecordAt(a, |a| - 22, END_WIDTHS) == Some(e) && EndOk(e, |a| - 22)
    ensures ReadZip(a) == ReadEntries(a, e[6], e[4], |a| - 22)
  {
    hide RecordAt, ReadEntries;
  }

  lemma ArchiveEnd(fs: seq<Stored>)
    ensures Archive(fs) == (Locals(fs) + Centrals(fs)) + EndOf(fs)
    ensures EndOf(fs) == Encode(EndFields(|fs|, |Centrals(fs)|, |Locals(fs)|))
  {
    hide Locals, Centrals, Encode, EndFields;
    Assoc(Locals(fs), Centrals(fs), EndOf(fs));
  }

  lemma CentralEnds(fs: seq<Stored>)
    ensures CentralAt(fs, 0) == |Locals(fs)| && CentralAt(fs, |fs|) == |Locals(fs)| + |Centrals(fs)|
  {
    hide Locals;
    assert fs[..0] == [] && fs[..|fs|] == fs;
  }

  /** Every entry is read back, in order, from an archive below 2^32 bytes. */
  lemma ZipReadsBack(fs: seq<Stored>)
    requires |fs| <= 0xffff && AllStorable(fs) && |Archive(fs)| < 0x1_0000_0000
    ensures ReadZip(Archive(fs)) == Some(FilesOf(fs))
  {
    hide *;
    ArchiveEnd(fs);
    CentralEnds(fs);
    EndRead(Locals(fs) + Centrals(fs), |fs|, |Centrals(fs)|, |Locals(fs)|);
    EndValues(|fs|, |Centrals(fs)|, |Locals(fs)|);
    EndUnfold(Archive(fs), Values(EndFields(|fs|, |Centrals(fs)|, |Locals(fs)|)));
    EntriesRead(fs, 0);
    assert fs[0..] == fs;
  }

  // ---- the writer ------------------------------------------------------------------------------------------------------

  datatype ZipTextEntry = ZipTextEntry(name: string, content: string, mode: Option<real>)

  datatype ZipError = BadCount | BadName | Duplicate(name: string) | TooLarge | BadMode

  datatype Result<T> = Ok(value: T) | Err(error: ZipError)

  /** Text encoding is a foreign call: any function from strings to bytes. */
  type Utf8 = string -> Bytes

  predicate SimpleFilename(name: string, encoded: Bytes) {
    name != "" && name != "." && name != ".." && '\0' !in name && '/' !in name && '\\' !in name && |encoded| <= 0xffff
  }

  function ModeOf(e: ZipTextEntry): real {
    if e.mode.Some? then e.mode.value else 384.0
  }

  predicate PermissionBits(mode: real) {
    mode == mode.Floor as real && 0.0 <= mode <= 511.0
  }

  /** The first check an entry fails, given the names before it. */
  function Refused(e: ZipTextEntry, before: seq<string>, utf8: Utf8): Option<ZipError> {
    if !SimpleFilename(e.name, utf8(e.name)) then Some(BadName)
    else if e.name in before then Some(Duplicate(e.name))
    else if |utf8(e.content)| > 0xffff_ffff then Some(TooLarge)
    else if !PermissionBits(ModeOf(e)) then Some(BadMode)
    else None
  }

  function Names(es: seq<ZipTextEntry>): (r: seq<string>)
    ensures |r| == |es| && forall i :: 0 <= i < |es| ==> r[i] == es[i].name
  {
    seq(|es|, i requires 0 <= i < |es| => es[i].name)
  }

  /** The first refusal, in entry order. */
  function FirstRefusal(es: seq<ZipTextEntry>, utf8: Utf8): Option<ZipError> {
    if es == [] then None
    else
      var init := es[..|es| - 1];
      if FirstRefusal(init, utf8).Some? then FirstRefusal(init, utf8) else Refused(es[|es| - 1], Names(init), utf8)
  }

  function ZipProblem(es: seq<ZipTextEntry>, utf8: Utf8): Option<ZipError> {
    if |es| == 0 || |es| > 0xffff then Some(BadCount) else FirstRefusal(es, utf8)
  }

  function StoredOf(e: ZipTextEntry, utf8: Utf8): Stored {
    Stored(utf8(e.name), if PermissionBits(ModeOf(e)) then ModeOf(e).Floor else 0, utf8(e.content))
  }

  function AllStored(es: seq<ZipTextEntry>, utf8: Utf8): (r: seq<Stored>)
    ensures |r| == |es| && forall i :: 0 <= i < |es| ==> r[i] == StoredOf(es[i], utf8)
  {
    seq(|es|, i requires 0 <= i < |es| => StoredOf(es[i], utf8))
  }

  function Concat(parts: seq<Bytes>): Bytes {
    if parts == [] then [] else Concat(parts[..|parts| - 1]) + parts[|parts| - 1]
  }

  method Join(parts: seq<Bytes>) returns (r: Bytes)
    ensures r == Concat(parts)
  {
    var length := 0;
    assert parts[..0] == [];
    for k := 0 to |parts|
      invariant length == |Concat(parts[..k])|
    {
      assert parts[..k + 1][..k] == parts[..k];
      length := length + |parts[k]|;
    }
    assert parts[..|parts|] == parts;
    var result := new Byte[length](_ => 0);
    var offset := 0;
    for k := 0 to |parts|
      invariant offset == |Concat(parts[..k])| <= length
      invariant result[..offset] == Concat(parts[..k])
    {
      var part := parts[k];
      assert parts[..k + 1][..k] == parts[..k];
      ConcatPrefix(parts, k + 1);
      forall i | 0 <= i < |part| {
        result[offset + i] := part[i];
      }
      assert result[..offset + |part|] == result[..offset] + part;
      offset := offset + |part|;
    }
    r := result[..];
  }

  lemma {:induction false} ConcatPrefix(parts: seq<Bytes>, k: nat)
    requires k <= |parts|
    ensures |Concat(parts[..k])| <= |Concat(parts)|
    decreases |parts|
  {
    if k == |parts| {
      assert parts[..k] == parts;
    } else {
      ConcatPrefix(parts[..|parts| - 1], k);
      assert parts[..|parts| - 1][..k] == parts[..k];
    }
  }

  function Uint16(v: nat): Bytes {
    Le(2, v)
  }

  function Uint32(v: nat): Bytes {
    Le(4, v)
  }

  /** The parts of fixed-width fields. */
  function Parts(fs: seq<Field>): (r: seq<Bytes>)
    ensures |r| == |fs| && forall i :: 0 <= i < |fs| ==> r[i] == Le(fs[i].width, fs[i].value)
  {
    seq(|fs|, i requires 0 <= i < |fs| => Le(fs[i].width, fs[i].value))
  }

  lemma {:induction false} ConcatCons(p: Bytes, parts: seq<Bytes>)
    ensures Concat([p] + parts) == p + Concat(parts)
    decreases |parts|
  {
    var all := [p] + parts;
    if parts == [] {
      assert all[..0] == [];
      Unit(p);
    } else {
      var k := |parts| - 1;
      assert all[..k + 1] == [p] + parts[..k];
      ConcatCons(p, parts[..k]);
      Assoc(p, Concat(parts[..k]), parts[k]);
    }
  }

  lemma {:induction false} PartsJoin(fs: seq<Field>, rest: seq<Bytes>)
    ensures Concat(Parts(fs) + rest) == Encode(fs) + Concat(rest)
    decreases |fs|
  {
    hide Le;
    if fs == [] {
      assert Parts(fs) + rest == rest;
      Unit(Concat(rest));
    } else {
      var p := Le(fs[0].width, fs[0].value);
      assert Parts(fs) == [p] + Parts(fs[1..]);
      Assoc([p], Parts(fs[1..]), rest);
      ConcatCons(p, Parts(fs[1..]) + rest);
      PartsJoin(fs[1..], rest);
      Assoc(p, Encode(fs[1..]), Concat(rest));
    }
  }

  method LocalRecord(f: Stored, checksum: nat) returns (r: Bytes)
    requires checksum == Checksum(f.content)
    ensures r == Local(f)
  {
    hide Le, Concat, Checksum, Encode;
    var size := |f.content|;
    var head := [Uint32(0x04034b50), Uint16(20), Uint16(0x0800), Uint16(0), Uint16(0), Uint16(33),
                 Uint32(checksum), Uint32(size), Uint32(size), Uint16(|f.name|), Uint16(0)];
    assert head == Parts(LocalFields(f));
    PartsJoin(LocalFields(f), [f.name, f.content]);
    ConcatTwo(f.name, f.content);
    r := Join(head + [f.name, f.content]);
  }

  method CentralRecord(f: Stored, checksum: nat, offset: nat) returns (r: Bytes)
    requires checksum == Checksum(f.content)
    ensures r == Central(f, offset)
  {
    hide Le, Concat, Checksum, Encode;
    var size := |f.content|;
    var head := [Uint32(0x02014b50), Uint16(3 * 256 + 20), Uint16(20), Uint16(0x0800), Uint16(0), Uint16(0), Uint16(33),
                 Uint32(checksum), Uint32(size), Uint32(size), Uint16(|f.name|),
                 Uint16(0), Uint16(0), Uint16(0), Uint16(0), Uint32(Attributes(f.mode)), Uint32(offset)];
    assert head == Parts(CentralFields(f, offset));
    PartsJoin(CentralFields(f, offset), [f.name]);
    ConcatOne(f.name);
    r := Join(head + [f.name]);
  }

  method EndRecord(count: nat, size: nat, offset: nat) returns (r: Bytes)
    ensures r == Encode(EndFields(count, size, offset))
  {
    hide Le, Concat, Encode;
    var head := [Uint32(0x06054b50), Uint16(0), Uint16(0), Uint16(count), Uint16(count), Uint32(size), Uint32(offset), Uint16(0)];
    assert head == Parts(EndFields(count, size, offset));
    PartsJoin(EndFields(count, size, offset), []);
    assert head + [] == head;
    ConcatNone();
    Unit(Encode(EndFields(count, size, offset)));
    r := Join(head);
  }

  lemma ConcatNone()
    ensures Concat([]) == []
  {
  }

  lemma ConcatOne(a: Bytes)
    ensures Concat([a]) == a
  {
    assert [a][..0] == [];
    Unit(a);
  }

  lemma ConcatTwo(a: Bytes, b: Bytes)
    ensures Concat([a, b]) == a + b
  {
    ConcatOne(a);
    assert [a, b][..1] == [a];
  }

  lemma ConcatThree(a: Bytes, b: Bytes, c: Bytes)
    ensures Concat([a, b, c]) == a + (b + c)
  {
    ConcatTwo(a, b);
    assert [a, b, c][..2] == [a, b];
    Assoc(a, b, c);
  }

  lemma StoredNext(es: seq<ZipTextEntry>, k: nat, utf8: Utf8)
    requires k < |es|
    ensures AllStored(es[..k + 1], utf8) == AllStored(es[..k], utf8) + [StoredOf(es[k], utf8)]
    ensures Locals(AllStored(es[..k + 1], utf8)) == Locals(AllStored(es[..k], utf8)) + Local(StoredOf(es[k], utf8))
    ensures Centrals(AllStored(es[..k + 1], utf8)) ==
            Centrals(AllStored(es[..k], utf8)) + Central(StoredOf(es[k], utf8), |Locals(AllStored(es[..k], utf8))|)
  {
    hide StoredOf, Local, Central;
    var fs := AllStored(es[..k + 1], utf8);
    assert fs == AllStored(es[..k], utf8) + [StoredOf(es[k], utf8)];
    assert fs[..k] == AllStored(es[..k], utf8);
  }

  lemma RefusalNext(es: seq<ZipTextEntry>, k: nat, utf8: Utf8)
    requires k < |es| && FirstRefusal(es[..k], utf8).None?
    ensures FirstRefusal(es[..k + 1], utf8) == Refused(es[k], Names(es[..k]), utf8)
    ensures Refused(es[k], Names(es[..k]), utf8).Some? ==> FirstRefusal(es, utf8) == Refused(es[k], Names(es[..k]), utf8)
  {
    hide Refused;
    assert es[..k + 1][..k] == es[..k];
    RefusalStays(es, k + 1, utf8);
  }

  lemma {:induction false} RefusalStays(es: seq<ZipTextEntry>, k: nat, utf8: Utf8)
    requires k <= |es|
    ensures FirstRefusal(es[..k], utf8).Some? ==> FirstRefusal(es, utf8) == FirstRefusal(es[..k], utf8)
    decreases |es|
  {
    hide Refused;
    if k == |es| {
      assert es[..k] == es;
    } else {
      RefusalStays(es[..|es| - 1], k, utf8);
      assert es[..|es| - 1][..k] == es[..k];
    }
  }

  /** The archive of the entries, or the first reason to refuse them. */
  method CreateStoredZip(entries: seq<ZipTextEntry>, utf8: Utf8) returns (r: Result<Bytes>)
    ensures r == if ZipProblem(entries, utf8).Some? then Err(ZipProblem(entries, utf8).value)
                 else Ok(Archive(AllStored(entries, utf8)))
  {
    if |entries| == 0 || |entries| > 0xffff {
      return Err(BadCount);
    }
    hide Local, Central, Encode, Locals, Centrals, Concat, CrcOf, FirstRefusal, AllStored, MessageBits;
    var localParts: seq<Bytes>, centralParts: seq<Bytes>, names: set<string>, localOffset := [], [], {}, 0;
    assert entries[..0] == [];
    NothingStored(utf8);
    for k := 0 to |entries|
      invariant FirstRefusal(entries[..k], utf8).None?
      invariant forall s :: s in names <==> s in Names(entries[..k])
      invariant Concat(localParts) == Locals(AllStored(entries[..k], utf8))
      invariant Concat(centralParts) == Centrals(AllStored(entries[..k], utf8))
      invariant localOffset == |Concat(localParts)|
    {
      var e := entries[k];
      RefusalNext(entries, k, utf8);
      StoredNext(entries, k, utf8);
      var name := utf8(e.name);
      if !SimpleFilename(e.name, name) {
        return Err(BadName);
      }
      if e.name in names {
        return Err(Duplicate(e.name));
      }
      names := names + {e.name};
      NamesNext(entries, k);
      var content := utf8(e.content);
      if |content| > 0xffff_ffff {
        return Err(TooLarge);
      }
      var mode := ModeOf(e);
      if !PermissionBits(mode) {
        return Err(BadMode);
      }
      var crc := Crc32(content);
      var checksum := Number(crc);
      var f := Stored(name, mode.Floor, content);
      var local := LocalRecord(f, checksum);
      ConcatSnoc(localParts, local);
      var central := CentralRecord(f, checksum, localOffset);
      ConcatSnoc(centralParts, central);
      localParts := localParts + [local];
      centralParts := centralParts + [central];
      localOffset := localOffset + |local|;
    }
    assert entries[..|entries|] == entries;
    var localDirectory := Join(localParts);
    var centralDirectory := Join(centralParts);
    var end := EndRecord(|entries|, |centralDirectory|, |localDirectory|);
    ConcatThree(localDirectory, centralDirectory, end);
    StoredSize(entries, utf8);
    var archive := Join([localDirectory, centralDirectory, end]);
    r := Ok(archive);
  }

  lemma StoredSize(es: seq<ZipTextEntry>, utf8: Utf8)
    ensures |AllStored(es, utf8)| == |es|
  {
  }

  lemma ConcatSnoc(parts: seq<Bytes>, p: Bytes)
    ensures Concat(parts + [p]) == Concat(parts) + p
  {
    Snoc(parts, p);
  }

  lemma NothingStored(utf8: Utf8)
    ensures FirstRefusal([], utf8).None? && Concat([]) == [] && AllStored([], utf8) == [] && Locals([]) == [] && Centrals([]) == []
  {
  }

  lemma NamesNext(es: seq<ZipTextEntry>, k: nat)
    requires k < |es|
    ensures Names(es[..k + 1]) == Names(es[..k]) + [es[k].name]
  {
  }

  /** Entries that pass the checks are read back from the archive written for them. */
  lemma AcceptedReadBack(entries: seq<ZipTextEntry>, utf8: Utf8)
    requires ZipProblem(entries, utf8).None? && |Archive(AllStored(entries, utf8))| < 0x1_0000_0000
    ensures ReadZip(Archive(AllStored(entries, utf8))) == Some(FilesOf(AllStored(entries, utf8)))
  {
    hide ReadZip, Archive, FilesOf, Refused, FirstRefusal;
    forall i | 0 <= i < |entries|
      ensures Storable(StoredOf(entries[i], utf8))
    {
      NoneRefused(entries, i, utf8);
      assert PermissionBits(ModeOf(entries[i])) && |utf8(entries[i].name)| <= 0xffff by { AcceptedIsSimple(entries[i], Names(entries[..i]), utf8); }
    }
    ZipReadsBack(AllStored(entries, utf8));
  }

  lemma AcceptedIsSimple(e: ZipTextEntry, before: seq<string>, utf8: Utf8)
    requires Refused(e, before, utf8).None?
    ensures PermissionBits(ModeOf(e)) && |utf8(e.name)| <= 0xffff
  {
  }

  lemma {:induction false} NoneRefused(es: seq<ZipTextEntry>, i: nat, utf8: Utf8)
    requires i < |es| && FirstRefusal(es, utf8).None?
    ensures Refused(es[i], Names(es[..i]), utf8).None?
    decreases |es|
  {
    hide Refused;
    var k := |es| - 1;
    if i < k {
      NoneRefused(es[..k], i, utf8);
      assert es[..k][..i] == es[..i];
    }
  }
}

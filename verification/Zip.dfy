/** The uncompressed ZIP writer behind tenant exports, and a reader that follows the PKWARE
    APPNOTE, sections 4.3.7, 4.3.12 and 4.3.16, and knows nothing of the writer. */
module Zip {
  import opened Bytes
  import opened Wrappers

  type Crc = seq<Byte> -> UInt32

  type UInt32 = n: nat | n < 0x1_0000_0000

  /** A path, as UTF-8, and the data stored under it. */
  datatype Entry = Entry(path: seq<Byte>, data: seq<Byte>)

  const LOCAL_SIGNATURE := 0x04034b50
  const CENTRAL_SIGNATURE := 0x02014b50
  const END_SIGNATURE := 0x06054b50

  // Field widths of the three records, in order.
  const LOCAL: seq<nat> := [4, 2, 2, 2, 2, 2, 4, 4, 4, 2, 2]
  const CENTRAL: seq<nat> := [4, 2, 2, 2, 2, 2, 2, 4, 4, 4, 2, 2, 2, 2, 2, 4, 4]
  const END: seq<nat> := [4, 2, 2, 2, 2, 4, 4, 2]

  // ---------------------------------------------------------------------------------
  // Little-endian fields

  function Little(w: nat, v: nat): (s: seq<Byte>)
    ensures |s| == w
  {
    if w == 0 then [] else [v % 256] + Little(w - 1, v / 256)
  }

  /** Numbers of two and four bytes, as a reader computes them. */
  function U16(s: seq<Byte>, i: nat): nat
    requires i + 2 <= |s|
  {
    var a: nat, b: nat := s[i], s[i + 1];
    a + 0x100 * b
  }

  function U32(s: seq<Byte>, i: nat): nat
    requires i + 4 <= |s|
  {
    U16(s, i) + 0x1_0000 * U16(s, i + 2)
  }

  lemma U16Of(s: seq<Byte>, i: nat, v: nat)
    requires Stands(s, i, Little(2, v)) && v < 0x1_0000
    ensures U16(s, i) == v
  {
    assert Little(2, v) == [v % 256] + Little(1, v / 256);
    assert Little(1, v / 256) == [v / 256 % 256] + Little(0, v / 256 / 256);
    assert s[i] == Little(2, v)[0] && s[i + 1] == Little(2, v)[1];
  }

  lemma FourBytes(v: nat)
    ensures Little(4, v) == [v % 256, v / 256 % 256, v / 256 / 256 % 256, v / 256 / 256 / 256 % 256]
  {
    var v1, v2, v3 := v / 256, v / 256 / 256, v / 256 / 256 / 256;
    assert Little(1, v3) == [v3 % 256] + Little(0, v3 / 256);
    assert Little(2, v2) == [v2 % 256] + Little(1, v3);
    assert Little(3, v1) == [v1 % 256] + Little(2, v2);
    assert Little(4, v) == [v % 256] + Little(3, v1);
  }

  lemma U32Of(s: seq<Byte>, i: nat, v: nat)
    requires Stands(s, i, Little(4, v)) && v < 0x1_0000_0000
    ensures U32(s, i) == v
  {
    FourBytes(v);
    var t := s[i..i + 4];
    assert s[i] == t[0] && s[i + 1] == t[1] && s[i + 2] == t[2] && s[i + 3] == t[3];
    Digits(v, v / 256, v / 256 / 256, v / 256 / 256 / 256);
  }

  lemma Digits(v: nat, v1: nat, v2: nat, v3: nat)
    requires v1 == v / 256 && v2 == v1 / 256 && v3 == v2 / 256 && v < 0x1_0000_0000
    ensures v == v % 256 + 0x100 * (v1 % 256) + 0x1_0000 * (v2 % 256 + 0x100 * (v3 % 256))
  {
    assert v == v % 256 + 256 * v1 && v1 == v1 % 256 + 256 * v2 && v2 == v2 % 256 + 256 * v3;
  }

  /** Consecutive fields. */
  function Pack(ws: seq<nat>, vs: seq<nat>): (s: seq<Byte>)
    requires |ws| == |vs|
  {
    if ws == [] then [] else Pack(ws[..|ws| - 1], vs[..|vs| - 1]) + Little(ws[|ws| - 1], vs[|vs| - 1])
  }

  /** `t` stands at position `at` of `s`. */
  predicate Stands(s: seq<Byte>, at: nat, t: seq<Byte>) {
    at + |t| <= |s| && s[at..at + |t|] == t
  }

  lemma StandsParts(s: seq<Byte>, at: nat, t: seq<Byte>, u: seq<Byte>)
    requires Stands(s, at, t + u)
    ensures Stands(s, at, t) && Stands(s, at + |t|, u)
  {
    assert (t + u)[..|t|] == t && (t + u)[|t|..] == u;
    assert s[at..at + |t + u|][..|t|] == s[at..at + |t|];
    assert s[at..at + |t + u|][|t|..] == s[at + |t|..at + |t| + |u|];
  }

  // Where the fields of the three records start, and how long each record is.
  const LOCAL_AT: seq<nat> := [0, 4, 6, 8, 10, 12, 14, 18, 22, 26, 28, 30]
  const CENTRAL_AT: seq<nat> := [0, 4, 6, 8, 10, 12, 14, 16, 20, 24, 28, 30, 32, 34, 36, 38, 42, 46]
  const END_AT: seq<nat> := [0, 4, 6, 8, 10, 12, 16, 20, 22]

  predicate Positions(ws: seq<nat>, ps: seq<nat>) {
    && |ps| == |ws| + 1 && ps[0] == 0
    && forall i :: 0 <= i < |ws| ==> ps[i + 1] == ps[i] + ws[i]
  }

  lemma {:induction false} PackSize(ws: seq<nat>, ps: seq<nat>, vs: seq<nat>)
    requires Positions(ws, ps) && |ws| == |vs|
    ensures |Pack(ws, vs)| == ps[|ws|]
  {
    if ws != [] { PackSize(ws[..|ws| - 1], ps[..|ws|], vs[..|ws| - 1]); }
  }

  /** Each field of a record stands at its position. */
  lemma {:induction false} FieldAt(s: seq<Byte>, at: nat, ws: seq<nat>, ps: seq<nat>, vs: seq<nat>, k: nat)
    requires Positions(ws, ps) && |ws| == |vs| && Stands(s, at, Pack(ws, vs)) && k < |ws|
    ensures Stands(s, at + ps[k], Little(ws[k], vs[k]))
    decreases ws
  {
    var n := |ws| - 1;
    StandsParts(s, at, Pack(ws[..n], vs[..n]), Little(ws[n], vs[n]));
    if k < n {
      FieldAt(s, at, ws[..n], ps[..n + 1], vs[..n], k);
    } else {
      PackSize(ws[..n], ps[..n + 1], vs[..n]);
    }
  }

  /** A number of two or four bytes. */
  function Number(s: seq<Byte>, i: nat, w: nat): nat
    requires (w == 2 || w == 4) && i + w <= |s|
  {
    if w == 2 then U16(s, i) else U32(s, i)
  }

  /** The values of a layout's fields, each within its width. */
  ghost predicate FieldsFit(ws: seq<nat>, vs: seq<nat>) {
    && |ws| == |vs|
    && forall k :: 0 <= k < |ws| ==> (ws[k] == 2 && vs[k] < 0x1_0000) || (ws[k] == 4 && vs[k] < 0x1_0000_0000)
  }

  lemma FieldRead(s: seq<Byte>, at: nat, ws: seq<nat>, ps: seq<nat>, vs: seq<nat>, k: nat)
    requires Positions(ws, ps) && FieldsFit(ws, vs) && Stands(s, at, Pack(ws, vs)) && k < |ws|
    ensures at + ps[k] + ws[k] <= |s| && Number(s, at + ps[k], ws[k]) == vs[k]
  {
    FieldAt(s, at, ws, ps, vs, k);
    if ws[k] == 2 { U16Of(s, at + ps[k], vs[k]); } else { U32Of(s, at + ps[k], vs[k]); }
  }

  lemma FieldsRead(s: seq<Byte>, at: nat, ws: seq<nat>, ps: seq<nat>, vs: seq<nat>)
    requires Positions(ws, ps) && FieldsFit(ws, vs) && Stands(s, at, Pack(ws, vs))
    ensures forall k {:trigger vs[k]} :: 0 <= k < |ws| ==>
      at + ps[k] + ws[k] <= |s| && Number(s, at + ps[k], ws[k]) == vs[k]
  {
    forall k {:trigger vs[k]} | 0 <= k < |ws|
      ensures at + ps[k] + ws[k] <= |s| && Number(s, at + ps[k], ws[k]) == vs[k]
    {
      FieldRead(s, at, ws, ps, vs, k);
    }
  }

  // ---------------------------------------------------------------------------------
  // The archive of an entry list

  function LocalFields(e: Entry, crc: Crc): seq<nat> {
    [LOCAL_SIGNATURE, 20, 0x0800, 0, 0, 0, crc(e.data), |e.data|, |e.data|, |e.path|, 0]
  }

  function CentralFields(e: Entry, offset: nat, crc: Crc): seq<nat> {
    [CENTRAL_SIGNATURE, 20, 20, 0x0800, 0, 0, 0, crc(e.data), |e.data|, |e.data|, |e.path|, 0, 0, 0, 0, 0, offset]
  }

  function EndFields(count: nat, size: nat, offset: nat): seq<nat> {
    [END_SIGNATURE, 0, 0, count, count, size, offset, 0]
  }

  /** Sizes of the first two sections. */
  function LocalsSize(es: seq<Entry>): nat {
    if es == [] then 0 else LocalsSize(es[..|es| - 1]) + 30 + |es[|es| - 1].path| + |es[|es| - 1].data|
  }

  function CentralsSize(es: seq<Entry>): nat {
    if es == [] then 0 else CentralsSize(es[..|es| - 1]) + 46 + |es[|es| - 1].path|
  }

  function Local(e: Entry, crc: Crc): seq<Byte> {
    Pack(LOCAL, LocalFields(e, crc)) + e.path + e.data
  }

  function Locals(es: seq<Entry>, crc: Crc): seq<Byte> {
    if es == [] then [] else Locals(es[..|es| - 1], crc) + Local(es[|es| - 1], crc)
  }

  function Central(e: Entry, offset: nat, crc: Crc): seq<Byte> {
    Pack(CENTRAL, CentralFields(e, offset, crc)) + e.path
  }

  function Centrals(es: seq<Entry>, crc: Crc): seq<Byte> {
    if es == [] then []
    else Centrals(es[..|es| - 1], crc) + Central(es[|es| - 1], LocalsSize(es[..|es| - 1]), crc)
  }

  function Archive(es: seq<Entry>, crc: Crc): seq<Byte> {
    Locals(es, crc) + Centrals(es, crc) + Pack(END, EndFields(|es|, CentralsSize(es), LocalsSize(es)))
  }

  /** The 16-bit and 32-bit limits of the format. */
  predicate Fits(es: seq<Entry>) {
    && |es| < 0x1_0000
    && (forall e <- es :: |e.path| < 0x1_0000)
    && LocalsSize(es) < 0x1_0000_0000
    && CentralsSize(es) < 0x1_0000_0000
  }

  // ---------------------------------------------------------------------------------
  // The reader

  /** Scans backwards for the end record: its signature, with a comment that reaches exactly to the end. */
  function FindEnd(s: seq<Byte>, i: int): (r: Option<nat>)
    requires i + 22 <= |s|
    ensures r.Some? ==> r.value + 22 <= |s|
    decreases i
  {
    if i < 0 then None
    else if U32(s, i) == END_SIGNATURE && i + 22 + U16(s, i + 20) == |s| then Some(i)
    else FindEnd(s, i - 1)
  }

  // A reader of version 2.0, which takes names in UTF-8 and no other option.
  const VERSION := 20
  const UTF8 := 0x0800

  /** The data of a stored member, where the local header at `at` agrees with the central one. */
  function ReadLocal(s: seq<Byte>, at: nat, path: seq<Byte>, sum: nat, size: nat, crc: Crc): Option<seq<Byte>> {
    if at + 30 > |s| || U32(s, at) != LOCAL_SIGNATURE || U16(s, at + 4) > VERSION || U16(s, at + 6) != UTF8 then None
    else if U16(s, at + 8) != 0 || U32(s, at + 14) != sum then None
    else if U32(s, at + 18) != size || U32(s, at + 22) != size || U16(s, at + 26) != |path| then None
    else
      var start := at + 30 + |path| + U16(s, at + 28);
      if start + size > |s| || s[at + 30..at + 30 + |path|] != path || crc(s[start..start + size]) != sum then None
      else Some(s[start..start + size])
  }

  /** The member whose central header is at `at`. */
  function ReadMember(s: seq<Byte>, at: nat, crc: Crc): Option<Entry> {
    if at + 46 > |s| || U32(s, at) != CENTRAL_SIGNATURE || U16(s, at + 6) > VERSION || U16(s, at + 8) != UTF8 then None
    else if U16(s, at + 10) != 0 || U16(s, at + 34) != 0 then None
    else
      var size, stop := U32(s, at + 24), at + 46 + U16(s, at + 28);
      if U32(s, at + 20) != size || stop > |s| then None
      else
        var path := s[at + 46..stop];
        var data := ReadLocal(s, U32(s, at + 42), path, U32(s, at + 16), size, crc);
        if data.None? then None else Some(Entry(path, data.value))
  }

  /** Where the `n` central headers of a directory from `at` to `stop` start. */
  function Headers(s: seq<Byte>, at: nat, n: nat, stop: nat): (r: Option<seq<nat>>)
    ensures r.Some? ==> |r.value| == n
    decreases n
  {
    if n == 0 then if at == stop then Some([]) else None
    else if at + 46 > |s| then None
    else
      var rest := Headers(s, at + 46 + U16(s, at + 28) + U16(s, at + 30) + U16(s, at + 32), n - 1, stop);
      if rest.None? then None else Some([at] + rest.value)
  }

  ghost predicate AllReadable(s: seq<Byte>, pos: seq<nat>, crc: Crc) {
    forall k :: 0 <= k < |pos| ==> ReadMember(s, pos[k], crc).Some?
  }

  ghost function ReadMembers(s: seq<Byte>, pos: seq<nat>, crc: Crc): (es: seq<Entry>)
    requires AllReadable(s, pos, crc)
    ensures |es| == |pos| && forall k :: 0 <= k < |pos| ==> es[k] == ReadMember(s, pos[k], crc).value
  {
    seq(|pos|, k requires 0 <= k < |pos| && ReadMember(s, pos[k], crc).Some? => ReadMember(s, pos[k], crc).value)
  }

  /** What the end record says: how many members, and the length and place of the directory. */
  datatype End = End(count: nat, size: nat, offset: nat)

  function EndOf(s: seq<Byte>): Option<End> {
    var end := if |s| < 22 then None else FindEnd(s, |s| - 22);
    if end.None? then None
    else
      var e := end.value;
      var n := U16(s, e + 10);
      if U16(s, e + 4) != 0 || U16(s, e + 6) != 0 || U16(s, e + 8) != n then None
      else Some(End(n, U32(s, e + 12), U32(s, e + 16)))
  }

  /** Finds the end record, walks the central directory and reads each member at its offset. */
  ghost function Read(s: seq<Byte>, crc: Crc): Option<seq<Entry>> {
    var end := EndOf(s);
    if end.None? then None
    else
      var pos := Headers(s, end.value.offset, end.value.count, end.value.offset + end.value.size);
      if pos.Some? && AllReadable(s, pos.value, crc) then Some(ReadMembers(s, pos.value, crc)) else None
  }

  // ---------------------------------------------------------------------------------
  // Round trip

  lemma LocalSize(e: Entry, crc: Crc)
    ensures |Local(e, crc)| == 30 + |e.path| + |e.data|
  {
    PackSize(LOCAL, LOCAL_AT, LocalFields(e, crc));
  }

  lemma CentralSize(e: Entry, offset: nat, crc: Crc)
    ensures |Central(e, offset, crc)| == 46 + |e.path|
  {
    PackSize(CENTRAL, CENTRAL_AT, CentralFields(e, offset, crc));
  }

  lemma {:induction false} Sizes(es: seq<Entry>, crc: Crc)
    ensures |Locals(es, crc)| == LocalsSize(es) && |Centrals(es, crc)| == CentralsSize(es)
  {
    if es != [] {
      var n := |es| - 1;
      Sizes(es[..n], crc);
      LocalSize(es[n], crc);
      CentralSize(es[n], LocalsSize(es[..n]), crc);
    }
  }

  lemma {:induction false} SizesUpTo(es: seq<Entry>, k: nat)
    requires k < |es|
    ensures LocalsSize(es[..k]) + 30 + |es[k].path| + |es[k].data| <= LocalsSize(es)
    ensures CentralsSize(es[..k + 1]) == CentralsSize(es[..k]) + 46 + |es[k].path|
    decreases es
  {
    var n := |es| - 1;
    assert es[..k + 1][..k] == es[..k];
    if k < n {
      SizesUpTo(es[..n], k);
      assert es[..n][..k] == es[..k];
    }
  }

  /** Every member stands at the offset the writer has recorded. */
  lemma {:induction false} LocalAt(s: seq<Byte>, es: seq<Entry>, k: nat, crc: Crc)
    requires k < |es| && Stands(s, 0, Locals(es, crc))
    ensures Stands(s, LocalsSize(es[..k]), Local(es[k], crc))
    decreases es
  {
    var n := |es| - 1;
    StandsParts(s, 0, Locals(es[..n], crc), Local(es[n], crc));
    if k < n {
      LocalAt(s, es[..n], k, crc);
      assert es[..n][..k] == es[..k];
    } else {
      Sizes(es[..n], crc);
    }
  }

  /** The central headers stand one after the other. */
  lemma {:induction false} CentralAt(s: seq<Byte>, es: seq<Entry>, k: nat, at: nat, pos: nat,
                                     e: Entry, offset: nat, crc: Crc)
    requires k < |es| && Stands(s, at, Centrals(es, crc))
    requires pos == at + CentralsSize(es[..k]) && e == es[k] && offset == LocalsSize(es[..k])
    ensures Stands(s, pos, Central(e, offset, crc))
    decreases es
  {
    var n := |es| - 1;
    StandsParts(s, at, Centrals(es[..n], crc), Central(es[n], LocalsSize(es[..n]), crc));
    if k < n {
      assert es[..n][..k] == es[..k];
      CentralAt(s, es[..n], k, at, pos, e, offset, crc);
    } else {
      Sizes(es[..n], crc);
    }
  }

  lemma LocalRead(s: seq<Byte>, at: nat, e: Entry, crc: Crc)
    requires Stands(s, at, Local(e, crc)) && |e.path| < 0x1_0000 && |e.data| < 0x1_0000_0000
    ensures ReadLocal(s, at, e.path, crc(e.data), |e.data|, crc) == Some(e.data)
  {
    var vs := LocalFields(e, crc);
    StandsParts(s, at, Pack(LOCAL, vs) + e.path, e.data);
    StandsParts(s, at, Pack(LOCAL, vs), e.path);
    PackSize(LOCAL, LOCAL_AT, vs);
    LocalFieldsRead(s, at, vs);
  }

  lemma LocalFieldsRead(s: seq<Byte>, at: nat, vs: seq<nat>)
    requires FieldsFit(LOCAL, vs) && Stands(s, at, Pack(LOCAL, vs)) && at + 30 <= |s|
    ensures U16(s, at + 4) == vs[1] && U16(s, at + 6) == vs[2]
    ensures U32(s, at) == vs[0] && U16(s, at + 8) == vs[3] && U32(s, at + 14) == vs[6] && U32(s, at + 18) == vs[7]
    ensures U32(s, at + 22) == vs[8] && U16(s, at + 26) == vs[9] && U16(s, at + 28) == vs[10]
  {
    FieldsRead(s, at, LOCAL, LOCAL_AT, vs);
  }

  lemma CentralFieldsRead(s: seq<Byte>, at: nat, vs: seq<nat>)
    requires FieldsFit(CENTRAL, vs) && Stands(s, at, Pack(CENTRAL, vs)) && at + 46 <= |s|
    ensures U16(s, at + 6) == vs[2] && U16(s, at + 8) == vs[3]
    ensures U32(s, at) == vs[0] && U16(s, at + 10) == vs[4] && U32(s, at + 16) == vs[7] && U32(s, at + 20) == vs[8]
  {
    FieldsRead(s, at, CENTRAL, CENTRAL_AT, vs);
  }

  lemma CentralFieldsRead2(s: seq<Byte>, at: nat, vs: seq<nat>)
    requires FieldsFit(CENTRAL, vs) && Stands(s, at, Pack(CENTRAL, vs)) && at + 46 <= |s|
    ensures U32(s, at + 24) == vs[9] && U16(s, at + 28) == vs[10] && U16(s, at + 30) == vs[11]
    ensures U16(s, at + 32) == vs[12] && U16(s, at + 34) == vs[13] && U32(s, at + 42) == vs[16]
  {
    FieldsRead(s, at, CENTRAL, CENTRAL_AT, vs);
  }

  lemma EndFieldsRead(s: seq<Byte>, at: nat, vs: seq<nat>)
    requires FieldsFit(END, vs) && Stands(s, at, Pack(END, vs)) && at + 22 <= |s|
    ensures U32(s, at) == vs[0] && U16(s, at + 4) == vs[1] && U16(s, at + 6) == vs[2] && U16(s, at + 8) == vs[3]
    ensures U16(s, at + 10) == vs[4] && U32(s, at + 12) == vs[5] && U32(s, at + 16) == vs[6] && U16(s, at + 20) == vs[7]
  {
    FieldsRead(s, at, END, END_AT, vs);
  }

  /** What a reader sees at a central header. */
  ghost predicate CentralSeen(s: seq<Byte>, at: nat, path: seq<Byte>, sum: nat, size: nat, offset: nat) {
    && at + 46 + |path| <= |s|
    && U32(s, at) == CENTRAL_SIGNATURE && U16(s, at + 6) <= VERSION && U16(s, at + 8) == UTF8
    && U16(s, at + 10) == 0 && U16(s, at + 34) == 0 && U32(s, at + 16) == sum
    && U32(s, at + 20) == size && U32(s, at + 24) == size && U16(s, at + 28) == |path|
    && U16(s, at + 30) == 0 && U16(s, at + 32) == 0 && U32(s, at + 42) == offset
    && s[at + 46..at + 46 + |path|] == path
  }

  lemma CentralStands(s: seq<Byte>, at: nat, e: Entry, offset: nat, crc: Crc)
    requires Stands(s, at, Central(e, offset, crc))
    requires |e.path| < 0x1_0000 && |e.data| < 0x1_0000_0000 && offset < 0x1_0000_0000
    ensures CentralSeen(s, at, e.path, crc(e.data), |e.data|, offset)
  {
    var vs := CentralFields(e, offset, crc);
    StandsParts(s, at, Pack(CENTRAL, vs), e.path);
    PackSize(CENTRAL, CENTRAL_AT, vs);
    CentralFieldsRead(s, at, vs);
    CentralFieldsRead2(s, at, vs);
  }

  lemma CentralRead(s: seq<Byte>, at: nat, e: Entry, sum: nat, size: nat, offset: nat, crc: Crc)
    requires CentralSeen(s, at, e.path, sum, size, offset)
    requires ReadLocal(s, offset, e.path, sum, size, crc) == Some(e.data)
    ensures ReadMember(s, at, crc) == Some(e)
  {
  }

  /** The header at `at` is followed by the one at `next`. */
  predicate HeaderAt(s: seq<Byte>, at: nat, next: nat) {
    at + 46 <= |s| && next == at + 46 + U16(s, at + 28) + U16(s, at + 30) + U16(s, at + 32)
  }

  /** The `k`-th member is read at the `k`-th position, and its header leads to the next. */
  predicate Reads(s: seq<Byte>, es: seq<Entry>, pos: seq<nat>, k: nat, crc: Crc)
    requires k < |es| && |pos| == |es| + 1
  {
    ReadMember(s, pos[k], crc) == Some(es[k]) && HeaderAt(s, pos[k], pos[k + 1])
  }

  ghost predicate ReadsAll(s: seq<Byte>, es: seq<Entry>, pos: seq<nat>, crc: Crc) {
    |pos| == |es| + 1 && forall k {:trigger Reads(s, es, pos, k, crc)} :: 0 <= k < |es| ==> Reads(s, es, pos, k, crc)
  }

  lemma MemberRead(s: seq<Byte>, es: seq<Entry>, k: nat, at: nat, pos: nat, next: nat, crc: Crc)
    requires k < |es| && Fits(es) && Stands(s, 0, Locals(es, crc)) && Stands(s, at, Centrals(es, crc))
    requires pos == at + CentralsSize(es[..k]) && next == at + CentralsSize(es[..k + 1])
    ensures ReadMember(s, pos, crc) == Some(es[k]) && HeaderAt(s, pos, next)
  {
    SizesUpTo(es, k);
    LocalAt(s, es, k, crc);
    CentralAt(s, es, k, at, pos, es[k], LocalsSize(es[..k]), crc);
    CentralStands(s, pos, es[k], LocalsSize(es[..k]), crc);
    LocalRead(s, LocalsSize(es[..k]), es[k], crc);
    CentralRead(s, pos, es[k], crc(es[k].data), |es[k].data|, LocalsSize(es[..k]), crc);
  }

  function Starts(es: seq<Entry>, at: nat): (pos: seq<nat>)
    ensures |pos| == |es| + 1 && forall k :: 0 <= k <= |es| ==> pos[k] == at + CentralsSize(es[..k])
  {
    seq(|es| + 1, k requires 0 <= k <= |es| => at + CentralsSize(es[..k]))
  }

  lemma MembersRead(s: seq<Byte>, es: seq<Entry>, at: nat, pos: seq<nat>, crc: Crc)
    requires Fits(es) && Stands(s, 0, Locals(es, crc)) && Stands(s, at, Centrals(es, crc)) && pos == Starts(es, at)
    ensures ReadsAll(s, es, pos, crc)
  {
    forall k | 0 <= k < |es| ensures Reads(s, es, pos, k, crc) {
      MemberRead(s, es, k, at, pos[k], pos[k + 1], crc);
    }
  }

  /** The walk finds the headers where each leads to the next. */
  lemma {:induction false} Walk(s: seq<Byte>, es: seq<Entry>, pos: seq<nat>, at: nat, n: nat, stop: nat, crc: Crc)
    requires ReadsAll(s, es, pos, crc) && n == |es| && pos[0] == at && pos[n] == stop
    ensures Headers(s, at, n, stop) == Some(pos[..n])
    decreases n
  {
    if n > 0 {
      var es', pos' := es[1..], pos[1..];
      assert Reads(s, es, pos, 0, crc);
      forall k | 0 <= k < n - 1 ensures Reads(s, es', pos', k, crc) {
        assert Reads(s, es, pos, k + 1, crc);
      }
      Walk(s, es', pos', pos[1], n - 1, stop, crc);
      assert pos[..n] == [at] + pos'[..n - 1];
    }
  }

  lemma MembersAre(s: seq<Byte>, es: seq<Entry>, pos: seq<nat>, head: seq<nat>, crc: Crc)
    requires ReadsAll(s, es, pos, crc) && head == pos[..|es|]
    ensures AllReadable(s, head, crc) && ReadMembers(s, head, crc) == es
  {
    forall k | 0 <= k < |head| ensures ReadMember(s, head[k], crc) == Some(es[k]) {
      assert Reads(s, es, pos, k, crc);
    }
  }

  lemma ReadFrom(s: seq<Byte>, end: End, stop: nat, head: seq<nat>, es: seq<Entry>, crc: Crc)
    requires EndOf(s) == Some(end) && stop == end.offset + end.size
    requires Headers(s, end.offset, end.count, stop) == Some(head)
    requires AllReadable(s, head, crc) && ReadMembers(s, head, crc) == es
    ensures Read(s, crc) == Some(es)
  {
  }

  lemma EndStands(s: seq<Byte>, at: nat, vs: seq<nat>, n: nat, size: nat, offset: nat)
    requires vs == EndFields(n, size, offset) && Stands(s, at, Pack(END, vs)) && at + 22 == |s|
    requires n < 0x1_0000 && size < 0x1_0000_0000 && offset < 0x1_0000_0000
    ensures EndOf(s) == Some(End(n, size, offset))
  {
    EndFieldsRead(s, at, vs);
    EndSeen(s, at, n, size, offset);
  }

  lemma EndSeen(s: seq<Byte>, at: nat, n: nat, size: nat, offset: nat)
    requires at + 22 == |s|
    requires U32(s, at) == END_SIGNATURE && U16(s, at + 4) == 0 && U16(s, at + 6) == 0 && U16(s, at + 8) == n
    requires U16(s, at + 10) == n && U32(s, at + 12) == size && U32(s, at + 16) == offset && U16(s, at + 20) == 0
    ensures EndOf(s) == Some(End(n, size, offset))
  {
    assert FindEnd(s, |s| - 22) == Some(at);
  }

  lemma Sections(a: seq<Byte>, b: seq<Byte>, c: seq<Byte>, s: seq<Byte>)
    requires s == a + b + c
    ensures Stands(s, 0, a) && Stands(s, |a|, b) && Stands(s, |a| + |b|, c)
  {
    assert Stands(s, 0, a + b + c);
    StandsParts(s, 0, a + b, c);
    StandsParts(s, 0, a, b);
  }

  /** The sections of an archive, and its end record. */
  lemma Layout(es: seq<Entry>, s: seq<Byte>, n: nat, at: nat, size: nat, crc: Crc)
    requires Fits(es) && s == Archive(es, crc) && n == |es| && at == LocalsSize(es) && size == CentralsSize(es)
    ensures Stands(s, 0, Locals(es, crc)) && Stands(s, at, Centrals(es, crc)) && EndOf(s) == Some(End(n, size, at))
  {
    Sizes(es, crc);
    LayoutOf(Locals(es, crc), Centrals(es, crc), EndFields(n, size, at), s, n, at, size);
  }

  lemma LayoutOf(a: seq<Byte>, b: seq<Byte>, vs: seq<nat>, s: seq<Byte>, n: nat, at: nat, size: nat)
    requires |a| == at < 0x1_0000_0000 && |b| == size < 0x1_0000_0000 && n < 0x1_0000
    requires vs == EndFields(n, size, at) && s == a + b + Pack(END, vs)
    ensures Stands(s, 0, a) && Stands(s, at, b) && EndOf(s) == Some(End(n, size, at))
  {
    Sections(a, b, Pack(END, vs), s);
    EndSize(vs);
    EndStands(s, at + size, vs, n, size, at);
  }

  lemma EndSize(vs: seq<nat>)
    requires |vs| == |END|
    ensures |Pack(END, vs)| == 22
  {
    PackSize(END, END_AT, vs);
  }

  lemma ReadBack(s: seq<Byte>, es: seq<Entry>, end: End, pos: seq<nat>, stop: nat, crc: Crc)
    requires EndOf(s) == Some(end) && stop == end.offset + end.size && end.count == |es|
    requires ReadsAll(s, es, pos, crc) && pos[0] == end.offset && pos[|es|] == stop
    ensures Read(s, crc) == Some(es)
  {
    Walk(s, es, pos, end.offset, end.count, stop, crc);
    MembersAre(s, es, pos, pos[..|es|], crc);
    ReadFrom(s, end, stop, pos[..|es|], es, crc);
  }

  /** Round trip: the reader recovers the same paths and data in order. */
  lemma RoundTrip(es: seq<Entry>, s: seq<Byte>, crc: Crc)
    requires Fits(es) && s == Archive(es, crc)
    ensures Read(s, crc) == Some(es)
  {
    var n, at, size := |es|, LocalsSize(es), CentralsSize(es);
    Layout(es, s, n, at, size, crc);
    MembersRead(s, es, at, Starts(es, at), crc);
    assert es[..n] == es;
    ReadBack(s, es, End(n, size, at), Starts(es, at), at + size, crc);
  }

  /** Distinct entry lists give distinct archives. */
  lemma Injective(a: seq<Entry>, b: seq<Entry>, crc: Crc)
    requires Fits(a) && Fits(b) && Archive(a, crc) == Archive(b, crc)
    ensures a == b
  {
    RoundTrip(a, Archive(a, crc), crc);
    RoundTrip(b, Archive(a, crc), crc);
  }

  // ---------------------------------------------------------------------------------
  // The writer

  predicate InRange(w: nat, v: nat) {
    v < if w == 2 then 0x1_0000 else 0x1_0000_0000
  }

  predicate AllInRange(ws: seq<nat>, vs: seq<nat>)
    requires |ws| == |vs|
  {
    forall k :: 0 <= k < |ws| ==> InRange(ws[k], vs[k])
  }

  /** Writes a number into the buffer, lowest byte first; a number too large for the width is an error. */
  method Put(b: array<Byte>, at: nat, w: nat, v: nat) returns (ok: bool)
    requires at + w <= b.Length
    modifies b
    ensures ok == InRange(w, v)
    ensures ok ==> b[..at + w] == old(b[..at]) + Little(w, v)
    ensures forall i :: at + w <= i < b.Length ==> b[i] == old(b[i])
  {
    ok := InRange(w, v);
    if !ok {
      return;
    }
    var x, j := v, 0;
    while j < w
      invariant j <= w
      invariant b[..at + j] + Little(w - j, x) == old(b[..at]) + Little(w, v)
      invariant forall i :: at + w <= i < b.Length ==> b[i] == old(b[i])
    {
      b[at + j] := x % 256;
      assert b[..at + j + 1] == b[..at + j] + [x % 256];
      assert Little(w - j, x) == [x % 256] + Little(w - j - 1, x / 256);
      x, j := x / 256, j + 1;
    }
  }

  lemma PackNext(ws: seq<nat>, vs: seq<nat>, k: nat)
    requires k < |ws| == |vs|
    ensures Pack(ws[..k + 1], vs[..k + 1]) == Pack(ws[..k], vs[..k]) + Little(ws[k], vs[k])
  {
    assert ws[..k + 1][..k] == ws[..k] && vs[..k + 1][..k] == vs[..k];
  }

  /** Fills a header: each field of the layout is written at its position. */
  method Fill(ws: seq<nat>, ps: seq<nat>, vs: seq<nat>) returns (r: Option<seq<Byte>>)
    requires Positions(ws, ps) && |ws| == |vs|
    ensures r.Some? <==> AllInRange(ws, vs)
    ensures r.Some? ==> r.value == Pack(ws, vs)
  {
    PackSize(ws, ps, vs);
    PositionsGrow(ws, ps, 0);
    var b := new Byte[ps[|ws|]](_ => 0);
    var k := 0;
    while k < |ws|
      invariant k <= |ws|
      invariant forall i :: 0 <= i < k ==> InRange(ws[i], vs[i])
      invariant ps[k] <= b.Length && b[..ps[k]] == Pack(ws[..k], vs[..k])
    {
      PositionsGrow(ws, ps, k + 1);
      var ok := Put(b, ps[k], ws[k], vs[k]);
      if !ok {
        return None;
      }
      PackNext(ws, vs, k);
      k := k + 1;
    }
    assert ws[..k] == ws && vs[..k] == vs && b[..ps[k]] == b[..];
    return Some(b[..]);
  }

  lemma {:induction false} PositionsGrow(ws: seq<nat>, ps: seq<nat>, k: nat)
    requires Positions(ws, ps) && k <= |ws|
    ensures ps[k] <= ps[|ws|]
    decreases |ws| - k
  {
    if k < |ws| { PositionsGrow(ws, ps, k + 1); }
  }

  lemma ConcatTwo(parts: seq<seq<Byte>>, a: seq<Byte>, b: seq<Byte>)
    ensures Concat(parts + [a, b]) == Concat(parts) + (a + b)
  {
    assert parts + [a, b] == parts + [a] + [b];
    ConcatSnoc(parts + [a], b);
    ConcatSnoc(parts, a);
  }

  lemma ConcatThree(parts: seq<seq<Byte>>, a: seq<Byte>, b: seq<Byte>, c: seq<Byte>)
    ensures Concat(parts + [a, b, c]) == Concat(parts) + (a + b + c)
  {
    assert parts + [a, b, c] == parts + [a, b] + [c];
    ConcatSnoc(parts + [a, b], c);
    ConcatTwo(parts, a, b);
  }

  /** What the loop demands of each entry. */
  predicate EntryFits(e: Entry, offset: nat) {
    |e.path| < 0x1_0000 && |e.data| < 0x1_0000_0000 && offset < 0x1_0000_0000
  }

  method WriteLocal(e: Entry, crc: Crc) returns (r: Option<seq<Byte>>)
    ensures r.Some? <==> |e.path| < 0x1_0000 && |e.data| < 0x1_0000_0000
    ensures r.Some? ==> r.value == Pack(LOCAL, LocalFields(e, crc))
  {
    r := Fill(LOCAL, LOCAL_AT, LocalFields(e, crc));
    LocalInRange(e, crc);
  }

  lemma LocalInRange(e: Entry, crc: Crc)
    ensures AllInRange(LOCAL, LocalFields(e, crc)) <==> |e.path| < 0x1_0000 && |e.data| < 0x1_0000_0000
  {
    var vs := LocalFields(e, crc);
    if AllInRange(LOCAL, vs) { assert InRange(LOCAL[7], vs[7]) && InRange(LOCAL[9], vs[9]); }
  }

  method WriteCentral(e: Entry, offset: nat, crc: Crc) returns (r: Option<seq<Byte>>)
    ensures r.Some? <==> EntryFits(e, offset)
    ensures r.Some? ==> r.value == Pack(CENTRAL, CentralFields(e, offset, crc))
  {
    r := Fill(CENTRAL, CENTRAL_AT, CentralFields(e, offset, crc));
    CentralInRange(e, offset, crc);
  }

  lemma CentralInRange(e: Entry, offset: nat, crc: Crc)
    ensures AllInRange(CENTRAL, CentralFields(e, offset, crc)) <==> EntryFits(e, offset)
  {
    var vs := CentralFields(e, offset, crc);
    if AllInRange(CENTRAL, vs) {
      assert InRange(CENTRAL[8], vs[8]) && InRange(CENTRAL[10], vs[10]) && InRange(CENTRAL[16], vs[16]);
    }
  }

  method WriteEnd(n: nat, size: nat, offset: nat) returns (r: Option<seq<Byte>>)
    ensures r.Some? <==> n < 0x1_0000 && size < 0x1_0000_0000 && offset < 0x1_0000_0000
    ensures r.Some? ==> r.value == Pack(END, EndFields(n, size, offset))
  {
    var vs := EndFields(n, size, offset);
    r := Fill(END, END_AT, vs);
    if AllInRange(END, vs) { assert InRange(END[4], vs[4]) && InRange(END[5], vs[5]) && InRange(END[6], vs[6]); }
  }

  lemma NotFitting(es: seq<Entry>, k: nat)
    requires k < |es| && !EntryFits(es[k], LocalsSize(es[..k]))
    ensures !Fits(es)
  {
    SizesUpTo(es, k);
  }

  /** The parts written so far, and the running offset. */
  ghost predicate Written(es: seq<Entry>, locals: seq<seq<Byte>>, centrals: seq<seq<Byte>>, offset: nat, crc: Crc) {
    Concat(locals) == Locals(es, crc) && Concat(centrals) == Centrals(es, crc) && offset == LocalsSize(es)
  }

  lemma WrittenNext(es: seq<Entry>, e: Entry, locals: seq<seq<Byte>>, centrals: seq<seq<Byte>>, offset: nat,
                    l: seq<Byte>, c: seq<Byte>, crc: Crc)
    requires Written(es, locals, centrals, offset, crc)
    requires l == Pack(LOCAL, LocalFields(e, crc)) && c == Pack(CENTRAL, CentralFields(e, offset, crc))
    ensures Written(es + [e], locals + [l, e.path, e.data], centrals + [c, e.path],
                    offset + 30 + |e.path| + |e.data|, crc)
  {
    assert (es + [e])[..|es|] == es;
    ConcatThree(locals, l, e.path, e.data);
    ConcatTwo(centrals, c, e.path);
  }

  /** The directory, the end record and the whole. */
  method FinishArchive(entries: seq<Entry>, localParts: seq<seq<Byte>>, centralParts: seq<seq<Byte>>,
                       offset: nat, crc: Crc)
    returns (r: Option<seq<Byte>>)
    requires Written(entries, localParts, centralParts, offset, crc)
    ensures r.Some? <==>
      |entries| < 0x1_0000 && CentralsSize(entries) < 0x1_0000_0000 && LocalsSize(entries) < 0x1_0000_0000
    ensures r.Some? ==> r.value == Archive(entries, crc)
  {
    Sizes(entries, crc);
    var directory := Concat(centralParts);
    var end := WriteEnd(|entries|, |directory|, offset);
    if end.None? {
      return None;
    }
    return Some(Concat(localParts) + directory + end.value);
  }

  /** One entry: its local header, path and data, and its central header and path. */
  method AddEntry(e: Entry, locals: seq<seq<Byte>>, centrals: seq<seq<Byte>>, at: nat, crc: Crc, ghost es: seq<Entry>)
    returns (ok: bool, localParts: seq<seq<Byte>>, centralParts: seq<seq<Byte>>, offset: nat)
    requires Written(es, locals, centrals, at, crc)
    ensures ok == EntryFits(e, at)
    ensures ok ==> Written(es + [e], localParts, centralParts, offset, crc)
  {
    localParts, centralParts, offset := locals, centrals, at;
    var local := WriteLocal(e, crc);
    if local.None? {
      return false, localParts, centralParts, offset;
    }
    var central := WriteCentral(e, offset, crc);
    if central.None? {
      return false, localParts, centralParts, offset;
    }
    WrittenNext(es, e, locals, centrals, at, local.value, central.value, crc);
    localParts := localParts + [local.value, e.path, e.data];
    centralParts := centralParts + [central.value, e.path];
    offset := offset + 30 + |e.path| + |e.data|;
    ok := true;
  }

  /** The writer: `None` stands for the range error of a field write. */
  method BuildZipArchive(entries: seq<Entry>, crc: Crc) returns (r: Option<seq<Byte>>)
    ensures r.Some? <==> Fits(entries)
    ensures r.Some? ==> r.value == Archive(entries, crc)
  {
    var localParts: seq<seq<Byte>>, centralParts: seq<seq<Byte>>, offset: nat, k := [], [], 0, 0;
    while k < |entries|
      invariant k <= |entries|
      invariant Written(entries[..k], localParts, centralParts, offset, crc)
      invariant forall i :: 0 <= i < k ==> |entries[i].path| < 0x1_0000
    {
      var ok;
      assert entries[..k + 1] == entries[..k] + [entries[k]];
      ok, localParts, centralParts, offset := AddEntry(entries[k], localParts, centralParts, offset, crc, entries[..k]);
      if !ok {
        NotFitting(entries, k);
        return None;
      }
      k := k + 1;
    }
    assert entries[..k] == entries;
    r := FinishArchive(entries, localParts, centralParts, offset, crc);
  }
}

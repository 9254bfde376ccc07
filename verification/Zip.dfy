/**
 The STORE archive of packages/portability/src/website-artifact.ts:46-64 and the
 streaming writer of packages/commerce-runtime/src/zip-stream.ts, which stitches
 archives of one entry into one, in the layout of sections 4.3.7, 4.3.12 and
 4.3.16 of the PKWARE .ZIP file format specification (APPNOTE).
 */
module Zip {
  import opened Common

  type byte = b: int | 0 <= b < 256

  const LIMIT16 := 0x1_0000
  const LIMIT32 := 0x1_0000_0000

  // --------------------------------------------------------------- fields

  function U16(v: int): (b: seq<byte>)
    requires 0 <= v < LIMIT16
    ensures |b| == 2
  {
    [v % 256, v / 256]
  }

  function U32(v: int): (b: seq<byte>)
    requires 0 <= v < LIMIT32
    ensures |b| == 4
  {
    [v % 256, v / 256 % 256, v / 65536 % 256, v / 16777216]
  }

  function Get16(b: seq<byte>, at: nat): int
    requires at + 2 <= |b|
  {
    (b[at] as int) + 256 * (b[at + 1] as int)
  }

  function Get32(b: seq<byte>, at: nat): int
    requires at + 4 <= |b|
  {
    (b[at] as int) + 256 * (b[at + 1] as int) + 65536 * (b[at + 2] as int) + 16777216 * (b[at + 3] as int)
  }

  lemma Digits32(v: int)
    requires 0 <= v < LIMIT32
    ensures v % 256 + 256 * (v / 256 % 256) + 65536 * (v / 65536 % 256) + 16777216 * (v / 16777216) == v
  {
    assert v == v / 256 * 256 + v % 256;
    assert v / 256 == v / 65536 * 256 + v / 256 % 256;
    assert v / 65536 == v / 16777216 * 256 + v / 65536 % 256;
  }

  lemma First16(v: int, after: seq<byte>)
    requires 0 <= v < LIMIT16
    ensures Get16(U16(v) + after, 0) == v
  {
  }

  lemma First32(v: int, after: seq<byte>)
    requires 0 <= v < LIMIT32
    ensures Get32(U32(v) + after, 0) == v
  {
    Digits32(v);
  }

  // A field past the first part is a field of the rest.
  lemma Skip16(before: seq<byte>, rest: seq<byte>, at: nat)
    requires at + 2 <= |rest|
    ensures Get16(before + rest, |before| + at) == Get16(rest, at)
  {
  }

  lemma Skip32(before: seq<byte>, rest: seq<byte>, at: nat)
    requires at + 4 <= |rest|
    ensures Get32(before + rest, |before| + at) == Get32(rest, at)
  {
  }

  lemma Keep16(part: seq<byte>, after: seq<byte>, at: nat)
    requires at + 2 <= |part|
    ensures Get16(part + after, at) == Get16(part, at)
  {
  }

  lemma Keep32(part: seq<byte>, after: seq<byte>, at: nat)
    requires at + 4 <= |part|
    ensures Get32(part + after, at) == Get32(part, at)
  {
  }

  lemma Inside16(before: seq<byte>, part: seq<byte>, after: seq<byte>, at: nat)
    requires at + 2 <= |part|
    ensures Get16(before + part + after, |before| + at) == Get16(part, at)
  {
    Skip16(before, part, at);
    Keep16(before + part, after, |before| + at);
  }

  lemma Inside32(before: seq<byte>, part: seq<byte>, after: seq<byte>, at: nat)
    requires at + 4 <= |part|
    ensures Get32(before + part + after, |before| + at) == Get32(part, at)
  {
    Skip32(before, part, at);
    Keep32(before + part, after, |before| + at);
  }

  // --------------------------------------------------------------- the checksum

  function CrcBit(v: bv32): bv32 {
    (v >> 1) ^ (if v & 1 == 1 then 0xedb88320 else 0)
  }

  function CrcBits(v: bv32, n: nat): bv32 {
    if n == 0 then v else CrcBit(CrcBits(v, n - 1))
  }

  function CrcOf(bytes: seq<byte>): bv32 {
    if bytes == [] then 0xffffffff else CrcBits(CrcOf(bytes[..|bytes| - 1]) ^ (bytes[|bytes| - 1] as bv32), 8)
  }

  function Crc(bytes: seq<byte>): (c: int)
    ensures 0 <= c < LIMIT32
  {
    (CrcOf(bytes) ^ 0xffffffff) as int
  }

  // --------------------------------------------------------------- headers

  datatype Entry = Entry(name: seq<byte>, data: seq<byte>)

  predicate Fits(e: Entry) {
    |e.name| < LIMIT16 && |e.data| < LIMIT32
  }

  const LOCAL := 0x04034b50
  const CENTRAL := 0x02014b50
  const END := 0x06054b50

  // Version 2.0, UTF-8 name, stored, the first DOS date.
  function Flags(): (f: seq<byte>)
    ensures |f| == 10
  {
    U16(20) + U16(0x800) + U16(0) + U16(0) + U16(33)
  }

  // No extra field, no comment, first disk, no attributes.
  function NoExtras(): (x: seq<byte>)
    ensures |x| == 12
  {
    U16(0) + U16(0) + U16(0) + U16(0) + U32(0)
  }

  /** The checksum, the stored size twice, and the length of the name. */
  function Sizes(e: Entry, rest: seq<byte>): (s: seq<byte>)
    requires Fits(e)
    ensures |s| == 14 + |rest|
  {
    U32(Crc(e.data)) + (U32(|e.data|) + (U32(|e.data|) + (U16(|e.name|) + rest)))
  }

  /** A local file header. */
  function Head(e: Entry): (h: seq<byte>)
    requires Fits(e)
    ensures |h| == 30
  {
    U32(LOCAL) + (Flags() + Sizes(e, U16(0)))
  }

  /** A central directory header for the entry whose local header is at the offset. */
  function Dir(e: Entry, offset: int): (d: seq<byte>)
    requires Fits(e) && 0 <= offset < LIMIT32
    ensures |d| == 46
  {
    U32(CENTRAL) + ((U16(20) + Flags()) + Sizes(e, NoExtras() + U32(offset)))
  }

  /** The end of the central directory, without a comment. */
  function End(count: int, directory: int, offset: int): (e: seq<byte>)
    requires 0 <= count < LIMIT16 && 0 <= directory < LIMIT32 && 0 <= offset < LIMIT32
    ensures |e| == 22
  {
    U32(END) + ((U16(0) + U16(0)) + (U16(count) + (U16(count) + (U32(directory) + (U32(offset) + U16(0))))))
  }

  // --------------------------------------------------------------- archives

  function LocalPart(e: Entry): (p: seq<byte>)
    requires Fits(e)
    ensures |p| == 30 + |e.name| + |e.data|
  {
    Head(e) + e.name + e.data
  }

  predicate AllFit(es: seq<Entry>) {
    forall i :: 0 <= i < |es| ==> Fits(es[i])
  }

  function Locals(es: seq<Entry>): (l: seq<byte>)
    requires AllFit(es)
    ensures |l| == LocalSize(es)
  {
    if es == [] then [] else Locals(es[..|es| - 1]) + LocalPart(es[|es| - 1])
  }

  function LocalSize(es: seq<Entry>): nat {
    if es == [] then 0 else LocalSize(es[..|es| - 1]) + 30 + |es[|es| - 1].name| + |es[|es| - 1].data|
  }

  function DirSize(es: seq<Entry>): nat {
    if es == [] then 0 else DirSize(es[..|es| - 1]) + 46 + |es[|es| - 1].name|
  }

  predicate Small(es: seq<Entry>) {
    AllFit(es) && LocalSize(es) < LIMIT32
  }

  function DirPart(e: Entry, offset: int): (p: seq<byte>)
    requires Fits(e) && 0 <= offset < LIMIT32
    ensures |p| == 46 + |e.name|
  {
    Dir(e, offset) + e.name
  }

  lemma SmallPrefix(es: seq<Entry>)
    requires es != [] && Small(es)
    ensures Small(es[..|es| - 1])
  {
  }

  /** Each entry's directory header, with the offset of its own local header. */
  function Directory(es: seq<Entry>): (d: seq<byte>)
    requires Small(es)
    ensures |d| == DirSize(es)
  {
    if es == [] then []
    else
      SmallPrefix(es);
      Directory(es[..|es| - 1]) + DirPart(es[|es| - 1], LocalSize(es[..|es| - 1]))
  }

  predicate Archivable(es: seq<Entry>) {
    Small(es) && |es| < LIMIT16 && DirSize(es) < LIMIT32
  }

  function Archive(es: seq<Entry>): (a: seq<byte>)
    requires Archivable(es)
    ensures |a| == LocalSize(es) + DirSize(es) + 22
  {
    Locals(es) + Directory(es) + End(|es|, DirSize(es), LocalSize(es))
  }

  // --------------------------------------------------------------- reading back

  /** The file a local header at the offset describes, with its stored checksum right. */
  function ReadLocal(a: seq<byte>, at: int): Option<Entry> {
    if at < 0 || at + 30 > |a| || Get32(a, at) != LOCAL then None
    else
      var size, name := Get32(a, at + 18), Get16(a, at + 26);
      if at + 30 + name + size > |a| then None
      else
        var e := Entry(a[at + 30..at + 30 + name], a[at + 30 + name..at + 30 + name + size]);
        if Get32(a, at + 14) == Crc(e.data) then Some(e) else None
  }

  datatype Listing = Listing(entry: Entry, next: int)

  /** A directory header, followed to its local header, which must agree on the name, the size and the checksum. */
  function ReadCentral(a: seq<byte>, at: int): Option<Listing> {
    if at < 0 || at + 46 > |a| || Get32(a, at) != CENTRAL then None
    else
      var name := Get16(a, at + 28);
      if at + 46 + name > |a| then None
      else
        var e := ReadLocal(a, Get32(a, at + 42));
        if e.Some? && e.value.name == a[at + 46..at + 46 + name] && Get32(a, at + 24) == |e.value.data| && Get32(a, at + 16) == Crc(e.value.data)
        then Some(Listing(e.value, at + 46 + name + Get16(a, at + 30) + Get16(a, at + 32))) else None
  }

  function ReadEntries(a: seq<byte>, at: int, count: nat): Option<seq<Entry>>
    decreases count
  {
    if count == 0 then Some([])
    else
      var first := ReadCentral(a, at);
      if first.None? then None
      else
        var rest := ReadEntries(a, first.value.next, count - 1);
        if rest.None? then None else Some([first.value.entry] + rest.value)
  }

  /** An archive without a comment, read through its end record and central directory. */
  function Unzip(a: seq<byte>): Option<seq<Entry>> {
    if |a| < 22 || Get32(a, |a| - 22) != END || Get16(a, |a| - 2) != 0
       || Get32(a, |a| - 6) + Get32(a, |a| - 10) != |a| - 22 || Get16(a, |a| - 12) != Get16(a, |a| - 14)
    then None
    else ReadEntries(a, Get32(a, |a| - 6), Get16(a, |a| - 12))
  }

  // --------------------------------------------------------------- fields of headers

  lemma SizesFields(e: Entry, rest: seq<byte>)
    requires Fits(e)
    ensures var s := Sizes(e, rest);
            Get32(s, 0) == Crc(e.data) && Get32(s, 4) == |e.data| && Get32(s, 8) == |e.data| && Get16(s, 12) == |e.name|
  {
    hide Crc, U16, U32, Get16, Get32;
    var r3 := U16(|e.name|) + rest;
    var r2 := U32(|e.data|) + r3;
    var r1 := U32(|e.data|) + r2;
    First32(Crc(e.data), r1);
    Skip32(U32(Crc(e.data)), r1, 0);
    First32(|e.data|, r2);
    Skip32(U32(Crc(e.data)), r1, 4);
    Skip32(U32(|e.data|), r2, 0);
    First32(|e.data|, r3);
    Skip16(U32(Crc(e.data)), r1, 8);
    Skip16(U32(|e.data|), r2, 4);
    Skip16(U32(|e.data|), r3, 0);
    First16(|e.name|, rest);
  }

  lemma HeadFields(e: Entry)
    requires Fits(e)
    ensures var h := Head(e);
            Get32(h, 0) == LOCAL && Get32(h, 14) == Crc(e.data) && Get32(h, 18) == |e.data| && Get16(h, 26) == |e.name|
  {
    hide Crc, U16, U32, Get16, Get32, Sizes, Flags;
    var s := Sizes(e, U16(0));
    SizesFields(e, U16(0));
    First32(LOCAL, Flags() + s);
    Skip32(U32(LOCAL), Flags() + s, 10);
    Skip32(Flags(), s, 0);
    Skip32(U32(LOCAL), Flags() + s, 14);
    Skip32(Flags(), s, 4);
    Skip16(U32(LOCAL), Flags() + s, 22);
    Skip16(Flags(), s, 12);
  }

  // What follows the sizes in a directory header.
  lemma TailFields(offset: int)
    requires 0 <= offset < LIMIT32
    ensures var t := NoExtras() + U32(offset); Get16(t, 0) == 0 && Get16(t, 2) == 0 && Get32(t, 12) == offset
  {
    Skip32(NoExtras(), U32(offset), 0);
    First32(offset, []);
    assert U32(offset) + [] == U32(offset);
    assert NoExtras()[0] == 0 && NoExtras()[1] == 0 && NoExtras()[2] == 0 && NoExtras()[3] == 0;
  }

  lemma SizesThen(e: Entry, rest: seq<byte>, at: nat)
    requires Fits(e)
    ensures at + 2 <= |rest| ==> Get16(Sizes(e, rest), 14 + at) == Get16(rest, at)
    ensures at + 4 <= |rest| ==> Get32(Sizes(e, rest), 14 + at) == Get32(rest, at)
  {
    hide Crc, U16, U32, Get16, Get32;
    var fixed := U32(Crc(e.data)) + U32(|e.data|) + U32(|e.data|) + U16(|e.name|);
    assert Sizes(e, rest) == fixed + rest;
    if at + 2 <= |rest| {
      Skip16(fixed, rest, at);
    }
    if at + 4 <= |rest| {
      Skip32(fixed, rest, at);
    }
  }

  lemma DirFields(e: Entry, offset: int)
    requires Fits(e) && 0 <= offset < LIMIT32
    ensures var d := Dir(e, offset);
            && Get32(d, 0) == CENTRAL && Get32(d, 16) == Crc(e.data) && Get32(d, 24) == |e.data|
            && Get16(d, 28) == |e.name| && Get16(d, 30) == 0 && Get16(d, 32) == 0 && Get32(d, 42) == offset
  {
    hide Crc, U16, U32, Get16, Get32, Sizes, Flags, NoExtras;
    var tail := NoExtras() + U32(offset);
    var f, s := U16(20) + Flags(), Sizes(e, tail);
    SizesFields(e, tail);
    TailFields(offset);
    SizesThen(e, tail, 0);
    SizesThen(e, tail, 2);
    SizesThen(e, tail, 12);
    First32(CENTRAL, f + s);
    Skip32(U32(CENTRAL), f + s, 12);
    Skip32(f, s, 0);
    Skip32(U32(CENTRAL), f + s, 20);
    Skip32(f, s, 8);
    Skip16(U32(CENTRAL), f + s, 24);
    Skip16(f, s, 12);
    Skip16(U32(CENTRAL), f + s, 26);
    Skip16(f, s, 14);
    Skip16(U32(CENTRAL), f + s, 28);
    Skip16(f, s, 16);
    Skip32(U32(CENTRAL), f + s, 38);
    Skip32(f, s, 26);
  }

  lemma EndFields(count: int, directory: int, offset: int)
    requires 0 <= count < LIMIT16 && 0 <= directory < LIMIT32 && 0 <= offset < LIMIT32
    ensures var e := End(count, directory, offset);
            && Get32(e, 0) == END && Get16(e, 8) == count && Get16(e, 10) == count
            && Get32(e, 12) == directory && Get32(e, 16) == offset && Get16(e, 20) == 0
  {
    hide U16, U32, Get16, Get32;
    var z := U16(0) + U16(0);
    var r4 := U32(offset) + U16(0);
    var r3 := U32(directory) + r4;
    var r2 := U16(count) + r3;
    var r1 := U16(count) + r2;
    First32(END, z + r1);
    Skip16(U32(END), z + r1, 4);
    Skip16(z, r1, 0);
    First16(count, r2);
    Skip16(U32(END), z + r1, 6);
    Skip16(z, r1, 2);
    Skip16(U16(count), r2, 0);
    First16(count, r3);
    Skip32(U32(END), z + r1, 8);
    Skip32(z, r1, 4);
    Skip32(U16(count), r2, 2);
    Skip32(U16(count), r3, 0);
    First32(directory, r4);
    Skip32(U32(END), z + r1, 12);
    Skip32(z, r1, 8);
    Skip32(U16(count), r2, 6);
    Skip32(U16(count), r3, 4);
    Skip32(U32(directory), r4, 0);
    First32(offset, U16(0));
    EndComment(count, directory, offset);
  }

  lemma EndComment(count: int, directory: int, offset: int)
    requires 0 <= count < LIMIT16 && 0 <= directory < LIMIT32 && 0 <= offset < LIMIT32
    ensures Get16(End(count, directory, offset), 20) == 0
  {
    hide U16, U32, Get16, Get32;
    var fixed := U32(END) + (U16(0) + U16(0)) + U16(count) + U16(count) + U32(directory) + U32(offset);
    assert End(count, directory, offset) == fixed + U16(0);
    Skip16(fixed, U16(0), 0);
    First16(0, []);
    assert U16(0) + [] == U16(0);
  }

  // --------------------------------------------------------------- round trip

  lemma ReadsLocal(e: Entry, before: seq<byte>, after: seq<byte>)
    requires Fits(e)
    ensures ReadLocal(before + LocalPart(e) + after, |before|) == Some(e)
  {
    hide Crc, Get16, Get32, Head;
    var a, at, rest := before + LocalPart(e) + after, |before|, e.name + e.data + after;
    HeadFields(e);
    assert a == before + Head(e) + rest;
    Inside32(before, Head(e), rest, 0);
    Inside32(before, Head(e), rest, 14);
    Inside32(before, Head(e), rest, 18);
    Inside16(before, Head(e), rest, 26);
    assert a[at + 30..at + 30 + |e.name|] == e.name;
    assert a[at + 30 + |e.name|..at + 30 + |e.name| + |e.data|] == e.data;
  }

  lemma ReadsCentral(a: seq<byte>, e: Entry, offset: int, before: seq<byte>, after: seq<byte>)
    requires Fits(e) && 0 <= offset < LIMIT32 && a == before + DirPart(e, offset) + after && ReadLocal(a, offset) == Some(e)
    ensures ReadCentral(a, |before|) == Some(Listing(e, |before| + 46 + |e.name|))
  {
    hide Crc, Get16, Get32, Dir, ReadLocal;
    var d, rest := Dir(e, offset), e.name + after;
    DirFields(e, offset);
    assert a == before + d + rest;
    Inside32(before, d, rest, 0);
    Inside32(before, d, rest, 16);
    Inside32(before, d, rest, 24);
    Inside16(before, d, rest, 28);
    Inside16(before, d, rest, 30);
    Inside16(before, d, rest, 32);
    Inside32(before, d, rest, 42);
    assert a[|before| + 46..|before| + 46 + |e.name|] == e.name;
  }

  lemma Regroup(a: seq<byte>, b: seq<byte>, c: seq<byte>, d: seq<byte>)
    ensures (a + b + c) + d == a + b + (c + d)
  {
  }

  lemma {:induction false} LocalsSplit(es: seq<Entry>, k: nat) returns (after: seq<byte>)
    requires AllFit(es) && k < |es|
    ensures Locals(es) == Locals(es[..k]) + LocalPart(es[k]) + after
  {
    hide LocalPart;
    if k == |es| - 1 {
      after := [];
      assert Locals(es[..k]) + LocalPart(es[k]) + after == Locals(es[..k]) + LocalPart(es[k]);
    } else {
      var rest := LocalsSplit(es[..|es| - 1], k);
      assert es[..|es| - 1][..k] == es[..k];
      after := rest + LocalPart(es[|es| - 1]);
      Regroup(Locals(es[..k]), LocalPart(es[k]), rest, LocalPart(es[|es| - 1]));
    }
  }

  lemma {:induction false} SmallTake(es: seq<Entry>, k: nat)
    requires Small(es) && k <= |es|
    ensures Small(es[..k]) && LocalSize(es[..k]) <= LocalSize(es) && DirSize(es[..k]) <= DirSize(es)
  {
    if k < |es| {
      SmallPrefix(es);
      SmallTake(es[..|es| - 1], k);
      assert es[..|es| - 1][..k] == es[..k];
    } else {
      assert es[..k] == es;
    }
  }

  lemma {:induction false} DirectorySplit(es: seq<Entry>, k: nat) returns (after: seq<byte>)
    requires Small(es) && k < |es|
    ensures Small(es[..k]) && LocalSize(es[..k]) < LIMIT32
    ensures Directory(es) == Directory(es[..k]) + DirPart(es[k], LocalSize(es[..k])) + after
  {
    hide DirPart;
    SmallTake(es, k);
    if k == |es| - 1 {
      after := [];
      assert Directory(es[..k]) + DirPart(es[k], LocalSize(es[..k])) + after == Directory(es[..k]) + DirPart(es[k], LocalSize(es[..k]));
    } else {
      SmallPrefix(es);
      var rest := DirectorySplit(es[..|es| - 1], k);
      assert es[..|es| - 1][..k] == es[..k];
      after := rest + DirPart(es[|es| - 1], LocalSize(es[..|es| - 1]));
      Regroup(Directory(es[..k]), DirPart(es[k], LocalSize(es[..k])), rest, DirPart(es[|es| - 1], LocalSize(es[..|es| - 1])));
    }
  }

  lemma RegroupWithin(l: seq<byte>, a: seq<byte>, b: seq<byte>, c: seq<byte>, end: seq<byte>)
    ensures l + (a + b + c) + end == (l + a) + b + (c + end)
  {
  }

  lemma DirSizeNext(es: seq<Entry>, k: nat)
    requires k < |es|
    ensures DirSize(es[..k + 1]) == DirSize(es[..k]) + 46 + |es[k].name|
  {
    assert es[..k + 1][..k] == es[..k];
  }

  lemma LocalReadsBack(es: seq<Entry>, k: nat)
    requires Archivable(es) && k < |es|
    ensures ReadLocal(Archive(es), LocalSize(es[..k])) == Some(es[k])
  {
    hide ReadLocal, End, Locals, Directory, LocalPart;
    var rest := Directory(es) + End(|es|, DirSize(es), LocalSize(es));
    var l := LocalsSplit(es, k);
    ReadsLocal(es[k], Locals(es[..k]), l + rest);
    Regroup(Locals(es[..k]), LocalPart(es[k]), l, rest);
    assert Archive(es) == Locals(es) + rest;
  }

  /** Each directory header points at its own entry's local header, and that reads back as the entry. */
  lemma EntryReadsBack(es: seq<Entry>, k: nat)
    requires Archivable(es) && k < |es|
    ensures Small(es[..k])
    ensures ReadLocal(Archive(es), LocalSize(es[..k])) == Some(es[k])
    ensures ReadCentral(Archive(es), LocalSize(es) + DirSize(es[..k])) == Some(Listing(es[k], LocalSize(es) + DirSize(es[..k + 1])))
  {
    hide ReadLocal, ReadCentral, End, Locals, Directory, DirPart, LocalSize, DirSize;
    var end := End(|es|, DirSize(es), LocalSize(es));
    LocalReadsBack(es, k);
    var d := DirectorySplit(es, k);
    var before, part := Locals(es) + Directory(es[..k]), DirPart(es[k], LocalSize(es[..k]));
    RegroupWithin(Locals(es), Directory(es[..k]), part, d, end);
    DirSizeNext(es, k);
    ReadsCentral(Archive(es), es[k], LocalSize(es[..k]), before, d + end);
  }

  lemma {:induction false} EntriesReadBack(es: seq<Entry>, k: nat)
    requires Archivable(es) && k <= |es|
    ensures ReadEntries(Archive(es), LocalSize(es) + DirSize(es[..k]), |es| - k) == Some(es[k..])
    decreases |es| - k
  {
    hide ReadCentral, Archive;
    if k < |es| {
      EntryReadsBack(es, k);
      EntriesReadBack(es, k + 1);
      assert es[k..] == [es[k]] + es[k + 1..];
    } else {
      assert es[k..] == [];
    }
  }

  /** Reading an archive back through its central directory gives the files it was made of, in order. */
  lemma ArchiveRoundTrip(es: seq<Entry>)
    requires Archivable(es)
    ensures Unzip(Archive(es)) == Some(es)
  {
    hide ReadEntries, End, Locals, Directory, Get16, Get32;
    var before, end := Locals(es) + Directory(es), End(|es|, DirSize(es), LocalSize(es));
    EndFields(|es|, DirSize(es), LocalSize(es));
    Skip32(before, end, 0);
    Skip16(before, end, 8);
    Skip16(before, end, 10);
    Skip32(before, end, 12);
    Skip32(before, end, 16);
    Skip16(before, end, 20);
    EntriesReadBack(es, 0);
    assert es[..0] == [] && es[0..] == es;
  }
}

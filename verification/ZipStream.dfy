/** The streamed package of a purchase (packages/commerce-runtime/src/zip-stream.ts). */
module ZipStream {
  import opened Common
  import opened Zip

  datatype Asset = Asset(id: string, title: string, byteLength: nat, checksum: string)

  datatype Error = PackageFormatLimit | CreatorStorageLimit | ContentUnavailable | InvalidOutputPath | NameTooLong

  // --------------------------------------------------------------- entry names

  predicate IsPlain(c: char) {
    'A' <= c <= 'Z' || 'a' <= c <= 'z' || '0' <= c <= '9' || c == '.' || c == '_' || c == '-'
  }

  // A character outside the basic plane is two UTF-16 units, each replaced on its own.
  function Plain(s: string): (r: string)
    ensures forall i :: 0 <= i < |r| ==> IsPlain(r[i])
  {
    if s == "" then ""
    else
      var c := s[|s| - 1];
      Plain(s[..|s| - 1]) + (if IsPlain(c) then [c] else if c as int >= 0x10000 then ['_', '_'] else ['_'])
  }

  function PackageEntryName(a: Asset): string {
    var title := Plain(a.title);
    a.id + "-" + title[..Min(100, |title|)]
  }

  function Utf8Char(c: char): (b: seq<byte>) {
    var v := c as int;
    if v < 0x80 then [v]
    else if v < 0x800 then [0xc0 + v / 64, 0x80 + v % 64]
    else if v < 0x10000 then [0xe0 + v / 4096, 0x80 + v / 64 % 64, 0x80 + v % 64]
    else [(0xf0 + v / 262144) % 256, 0x80 + v / 4096 % 64, 0x80 + v / 64 % 64, 0x80 + v % 64]
  }

  function Utf8(s: string): seq<byte> {
    if s == "" then [] else Utf8(s[..|s| - 1]) + Utf8Char(s[|s| - 1])
  }

  function Parts(s: string): seq<string> {
    if s == "" then [""]
    else
      var rest := Parts(s[1..]);
      if s[0] == '/' then [""] + rest else if rest == [] then [[s[0]]] else [[s[0]] + rest[0]] + rest[1..]
  }

  /** A safe relative path of letters, digits and %_./-; outside ASCII, word says what is a letter or digit. */
  predicate SafeName(s: string, word: char -> bool) {
    && s != "" && s[0] != '/'
    && (forall i :: 0 <= i < |s| ==> IsPlain(s[i]) || s[i] == '%' || s[i] == '/' || (s[i] as int >= 0x80 && word(s[i])))
    && "" !in Parts(s) && "." !in Parts(s) && ".." !in Parts(s)
  }

  // Names compare by UTF-16 units, which puts characters outside the basic plane before U+E000.
  function Rank(c: char): int {
    if 0xe000 <= c as int < 0x10000 then c as int + 0x110000 else c as int
  }

  predicate NameBefore(a: string, b: string) {
    if b == "" then false
    else if a == "" then true
    else Rank(a[0]) < Rank(b[0]) || (a[0] == b[0] && NameBefore(a[1..], b[1..]))
  }

  // --------------------------------------------------------------- size and order

  function EntrySize(a: Asset): nat {
    a.byteLength + 76 + 2 * |Utf8(PackageEntryName(a))|
  }

  function TotalSize(assets: seq<Asset>): nat {
    if assets == [] then 0 else TotalSize(assets[..|assets| - 1]) + EntrySize(assets[|assets| - 1])
  }

  predicate TooLarge(assets: seq<Asset>) {
    |assets| > 65535 || (exists i :: 0 <= i < |assets| && assets[i].byteLength > 0xffffffff) || 22 + TotalSize(assets) > 0xffffffff
  }

  function CommercePackageSize(assets: seq<Asset>): Result<nat, Error> {
    if TooLarge(assets) then Err(PackageFormatLimit) else Ok(22 + TotalSize(assets))
  }

  function InsertByName(sorted: seq<Asset>, a: Asset): (r: seq<Asset>)
    ensures multiset(r) == multiset(sorted) + multiset{a}
  {
    if sorted == [] then [a]
    else
      var last := sorted[|sorted| - 1];
      assert sorted == sorted[..|sorted| - 1] + [last];
      if NameBefore(PackageEntryName(a), PackageEntryName(last)) then InsertByName(sorted[..|sorted| - 1], a) + [last] else sorted + [a]
  }

  /** Array.sort by entry name. */
  function SortByName(assets: seq<Asset>): (r: seq<Asset>)
    ensures multiset(r) == multiset(assets)
  {
    if assets == [] then []
    else
      assert assets == assets[..|assets| - 1] + [assets[|assets| - 1]];
      InsertByName(SortByName(assets[..|assets| - 1]), assets[|assets| - 1])
  }

  ghost predicate InNameOrder(assets: seq<Asset>) {
    forall i, j :: 0 <= i < j < |assets| ==> !NameBefore(PackageEntryName(assets[j]), PackageEntryName(assets[i]))
  }

  lemma {:induction false} NamesTransitive(a: string, b: string, c: string)
    requires NameBefore(a, b) && !NameBefore(c, b)
    ensures NameBefore(a, c)
  {
    if a != "" && b != "" && c != "" && a[0] == b[0] && b[0] == c[0] {
      NamesTransitive(a[1..], b[1..], c[1..]);
    }
  }

  lemma {:induction false} InsertKeepsNameOrder(sorted: seq<Asset>, a: Asset)
    requires InNameOrder(sorted)
    ensures InNameOrder(InsertByName(sorted, a))
  {
    hide PackageEntryName, NameBefore;
    if sorted != [] {
      var n := |sorted| - 1;
      var last := sorted[n];
      if NameBefore(PackageEntryName(a), PackageEntryName(last)) {
        InsertKeepsNameOrder(sorted[..n], a);
        var before := InsertByName(sorted[..n], a);
        forall i | 0 <= i < |before| ensures !NameBefore(PackageEntryName(last), PackageEntryName(before[i])) {
          assert before[i] in multiset(before);
          assert before[i] in sorted[..n] || before[i] == a;
          NotBoth(PackageEntryName(a), PackageEntryName(last));
        }
      } else {
        forall i | 0 <= i < |sorted| ensures !NameBefore(PackageEntryName(a), PackageEntryName(sorted[i])) {
          if NameBefore(PackageEntryName(a), PackageEntryName(sorted[i])) && i < n {
            NamesTransitive(PackageEntryName(a), PackageEntryName(sorted[i]), PackageEntryName(last));
          }
        }
      }
    }
  }

  lemma {:induction false} NotBoth(a: string, b: string)
    ensures !(NameBefore(a, b) && NameBefore(b, a))
  {
    if a != "" && b != "" {
      NotBoth(a[1..], b[1..]);
    }
  }

  lemma {:induction false} SortedByName(assets: seq<Asset>)
    ensures InNameOrder(SortByName(assets))
  {
    if assets != [] {
      SortedByName(assets[..|assets| - 1]);
      InsertKeepsNameOrder(SortByName(assets[..|assets| - 1]), assets[|assets| - 1]);
    }
  }

  lemma {:induction false} InsertAddsSize(sorted: seq<Asset>, a: Asset)
    ensures TotalSize(InsertByName(sorted, a)) == TotalSize(sorted) + EntrySize(a)
    ensures |InsertByName(sorted, a)| == |sorted| + 1
  {
    if sorted == [] {
      assert [a][..0] == [];
    } else {
      var n := |sorted| - 1;
      InsertAddsSize(sorted[..n], a);
      var r := InsertByName(sorted, a);
      assert r[..|r| - 1] == (if NameBefore(PackageEntryName(a), PackageEntryName(sorted[n])) then InsertByName(sorted[..n], a) else sorted);
    }
  }

  lemma {:induction false} SortingKeepsSize(assets: seq<Asset>)
    ensures TotalSize(SortByName(assets)) == TotalSize(assets) && |SortByName(assets)| == |assets|
  {
    if assets != [] {
      SortingKeepsSize(assets[..|assets| - 1]);
      InsertAddsSize(SortByName(assets[..|assets| - 1]), assets[|assets| - 1]);
    }
  }

  // --------------------------------------------------------------- what is archived

  function EntryOf(a: Asset, bytes: seq<byte>): Entry {
    Entry(Utf8(PackageEntryName(a)), bytes)
  }

  /** Why one asset cannot be archived, in the order the writer finds out. */
  function Problem(a: Asset, bytes: seq<byte>, digest: string, word: char -> bool): Option<Error> {
    if |bytes| != a.byteLength || digest != a.checksum then Some(ContentUnavailable)
    else if !SafeName(PackageEntryName(a), word) then Some(InvalidOutputPath)
    else if |Utf8(PackageEntryName(a))| >= LIMIT16 then Some(NameTooLong)
    else None
  }

  function Entries(assets: seq<Asset>, read: Asset -> seq<byte>): (es: seq<Entry>)
    ensures |es| == |assets|
  {
    if assets == [] then []
    else Entries(assets[..|assets| - 1], read) + [EntryOf(assets[|assets| - 1], read(assets[|assets| - 1]))]
  }

  ghost predicate NoProblem(assets: seq<Asset>, read: Asset -> seq<byte>, digest: seq<byte> -> string, word: char -> bool) {
    forall i :: 0 <= i < |assets| ==> Problem(assets[i], read(assets[i]), digest(read(assets[i])), word).None?
  }

  /** The first problem met in the order given. */
  function FirstProblem(assets: seq<Asset>, read: Asset -> seq<byte>, digest: seq<byte> -> string, word: char -> bool): Option<Error> {
    if assets == [] then None
    else
      var before, a := FirstProblem(assets[..|assets| - 1], read, digest, word), assets[|assets| - 1];
      if before.Some? then before else Problem(a, read(a), digest(read(a)), word)
  }

  lemma {:induction false} NoFirstProblem(assets: seq<Asset>, read: Asset -> seq<byte>, digest: seq<byte> -> string, word: char -> bool)
    ensures FirstProblem(assets, read, digest, word).None? <==> NoProblem(assets, read, digest, word)
  {
    hide Problem;
    if assets != [] {
      var n := |assets| - 1;
      NoFirstProblem(assets[..n], read, digest, word);
      assert assets == assets[..n] + [assets[n]];
      if NoProblem(assets[..n], read, digest, word) && Problem(assets[n], read(assets[n]), digest(read(assets[n])), word).None? {
        forall i | 0 <= i < |assets| ensures Problem(assets[i], read(assets[i]), digest(read(assets[i])), word).None? {
          if i < n {
            assert assets[..n][i] == assets[i];
          }
        }
      }
      if NoProblem(assets, read, digest, word) {
        forall i | 0 <= i < n ensures Problem(assets[..n][i], read(assets[..n][i]), digest(read(assets[..n][i])), word).None? {
          assert assets[..n][i] == assets[i];
        }
      }
    }
  }

  lemma {:induction false} ProblemStays(assets: seq<Asset>, read: Asset -> seq<byte>, digest: seq<byte> -> string, word: char -> bool, n: nat)
    requires n < |assets| && FirstProblem(assets[..n], read, digest, word).None?
    ensures var p := Problem(assets[n], read(assets[n]), digest(read(assets[n])), word);
            && FirstProblem(assets[..n + 1], read, digest, word) == p
            && (p.Some? ==> FirstProblem(assets, read, digest, word) == p)
  {
    hide Problem;
    assert assets[..n + 1][..n] == assets[..n];
    if n < |assets| - 1 {
      var shorter := assets[..|assets| - 1];
      assert shorter[..n] == assets[..n];
      ProblemStays(shorter, read, digest, word, n);
    } else {
      assert assets[..n + 1] == assets;
    }
  }

  function StreamError(assets: seq<Asset>, read: Asset -> seq<byte>, digest: seq<byte> -> string, word: char -> bool, maximum: int): Option<Error> {
    if TooLarge(assets) then Some(PackageFormatLimit)
    else if CommercePackageSize(assets).value > maximum then Some(CreatorStorageLimit)
    else FirstProblem(SortByName(assets), read, digest, word)
  }

  lemma {:induction false} EntriesFit(assets: seq<Asset>, read: Asset -> seq<byte>, digest: seq<byte> -> string, word: char -> bool)
    requires NoProblem(assets, read, digest, word) && forall i :: 0 <= i < |assets| ==> assets[i].byteLength <= 0xffffffff
    ensures AllFit(Entries(assets, read))
    ensures LocalSize(Entries(assets, read)) + DirSize(Entries(assets, read)) == TotalSize(assets)
  {
    hide SafeName;
    if assets != [] {
      var n := |assets| - 1;
      EntriesFit(assets[..n], read, digest, word);
      assert Entries(assets, read)[..n] == Entries(assets[..n], read);
      assert Problem(assets[n], read(assets[n]), digest(read(assets[n])), word).None?;
    }
  }

  lemma {:induction false} EntryAt(assets: seq<Asset>, read: Asset -> seq<byte>, i: nat)
    requires i < |assets|
    ensures Entries(assets, read)[i] == EntryOf(assets[i], read(assets[i]))
  {
    if i < |assets| - 1 {
      EntryAt(assets[..|assets| - 1], read, i);
    }
  }

  lemma BytesBounded(assets: seq<Asset>)
    requires !TooLarge(assets)
    ensures forall i :: 0 <= i < |SortByName(assets)| ==> SortByName(assets)[i].byteLength <= 0xffffffff
  {
    var sorted := SortByName(assets);
    forall i | 0 <= i < |sorted| ensures sorted[i].byteLength <= 0xffffffff {
      assert sorted[i] in multiset(sorted);
      assert sorted[i] in assets;
    }
  }

  /** Within the limits every count, size and offset fits its field. */
  lemma PackagesFit(assets: seq<Asset>, read: Asset -> seq<byte>, digest: seq<byte> -> string, word: char -> bool)
    requires !TooLarge(assets) && NoProblem(SortByName(assets), read, digest, word)
    ensures Archivable(Entries(SortByName(assets), read))
    ensures LocalSize(Entries(SortByName(assets), read)) + DirSize(Entries(SortByName(assets), read)) + 22 == CommercePackageSize(assets).value
  {
    SortingKeepsSize(assets);
    BytesBounded(assets);
    EntriesFit(SortByName(assets), read, digest, word);
  }

  /**
   The package's archive has exactly the announced size, and reading it back gives
   every file under its name with its bytes, in order of name.
   */
  lemma PackageReadsBack(assets: seq<Asset>, read: Asset -> seq<byte>, digest: seq<byte> -> string, word: char -> bool, i: nat)
    requires !TooLarge(assets) && NoProblem(SortByName(assets), read, digest, word) && i < |assets|
    ensures Archivable(Entries(SortByName(assets), read))
    ensures var sorted, archive := SortByName(assets), Archive(Entries(SortByName(assets), read));
            && |archive| == CommercePackageSize(assets).value
            && InNameOrder(sorted) && multiset(sorted) == multiset(assets) && |sorted| == |assets|
            && Unzip(archive).Some? && |Unzip(archive).value| == |assets|
            && Unzip(archive).value[i] == Entry(Utf8(PackageEntryName(sorted[i])), read(sorted[i]))
  {
    hide Archive, Unzip, Problem;
    PackagesFit(assets, read, digest, word);
    SortedByName(assets);
    SortingKeepsSize(assets);
    ArchiveRoundTrip(Entries(SortByName(assets), read));
    EntryAt(SortByName(assets), read, i);
  }

  // --------------------------------------------------------------- stitching

  // A directory header up to its offset.
  function DirFixed(e: Entry): (f: seq<byte>)
    requires Fits(e)
    ensures |f| == 42
  {
    U32(CENTRAL) + ((U16(20) + Flags()) + Sizes(e, NoExtras()))
  }

  lemma DirSplit(e: Entry, offset: int)
    requires Fits(e) && 0 <= offset < LIMIT32
    ensures Dir(e, offset) == DirFixed(e) + U32(offset)
  {
  }

  method WriteUInt32LE(buffer: array<byte>, v: int, at: nat)
    requires at + 4 <= buffer.Length && 0 <= v < LIMIT32
    modifies buffer
    ensures buffer[..] == old(buffer[..at]) + U32(v) + old(buffer[at + 4..])
  {
    buffer[at], buffer[at + 1], buffer[at + 2], buffer[at + 3] := v % 256, v / 256 % 256, v / 65536 % 256, v / 16777216;
  }

  /** The archive of one entry, taken apart where its end record says the directory begins. */
  lemma SingleParts(e: Entry)
    requires Archivable([e])
    ensures var single := Archive([e]);
            && |single| >= 22 && Get32(single, |single| - 6) == |LocalPart(e)| && |LocalPart(e)| <= |single| - 22
            && single[..|LocalPart(e)|] == LocalPart(e) && single[|LocalPart(e)|..|single| - 22] == DirPart(e, 0)
  {
    hide LocalPart, DirPart, End, Get32, Get16;
    assert [e][..0] == [];
    assert Locals([e]) == Locals([]) + LocalPart(e) && Locals([]) == [];
    assert Directory([e]) == Directory([]) + DirPart(e, 0) && Directory([]) == [];
    var before, end := Locals([e]) + Directory([e]), End(1, DirSize([e]), LocalSize([e]));
    EndFields(1, DirSize([e]), LocalSize([e]));
    Skip32(before, end, 16);
    assert Archive([e]) == before + end;
  }

  /** The directory header of a single archive, moved to the offset in place. */
  method MovedDirectory(e: Entry, directory: seq<byte>, offset: int) returns (moved: seq<byte>)
    requires Fits(e) && directory == DirPart(e, 0) && 0 <= offset < LIMIT32
    ensures moved == DirPart(e, offset)
  {
    hide DirFixed, U32;
    DirSplit(e, 0);
    DirSplit(e, offset);
    assert directory == DirFixed(e) + U32(0) + e.name;
    var buffer := new byte[|directory|](i requires 0 <= i < |directory| => directory[i]);
    assert buffer[..] == directory;
    assert buffer[..42] == DirFixed(e) && buffer[46..] == e.name;
    WriteUInt32LE(buffer, offset, 42);
    moved := buffer[..];
  }

  function Concat(chunks: seq<seq<byte>>): seq<byte> {
    if chunks == [] then [] else Concat(chunks[..|chunks| - 1]) + chunks[|chunks| - 1]
  }

  lemma ConcatOne(chunks: seq<seq<byte>>, chunk: seq<byte>)
    ensures Concat(chunks + [chunk]) == Concat(chunks) + chunk
  {
  }

  lemma {:induction false} ConcatTwo(chunks: seq<seq<byte>>, more: seq<seq<byte>>)
    ensures Concat(chunks + more) == Concat(chunks) + Concat(more)
  {
    if more == [] {
      assert chunks + more == chunks;
    } else {
      var n := |more| - 1;
      ConcatTwo(chunks, more[..n]);
      assert (chunks + more)[..|chunks + more| - 1] == chunks + more[..n];
    }
  }

  lemma SingleFits(e: Entry)
    requires Fits(e) && 30 + |e.name| + |e.data| < LIMIT32
    ensures Archivable([e])
  {
  }

  lemma EntriesSnoc(assets: seq<Asset>, read: Asset -> seq<byte>, n: nat)
    requires n < |assets|
    ensures Entries(assets[..n + 1], read) == Entries(assets[..n], read) + [EntryOf(assets[n], read(assets[n]))]
  {
    assert assets[..n + 1][..n] == assets[..n];
  }

  lemma LastEntryWithin(es: seq<Entry>, e: Entry)
    ensures LocalSize(es + [e]) == LocalSize(es) + 30 + |e.name| + |e.data| && DirSize(es + [e]) == DirSize(es) + 46 + |e.name|
  {
  }

  lemma PrefixFits(assets: seq<Asset>, read: Asset -> seq<byte>, digest: seq<byte> -> string, word: char -> bool, n: nat)
    requires n < |assets| && NoProblem(assets[..n + 1], read, digest, word) && 22 + TotalSize(assets) <= 0xffffffff
    requires forall i :: 0 <= i < |assets| ==> assets[i].byteLength <= 0xffffffff
    ensures var e := EntryOf(assets[n], read(assets[n]));
            Small(Entries(assets[..n + 1], read)) && Archivable([e])
    ensures Entries(assets[..n + 1], read) == Entries(assets[..n], read) + [EntryOf(assets[n], read(assets[n]))]
  {
    hide Problem, SafeName, EntrySize, Entries, EntryOf, TotalSize, LocalSize, DirSize, Utf8;
    var es, e := Entries(assets[..n], read), EntryOf(assets[n], read(assets[n]));
    EntriesFit(assets[..n + 1], read, digest, word);
    PartialSize(assets, n + 1);
    EntriesSnoc(assets, read, n);
    LastEntryWithin(es, e);
    assert Fits((es + [e])[|es|]);
    SingleFits(e);
  }

  lemma {:induction false} PartialSize(assets: seq<Asset>, n: nat)
    requires n <= |assets|
    ensures TotalSize(assets[..n]) <= TotalSize(assets)
  {
    if n < |assets| {
      PartialSize(assets[..|assets| - 1], n);
      assert assets[..|assets| - 1][..n] == assets[..n];
    } else {
      assert assets[..n] == assets;
    }
  }

  lemma OneMoreEntry(es: seq<Entry>, e: Entry)
    requires Small(es + [e])
    ensures Small(es) && Locals(es + [e]) == Locals(es) + LocalPart(e) && LocalSize(es + [e]) == LocalSize(es) + |LocalPart(e)|
    ensures Directory(es + [e]) == Directory(es) + DirPart(e, LocalSize(es))
  {
  }

  /** One asset's chunk and its directory header, taken from an archive of that asset alone. */
  method Stitch(e: Entry, offset: int) returns (chunk: seq<byte>, directory: seq<byte>)
    requires Archivable([e]) && 0 <= offset < LIMIT32
    ensures chunk == LocalPart(e) && directory == DirPart(e, offset)
  {
    hide LocalPart, DirPart, Archive, Get32;
    var single := Archive([e]);
    SingleParts(e);
    assert Fits([e][0]);
    var directoryAt := Get32(single, |single| - 6);
    directory := MovedDirectory(e, single[directoryAt..|single| - 22], offset);
    chunk := single[..directoryAt];
  }

  /** The chunks of the package: local parts as they are read, then the directories, then the end. */
  method StreamCommerceZip(assets: seq<Asset>, read: Asset -> seq<byte>, digest: seq<byte> -> string, word: char -> bool, maximum: int)
    returns (chunks: seq<seq<byte>>, error: Option<Error>)
    ensures error == StreamError(assets, read, digest, word, maximum)
    ensures error.None? ==>
      Archivable(Entries(SortByName(assets), read)) && Concat(chunks) == Archive(Entries(SortByName(assets), read))
      && |Concat(chunks)| == CommercePackageSize(assets).value
  {
    hide LocalPart, DirPart, SafeName, EntrySize, PackageEntryName, Problem, Archive, End, Locals, Directory, LocalSize, DirSize, TooLarge,
      AllFit, TotalSize, Entries, EntryOf, SortByName, Concat, InsertByName, FirstProblem, NoProblem;
    chunks := [];
    var size := CommercePackageSize(assets);
    if size.Err? {
      return [], Some(size.error);
    }
    if size.value > maximum {
      return [], Some(CreatorStorageLimit);
    }
    var sorted := SortByName(assets);
    SortingKeepsSize(assets);
    BytesBounded(assets);
    SizeWithin(assets);
    NoneYet(read);
    var offset := 0;
    var directories: seq<seq<byte>> := [];
    for n := 0 to |sorted|
      invariant FirstProblem(sorted[..n], read, digest, word).None? && Small(Entries(sorted[..n], read))
      invariant offset == LocalSize(Entries(sorted[..n], read))
      invariant Concat(chunks) == Locals(Entries(sorted[..n], read))
      invariant Concat(directories) == Directory(Entries(sorted[..n], read))
    {
      var a := sorted[n];
      var bytes := read(a);
      var problem := Problem(a, bytes, digest(bytes), word);
      ProblemStays(sorted, read, digest, word, n);
      if problem.Some? {
        return chunks, problem;
      }
      var e := EntryOf(a, bytes);
      assert sorted[..n + 1] == sorted[..n] + [a];
      NoFirstProblem(sorted[..n + 1], read, digest, word);
      PrefixFits(sorted, read, digest, word, n);
      OneMoreEntry(Entries(sorted[..n], read), e);
      var chunk, directory := Stitch(e, offset);
      ConcatOne(directories, directory);
      ConcatOne(chunks, chunk);
      directories := directories + [directory];
      chunks := chunks + [chunk];
      offset := offset + |chunk|;
    }
    assert sorted[..|sorted|] == sorted;
    NoFirstProblem(sorted, read, digest, word);
    PackagesFit(assets, read, digest, word);
    EndOfArchive(Entries(sorted, read));
    var end := End(|assets|, |Concat(directories)|, offset);
    ConcatTwo(chunks, directories);
    ConcatOne(chunks + directories, end);
    chunks := chunks + directories + [end];
    error := None;
  }

  lemma SizeWithin(assets: seq<Asset>)
    requires !TooLarge(assets)
    ensures 22 + TotalSize(assets) <= 0xffffffff && |assets| <= 65535
  {
  }

  lemma NoneYet(read: Asset -> seq<byte>)
    ensures Small(Entries([], read)) && LocalSize(Entries([], read)) == 0
    ensures Locals(Entries([], read)) == [] && Directory(Entries([], read)) == [] && Concat([]) == []
    ensures forall digest: seq<byte> -> string, word: char -> bool :: FirstProblem([], read, digest, word).None?
  {
  }

  lemma EndOfArchive(es: seq<Entry>)
    requires Archivable(es)
    ensures Archive(es) == Locals(es) + Directory(es) + End(|es|, |Directory(es)|, LocalSize(es))
  {
  }
}

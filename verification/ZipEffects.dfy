/** The archive's bytes as the .ZIP format has them, and what a package refuses. */
module ZipEffects {
  import opened Common
  import opened Zip
  import opened ZipStream

  // --------------------------------------------------------------- the format

  lemma SignaturesAre()
    ensures U32(LOCAL) == [0x50, 0x4b, 0x03, 0x04] && U32(CENTRAL) == [0x50, 0x4b, 0x01, 0x02] && U32(END) == [0x50, 0x4b, 0x05, 0x06]
    ensures Flags() == [20, 0, 0, 8, 0, 0, 0, 0, 33, 0]
    ensures U16(0) == [0, 0] && U16(20) == [20, 0] && NoExtras() == [0, 0, 0, 0, 0, 0, 0, 0, 0, 0, 0, 0]
  {
  }

  // The stored size comes a second time.
  lemma SecondSize(e: Entry, front: seq<byte>, rest: seq<byte>)
    requires Fits(e)
    ensures Get32(front + Sizes(e, rest), |front| + 4) == |e.data|
    ensures (front + Sizes(e, rest))[|front| + 14..] == rest
  {
    SizesFields(e, rest);
    hide Crc, U16, U32, Get16, Get32;
    Skip32(front, Sizes(e, rest), 4);
    var fixed := U32(Crc(e.data)) + U32(|e.data|) + U32(|e.data|) + U16(|e.name|);
    assert front + Sizes(e, rest) == (front + fixed) + rest;
  }

  /** Section 4.3.7 of APPNOTE: signature, version 2.0, UTF-8 name, stored, date, checksum, sizes and name length. */
  lemma LocalHeadersAre(e: Entry)
    requires Fits(e)
    ensures Head(e)[..14] == [0x50, 0x4b, 0x03, 0x04, 20, 0, 0x00, 0x08, 0, 0, 0, 0, 33, 0]
    ensures Get32(Head(e), 14) == Crc(e.data) && Get32(Head(e), 18) == Get32(Head(e), 22) == |e.data|
    ensures Get16(Head(e), 26) == |e.name| && Head(e)[28..] == [0, 0]
    ensures LocalPart(e) == Head(e) + e.name + e.data
  {
    SignaturesAre();
    HeadFields(e);
    hide Crc, U16, U32, Get16, Get32, Sizes, Flags;
    var front := U32(LOCAL) + Flags();
    assert Head(e) == front + Sizes(e, U16(0));
    SecondSize(e, front, U16(0));
    SecondFront(e, front, U16(0));
  }

  lemma SecondFront(e: Entry, front: seq<byte>, rest: seq<byte>)
    requires Fits(e)
    ensures (front + Sizes(e, rest))[..|front|] == front
  {
  }

  /** Section 4.3.12: the same with both versions, no extras, and the offset of the local header last. */
  lemma DirectoryHeadersAre(e: Entry, offset: int)
    requires Fits(e) && 0 <= offset < 0x1_0000_0000
    ensures Dir(e, offset)[..16] == [0x50, 0x4b, 0x01, 0x02, 20, 0, 20, 0, 0x00, 0x08, 0, 0, 0, 0, 33, 0]
    ensures Get32(Dir(e, offset), 16) == Crc(e.data) && Get32(Dir(e, offset), 20) == Get32(Dir(e, offset), 24) == |e.data|
    ensures Get16(Dir(e, offset), 28) == |e.name| && Get32(Dir(e, offset), 42) == offset
    ensures Dir(e, offset)[30..42] == [0, 0, 0, 0, 0, 0, 0, 0, 0, 0, 0, 0]
  {
    SignaturesAre();
    DirFields(e, offset);
    hide Crc, U16, U32, Get16, Get32, Sizes, Flags, NoExtras;
    var rest := NoExtras() + U32(offset);
    var front := U32(CENTRAL) + (U16(20) + Flags());
    assert Dir(e, offset) == front + Sizes(e, rest);
    SecondSize(e, front, rest);
    SecondFront(e, front, rest);
    assert Dir(e, offset)[30..42] == Dir(e, offset)[30..][..12] == rest[..12];
  }

  /** Section 4.3.16: signature, one disk, the entries twice, the directory's size and offset, no comment. */
  lemma EndRecordsAre(count: int, directory: int, offset: int)
    requires 0 <= count < 0x1_0000 && 0 <= directory < 0x1_0000_0000 && 0 <= offset < 0x1_0000_0000
    ensures var end := End(count, directory, offset);
            && end[..8] == [0x50, 0x4b, 0x05, 0x06, 0, 0, 0, 0]
            && Get16(end, 8) == Get16(end, 10) == count && Get32(end, 12) == directory && Get32(end, 16) == offset
            && end[20..] == [0, 0]
  {
    SignaturesAre();
    EndFields(count, directory, offset);
    hide U16, U32, Get16, Get32;
  }

  // --------------------------------------------------------------- names

  /** A name is the asset's id and its label's first hundred units, each that is not a plain letter, digit, dot, dash or underscore replaced. */
  lemma NamesAre(a: Asset)
    requires forall i :: 0 <= i < |a.title| ==> a.title[i] as int < 0x10000
    ensures var name, n := PackageEntryName(a), if |a.title| < 100 then |a.title| else 100;
            && |name| == |a.id| + 1 + n && name[..|a.id|] == a.id && name[|a.id|] == '-'
            && forall i :: 0 <= i < n ==>
                 name[|a.id| + 1 + i] ==
                   (if 'A' <= a.title[i] <= 'Z' || 'a' <= a.title[i] <= 'z' || '0' <= a.title[i] <= '9' || a.title[i] in {'.', '_', '-'}
                    then a.title[i] else '_')
  {
    PlainAre(a.title);
  }

  lemma {:induction false} PlainAre(s: string)
    requires forall i :: 0 <= i < |s| ==> s[i] as int < 0x10000
    ensures |Plain(s)| == |s|
    ensures forall i :: 0 <= i < |s| ==> Plain(s)[i] == if IsPlain(s[i]) then s[i] else '_'
  {
    if s != "" {
      PlainAre(s[..|s| - 1]);
    }
  }

  /** Characters are encoded in one byte to four. */
  lemma Utf8Is(c: char)
    ensures c as int < 0x80 ==> Utf8Char(c) == [c as int]
    ensures Utf8Char('\U{00e9}') == [0xc3, 0xa9] && Utf8Char('\U{20ac}') == [0xe2, 0x82, 0xac]
    ensures Utf8Char('\U{1f600}') == [0xf0, 0x9f, 0x98, 0x80]
    ensures |Utf8Char(c)| == if c as int < 0x80 then 1 else if c as int < 0x800 then 2 else if c as int < 0x10000 then 3 else 4
  {
  }

  /** A piece of a path between slashes, or its ends. */
  ghost predicate IsSegment(s: string, i: nat, j: nat) {
    && i <= j <= |s| && '/' !in s[i..j]
    && (i == 0 || s[i - 1] == '/') && (j == |s| || s[j] == '/')
  }

  ghost predicate HasLaterSegment(s: string, p: string) {
    exists i: nat, j: nat :: i > 0 && IsSegment(s, i, j) && s[i..j] == p
  }

  lemma {:induction false} FirstSegment(s: string)
    ensures Parts(s) != [] && IsSegment(s, 0, |Parts(s)[0]|) && s[..|Parts(s)[0]|] == Parts(s)[0]
  {
    if s != "" {
      FirstSegment(s[1..]);
      if s[0] != '/' {
        var n := |Parts(s[1..])[0]|;
        assert s[..n + 1] == [s[0]] + s[1..][..n];
      }
    }
  }

  lemma OneFirstSegment(s: string, j: nat, k: nat)
    requires IsSegment(s, 0, j) && IsSegment(s, 0, k)
    ensures j == k
  {
    assert forall x :: 0 <= x < j ==> s[x] in s[0..j];
    assert forall x :: 0 <= x < k ==> s[x] in s[0..k];
  }

  // A segment of the rest is one of the whole, one further on.
  lemma MovedSegment(s: string, i: nat, j: nat)
    requires s != "" && i <= j < |s|
    ensures i > 0 || s[0] == '/' ==> (IsSegment(s[1..], i, j) <==> IsSegment(s, i + 1, j + 1))
    ensures s[1..][i..j] == s[i + 1..j + 1]
  {
    assert s[1..][i..j] == s[i + 1..j + 1];
  }

  lemma LaterInRest(s: string, p: string)
    requires s != ""
    ensures HasLaterSegment(s, p) <==>
              HasLaterSegment(s[1..], p) || (s[0] == '/' && exists j: nat :: IsSegment(s[1..], 0, j) && s[1..][0..j] == p)
  {
    if i: nat, j: nat :| i > 0 && IsSegment(s, i, j) && s[i..j] == p {
      MovedSegment(s, i - 1, j - 1);
      assert IsSegment(s[1..], i - 1, j - 1);
    }
    if i: nat, j: nat :| i > 0 && IsSegment(s[1..], i, j) && s[1..][i..j] == p {
      MovedSegment(s, i, j);
      assert IsSegment(s, i + 1, j + 1);
    }
    if s[0] == '/' {
      if j: nat :| IsSegment(s[1..], 0, j) && s[1..][0..j] == p {
        MovedSegment(s, 0, j);
        assert IsSegment(s, 1, j + 1);
      }
    }
  }

  lemma {:induction false} LaterPartsAre(s: string, p: string)
    ensures Parts(s) != [] && (p in Parts(s)[1..] <==> HasLaterSegment(s, p))
  {
    if s != "" {
      var rest := s[1..];
      LaterPartsAre(rest, p);
      LaterInRest(s, p);
      FirstSegment(rest);
      var first := Parts(rest)[0];
      assert rest[0..|first|] == first;
      if s[0] == '/' {
        if j: nat :| IsSegment(rest, 0, j) && rest[0..j] == p {
          OneFirstSegment(rest, j, |first|);
        }
        assert Parts(s)[1..] == Parts(rest) == [first] + Parts(rest)[1..];
      } else {
        assert Parts(s)[1..] == Parts(rest)[1..];
      }
    }
  }

  /** The parts of a path are its segments. */
  lemma PartsAreSegments(s: string, p: string)
    ensures p in Parts(s) <==> exists i: nat, j: nat :: IsSegment(s, i, j) && s[i..j] == p
  {
    FirstSegment(s);
    LaterPartsAre(s, p);
    var first := Parts(s)[0];
    assert s[0..|first|] == first;
    assert Parts(s) == [first] + Parts(s)[1..];
    if i: nat, j: nat :| IsSegment(s, i, j) && s[i..j] == p {
      if i == 0 {
        OneFirstSegment(s, j, |first|);
      }
    }
  }

  // --------------------------------------------------------------- what a package refuses

  /** A name is safe exactly if its characters are letters, digits or %_./-, and no segment is empty, a dot or two. */
  lemma NamesAreSafeExactly(s: string, word: char -> bool)
    ensures SafeName(s, word) <==>
              && (forall i :: 0 <= i < |s| ==>
                    || 'A' <= s[i] <= 'Z' || 'a' <= s[i] <= 'z' || '0' <= s[i] <= '9' || s[i] in {'%', '_', '.', '/', '-'}
                    || (s[i] as int >= 0x80 && word(s[i])))
              && (forall i: nat, j: nat :: IsSegment(s, i, j) ==> s[i..j] != "" && s[i..j] != "." && s[i..j] != "..")
  {
    PartsAreSegments(s, "");
    PartsAreSegments(s, ".");
    PartsAreSegments(s, "..");
    if s == "" {
      assert IsSegment(s, 0, 0);
    } else if s[0] == '/' {
      assert IsSegment(s, 0, 0);
    }
  }

  /** A package is too large exactly past 65535 files, 4294967295 bytes in one, or in all with names and headers. */
  lemma PackagesAreTooLargeExactly(assets: seq<Asset>)
    ensures CommercePackageSize(assets).Err? <==>
              || |assets| > 65535 || (exists i :: 0 <= i < |assets| && assets[i].byteLength > 4294967295)
              || 22 + TotalSize(assets) > 4294967295
  {
    hide TotalSize;
  }

  /** Each file takes its bytes, two headers of 76 in all, and its name twice. */
  lemma SizesAddUp(assets: seq<Asset>, a: Asset)
    ensures TotalSize([]) == 0
    ensures TotalSize(assets + [a]) == TotalSize(assets) + a.byteLength + 76 + 2 * |Utf8(PackageEntryName(a))|
  {
    hide Utf8, PackageEntryName;
    assert (assets + [a])[..|assets|] == assets;
  }

  ghost predicate IsRefused(a: Asset, read: Asset -> seq<byte>, digest: seq<byte> -> string, word: char -> bool) {
    || |read(a)| != a.byteLength || digest(read(a)) != a.checksum
    || !SafeName(PackageEntryName(a), word) || |Utf8(PackageEntryName(a))| > 65535
  }

  lemma {:induction false} ProblemsAre(assets: seq<Asset>, read: Asset -> seq<byte>, digest: seq<byte> -> string, word: char -> bool)
    ensures FirstProblem(assets, read, digest, word).Some? <==>
              exists i :: 0 <= i < |assets| && IsRefused(assets[i], read, digest, word)
    ensures FirstProblem(assets, read, digest, word) == Some(ContentUnavailable) ==>
              exists i :: 0 <= i < |assets| && (|read(assets[i])| != assets[i].byteLength || digest(read(assets[i])) != assets[i].checksum)
  {
    hide SafeName, PackageEntryName, Utf8;
    if assets != [] {
      var n := |assets| - 1;
      ProblemsAre(assets[..n], read, digest, word);
      assert forall i :: 0 <= i < n ==> assets[..n][i] == assets[i];
      if i :| 0 <= i < |assets| && IsRefused(assets[i], read, digest, word) && i < n {
        assert IsRefused(assets[..n][i], read, digest, word);
      }
    }
  }

  /**
   Nothing is streamed whole unless every file has the length and checksum on
   record, a safe name that fits, and the package fits its format and the limit.
   */
  lemma PackagesAreRefusedExactly(assets: seq<Asset>, read: Asset -> seq<byte>, digest: seq<byte> -> string, word: char -> bool, maximum: int)
    ensures StreamError(assets, read, digest, word, maximum).Some? <==>
              || CommercePackageSize(assets).Err? || CommercePackageSize(assets).value > maximum
              || exists i :: 0 <= i < |assets| && IsRefused(assets[i], read, digest, word)
  {
    hide IsRefused, TotalSize;
    var sorted := SortByName(assets);
    ProblemsAre(sorted, read, digest, word);
    if i :| 0 <= i < |assets| && IsRefused(assets[i], read, digest, word) {
      assert assets[i] in multiset(assets);
      assert assets[i] in multiset(sorted);
      var j :| 0 <= j < |sorted| && sorted[j] == assets[i];
    }
    if j :| 0 <= j < |sorted| && IsRefused(sorted[j], read, digest, word) {
      assert sorted[j] in multiset(sorted);
      assert sorted[j] in multiset(assets);
      var i :| 0 <= i < |assets| && assets[i] == sorted[j];
    }
  }

  // --------------------------------------------------------------- the checksum

  lemma NextBit(v: bv32, n: nat)
    ensures CrcBits(v, n + 1) == CrcBit(CrcBits(v, n))
  {
    hide CrcBit;
  }

  lemma BitsOfA()
    ensures CrcBit(0xffffff9e) == 0x7fffffcf && CrcBit(0x7fffffcf) == 0xd2477cc7
    ensures CrcBit(0xd2477cc7) == 0x849b3d43 && CrcBit(0x849b3d43) == 0xaff51d81
    ensures CrcBit(0xaff51d81) == 0xba420de0 && CrcBit(0xba420de0) == 0x5d2106f0
    ensures CrcBit(0x5d2106f0) == 0x2e908378 && CrcBit(0x2e908378) == 0x174841bc
  {
  }

  lemma DividedA()
    ensures CrcBits(0xffffff9e, 8) == 0x174841bc
  {
    BitsOfA();
    hide CrcBit;
    assert CrcBits(0xffffff9e, 0) == 0xffffff9e;
    hide CrcBits;
    NextBit(0xffffff9e, 0);
    NextBit(0xffffff9e, 1);
    NextBit(0xffffff9e, 2);
    NextBit(0xffffff9e, 3);
    NextBit(0xffffff9e, 4);
    NextBit(0xffffff9e, 5);
    NextBit(0xffffff9e, 6);
    NextBit(0xffffff9e, 7);
  }

  lemma StartOfA()
    ensures CrcOf([]) == 0xffffffff && CrcOf([0x61]) == CrcBits(0xffffff9e, 8)
  {
    hide CrcBits;
    assert [0x61 as byte][..0] == [];
  }

  /** The checksum of nothing is 0, and each byte is divided by the polynomial of CRC-32, low bit first. */
  lemma ChecksumIsCrc32()
    ensures Crc([]) == 0 && CrcOf([0x61]) ^ 0xffffffff == 0xe8b7be43
  {
    StartOfA();
    DividedA();
    hide CrcBits, CrcOf;
  }

  // --------------------------------------------------------------- the order of names

  // A character's first UTF-16 unit.
  ghost function FirstUnit(c: char): int {
    if c as int < 0x10000 then c as int else 0xd800 + (c as int - 0x10000) / 0x400
  }

  // They differ at k first, and a ends there or has the smaller unit, or the same first unit and the smaller second.
  ghost predicate BeforeAt(a: string, b: string, k: nat) {
    && k <= |a| && k < |b| && a[..k] == b[..k]
    && (k < |a| ==> a[k] != b[k] && (FirstUnit(a[k]) < FirstUnit(b[k]) || (FirstUnit(a[k]) == FirstUnit(b[k]) && a[k] < b[k])))
  }

  lemma UnitsCompare(c: char, d: char)
    ensures Rank(c) < Rank(d) <==> FirstUnit(c) < FirstUnit(d) || (FirstUnit(c) == FirstUnit(d) && c < d)
  {
  }

  lemma BeforeOne(a: string, b: string, k: nat)
    requires a != "" && b != "" && a[0] == b[0]
    ensures BeforeAt(a, b, k + 1) <==> BeforeAt(a[1..], b[1..], k)
    ensures !BeforeAt(a, b, 0)
  {
    hide FirstUnit;
    if k + 1 <= |a| && k + 1 <= |b| {
      assert a[..k + 1] == [a[0]] + a[1..][..k];
      assert b[..k + 1] == [b[0]] + b[1..][..k];
    }
  }

  /** Files come in the order of the UTF-16 units of their names. */
  lemma {:induction false} NamesCompare(a: string, b: string)
    ensures NameBefore(a, b) <==> exists k: nat :: BeforeAt(a, b, k)
  {
    if a == "" || b == "" {
      if b != "" {
        assert BeforeAt(a, b, 0);
      }
    } else if a[0] == b[0] {
      hide BeforeAt, Rank;
      NamesCompare(a[1..], b[1..]);
      if k: nat :| BeforeAt(a[1..], b[1..], k) {
        BeforeOne(a, b, k);
      }
      if k: nat :| BeforeAt(a, b, k) {
        BeforeOne(a, b, if k > 0 then k - 1 else 0);
      }
    } else {
      UnitsCompare(a[0], b[0]);
      hide Rank, FirstUnit;
      if NameBefore(a, b) {
        assert BeforeAt(a, b, 0);
      }
      if k: nat :| BeforeAt(a, b, k) && k > 0 {
        assert a[..k][0] == b[..k][0];
      }
    }
  }
}

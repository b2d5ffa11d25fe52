// Preset storage in four flash pages below the bootloader's end. Each save
// writes a complete copy of the ten preset slots to the next page, followed
// by a magic number, a generation counter and a 16-bit additive checksum;
// at start-up the valid page with the highest generation is selected.
//
// Flash is an array of the RegionSize bytes from FlashStorageBase on; an
// erased byte reads 0xff and programming a byte stores it.

module Presets {
  import opened FixedWidth

  const NumPresetSlots := 10
  const SlotNameSize := 4
  /** sizeof(SettingsData), fixed by a static assertion. */
  const SettingsDataSize := 96
  /** sizeof(PresetSlot): the name, then the settings. */
  const PresetSlotSize := 100
  /** sizeof(PresetData): the slots. */
  const PresetDataSize := 1000
  const PageSize := 0x400
  const NumPages := 4
  /** The end of the bootloader's flash, where the preset pages stop. */
  const BootloaderEnd := 0x0800_4000
  /** BootloaderEnd - NumPages * PageSize */
  const FlashStorageBase := 0x0800_3000
  const RegionSize := 0x1000
  /** FourCC 'B','R','D','1', first character in the lowest byte. */
  const Magic: uint32 := 0x3144_5242
  /** Offsets of the PresetDataPage fields after the preset data. */
  const MagicOffset := PresetDataSize
  const GenerationOffset := PresetDataSize + 4
  const ChecksumOffset := PresetDataSize + 8
  /** The bytes Finalize writes: magic, generation, checksum. */
  const TrailerSize := 10
  const ErasedByte: uint8 := 0xff

  // ---------------------------------------------------------------- addresses

  /** index * PageSize. The sizes are written out in the offset functions
      so that the solver sees linear arithmetic. */
  function PageOffset(index: nat): nat
  {
    0x400 * index
  }

  /** slot * sizeof(PresetSlot) */
  function SlotOffset(slot: nat): nat
  {
    100 * slot
  }

  /** page_start: the address of page `index`. */
  function PageStart(index: nat): (a: nat)
  {
    FlashStorageBase + PageOffset(index)
  }

  /** The pages tile the region, in order and without overlap, and end
      exactly at the end of the bootloader's flash; every address fits the
      uint32_t it is computed in. */
  lemma PagesTile(i: nat, j: nat)
    requires i < j <= NumPages
    ensures PageStart(i) + PageSize <= PageStart(j)
    ensures PageStart(0) == FlashStorageBase && PageStart(NumPages) == BootloaderEnd
    ensures PageStart(j) < 0x1_0000_0000
    ensures j == i + 1 ==> PageStart(i) + PageSize == PageStart(j)
  {
  }

  /** The page layout: the slots, then the three fields Finalize writes,
      all inside one page. */
  lemma PageLayout()
    ensures PresetSlotSize == SlotNameSize + SettingsDataSize
    ensures PresetDataSize == NumPresetSlots * PresetSlotSize && PresetDataSize % 4 == 0
    ensures RegionSize == NumPages * PageSize && FlashStorageBase == BootloaderEnd - RegionSize
    ensures forall i: nat :: PageOffset(i) == i * PageSize && SlotOffset(i) == i * PresetSlotSize
    ensures MagicOffset + 4 == GenerationOffset && GenerationOffset + 4 == ChecksumOffset
    ensures PresetDataSize + TrailerSize + 2 < PageSize
  {
  }

  // ----------------------------------------------------- little-endian words

  /** The word a little-endian load reads from four bytes. */
  function Le32(b: seq<uint8>): (w: uint32)
    requires |b| == 4
  {
    b[0] as int + 0x100 * b[1] as int + 0x1_0000 * b[2] as int + 0x100_0000 * b[3] as int
  }

  /** The four bytes a word occupies in memory, lowest byte first. */
  function Bytes32(w: uint32): (b: seq<uint8>)
    ensures |b| == 4
  {
    [w % 0x100, w / 0x100 % 0x100, w / 0x1_0000 % 0x100, w / 0x100_0000]
  }

  function Le16(b: seq<uint8>): (h: uint16)
    requires |b| == 2
  {
    b[0] as int + 0x100 * b[1] as int
  }

  function Bytes16(h: uint16): (b: seq<uint8>)
    ensures |b| == 2
  {
    [h % 0x100, h / 0x100]
  }

  /** Storing a word and loading it back gives the word, and loading four
      bytes and storing the word gives the bytes. */
  lemma Word32RoundTrip(w: uint32, b: seq<uint8>)
    requires |b| == 4
    ensures Le32(Bytes32(w)) == w
    ensures Bytes32(Le32(b)) == b
  {
    var x := Le32(b);
    var b0, b1, b2, b3 := b[0] as int, b[1] as int, b[2] as int, b[3] as int;
    var hi := b1 + 0x100 * b2 + 0x1_0000 * b3;
    DivUnique(x, 0x100, hi, b0);
    DivUnique(x, 0x1_0000, b2 + 0x100 * b3, b0 + 0x100 * b1);
    DivUnique(x, 0x100_0000, b3, b0 + 0x100 * b1 + 0x1_0000 * b2);
    DivUnique(hi, 0x100, b2 + 0x100 * b3, b1);
    DivUnique(b2 + 0x100 * b3, 0x100, b3, b2);
    assert x / 0x1_0000 % 0x100 == b[2];
    assert x / 0x100 % 0x100 == b[1];
    var w0, w1, w2, w3 := w % 0x100, w / 0x100 % 0x100, w / 0x1_0000 % 0x100, w / 0x100_0000;
    assert w == w0 + 0x100 * (w / 0x100);
    assert w / 0x100 == w1 + 0x100 * (w / 0x100 / 0x100);
    assert w / 0x100 / 0x100 == w / 0x1_0000;
    assert w / 0x1_0000 == w2 + 0x100 * (w / 0x1_0000 / 0x100);
    assert w / 0x1_0000 / 0x100 == w3;
  }

  lemma Word16RoundTrip(h: uint16, b: seq<uint8>)
    requires |b| == 2
    ensures Le16(Bytes16(h)) == h
    ensures Bytes16(Le16(b)) == b
  {
    DivUnique(Le16(b), 0x100, b[1] as int, b[0] as int);
  }

  // ----------------------------------------------------------------- checksum

  /** The sum of the bytes, unbounded. */
  function ByteSum(data: seq<uint8>): nat
  {
    if |data| == 0 then 0 else ByteSum(data[..|data| - 1]) + data[|data| - 1]
  }

  lemma {:induction false} ByteSumAppend(a: seq<uint8>, b: seq<uint8>)
    ensures ByteSum(a + b) == ByteSum(a) + ByteSum(b)
    decreases |b|
  {
    if |b| > 0 {
      var b' := b[..|b| - 1];
      assert (a + b)[..|a + b| - 1] == a + b';
      ByteSumAppend(a, b');
    } else {
      assert a + b == a;
    }
  }

  /** Checksum(seed, data): the seed plus every byte, in uint16_t. */
  function Checksum(seed: uint16, data: seq<uint8>): (s: uint16)
  {
    (seed + ByteSum(data)) % 0x1_0000
  }

  /** Checksumming in pieces, each piece seeded with the previous result,
      gives the checksum of the whole: what lets FlashWriteStream fold each
      Append into its running checksum. */
  lemma ChecksumComposes(c: uint16, a: seq<uint8>, b: seq<uint8>)
    ensures Checksum(Checksum(c, a), b) == Checksum(c, a + b)
  {
    ByteSumAppend(a, b);
    var s := c + ByteSum(a);
    DivUnique(s, 0x1_0000, s / 0x1_0000, s % 0x1_0000);
    DivUnique(s % 0x1_0000 + ByteSum(b), 0x1_0000, (s % 0x1_0000 + ByteSum(b)) / 0x1_0000,
      (s % 0x1_0000 + ByteSum(b)) % 0x1_0000);
    ModAddMultiple(s % 0x1_0000 + ByteSum(b), s / 0x1_0000);
  }

  lemma ModAddMultiple(x: nat, k: nat)
    ensures (x + k * 0x1_0000) % 0x1_0000 == x % 0x1_0000
  {
    DivUnique(x + k * 0x1_0000, 0x1_0000, x / 0x1_0000 + k, x % 0x1_0000);
  }

  /** The Checksum loop of page_storage.h: add each byte in uint16_t. */
  method ComputeChecksum(seed: uint16, data: seq<uint8>) returns (s: uint16)
    ensures s == Checksum(seed, data)
  {
    s := seed;
    for k := 0 to |data|
      invariant s == Checksum(seed, data[..k])
    {
      assert data[..k + 1][..k] == data[..k];
      ChecksumComposes(seed, data[..k], [data[k]]);
      assert data[..k] + [data[k]] == data[..k + 1];
      s := (s + data[k]) % 0x1_0000;
    }
    assert data[..|data|] == data;
  }

  // ------------------------------------------------------------- flash bytes

  /** The region after programming `data` from offset `off` on. */
  function Overwrite(f: seq<uint8>, off: nat, data: seq<uint8>): (r: seq<uint8>)
    requires off + |data| <= |f|
    ensures |r| == |f|
  {
    seq(|f|, i requires 0 <= i < |f| => if off <= i < off + |data| then data[i - off] else f[i])
  }

  /** Each byte after a write: the written one inside the range, the old
      one outside it. */
  lemma OverwriteAt(f: seq<uint8>, off: nat, data: seq<uint8>)
    requires off + |data| <= |f|
    ensures forall i :: 0 <= i < |f| ==>
      Overwrite(f, off, data)[i] == if off <= i < off + |data| then data[i - off] else f[i]
  {
  }

  /** n erased bytes. */
  function Erased(n: nat): (r: seq<uint8>)
    ensures |r| == n && forall i :: 0 <= i < n ==> r[i] == ErasedByte
  {
    seq(n, _ => ErasedByte)
  }

  /** Two writes back to back are one write of both. */
  lemma OverwriteConcat(f: seq<uint8>, off: nat, x: seq<uint8>, y: seq<uint8>)
    requires off + |x| + |y| <= |f|
    ensures Overwrite(Overwrite(f, off, x), off + |x|, y) == Overwrite(f, off, x + y)
  {
    OverwriteAt(f, off, x);
    OverwriteAt(Overwrite(f, off, x), off + |x|, y);
    OverwriteAt(f, off, x + y);
  }

  /** A shorter write over an earlier one keeps the earlier one's tail. */
  lemma OverwriteOver(f: seq<uint8>, off: nat, x: seq<uint8>, y: seq<uint8>)
    requires off + |x| <= |f| && |y| <= |x|
    ensures Overwrite(Overwrite(f, off, x), off, y) == Overwrite(f, off, y + x[|y|..])
  {
    OverwriteAt(f, off, x);
    OverwriteAt(Overwrite(f, off, x), off, y);
    OverwriteAt(f, off, y + x[|y|..]);
  }

  /** The bytes of page i of the region. */
  function PageBytes(f: seq<uint8>, i: nat): (p: seq<uint8>)
    requires |f| == RegionSize && i < NumPages
    ensures |p| == PageSize
  {
    f[PageOffset(i) .. PageOffset(i + 1)]
  }

  /** Writing within one page leaves every other page as it was. */
  lemma OverwriteOtherPage(f: seq<uint8>, off: nat, data: seq<uint8>, j: nat)
    requires |f| == RegionSize && off + |data| <= |f| && j < NumPages
    requires off + |data| <= PageOffset(j) || PageOffset(j + 1) <= off
    ensures PageBytes(Overwrite(f, off, data), j) == PageBytes(f, j)
  {
    OverwriteAt(f, off, data);
  }

  /** Writing a page image replaces that page and only that page. */
  lemma OverwritePage(f: seq<uint8>, i: nat, image: seq<uint8>)
    requires |f| == RegionSize && i < NumPages && |image| == PageSize
    ensures PageBytes(Overwrite(f, PageOffset(i), image), i) == image
    ensures forall j :: 0 <= j < NumPages && j != i ==>
      PageBytes(Overwrite(f, PageOffset(i), image), j) == PageBytes(f, j)
  {
    var f' := Overwrite(f, PageOffset(i), image);
    OverwriteAt(f, PageOffset(i), image);
    forall j | 0 <= j < NumPages && j != i
      ensures PageBytes(f', j) == PageBytes(f, j)
    {
      if j < i {
        assert PageOffset(j + 1) <= PageOffset(i);
      } else {
        assert PageOffset(i + 1) <= PageOffset(j);
      }
      OverwriteOtherPage(f, PageOffset(i), image, j);
    }
  }

  // ------------------------------------------------------------- page layout

  /** PresetData: the ten slots of a page. */
  function StoredData(f: seq<uint8>, i: nat): (d: seq<uint8>)
    requires |f| == RegionSize && i < NumPages
    ensures |d| == PresetDataSize
  {
    PageBytes(f, i)[..PresetDataSize]
  }

  function StoredMagic(f: seq<uint8>, i: nat): uint32
    requires |f| == RegionSize && i < NumPages
  {
    Le32(PageBytes(f, i)[MagicOffset .. MagicOffset + 4])
  }

  function StoredGeneration(f: seq<uint8>, i: nat): uint32
    requires |f| == RegionSize && i < NumPages
  {
    Le32(PageBytes(f, i)[GenerationOffset .. GenerationOffset + 4])
  }

  function StoredChecksum(f: seq<uint8>, i: nat): uint16
    requires |f| == RegionSize && i < NumPages
  {
    Le16(PageBytes(f, i)[ChecksumOffset .. ChecksumOffset + 2])
  }

  /** Init's validity test: the magic number, and a checksum equal to the
      checksum of the preset data. */
  predicate PageValid(f: seq<uint8>, i: nat)
    requires |f| == RegionSize && i < NumPages
  {
    StoredMagic(f, i) == Magic && StoredChecksum(f, i) == Checksum(0, StoredData(f, i))
  }

  /** What Save and Reset leave in a freshly erased page: the data and the
      finalised fields, the padding and the rest still erased. */
  function PageImage(data: seq<uint8>, generation: uint32): (image: seq<uint8>)
    requires |data| == PresetDataSize
    ensures |image| == PageSize
  {
    data + Bytes32(Magic) + Bytes32(generation) + Bytes16(Checksum(0, data))
      + Erased(PageSize - PresetDataSize - TrailerSize)
  }

  /** The data, the finalised fields and the erased rest of the page make
      up the page image. */
  lemma PageImageParts(data: seq<uint8>, generation: uint32, checksum: uint16)
    requires |data| == PresetDataSize && checksum == Checksum(0, data)
    ensures data + (Bytes32(Magic) + Bytes32(generation) + Bytes16(checksum))
      + Erased(PageSize)[PresetDataSize + TrailerSize..] == PageImage(data, generation)
  {
    assert Erased(PageSize)[PresetDataSize + TrailerSize..] == Erased(PageSize - PresetDataSize - TrailerSize);
  }

  /** A page image reads back as a valid page with its data and generation:
      Init accepts every page Save or Reset writes. */
  lemma PageImageValid(f: seq<uint8>, i: nat, data: seq<uint8>, generation: uint32)
    requires |f| == RegionSize && i < NumPages && |data| == PresetDataSize
    ensures var f' := Overwrite(f, PageOffset(i), PageImage(data, generation));
      PageValid(f', i) && StoredData(f', i) == data && StoredGeneration(f', i) == generation
  {
    var image := PageImage(data, generation);
    var f' := Overwrite(f, PageOffset(i), image);
    OverwritePage(f, i, image);
    assert image[..PresetDataSize] == data;
    assert image[MagicOffset .. MagicOffset + 4] == Bytes32(Magic);
    assert image[GenerationOffset .. GenerationOffset + 4] == Bytes32(generation);
    assert image[ChecksumOffset .. ChecksumOffset + 2] == Bytes16(Checksum(0, data));
    Word32RoundTrip(Magic, [0, 0, 0, 0]);
    Word32RoundTrip(generation, [0, 0, 0, 0]);
    Word16RoundTrip(Checksum(0, data), [0, 0]);
  }

  /** The name of a slot in a page's data (not NUL-terminated). */
  function SlotName(data: seq<uint8>, slot: nat): (name: seq<uint8>)
    requires |data| == PresetDataSize && slot < NumPresetSlots
    ensures |name| == SlotNameSize
  {
    data[SlotOffset(slot) .. SlotOffset(slot) + SlotNameSize]
  }

  /** The settings of a slot in a page's data. */
  function SlotSettings(data: seq<uint8>, slot: nat): (settings: seq<uint8>)
    requires |data| == PresetDataSize && slot < NumPresetSlots
    ensures |settings| == SettingsDataSize
  {
    data[SlotOffset(slot) + SlotNameSize .. SlotOffset(slot + 1)]
  }

  /** The data Save writes: the slots before `slot`, the new name and
      settings, the slots after it. */
  function Splice(data: seq<uint8>, slot: nat, name: seq<uint8>, settings: seq<uint8>): (r: seq<uint8>)
    requires |data| == PresetDataSize && slot < NumPresetSlots
    requires |name| == SlotNameSize && |settings| == SettingsDataSize
    ensures |r| == PresetDataSize
    ensures forall k ::
      (0 <= k < SlotOffset(slot) || SlotOffset(slot + 1) <= k < PresetDataSize) ==> r[k] == data[k]
  {
    data[..SlotOffset(slot)] + name + settings + data[SlotOffset(slot + 1)..]
  }

  /** After the splice the chosen slot holds the new name and settings and
      every other slot is unchanged. */
  lemma SpliceSlots(data: seq<uint8>, slot: nat, name: seq<uint8>, settings: seq<uint8>, other: nat)
    requires |data| == PresetDataSize && slot < NumPresetSlots && other < NumPresetSlots
    requires |name| == SlotNameSize && |settings| == SettingsDataSize
    ensures SlotName(Splice(data, slot, name, settings), slot) == name
    ensures SlotSettings(Splice(data, slot, name, settings), slot) == settings
    ensures other != slot ==>
      SlotName(Splice(data, slot, name, settings), other) == SlotName(data, other)
      && SlotSettings(Splice(data, slot, name, settings), other) == SlotSettings(data, other)
  {
    var r := Splice(data, slot, name, settings);
    var lo, hi := SlotOffset(slot), SlotOffset(slot + 1);
    if other < slot {
      assert SlotOffset(other + 1) <= lo;
    } else if other > slot {
      assert hi <= SlotOffset(other);
    }
  }

  /** The data Reset writes: k slots, each a zero name and the default
      settings. */
  function DefaultSlots(k: nat, init: seq<uint8>): (r: seq<uint8>)
    requires |init| == SettingsDataSize
    ensures |r| == SlotOffset(k)
  {
    if k == 0 then [] else DefaultSlots(k - 1, init) + [0, 0, 0, 0] + init
  }

  /** Every slot of the default data has an all-zero name and the default
      settings. */
  lemma {:induction false} DefaultSlotsContent(k: nat, init: seq<uint8>, slot: nat)
    requires |init| == SettingsDataSize && slot < k
    ensures DefaultSlots(k, init)[SlotOffset(slot) .. SlotOffset(slot + 1)] == [0, 0, 0, 0] + init
  {
    var d := DefaultSlots(k, init);
    var prev := DefaultSlots(k - 1, init);
    assert d == prev + ([0, 0, 0, 0] + init);
    if slot < k - 1 {
      DefaultSlotsContent(k - 1, init, slot);
      assert SlotOffset(slot + 1) <= |prev|;
      assert d[SlotOffset(slot) .. SlotOffset(slot + 1)]
        == prev[SlotOffset(slot) .. SlotOffset(slot + 1)];
    } else {
      assert SlotOffset(slot) == |prev|;
    }
  }

  /** The whole region after Reset: page 0 written with generation 1, the
      other pages erased. */
  function ResetImage(init: seq<uint8>): (f: seq<uint8>)
    requires |init| == SettingsDataSize
    ensures |f| == RegionSize
  {
    Overwrite(Erased(RegionSize), 0, PageImage(DefaultSlots(NumPresetSlots, init), 1))
  }

  // ---------------------------------------------------------- page selection

  /** What Init's scan looks at in a page: whether it passes the validity
      test, and its generation. */
  datatype Header = Header(valid: bool, generation: uint32)

  function PageHeader(f: seq<uint8>, i: nat): Header
    requires |f| == RegionSize && i < NumPages
  {
    Header(PageValid(f, i), StoredGeneration(f, i))
  }

  /** The headers of all pages, by index. */
  function Headers(f: seq<uint8>): (hs: seq<Header>)
    requires |f| == RegionSize
    ensures |hs| == NumPages
  {
    seq(NumPages, i requires 0 <= i < NumPages => PageHeader(f, i))
  }

  lemma HeaderAt(f: seq<uint8>, i: nat)
    requires |f| == RegionSize && i < NumPages
    ensures Headers(f)[i] == PageHeader(f, i)
  {
  }

  /** The greatest generation among the valid pages below n, 0 when there
      is none. */
  function MaxGeneration(hs: seq<Header>, n: nat): (g: uint32)
    requires n <= |hs|
    ensures forall j :: 0 <= j < n && hs[j].valid ==> hs[j].generation <= g
    ensures g == 0 || exists j :: 0 <= j < n && hs[j].valid && hs[j].generation == g
  {
    if n == 0 then 0
    else
      var g := MaxGeneration(hs, n - 1);
      if hs[n - 1].valid && hs[n - 1].generation > g then hs[n - 1].generation else g
  }

  /** Init's choice among the pages below n: with no valid page, page 0;
      otherwise the highest-indexed valid page of the greatest generation. */
  predicate Selected(hs: seq<Header>, n: nat, index: nat)
    requires n <= |hs|
  {
    if forall j :: 0 <= j < n ==> !hs[j].valid then index == 0
    else
      index < n && hs[index].valid && hs[index].generation == MaxGeneration(hs, n)
      && forall j :: index < j < n && hs[j].valid ==> hs[j].generation < MaxGeneration(hs, n)
  }

  /** One step of Init's scan: taking page `index` exactly when it is valid
      and its generation is not below the best so far keeps the best
      generation and the selection up to date. */
  lemma ScanStep(hs: seq<Header>, index: nat, chosen: nat, generation: uint32)
    requires index < |hs|
    requires generation == MaxGeneration(hs, index) && Selected(hs, index, chosen)
    ensures var take := hs[index].valid && !(generation != 0 && hs[index].generation < generation);
      (take ==> hs[index].generation == MaxGeneration(hs, index + 1) && Selected(hs, index + 1, index))
      && (!take ==> generation == MaxGeneration(hs, index + 1) && Selected(hs, index + 1, chosen))
  {
    var take := hs[index].valid && !(generation != 0 && hs[index].generation < generation);
    var m := MaxGeneration(hs, index + 1);
    if take {
      assert m == hs[index].generation;
    } else if hs[index].valid {
      assert m == generation && generation != 0;
      var j :| 0 <= j < index && hs[j].valid && hs[j].generation == generation;
      assert !(forall j :: 0 <= j < index ==> !hs[j].valid);
    } else {
      assert m == generation;
      assert (forall j :: 0 <= j < index + 1 ==> !hs[j].valid) == (forall j :: 0 <= j < index ==> !hs[j].valid);
    }
  }

  /** Replacing one page by a valid page of a generation above every valid
      one makes it the selection, at that generation. */
  lemma NewestWins(hs: seq<Header>, hs': seq<Header>, target: nat, g: uint32)
    requires |hs'| == |hs| && target < |hs|
    requires hs'[target] == Header(true, g)
    requires forall j :: 0 <= j < |hs| && j != target ==> hs'[j] == hs[j]
    requires forall j :: 0 <= j < |hs| && j != target && hs[j].valid ==> hs[j].generation < g
    ensures Selected(hs', |hs'|, target) && MaxGeneration(hs', |hs'|) == g
  {
    var m := MaxGeneration(hs', |hs'|);
    assert hs'[target].generation <= m;
  }

  /** The region Reset leaves selects page 0, at generation 1. */
  lemma ResetSelected(init: seq<uint8>)
    requires |init| == SettingsDataSize
    ensures Selected(Headers(ResetImage(init)), NumPages, 0)
    ensures MaxGeneration(Headers(ResetImage(init)), NumPages) == 1
    ensures StoredData(ResetImage(init), 0) == DefaultSlots(NumPresetSlots, init)
  {
    var f := ResetImage(init);
    ResetPages(init);
    var hs := Headers(f);
    HeaderAt(f, 0);
    HeaderAt(f, 1);
    HeaderAt(f, 2);
    HeaderAt(f, 3);
    NewestWins(hs, hs, 0, 1);
  }

  /** Page 0 of the region Reset leaves is valid at generation 1 and holds
      the default slots; the other pages are erased and invalid. */
  lemma ResetPages(init: seq<uint8>)
    requires |init| == SettingsDataSize
    ensures var f := ResetImage(init);
      PageValid(f, 0) && StoredGeneration(f, 0) == 1
      && StoredData(f, 0) == DefaultSlots(NumPresetSlots, init)
      && forall j :: 0 < j < NumPages ==> !PageValid(f, j)
  {
    var data := DefaultSlots(NumPresetSlots, init);
    var f := ResetImage(init);
    var e := Erased(RegionSize);
    PageImageValid(e, 0, data, 1);
    OverwritePage(e, 0, PageImage(data, 1));
    forall j | 0 < j < NumPages
      ensures !PageValid(f, j)
    {
      assert PageBytes(e, j) == Erased(PageSize);
      ErasedPageInvalid(f, j);
    }
  }

  /** An erased page has no magic number, so Init never accepts it. */
  lemma ErasedPageInvalid(f: seq<uint8>, j: nat)
    requires |f| == RegionSize && j < NumPages && PageBytes(f, j) == Erased(PageSize)
    ensures !PageValid(f, j)
  {
    var m := PageBytes(f, j)[MagicOffset .. MagicOffset + 4];
    assert m == [0xff, 0xff, 0xff, 0xff];
  }

  /** A save from the selected page, while its generation can still be
      incremented without wrapping, writes a page that the next start-up
      selects, at one more than the greatest generation before. */
  lemma SaveWinsSelection(f: seq<uint8>, index: nat, data: seq<uint8>)
    requires |f| == RegionSize && index < NumPages && |data| == PresetDataSize
    requires Selected(Headers(f), NumPages, index) && PageValid(f, index)
    requires StoredGeneration(f, index) < 0xffff_ffff
    ensures var target := (index + 1) % NumPages;
      var f' := Overwrite(f, PageOffset(target), PageImage(data, StoredGeneration(f, index) + 1));
      Selected(Headers(f'), NumPages, target)
      && MaxGeneration(Headers(f'), NumPages) == StoredGeneration(f, index) + 1
  {
    var target := (index + 1) % NumPages;
    var g := StoredGeneration(f, index) + 1;
    var f' := Overwrite(f, PageOffset(target), PageImage(data, g));
    var hs := Headers(f);
    PageImageValid(f, target, data, g);
    OverwritePage(f, target, PageImage(data, g));
    forall j | 0 <= j < NumPages && j != target
      ensures PageHeader(f', j) == PageHeader(f, j)
    {
      assert PageBytes(f', j) == PageBytes(f, j);
    }
    assert hs[index].valid && hs[index].generation == MaxGeneration(hs, NumPages);
    NewestWins(hs, Headers(f'), target, g);
  }

  // ------------------------------------------------------------------ flash

  /** FLASH_ErasePage: every byte of the page at `address` reads 0xff. */
  method ErasePage(flash: array<uint8>, address: nat)
    requires flash.Length == RegionSize
    requires FlashStorageBase <= address && (address - FlashStorageBase) % PageSize == 0
    requires address - FlashStorageBase < RegionSize
    modifies flash
    ensures flash[..] == Overwrite(old(flash[..]), address - FlashStorageBase, Erased(PageSize))
  {
    var off := address - FlashStorageBase;
    assert off + PageSize <= RegionSize by {
      var i := off / PageSize;
      assert off == PageOffset(i) && i < NumPages;
    }
    forall k | off <= k < off + PageSize {
      flash[k] := ErasedByte;
    }
    OverwriteAt(old(flash[..]), off, Erased(PageSize));
  }

  /** The loop of Reset that erases every page. */
  method EraseRegion(flash: array<uint8>)
    requires flash.Length == RegionSize
    modifies flash
    ensures flash[..] == Erased(RegionSize)
  {
    ghost var f0 := flash[..];
    assert flash[..] == Overwrite(f0, 0, Erased(0));
    for i := 0 to NumPages
      invariant flash[..] == Overwrite(f0, 0, Erased(PageOffset(i)))
    {
      ErasePage(flash, PageStart(i));
      OverwriteConcat(f0, 0, Erased(PageOffset(i)), Erased(PageSize));
      assert Erased(PageOffset(i)) + Erased(PageSize) == Erased(PageOffset(i + 1));
    }
  }

  /** Writing into an erased page image of the region leaves the rest of
      the page erased. */
  lemma ErasedTail(i: nat, y: seq<uint8>)
    requires i < NumPages && |y| <= PageSize
    ensures Overwrite(Erased(RegionSize), PageOffset(i), y)
      == Overwrite(Erased(RegionSize), PageOffset(i), y + Erased(PageSize)[|y|..])
  {
    var e := Erased(RegionSize);
    OverwriteOver(e, PageOffset(i), Erased(PageSize), y);
    assert Overwrite(e, PageOffset(i), Erased(PageSize)) == e;
  }

  /** FLASH_ProgramWord: the word's four bytes, lowest first. */
  method ProgramWord(flash: array<uint8>, address: nat, word: uint32)
    requires flash.Length == RegionSize
    requires FlashStorageBase <= address && address - FlashStorageBase + 4 <= RegionSize
    modifies flash
    ensures flash[..] == Overwrite(old(flash[..]), address - FlashStorageBase, Bytes32(word))
  {
    var off := address - FlashStorageBase;
    var b := Bytes32(word);
    flash[off], flash[off + 1], flash[off + 2], flash[off + 3] := b[0], b[1], b[2], b[3];
    OverwriteAt(old(flash[..]), off, b);
  }

  /** FLASH_ProgramHalfWord: the half-word's two bytes, lowest first. */
  method ProgramHalfWord(flash: array<uint8>, address: nat, half: uint16)
    requires flash.Length == RegionSize
    requires FlashStorageBase <= address && address - FlashStorageBase + 2 <= RegionSize
    modifies flash
    ensures flash[..] == Overwrite(old(flash[..]), address - FlashStorageBase, Bytes16(half))
  {
    var off := address - FlashStorageBase;
    var b := Bytes16(half);
    flash[off], flash[off + 1] := b[0], b[1];
    OverwriteAt(old(flash[..]), off, b);
  }

  /** A sequential writer into flash that checksums what it writes. */
  class FlashWriteStream {
    const flash: array<uint8>
    var address: nat
    var checksum: uint16

    constructor (flash: array<uint8>, address: nat)
      ensures this.flash == flash && this.address == address && checksum == 0
    {
      this.flash := flash;
      this.address := address;
      checksum := 0;
    }

    /** Append: programs the data word by word from the current address,
        moves the address past it and folds its bytes into the checksum. */
    method Append(data: seq<uint8>)
      requires flash.Length == RegionSize && |data| % 4 == 0
      requires FlashStorageBase <= address && address - FlashStorageBase + |data| <= RegionSize
      modifies this, flash
      ensures address == old(address) + |data|
      ensures checksum == Checksum(old(checksum), data)
      ensures flash[..] == Overwrite(old(flash[..]), old(address) - FlashStorageBase, data)
    {
      var start := address;
      var end := start + |data|;
      var a := start;
      ghost var before := flash[..];
      ghost var words := |data| / 4;
      ghost var n := 0;
      assert data[..0] == [];
      while a < end
        invariant |data| == 4 * words && n <= words && a == start + 4 * n
        invariant address == start && checksum == old(checksum)
        invariant flash[..] == Overwrite(before, start - FlashStorageBase, data[..a - start])
        decreases end - a
      {
        var k := a - start;
        n := n + 1;
        var word := Le32(data[k .. k + 4]);
        Word32RoundTrip(word, data[k .. k + 4]);
        ProgramWord(flash, a, word);
        OverwriteConcat(before, start - FlashStorageBase, data[..k], data[k .. k + 4]);
        assert data[..k] + data[k .. k + 4] == data[..k + 4];
        a := a + 4;
      }
      assert data[..end - start] == data;
      address := a;
      checksum := ComputeChecksum(checksum, data);
    }

    /** Finalize: the magic number, the generation and the checksum after
        the data. */
    method Finalize(magic: uint32, generation: uint32)
      requires flash.Length == RegionSize
      requires FlashStorageBase <= address && address - FlashStorageBase + TrailerSize <= RegionSize
      modifies flash
      ensures flash[..] == Overwrite(old(flash[..]), address - FlashStorageBase,
        Bytes32(magic) + Bytes32(generation) + Bytes16(checksum))
    {
      ghost var before := flash[..];
      var off := address - FlashStorageBase;
      ProgramWord(flash, address, magic);
      ProgramWord(flash, address + 4, generation);
      OverwriteConcat(before, off, Bytes32(magic), Bytes32(generation));
      ProgramHalfWord(flash, address + 8, checksum);
      OverwriteConcat(before, off, Bytes32(magic) + Bytes32(generation), Bytes16(checksum));
    }
  }

  /** The three calibration fields of SettingsData (pitch_cv_offset,
      pitch_cv_scale, fm_cv_offset), four bytes each, by byte offset:
      settings.h is not part of this model. */
  datatype CalibrationFields = CalibrationFields(pitchCvOffset: nat, pitchCvScale: nat, fmCvOffset: nat)
  {
    predicate Fits()
    {
      pitchCvOffset + 4 <= SettingsDataSize && pitchCvScale + 4 <= SettingsDataSize
      && fmCvOffset + 4 <= SettingsDataSize
    }

    predicate Covers(i: nat)
    {
      pitchCvOffset <= i < pitchCvOffset + 4 || pitchCvScale <= i < pitchCvScale + 4
      || fmCvOffset <= i < fmCvOffset + 4
    }
  }

  /** Copies four saved bytes back into a settings record. */
  method Restore(out: array<uint8>, at: nat, saved: seq<uint8>)
    requires |saved| == 4 && at + 4 <= out.Length
    modifies out
    ensures out[..] == Overwrite(old(out[..]), at, saved)
  {
    forall i | at <= i < at + 4 {
      out[i] := saved[i - at];
    }
    OverwriteAt(old(out[..]), at, saved);
  }

  /** The settings record Load leaves: the stored settings, except that
      without loadCalibration every byte of the calibration fields keeps
      its previous value. */
  function Loaded(stored: seq<uint8>, previous: seq<uint8>, loadCalibration: bool, fields: CalibrationFields)
    : (r: seq<uint8>)
    requires |stored| == SettingsDataSize && |previous| == SettingsDataSize && fields.Fits()
    ensures |r| == SettingsDataSize
    ensures forall i :: 0 <= i < SettingsDataSize ==>
      r[i] == if !loadCalibration && fields.Covers(i) then previous[i] else stored[i]
  {
    if loadCalibration then stored
    else
      var a, b, c := fields.pitchCvOffset, fields.pitchCvScale, fields.fmCvOffset;
      var r1 := Overwrite(stored, a, previous[a .. a + 4]);
      var r2 := Overwrite(r1, b, previous[b .. b + 4]);
      var r3 := Overwrite(r2, c, previous[c .. c + 4]);
      OverwriteAt(stored, a, previous[a .. a + 4]);
      OverwriteAt(r1, b, previous[b .. b + 4]);
      OverwriteAt(r2, c, previous[c .. c + 4]);
      r3
  }

  class PresetStorage {
    /** The preset pages, from FlashStorageBase on. */
    const flash: array<uint8>
    var pageIndex: nat
    /** kInitSettings, the default settings record (settings.cc is not part
        of this model). */
    const initSettings: seq<uint8>

    ghost predicate Valid()
      reads this
    {
      flash.Length == RegionSize && pageIndex < NumPages && |initSettings| == SettingsDataSize
    }

    constructor (flash: array<uint8>, initSettings: seq<uint8>)
      requires flash.Length == RegionSize && |initSettings| == SettingsDataSize
      ensures Valid() && this.flash == flash && this.initSettings == initSettings && pageIndex == 0
    {
      this.flash := flash;
      this.initSettings := initSettings;
      pageIndex := 0;
    }

    /** current_page()->preset_data: the slots of the current page. */
    function CurrentData(): (d: seq<uint8>)
      requires Valid()
      reads this, flash
      ensures |d| == PresetDataSize
    {
      StoredData(flash[..], pageIndex)
    }

    /** preset_name: the four name bytes of a slot of the current page. */
    function PresetName(slot: nat): (name: seq<uint8>)
      requires Valid() && slot < NumPresetSlots
      reads this, flash
      ensures |name| == SlotNameSize
      ensures name == SlotName(CurrentData(), slot)
    {
      var base := PageOffset(pageIndex) + SlotOffset(slot);
      SourceSlice(flash[..], pageIndex, SlotOffset(slot), SlotOffset(slot) + SlotNameSize);
      flash[base .. base + SlotNameSize]
    }

    /** Init: scan the pages for the best valid one; with none of nonzero
        generation, Reset. */
    method Init()
      requires Valid()
      modifies this`pageIndex, flash
      ensures Valid()
      ensures MaxGeneration(Headers(old(flash[..])), NumPages) != 0 ==>
        flash[..] == old(flash[..]) && Selected(Headers(flash[..]), NumPages, pageIndex)
      ensures MaxGeneration(Headers(old(flash[..])), NumPages) == 0 ==>
        flash[..] == ResetImage(initSettings) && pageIndex == 0
    {
      var index, generation := ScanPages();
      pageIndex := index;
      if generation == 0 {
        Reset();
      }
    }

    /** The fields of one page that Init's scan reads: the magic number,
        the stored checksum, the checksum of the data, the generation. */
    method ReadPage(index: nat) returns (magic: uint32, stored: uint16, sum: uint16, pageGeneration: uint32)
      requires Valid() && index < NumPages
      ensures Headers(flash[..])[index] == Header(magic == Magic && stored == sum, pageGeneration)
    {
      var page := flash[PageOffset(index) .. PageOffset(index + 1)];
      assert page == PageBytes(flash[..], index);
      HeaderAt(flash[..], index);
      magic := Le32(page[MagicOffset .. MagicOffset + 4]);
      sum := ComputeChecksum(0, page[..PresetDataSize]);
      stored := Le16(page[ChecksumOffset .. ChecksumOffset + 2]);
      pageGeneration := Le32(page[GenerationOffset .. GenerationOffset + 4]);
    }

    /** The scan loop of Init: the page taken and its generation. */
    method ScanPages() returns (chosen: nat, generation: uint32)
      requires Valid()
      ensures chosen < NumPages && generation == MaxGeneration(Headers(flash[..]), NumPages)
      ensures Selected(Headers(flash[..]), NumPages, chosen)
    {
      chosen := 0;
      generation := 0;
      ghost var hs := Headers(flash[..]);
      for index := 0 to NumPages
        invariant chosen < NumPages
        invariant generation == MaxGeneration(hs, index)
        invariant Selected(hs, index, chosen)
      {
        var magic, stored, sum, pageGeneration := ReadPage(index);
        ScanStep(hs, index, chosen, generation);
        if magic != Magic {
          continue;
        }
        if stored != sum {
          continue;
        }
        if generation != 0 && pageGeneration < generation {
          continue;
        }
        chosen := index;
        generation := pageGeneration;
      }
    }

    /** Load: copy a slot's settings out of the current page; unless the
        calibration is to be loaded too, the record keeps its own
        calibration fields. */
    method Load(slot: nat, out: array<uint8>, loadCalibration: bool, fields: CalibrationFields)
      requires Valid() && slot < NumPresetSlots && out.Length == SettingsDataSize && fields.Fits()
      modifies out
      ensures out[..] == Loaded(SlotSettings(CurrentData(), slot), old(out[..]), loadCalibration, fields)
    {
      var pitchCvOffset := out[fields.pitchCvOffset .. fields.pitchCvOffset + 4];
      var pitchCvScale := out[fields.pitchCvScale .. fields.pitchCvScale + 4];
      var fmCvOffset := out[fields.fmCvOffset .. fields.fmCvOffset + 4];
      var base := PageOffset(pageIndex) + SlotOffset(slot) + SlotNameSize;
      var stored := flash[base .. base + SettingsDataSize];
      SourceSlice(flash[..], pageIndex, SlotOffset(slot) + SlotNameSize, SlotOffset(slot + 1));
      assert stored == SlotSettings(CurrentData(), slot);
      assert out != flash;
      forall i | 0 <= i < SettingsDataSize {
        out[i] := stored[i];
      }
      assert out[..] == stored;
      if !loadCalibration {
        Restore(out, fields.pitchCvOffset, pitchCvOffset);
        Restore(out, fields.pitchCvScale, pitchCvScale);
        Restore(out, fields.fmCvOffset, fmCvOffset);
      }
    }

    /** Reset: erase every page and write page 0 with the default slots at
        generation 1. */
    method Reset()
      requires Valid()
      modifies this`pageIndex, flash
      ensures Valid() && pageIndex == 0
      ensures flash[..] == ResetImage(initSettings)
    {
      EraseRegion(flash);
      ghost var erased := flash[..];
      var writer := new FlashWriteStream(flash, PageStart(0));
      assert flash[..] == Overwrite(erased, 0, DefaultSlots(0, initSettings));
      for i := 0 to NumPresetSlots
        invariant writer.flash == flash && writer.address == FlashStorageBase + SlotOffset(i)
        invariant writer.checksum == Checksum(0, DefaultSlots(i, initSettings))
        invariant flash[..] == Overwrite(erased, 0, DefaultSlots(i, initSettings))
      {
        ghost var done := DefaultSlots(i, initSettings);
        writer.Append([0, 0, 0, 0]);
        OverwriteConcat(erased, 0, done, [0, 0, 0, 0]);
        ChecksumComposes(0, done, [0, 0, 0, 0]);
        writer.Append(initSettings);
        OverwriteConcat(erased, 0, done + [0, 0, 0, 0], initSettings);
        ChecksumComposes(0, done + [0, 0, 0, 0], initSettings);
      }
      ghost var data := DefaultSlots(NumPresetSlots, initSettings);
      ghost var trailer := Bytes32(Magic) + Bytes32(1) + Bytes16(writer.checksum);
      writer.Finalize(Magic, 1);
      OverwriteConcat(erased, 0, data, trailer);
      ErasedTail(0, data + trailer);
      PageImageParts(data, 1, writer.checksum);
      pageIndex := 0;
    }

    /** Save: copy the current page to the next one with one slot replaced,
        one generation later, and make it current. */
    method Save(slot: nat, settings: seq<uint8>, name: seq<uint8>)
      requires Valid() && slot < NumPresetSlots
      requires |settings| == SettingsDataSize && |name| == SlotNameSize
      modifies this`pageIndex, flash
      ensures Valid()
      ensures pageIndex == (old(pageIndex) + 1) % NumPages
      ensures flash[..] == Overwrite(old(flash[..]), PageOffset(pageIndex),
        PageImage(Splice(StoredData(old(flash[..]), old(pageIndex)), slot, name, settings),
          (StoredGeneration(old(flash[..]), old(pageIndex)) + 1) % 0x1_0000_0000))
    {
      var source := pageIndex;
      var target := (source + 1) % NumPages;
      var targetAddress := PageStart(target);
      ghost var f0 := flash[..];
      ErasePage(flash, targetAddress);
      CopyStart(f0, target);
      var writer := new FlashWriteStream(flash, targetAddress);
      CopySlots(writer, source, target, slot, name, settings, f0);
      FinishCopy(writer, source, target, f0, Splice(StoredData(f0, source), slot, name, settings));
      pageIndex := target;
    }

    /** The Appends of Save: the slots of the source page before `slot`,
        the new name and settings, the source slots after it. */
    method CopySlots(writer: FlashWriteStream, source: nat, target: nat, slot: nat,
        name: seq<uint8>, settings: seq<uint8>, ghost f0: seq<uint8>)
      requires Valid() && writer.flash == flash && source < NumPages && source != target
      requires slot < NumPresetSlots && |settings| == SettingsDataSize && |name| == SlotNameSize
      requires Copying(flash[..], f0, target, [])
      requires writer.address == PageStart(target) && writer.checksum == 0
      modifies writer, flash
      ensures var data := Splice(StoredData(f0, source), slot, name, settings);
        Copying(flash[..], f0, target, data)
        && writer.address == PageStart(target) + PresetDataSize && writer.checksum == Checksum(0, data)
    {
      ghost var data := StoredData(f0, source);
      CopyBefore(writer, source, target, slot, f0);
      ghost var head := if slot > 0 then data[..SlotOffset(slot)] else [];
      CopyAppend(writer, name, f0, target, head);
      CopyAppend(writer, settings, f0, target, head + name);
      CopyAfter(writer, source, target, slot, f0, head + name + settings);
      ghost var tail := if slot < NumPresetSlots - 1 then data[SlotOffset(slot + 1)..] else [];
      SplicePieces(data, slot, name, settings, head, tail);
    }

    /** `if (slot > 0)`: the source slots before `slot`. */
    method CopyBefore(writer: FlashWriteStream, source: nat, target: nat, slot: nat, ghost f0: seq<uint8>)
      requires Valid() && writer.flash == flash && source < NumPages && source != target
      requires slot < NumPresetSlots && Copying(flash[..], f0, target, [])
      requires writer.address == PageStart(target) && writer.checksum == 0
      modifies writer, flash
      ensures var head := if slot > 0 then StoredData(f0, source)[..SlotOffset(slot)] else [];
        Copying(flash[..], f0, target, head)
        && writer.address == PageStart(target) + |head| && writer.checksum == Checksum(0, head)
    {
      if slot > 0 {
        var sourceOffset := PageOffset(source);
        var before := flash[sourceOffset .. sourceOffset + SlotOffset(slot)];
        CopySource(flash[..], f0, target, [], source, 0, SlotOffset(slot));
        CopyAppend(writer, before, f0, target, []);
        assert [] + before == before;
      }
    }

    /** `if (slot < kNumPresetSlots - 1)`: the source slots after `slot`. */
    method CopyAfter(writer: FlashWriteStream, source: nat, target: nat, slot: nat, ghost f0: seq<uint8>,
        ghost w: seq<uint8>)
      requires Valid() && writer.flash == flash && source < NumPages && source != target
      requires slot < NumPresetSlots && |w| == SlotOffset(slot + 1) && Copying(flash[..], f0, target, w)
      requires writer.address == PageStart(target) + |w| && writer.checksum == Checksum(0, w)
      modifies writer, flash
      ensures var tail := if slot < NumPresetSlots - 1 then StoredData(f0, source)[SlotOffset(slot + 1)..] else [];
        Copying(flash[..], f0, target, w + tail)
        && writer.address == PageStart(target) + |w + tail| && writer.checksum == Checksum(0, w + tail)
    {
      if slot < NumPresetSlots - 1 {
        var sourceOffset := PageOffset(source);
        var after := flash[sourceOffset + SlotOffset(slot + 1) .. sourceOffset + PresetDataSize];
        CopySource(flash[..], f0, target, w, source, SlotOffset(slot + 1), PresetDataSize);
        CopyAppend(writer, after, f0, target, w);
        assert StoredData(f0, source)[SlotOffset(slot + 1)..] == StoredData(f0, source)[SlotOffset(slot + 1)..PresetDataSize];
      } else {
        assert w + [] == w;
      }
    }

    /** The Finalize of Save: the trailer with the source page's generation
        plus one, in uint32_t, completes the page image. */
    method FinishCopy(writer: FlashWriteStream, source: nat, target: nat, ghost f0: seq<uint8>, ghost data: seq<uint8>)
      requires Valid() && writer.flash == flash && source < NumPages && source != target
      requires |data| == PresetDataSize && Copying(flash[..], f0, target, data)
      requires writer.address == PageStart(target) + PresetDataSize && writer.checksum == Checksum(0, data)
      modifies flash
      ensures flash[..] == Overwrite(f0, PageOffset(target),
        PageImage(data, (StoredGeneration(f0, source) + 1) % 0x1_0000_0000))
    {
      var sourceOffset := PageOffset(source);
      var pageGeneration := Le32(flash[sourceOffset + GenerationOffset .. sourceOffset + GenerationOffset + 4]);
      CopySource(flash[..], f0, target, data, source, GenerationOffset, GenerationOffset + 4);
      // page->generation + 1 in uint32_t
      var generation: uint32 := if pageGeneration == 0xffff_ffff then 0 else pageGeneration + 1;
      assert generation == (StoredGeneration(f0, source) + 1) % 0x1_0000_0000;
      ghost var trailer := Bytes32(Magic) + Bytes32(generation) + Bytes16(writer.checksum);
      ghost var f := flash[..];
      writer.Finalize(Magic, generation);
      CopyStep(f, f0, target, data, trailer);
      CopyFinish(flash[..], f0, target, data, generation, writer.checksum);
    }

    /** One Append of Save: what it programs extends the copy in the target
        page, and the running checksum covers everything copied so far. */
    method CopyAppend(writer: FlashWriteStream, x: seq<uint8>, ghost f0: seq<uint8>, target: nat, ghost w: seq<uint8>)
      requires Valid() && writer.flash == flash && |x| % 4 == 0 && |w| + |x| <= PageSize
      requires Copying(flash[..], f0, target, w)
      requires writer.address == PageStart(target) + |w| && writer.checksum == Checksum(0, w)
      modifies writer, flash
      ensures Copying(flash[..], f0, target, w + x)
      ensures writer.address == PageStart(target) + |w + x| && writer.checksum == Checksum(0, w + x)
    {
      ghost var f := flash[..];
      writer.Append(x);
      CopyStep(f, f0, target, w, x);
      ChecksumComposes(0, w, x);
    }
  }

  /** Save's progress on the target page: it holds `w` and is erased after
      it; every other page is as before the save. */
  ghost predicate Copying(f: seq<uint8>, f0: seq<uint8>, target: nat, w: seq<uint8>)
  {
    |f0| == RegionSize && target < NumPages && |w| <= PageSize
    && f == Overwrite(f0, PageOffset(target), w + Erased(PageSize - |w|))
  }

  /** Erasing the target page starts the copy with nothing written. */
  lemma CopyStart(f0: seq<uint8>, target: nat)
    requires |f0| == RegionSize && target < NumPages
    ensures Copying(Overwrite(f0, PageOffset(target), Erased(PageSize)), f0, target, [])
  {
    assert [] + Erased(PageSize) == Erased(PageSize);
  }

  /** An Append at the write position extends what the target page
      holds. */
  lemma CopyStep(f: seq<uint8>, f0: seq<uint8>, target: nat, w: seq<uint8>, x: seq<uint8>)
    requires Copying(f, f0, target, w) && |w| + |x| <= PageSize
    ensures PageOffset(target) + |w| + |x| <= |f|
    ensures Copying(Overwrite(f, PageOffset(target) + |w|, x), f0, target, w + x)
  {
    var t := PageOffset(target);
    var n := PageSize - |w|;
    var g := Overwrite(f, t + |w|, x);
    var h := Overwrite(f0, t, w + x + Erased(n - |x|));
    OverwriteAt(f0, t, w + Erased(n));
    OverwriteAt(f, t + |w|, x);
    OverwriteAt(f0, t, w + x + Erased(n - |x|));
    assert forall i :: 0 <= i < |f| ==> g[i] == h[i];
  }

  /** While the copy is in progress the source page reads as before the
      save. */
  lemma CopySource(f: seq<uint8>, f0: seq<uint8>, target: nat, w: seq<uint8>, source: nat, lo: nat, hi: nat)
    requires Copying(f, f0, target, w) && source < NumPages && source != target
    requires lo <= hi <= PageSize
    ensures f[PageOffset(source) + lo .. PageOffset(source) + hi] == PageBytes(f0, source)[lo..hi]
    ensures hi <= PresetDataSize ==>
      f[PageOffset(source) + lo .. PageOffset(source) + hi] == StoredData(f0, source)[lo..hi]
  {
    var t := PageOffset(target);
    if target < source {
      assert PageOffset(target + 1) <= PageOffset(source);
    } else {
      assert PageOffset(source + 1) <= t;
    }
    OverwriteOtherPage(f0, t, w + Erased(PageSize - |w|), source);
    SourceSlice(f, source, lo, hi);
    SourceSlice(f0, source, lo, hi);
  }

  /** The pieces Save appends make up the spliced data. */
  lemma SplicePieces(data: seq<uint8>, slot: nat, name: seq<uint8>, settings: seq<uint8>,
      head: seq<uint8>, tail: seq<uint8>)
    requires |data| == PresetDataSize && slot < NumPresetSlots
    requires |name| == SlotNameSize && |settings| == SettingsDataSize
    requires head == if slot > 0 then data[..SlotOffset(slot)] else []
    requires tail == if slot < NumPresetSlots - 1 then data[SlotOffset(slot + 1)..] else []
    ensures head + name + settings + tail == Splice(data, slot, name, settings)
  {
    assert data[..0] == [];
    assert data[PresetDataSize..] == [];
  }

  /** The spliced data and the finalised fields, written after the erase,
      leave the page image. */
  lemma CopyFinish(f: seq<uint8>, f0: seq<uint8>, target: nat, data: seq<uint8>, generation: uint32, checksum: uint16)
    requires |data| == PresetDataSize && checksum == Checksum(0, data)
    requires Copying(f, f0, target, data + (Bytes32(Magic) + Bytes32(generation) + Bytes16(checksum)))
    ensures f == Overwrite(f0, PageOffset(target), PageImage(data, generation))
  {
    var trailer := Bytes32(Magic) + Bytes32(generation) + Bytes16(checksum);
    assert data + trailer + Erased(PageSize - PresetDataSize - TrailerSize) == PageImage(data, generation);
  }

  /** Reading a range of a page straight from the region is reading it from
      the page's bytes. */
  lemma SourceSlice(f: seq<uint8>, i: nat, lo: nat, hi: nat)
    requires |f| == RegionSize && i < NumPages && lo <= hi <= PageSize
    ensures f[PageOffset(i) + lo .. PageOffset(i) + hi] == PageBytes(f, i)[lo..hi]
    ensures hi <= PresetDataSize ==> f[PageOffset(i) + lo .. PageOffset(i) + hi] == StoredData(f, i)[lo..hi]
  {
    var p := PageBytes(f, i);
    assert forall k :: 0 <= k < hi - lo ==> p[lo..hi][k] == f[PageOffset(i) + lo + k];
    if hi <= PresetDataSize {
      assert forall k :: 0 <= k < hi - lo ==> StoredData(f, i)[lo..hi][k] == p[lo + k];
    }
  }

}

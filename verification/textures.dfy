/** The texture slot table: a fixed array of slots with a free list threaded
    through their `next` fields, the running total of texture memory, the
    resample policy applied before an upload, and the loaders built on it. The
    device upload is not performed; the model records what would be uploaded. */
module Textures {
  import opened Base
  import Rescale

  /** Number of slots in the table (the engine's `MAX_TEXTURES`). */
  const MaxTextures: nat := 4096

  /** The largest texture side the device takes (`GL_MAX_TEXTURE_SIZE`). */
  const MaxTextureSize: nat := 256

  /** `m_Next` links a free slot to the next free one (-1 ends the list);
      `m_MemSize` is the byte size recorded when the slot was last loaded. */
  datatype TexSlot = TexSlot(next: int, memSize: int)

  datatype Table = Table(slots: seq<TexSlot>, firstFree: int, memoryUsage: int, invalid: int)

  /** The configuration variables the loader reads: `dbg_stress` and
      `gfx_texture_quality`. */
  datatype Config = Config(dbgStress: bool, textureQuality: int)

  /** What the loader hands the device: format, size and pixel bytes. */
  datatype Upload = Upload(format: Format, width: int, height: int, pixels: seq<int>)

  datatype Loaded = Loaded(table: Table, id: int, upload: Option<Upload>)

  // ---------------------------------------------------------------- free list

  /** `free` lists the free slots in list order: distinct indices of the table,
      the first being `firstFree`, each linking to the next, the last to -1. */
  predicate FreeList(t: Table, free: seq<int>) {
    && |t.slots| == MaxTextures
    && (forall i :: 0 <= i < |free| ==> 0 <= free[i] < MaxTextures)
    && (forall i, j :: 0 <= i < j < |free| ==> free[i] != free[j])
    && t.firstFree == (if free == [] then -1 else free[0])
    && (forall i :: 0 <= i < |free| - 1 ==> t.slots[free[i]].next == free[i + 1])
    && (free != [] ==> t.slots[free[|free| - 1]].next == -1)
  }

  /** Bytes recorded by slot `i` if it is in use, 0 if it is free. */
  function InUse(slots: seq<TexSlot>, free: seq<int>, i: int): int
    requires 0 <= i < |slots|
  {
    if i in free then 0 else slots[i].memSize
  }

  /** Bytes recorded by the slots below `n` that are in use. */
  function AllocatedBytes(slots: seq<TexSlot>, free: seq<int>, n: nat): int
    requires n <= |slots|
  {
    if n == 0 then 0 else AllocatedBytes(slots, free, n - 1) + InUse(slots, free, n - 1)
  }

  /** The table is well formed: its free list is `free` and the memory total is
      the bytes of the slots in use. */
  predicate Valid(t: Table, free: seq<int>) {
    FreeList(t, free) && t.memoryUsage == AllocatedBytes(t.slots, free, MaxTextures)
  }

  /** Changing slot `k` and its membership of the free list changes the total by
      the difference of that slot's contributions alone. */
  lemma {:induction false} AllocatedBytesChange(slots: seq<TexSlot>, free: seq<int>, slots': seq<TexSlot>, free': seq<int>, k: int, n: nat)
    requires |slots'| == |slots| && n <= |slots| && 0 <= k < |slots|
    requires forall i :: 0 <= i < |slots| && i != k ==> slots'[i] == slots[i] && (i in free' <==> i in free)
    ensures AllocatedBytes(slots', free', n)
              == AllocatedBytes(slots, free, n) + (if k < n then InUse(slots', free', k) - InUse(slots, free, k) else 0)
  {
    if n > 0 {
      AllocatedBytesChange(slots, free, slots', free', k, n - 1);
    }
  }

  lemma {:induction false} NothingAllocated(slots: seq<TexSlot>, free: seq<int>, n: nat)
    requires n <= |slots|
    requires forall i :: 0 <= i < |slots| ==> slots[i].memSize == 0
    ensures AllocatedBytes(slots, free, n) == 0
  {
    if n > 0 {
      NothingAllocated(slots, free, n - 1);
    }
  }

  /** The table `Init` sets up before the null texture: slot `i` links to
      `i + 1`, the last slot ends the list, and nothing is in use. The slots'
      sizes are not set by the engine; the model starts them at 0. */
  function InitTable(): (t: Table)
    ensures Valid(t, seq(MaxTextures, i => i))
    ensures t.firstFree == 0 && t.memoryUsage == 0 && t.invalid == 0
  {
    var t := Table(seq(MaxTextures, i => TexSlot(if i == MaxTextures - 1 then -1 else i + 1, 0)), 0, 0, 0);
    NothingAllocated(t.slots, seq(MaxTextures, i => i), MaxTextures);
    t
  }

  // ---------------------------------------------------------- resample policy

  datatype Size = Size(width: int, height: int)

  /** Bytes per stored pixel: 3 for RGB, 1 for alpha, 4 otherwise. */
  function PixelSize(storeFormat: Format): (n: nat)
    ensures storeFormat == RGB ==> n == 3
    ensures storeFormat == Alpha ==> n == 1
    ensures storeFormat != RGB && storeFormat != Alpha ==> n == 4
  {
    match storeFormat
    case RGB => 3
    case Alpha => 1
    case _ => 4
  }

  /** The format named to the device: RGB and alpha as such, anything else RGBA. */
  function DeviceFormat(format: Format): (f: Format)
    ensures f != Auto
    ensures format != Auto ==> f == format
  {
    match format
    case Auto => RGBA
    case _ => format
  }

  /** Only colour images are resampled, and only when the caller allows it. */
  predicate MayResample(format: Format, noResample: bool) {
    !noResample && (format == RGBA || format == RGB)
  }

  predicate Oversized(width: int, height: int) {
    width > MaxTextureSize || height > MaxTextureSize
  }

  /** The size an oversized texture is reduced to: both sides scaled by the same
      factor so that the longer one becomes `MaxTextureSize`, never below one
      pixel. */
  function FitSize(width: int, height: int): (s: Size)
    requires width >= 1 && height >= 1 && Oversized(width, height)
    ensures 1 <= s.width <= width && s.width <= MaxTextureSize
    ensures 1 <= s.height <= height && s.height <= MaxTextureSize
    ensures width >= height ==> s.width == MaxTextureSize
    ensures height >= width ==> s.height == MaxTextureSize
    ensures var longest := if width >= height then width else height;
            width * MaxTextureSize >= longest ==> s.width * longest <= width * MaxTextureSize < (s.width + 1) * longest
    ensures var longest := if width >= height then width else height;
            width * MaxTextureSize < longest ==> s.width == 1
    ensures var longest := if width >= height then width else height;
            height * MaxTextureSize >= longest ==> s.height * longest <= height * MaxTextureSize < (s.height + 1) * longest
    ensures var longest := if width >= height then width else height;
            height * MaxTextureSize < longest ==> s.height == 1
  {
    var longest := if width >= height then width else height;
    ScaleDown(width, longest);
    ScaleDown(height, longest);
    DivModOf(MaxTextureSize, 0, longest);
    ScaledSide(width, longest);
    ScaledSide(height, longest);
    Size(Max1(width * MaxTextureSize / longest), Max1(height * MaxTextureSize / longest))
  }

  /** One side scaled by `MaxTextureSize / longest`, truncated and raised to 1:
      the largest count of pixels whose scaled-back size does not exceed the
      side, or 1 when that count is 0. */
  lemma ScaledSide(side: int, longest: int)
    requires side >= 1 && longest >= 1
    ensures side * MaxTextureSize >= longest ==>
              var n := Max1(side * MaxTextureSize / longest);
              n * longest <= side * MaxTextureSize < (n + 1) * longest
    ensures side * MaxTextureSize < longest ==> Max1(side * MaxTextureSize / longest) == 1
  {
    var a := side * MaxTextureSize;
    DivFloor(a, longest);
    if a >= longest {
      DivMonotone(longest, a, longest);
      DivModOf(1, 0, longest);
    } else {
      DivModOf(0, a, longest);
    }
  }

  function Max1(n: int): int {
    if n < 1 then 1 else n
  }

  lemma ScaleDown(a: int, longest: int)
    requires 1 <= a <= longest && longest > MaxTextureSize
    ensures 0 <= a * MaxTextureSize / longest <= MaxTextureSize
    ensures a * MaxTextureSize / longest <= a
  {
    MulMonotone(a, longest, MaxTextureSize);
    DivMonotone(a * MaxTextureSize, longest * MaxTextureSize, longest);
    DivModOf(MaxTextureSize, 0, longest);
    assert MaxTextureSize * longest == longest * MaxTextureSize;
    assert a * MaxTextureSize <= a * longest;
    DivMonotone(a * MaxTextureSize, a * longest, longest);
    DivModOf(a, 0, longest);
    assert a * longest == longest * a;
    DivMonotone(0, a * MaxTextureSize, longest);
  }

  /** Whether the loader resamples, and how: oversized colour images are fitted
      to the device, and with texture quality 0 colour images over 16 pixels
      both ways are halved. */
  predicate Resamples(cfg: Config, width: int, height: int, format: Format, noResample: bool) {
    MayResample(format, noResample)
    && (Oversized(width, height) || (width > 16 && height > 16 && cfg.textureQuality == 0))
  }

  /** The image sizes the loader handles. An empty side is accepted: such an
      image is uploaded as it is. Only an oversized image that would be resampled
      needs both sides, because its scale factor divides by them. */
  predicate LoadableSize(width: int, height: int, format: Format, noResample: bool) {
    width >= 0 && height >= 0
    && (MayResample(format, noResample) && Oversized(width, height) ==> width >= 1 && height >= 1)
  }

  function ResampleSize(cfg: Config, width: int, height: int, format: Format, noResample: bool): (s: Size)
    requires LoadableSize(width, height, format, noResample)
    ensures !Resamples(cfg, width, height, format, noResample) ==> s == Size(width, height)
    ensures MayResample(format, noResample) && Oversized(width, height) ==>
              s.width <= MaxTextureSize && s.height <= MaxTextureSize
    ensures MayResample(format, noResample) && Oversized(width, height) ==> s == FitSize(width, height)
    ensures (MayResample(format, noResample) && !Oversized(width, height) && width > 16 && height > 16
               && cfg.textureQuality == 0) ==> s == Size(width / 2, height / 2)
    ensures 0 <= s.width <= width && 0 <= s.height <= height
    ensures width >= 1 ==> s.width >= 1
    ensures height >= 1 ==> s.height >= 1
  {
    if !MayResample(format, noResample) then Size(width, height)
    else if Oversized(width, height) then FitSize(width, height)
    else if width > 16 && height > 16 && cfg.textureQuality == 0 then Size(width / 2, height / 2)
    else Size(width, height)
  }

  /** The oversized branch as the engine writes it: the width is clamped to
      `MaxTextureSize` and the height multiplied by the same ratio, truncated.
      The ratio is a float in the engine; here the product is taken exactly. */
  function FitSizeAsWritten(width: int, height: int): (s: Size)
    requires width >= 1 && height >= 1
    ensures s.width == if width < MaxTextureSize then width else MaxTextureSize
    ensures s.height == height * s.width / width
  {
    var newWidth := if width < MaxTextureSize then width else MaxTextureSize;
    Size(newWidth, height * newWidth / width)
  }

  /** A tall texture keeps its height: the clamp looks at the width only, so a
      128 by 512 image reaches the device still 512 pixels tall. */
  lemma TallTextureNotReduced()
    ensures Oversized(128, 512)
    ensures FitSizeAsWritten(128, 512) == Size(128, 512)
    ensures FitSize(128, 512) == Size(64, 256)
  {
    DivModOf(MaxTextureSize, 0, 512);
    assert 128 * MaxTextureSize / 512 == 64;
  }

  /** A wide, flat texture loses its height: 1024 by 3 becomes 256 by 0, and
      `Rescale` then divides the height by zero. */
  lemma FlatTextureLosesHeight()
    ensures Oversized(1024, 3)
    ensures FitSizeAsWritten(1024, 3) == Size(256, 0)
    ensures FitSize(1024, 3) == Size(256, 1)
  {
  }

  /** Where the engine's arithmetic is sound, a texture at least as wide as it
      is tall whose height survives the scaling, the two agree. */
  lemma FitSizeAgreesWhenWide(width: int, height: int)
    requires 1 <= height <= width && width > MaxTextureSize
    requires height * MaxTextureSize / width >= 1
    ensures FitSize(width, height) == FitSizeAsWritten(width, height)
  {
  }

  // ------------------------------------------------------------- load, unload

  /** `LoadTextureRaw`: under stress testing nothing is allocated and the invalid
      texture is returned. Otherwise the head of the free list is taken, the image
      resampled by the policy and uploaded, and its stored size recorded in the
      slot and added to the total. The engine does not check for an exhausted
      list; taking from one is excluded. */
  function LoadTextureRaw(t: Table, cfg: Config, width: int, height: int, format: Format, data: seq<int>,
                          storeFormat: Format, noResample: bool): (r: Loaded)
    requires |t.slots| == MaxTextures && LoadableSize(width, height, format, noResample)
    requires !cfg.dbgStress ==> 0 <= t.firstFree < MaxTextures
    ensures cfg.dbgStress ==> r == Loaded(t, t.invalid, None)
    ensures !cfg.dbgStress ==>
              && r.id == t.firstFree
              && r.table.firstFree == t.slots[t.firstFree].next
              && r.table.invalid == t.invalid
              && |r.table.slots| == |t.slots|
              && r.table.slots[r.id].next == -1
              && (forall i :: 0 <= i < |t.slots| && i != r.id ==> r.table.slots[i] == t.slots[i])
              && r.upload.Some?
              && r.upload.value.format == DeviceFormat(format)
              && Size(r.upload.value.width, r.upload.value.height) == ResampleSize(cfg, width, height, format, noResample)
              && r.table.slots[r.id].memSize == r.upload.value.width * r.upload.value.height * PixelSize(storeFormat)
              && r.table.memoryUsage == t.memoryUsage + r.table.slots[r.id].memSize
    ensures !cfg.dbgStress && Resamples(cfg, width, height, format, noResample) ==>
              r.upload.value.pixels == Rescale.Rescale(width, height, r.upload.value.width, r.upload.value.height, format, data)
    ensures !cfg.dbgStress && !Resamples(cfg, width, height, format, noResample) ==>
              r.upload.value.pixels == data
  {
    if cfg.dbgStress then Loaded(t, t.invalid, None)
    else
      var tex := t.firstFree;
      var size := ResampleSize(cfg, width, height, format, noResample);
      var pixels := if Resamples(cfg, width, height, format, noResample)
                    then Rescale.Rescale(width, height, size.width, size.height, format, data)
                    else data;
      var memSize := size.width * size.height * PixelSize(storeFormat);
      var table := t.(firstFree := t.slots[tex].next,
                      slots := t.slots[tex := TexSlot(-1, memSize)],
                      memoryUsage := t.memoryUsage + memSize);
      Loaded(table, tex, Some(Upload(DeviceFormat(format), size.width, size.height, pixels)))
  }

  /** `UnloadTexture`: the invalid texture and negative indices are left alone;
      any other slot goes back to the head of the free list and its recorded size
      leaves the total. The engine returns 0 in every case. */
  function UnloadTexture(t: Table, index: int): (r: Table)
    requires |t.slots| == MaxTextures && index < MaxTextures
    ensures index == t.invalid || index < 0 ==> r == t
    ensures index != t.invalid && index >= 0 ==>
              && r.firstFree == index
              && |r.slots| == |t.slots|
              && r.slots[index] == TexSlot(t.firstFree, t.slots[index].memSize)
              && (forall i :: 0 <= i < |t.slots| && i != index ==> r.slots[i] == t.slots[i])
              && r.memoryUsage == t.memoryUsage - t.slots[index].memSize
              && r.invalid == t.invalid
  {
    if index == t.invalid || index < 0 then t
    else
      t.(slots := t.slots[index := t.slots[index].(next := t.firstFree)],
         memoryUsage := t.memoryUsage - t.slots[index].memSize,
         firstFree := index)
  }

  /** Loading takes the first free slot off the list and keeps the total equal
      to the bytes of the slots in use. */
  lemma LoadKeepsValid(t: Table, free: seq<int>, cfg: Config, width: int, height: int, format: Format, data: seq<int>,
                       storeFormat: Format, noResample: bool)
    requires Valid(t, free) && free != [] && !cfg.dbgStress && LoadableSize(width, height, format, noResample)
    ensures var r := LoadTextureRaw(t, cfg, width, height, format, data, storeFormat, noResample);
            r.id == free[0] && Valid(r.table, free[1..])
  {
    var r := LoadTextureRaw(t, cfg, width, height, format, data, storeFormat, noResample);
    PopKeepsFreeList(t, free, r.table);
    AllocatedBytesChange(t.slots, free, r.table.slots, free[1..], free[0], MaxTextures);
  }

  /** An image with no columns is not resampled: it takes the first free slot,
      is uploaded as it is and records no bytes. */
  lemma EmptyImageLoads(t: Table, free: seq<int>, cfg: Config, height: int, format: Format, data: seq<int>,
                        storeFormat: Format, noResample: bool)
    requires Valid(t, free) && free != [] && !cfg.dbgStress && 0 <= height <= MaxTextureSize
    ensures var r := LoadTextureRaw(t, cfg, 0, height, format, data, storeFormat, noResample);
            && r.id == free[0]
            && r.upload == Some(Upload(DeviceFormat(format), 0, height, data))
            && r.table.slots[r.id].memSize == 0
            && r.table.memoryUsage == t.memoryUsage
  {
  }

  /** Unlinking the head of the free list, leaving every other slot's link
      alone, gives the rest of the list; the head is then in use and every
      other slot is free exactly when it was. */
  lemma PopKeepsFreeList(t: Table, free: seq<int>, r: Table)
    requires FreeList(t, free) && free != []
    requires |r.slots| == MaxTextures && r.firstFree == t.slots[free[0]].next
    requires forall i :: 0 <= i < MaxTextures && i != free[0] ==> r.slots[i].next == t.slots[i].next
    ensures FreeList(r, free[1..])
    ensures free[0] !in free[1..]
    ensures forall i :: 0 <= i < MaxTextures && i != free[0] ==> (i in free[1..] <==> i in free)
  {
    var id := free[0];
    var free' := free[1..];
    forall i | 0 <= i < MaxTextures && i != id
      ensures i in free' <==> i in free
    {
      if i in free {
        var j :| 0 <= j < |free| && free[j] == i;
        assert free'[j - 1] == i;
      }
    }
    forall i | 0 <= i < |free'| - 1
      ensures r.slots[free'[i]].next == free'[i + 1]
    {
      assert free'[i] == free[i + 1] != free[0];
    }
    if free' != [] {
      assert free'[|free'| - 1] == free[|free| - 1] != free[0];
    }
  }

  /** Unloading a slot in use puts it at the head of the free list and keeps the
      total equal to the bytes of the slots in use. */
  lemma UnloadKeepsValid(t: Table, free: seq<int>, index: int)
    requires Valid(t, free) && 0 <= index < MaxTextures && index != t.invalid && index !in free
    ensures Valid(UnloadTexture(t, index), [index] + free)
  {
    var r := UnloadTexture(t, index);
    PushKeepsFreeList(t, free, r, index);
    AllocatedBytesChange(t.slots, free, r.slots, [index] + free, index, MaxTextures);
  }

  /** Linking slot `index` in front of the free list, leaving every other slot
      alone, gives a free list one longer. */
  lemma PushKeepsFreeList(t: Table, free: seq<int>, r: Table, index: int)
    requires FreeList(t, free) && 0 <= index < MaxTextures && index !in free
    requires |r.slots| == MaxTextures && r.firstFree == index && r.slots[index].next == t.firstFree
    requires forall i :: 0 <= i < MaxTextures && i != index ==> r.slots[i] == t.slots[i]
    ensures FreeList(r, [index] + free)
  {
    var free' := [index] + free;
    forall i | 0 <= i < |free'| - 1
      ensures r.slots[free'[i]].next == free'[i + 1]
    {
      if i > 0 {
        assert free'[i] == free[i - 1] != index;
      }
    }
    forall i, j | 0 <= i < j < |free'|
      ensures free'[i] != free'[j]
    {
      if i == 0 {
        assert free'[j] == free[j - 1];
      }
    }
  }

  /** Unloading the same slot twice, which the engine does not guard against,
      makes the slot link to itself: the next two loads both hand out that slot. */
  lemma DoubleUnloadAliases(t: Table, index: int, cfg: Config)
    requires |t.slots| == MaxTextures && 0 <= index < MaxTextures && index != t.invalid && !cfg.dbgStress
    ensures var u := UnloadTexture(UnloadTexture(t, index), index);
            var first := LoadTextureRaw(u, cfg, 4, 4, RGBA, [], RGBA, true);
            var second := LoadTextureRaw(first.table, cfg, 4, 4, RGBA, [], RGBA, true);
            first.id == index && second.id == index
  {
  }

  // ------------------------------------------------------------------- loaders

  /** The pixel bytes of the engine's null texture: a 4 by 4 RGBA checker of red,
      green, blue and yellow quarters. */
  const NullTextureData: seq<int> := [
    0xff, 0x00, 0x00, 0xff, 0xff, 0x00, 0x00, 0xff, 0x00, 0xff, 0x00, 0xff, 0x00, 0xff, 0x00, 0xff,
    0xff, 0x00, 0x00, 0xff, 0xff, 0x00, 0x00, 0xff, 0x00, 0xff, 0x00, 0xff, 0x00, 0xff, 0x00, 0xff,
    0x00, 0x00, 0xff, 0xff, 0x00, 0x00, 0xff, 0xff, 0xff, 0xff, 0x00, 0xff, 0xff, 0xff, 0x00, 0xff,
    0x00, 0x00, 0xff, 0xff, 0x00, 0x00, 0xff, 0xff, 0xff, 0xff, 0x00, 0xff, 0xff, 0xff, 0x00, 0xff
  ]

  /** The texture part of `Init`: the free list is threaded through all slots,
      then the null texture is loaded without resampling and becomes the invalid
      texture. It takes slot 0 and 64 bytes, and every other slot stays free. */
  function Init(cfg: Config): (r: Table)
    ensures r.invalid == 0
    ensures !cfg.dbgStress ==> r.memoryUsage == 64 && r.firstFree == 1 && Valid(r, seq(MaxTextures - 1, i => i + 1))
    ensures cfg.dbgStress ==> r == InitTable()
  {
    var loaded := LoadTextureRaw(InitTable(), cfg, 4, 4, RGBA, NullTextureData, RGBA, true);
    NullTextureLoads(cfg);
    loaded.table.(invalid := loaded.id)
  }

  lemma NullTextureLoads(cfg: Config)
    ensures !cfg.dbgStress ==>
              var loaded := LoadTextureRaw(InitTable(), cfg, 4, 4, RGBA, NullTextureData, RGBA, true);
              loaded.id == 0 && Valid(loaded.table, seq(MaxTextures - 1, i => i + 1))
  {
    if !cfg.dbgStress {
      LoadKeepsValid(InitTable(), seq(MaxTextures, i => i), cfg, 4, 4, RGBA, NullTextureData, RGBA, true);
      assert seq(MaxTextures, i => i)[1..] == seq(MaxTextures - 1, i => i + 1);
    }
  }

  /** PNG colour types the loader accepts (`PNG_TRUECOLOR`, `PNG_TRUECOLOR_ALPHA`). */
  const PngTruecolor: int := 2
  const PngTruecolorAlpha: int := 6

  /** A PNG file as the decoder reports it. */
  datatype Png = Png(width: int, height: int, depth: int, colorType: int, data: seq<int>)

  datatype Image = Image(width: int, height: int, format: Format, data: seq<int>)

  /** `LoadPNG` past opening the file: only 8-bit truecolor images, with or
      without alpha, are accepted, as RGB or RGBA. */
  function DecodePng(png: Png): (r: Option<Image>)
    ensures r.Some? <==> png.depth == 8 && (png.colorType == PngTruecolor || png.colorType == PngTruecolorAlpha)
    ensures r.Some? ==> r.value.width == png.width && r.value.height == png.height && r.value.data == png.data
    ensures r.Some? ==> (r.value.format == RGB <==> png.colorType == PngTruecolor)
    ensures r.Some? ==> (r.value.format == RGBA <==> png.colorType == PngTruecolorAlpha)
  {
    if png.depth != 8 || (png.colorType != PngTruecolor && png.colorType != PngTruecolorAlpha) then None
    else Some(Image(png.width, png.height, if png.colorType == PngTruecolor then RGB else RGBA, png.data))
  }

  /** `LoadTexture`: names shorter than three characters and files that do not
      open or decode give the invalid texture and change nothing; otherwise the
      image is loaded raw, in its own format when the store format is `Auto`.
      Opening the file is the caller's: `file` is `None` when it fails. */
  function LoadTexture(t: Table, cfg: Config, name: string, file: Option<Png>, storeFormat: Format, noResample: bool): (r: Loaded)
    requires |t.slots| == MaxTextures
    requires !cfg.dbgStress ==> 0 <= t.firstFree < MaxTextures
    requires |name| >= 3 && file.Some? && DecodePng(file.value).Some? ==>
               LoadableSize(file.value.width, file.value.height, DecodePng(file.value).value.format, noResample)
    ensures |name| < 3 || file.None? || DecodePng(file.value).None? ==> r == Loaded(t, t.invalid, None)
    ensures cfg.dbgStress ==> r == Loaded(t, t.invalid, None)
    ensures |name| >= 3 && file.Some? && DecodePng(file.value).Some? && !cfg.dbgStress ==>
              var image := DecodePng(file.value).value;
              && r.id == t.firstFree
              && |r.table.slots| == |t.slots|
              && r.upload.Some?
              && Size(r.upload.value.width, r.upload.value.height)
                   == ResampleSize(cfg, image.width, image.height, image.format, noResample)
              && r.table.slots[r.id].memSize
                   == r.upload.value.width * r.upload.value.height
                      * PixelSize(if storeFormat == Auto then image.format else storeFormat)
              && r.upload.value.format == image.format
  {
    if |name| < 3 then Loaded(t, t.invalid, None)
    else match file
      case None => Loaded(t, t.invalid, None)
      case Some(png) =>
        match DecodePng(png)
        case None => Loaded(t, t.invalid, None)
        case Some(image) =>
          var store := if storeFormat == Auto then image.format else storeFormat;
          LoadTextureRaw(t, cfg, image.width, image.height, image.format, image.data, store, noResample)
  }

  /** Loading a file either changes nothing and gives the invalid texture, or
      takes the first free slot and keeps the table well formed. */
  lemma LoadTextureKeepsValid(t: Table, free: seq<int>, cfg: Config, name: string, file: Option<Png>,
                              storeFormat: Format, noResample: bool)
    requires Valid(t, free) && (!cfg.dbgStress ==> free != [])
    requires |name| >= 3 && file.Some? && DecodePng(file.value).Some? ==>
               LoadableSize(file.value.width, file.value.height, DecodePng(file.value).value.format, noResample)
    ensures var r := LoadTexture(t, cfg, name, file, storeFormat, noResample);
            r.upload.None? ==> r == Loaded(t, t.invalid, None)
    ensures var r := LoadTexture(t, cfg, name, file, storeFormat, noResample);
            r.upload.Some? ==> r.id == free[0] && Valid(r.table, free[1..])
  {
    var r := LoadTexture(t, cfg, name, file, storeFormat, noResample);
    if r.upload.Some? {
      var image := DecodePng(file.value).value;
      var store := if storeFormat == Auto then image.format else storeFormat;
      LoadKeepsValid(t, free, cfg, image.width, image.height, image.format, image.data, store, noResample);
    }
  }
}

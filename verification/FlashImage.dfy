/** Flash images: editor/src-tauri/src/firmware_package.rs, and the image
    arithmetic of editor/src-tauri/src/usb_update.rs. */
module FlashImage {
  const SECTOR: nat := 4096
  const FLASH_BYTES: nat := 8 * 1024 * 1024
  const STORAGE_OFFSET: nat := FLASH_BYTES - 4 * 1024 * 1024
  const FLASH_BASE: int := 0x1000_0000

  type Byte = b: int | 0 <= b < 256
  type Bytes = seq<Byte>

  datatype Option<+T> = None | Some(value: T)

  /** The flash after writing image at its start. */
  function Overlay(before: Bytes, image: Bytes): (after: Bytes)
    requires |image| <= |before|
    ensures |after| == |before|
  {
    image + before[|image|..]
  }

  /** A firmware image that leaves the settings region alone. */
  predicate WithinFirmware(image: Bytes) {
    0 < |image| <= STORAGE_OFFSET && |image| % SECTOR == 0
  }

  /** A complete first installation: firmware, untouched gap, fresh storage. */
  function FactoryImage(before: Bytes, firmware: Bytes, storage: Bytes): (image: Option<Bytes>)
    ensures image.Some? <==>
              |before| == FLASH_BYTES && WithinFirmware(firmware) && |storage| == FLASH_BYTES - STORAGE_OFFSET
    ensures image.Some? ==>
              && |image.value| == FLASH_BYTES
              && image.value[..|firmware|] == firmware
              && image.value[|firmware|..STORAGE_OFFSET] == before[|firmware|..STORAGE_OFFSET]
              && image.value[STORAGE_OFFSET..] == storage
  {
    if |before| != FLASH_BYTES || !WithinFirmware(firmware) || |storage| != FLASH_BYTES - STORAGE_OFFSET then None
    else Some(firmware + before[|firmware|..STORAGE_OFFSET] + storage)
  }

  /** An update keeps every byte from the end of the firmware on, settings included. */
  lemma OverlayKeepsSettings(before: Bytes, image: Bytes)
    requires |before| == FLASH_BYTES && WithinFirmware(image)
    ensures Overlay(before, image)[..|image|] == image
    ensures Overlay(before, image)[|image|..] == before[|image|..]
    ensures Overlay(before, image)[STORAGE_OFFSET..] == before[STORAGE_OFFSET..]
  {
    var after := Overlay(before, image);
    assert after[|image|..] == before[|image|..];
    assert after[STORAGE_OFFSET..] == after[|image|..][STORAGE_OFFSET - |image|..];
    assert before[STORAGE_OFFSET..] == before[|image|..][STORAGE_OFFSET - |image|..];
  }

  // ----- UF2

  function Word(data: Bytes, at: nat): int
    requires at + 4 <= |data|
  {
    data[at] as int + data[at + 1] as int * 0x100 + data[at + 2] as int * 0x1_0000 + data[at + 3] as int * 0x100_0000
  }

  /** Block index of a contiguous RP2040 image of count blocks. */
  predicate GoodBlock(block: Bytes, index: nat, count: nat)
    requires |block| == 512
  {
    && Word(block, 0) == 0x0A32_4655
    && Word(block, 4) == 0x9E5D_5157
    && Word(block, 508) == 0x0AB1_6F30
    && Word(block, 8) == 0x2000
    && Word(block, 28) == 0xE48B_FF56
    && Word(block, 16) == 256
    && Word(block, 12) == FLASH_BASE + index * 256
    && Word(block, 20) == index
    && Word(block, 24) == count
  }

  function Block(data: Bytes, i: nat): (block: Bytes)
    requires 512 * (i + 1) <= |data|
    ensures |block| == 512
  {
    data[512 * i..512 * (i + 1)]
  }

  /** The payloads of the first n blocks, in order. */
  function Payload(data: Bytes, n: nat): (p: Bytes)
    requires 512 * n <= |data|
    ensures |p| == 256 * n
  {
    if n == 0 then [] else Payload(data, n - 1) + Block(data, n - 1)[32..288]
  }

  predicate GoodVectors(image: Bytes)
    requires |image| >= 512
  {
    var stack := Word(image, 256);
    var entry := Word(image, 260);
    && stack % 8 == 0 && 0x2000_0000 < stack <= 0x2004_2000
    && entry % 2 == 1 && FLASH_BASE + 256 <= entry < FLASH_BASE + |image|
  }

  predicate GoodUf2(data: Bytes) {
    && 0 < |data| <= STORAGE_OFFSET * 2 && |data| % 512 == 0
    && (forall i | 0 <= i < |data| / 512 :: GoodBlock(Block(data, i), i, |data| / 512))
    && |data| / 512 >= 2
    && GoodVectors(Payload(data, |data| / 512))
  }

  function RoundUp(n: nat): (r: nat)
    ensures n <= r < n + SECTOR && r % SECTOR == 0
  {
    (n + SECTOR - 1) / SECTOR * SECTOR
  }

  /** The loop of firmware_image over the blocks. */
  method Collect(data: Bytes) returns (image: Option<Bytes>)
    requires |data| % 512 == 0
    ensures image.Some? <==> forall i | 0 <= i < |data| / 512 :: GoodBlock(Block(data, i), i, |data| / 512)
    ensures image.Some? ==> image.value == Payload(data, |data| / 512)
  {
    hide GoodBlock;
    var count := |data| / 512;
    var bytes: Bytes := [];
    for index := 0 to count
      invariant bytes == Payload(data, index)
      invariant forall i | 0 <= i < index :: GoodBlock(Block(data, i), i, count)
    {
      var block := Block(data, index);
      if !GoodBlock(block, index, count) { return None; }
      bytes := bytes + block[32..288];
    }
    return Some(bytes);
  }

  /** Vec::resize to whole sectors of 0xFF. */
  method Pad(bytes: Bytes) returns (padded: Bytes)
    ensures |padded| == RoundUp(|bytes|)
    ensures padded[..|bytes|] == bytes
    ensures forall k | |bytes| <= k < |padded| :: padded[k] == 0xFF
  {
    var padding: Bytes := seq(RoundUp(|bytes|) - |bytes|, _ => 0xFF);
    padded := bytes + padding;
  }

  /** RoundUp stays within a bound that is itself a whole number of sectors. */
  lemma RoundUpWithin(n: nat)
    requires n <= STORAGE_OFFSET
    ensures RoundUp(n) <= STORAGE_OFFSET
    ensures 0 < n ==> 0 < RoundUp(n)
  {
    assert STORAGE_OFFSET == 1024 * SECTOR;
  }

  /** firmware_image: the payloads of a complete contiguous UF2, padded to whole
      sectors with 0xFF; whatever it accepts can be installed. */
  method FirmwareImage(data: Bytes) returns (image: Option<Bytes>)
    ensures image.Some? <==> GoodUf2(data)
    ensures image.Some? ==>
              && WithinFirmware(image.value)
              && |image.value| == RoundUp(|data| / 2)
              && image.value[..|data| / 2] == Payload(data, |data| / 512)
              && forall k | |data| / 2 <= k < |image.value| :: image.value[k] == 0xFF
  {
    hide GoodBlock, GoodVectors, Payload, Block, RoundUp;
    if |data| == 0 || |data| % 512 != 0 || |data| > STORAGE_OFFSET * 2 { return None; }
    var collected := Collect(data);
    if collected.None? { return None; }
    var bytes := collected.value;
    assert |bytes| == |data| / 2;
    if |bytes| < 512 || !GoodVectors(bytes) { return None; }
    var padded := Pad(bytes);
    RoundUpWithin(|bytes|);
    if |padded| > STORAGE_OFFSET { return None; }
    return Some(padded);
  }
  // ----- the inverse: laying an image out as UF2

  function Little(w: nat): (b: Bytes)
    requires w < 0x1_0000_0000
    ensures |b| == 4
  {
    [w % 0x100, w / 0x100 % 0x100, w / 0x1_0000 % 0x100, w / 0x100_0000]
  }

  lemma LittleWord(w: nat)
    requires w < 0x1_0000_0000
    ensures Word(Little(w), 0) == w
  {
    assert w / 0x100 / 0x100 == w / 0x1_0000 && w / 0x1_0000 / 0x100 == w / 0x100_0000;
  }

  /** One block, its eight header words first. */
  function PackBlock(payload: Bytes, index: nat, count: nat): (block: Bytes)
    requires |payload| == 256 && index < count <= 0x1_0000
    ensures |block| == 512
  {
    Little(0x0A32_4655) + Little(0x9E5D_5157) + Little(0x2000) + Little(FLASH_BASE + index * 256) + Little(256)
    + Little(index) + Little(count) + Little(0xE48B_FF56) + payload + seq(220, _ => 0) + Little(0x0AB1_6F30)
  }

  lemma WordIn(before: Bytes, w: nat, after: Bytes)
    requires w < 0x1_0000_0000
    ensures Word(before + Little(w) + after, |before|) == w
  {
    hide Little;
    var all := before + Little(w) + after;
    LittleWord(w);
    assert all[|before|..|before| + 4] == Little(w);
    assert forall k | 0 <= k < 4 :: all[|before| + k] == Little(w)[k];
  }

  /** A word of a block, seen between what is before and after it. */
  lemma WordAt(block: Bytes, at: nat, w: nat)
    requires w < 0x1_0000_0000 && at + 4 <= |block| && block[at..at + 4] == Little(w)
    ensures Word(block, at) == w
  {
    hide Little;
    WordIn(block[..at], w, block[at + 4..]);
    assert block == block[..at] + Little(w) + block[at + 4..];
  }

  lemma PackedIsGood(payload: Bytes, index: nat, count: nat)
    requires |payload| == 256 && index < count <= 0x1_0000
    ensures GoodBlock(PackBlock(payload, index, count), index, count)
    ensures PackBlock(payload, index, count)[32..288] == payload
  {
    hide Little, Word;
    var b := PackBlock(payload, index, count);
    WordAt(b, 0, 0x0A32_4655);
    WordAt(b, 4, 0x9E5D_5157);
    WordAt(b, 8, 0x2000);
    WordAt(b, 12, FLASH_BASE + index * 256);
    WordAt(b, 16, 256);
    WordAt(b, 20, index);
    WordAt(b, 24, count);
    WordAt(b, 28, 0xE48B_FF56);
    WordAt(b, 508, 0x0AB1_6F30);
  }

  /** The first n of count blocks. */
  function Pack(image: Bytes, n: nat, count: nat): (data: Bytes)
    requires 256 * n <= |image| && n <= count <= 0x1_0000
    ensures |data| == 512 * n
  {
    if n == 0 then [] else Pack(image, n - 1, count) + PackBlock(image[256 * (n - 1)..256 * n], n - 1, count)
  }

  lemma {:induction false} PackedBlocks(image: Bytes, n: nat, count: nat, i: nat)
    requires 256 * n <= |image| && i < n <= count <= 0x1_0000
    ensures Block(Pack(image, n, count), i) == PackBlock(image[256 * i..256 * (i + 1)], i, count)
  {
    hide PackBlock;
    var front, last := Pack(image, n - 1, count), PackBlock(image[256 * (n - 1)..256 * n], n - 1, count);
    if i < n - 1 {
      PackedBlocks(image, n - 1, count, i);
      assert (front + last)[512 * i..512 * (i + 1)] == front[512 * i..512 * (i + 1)];
    } else {
      assert (front + last)[512 * i..512 * (i + 1)] == last;
    }
  }

  lemma {:induction false} PackedPayload(image: Bytes, count: nat, n: nat)
    requires 256 * count == |image| && n <= count <= 0x1_0000
    ensures Payload(Pack(image, count, count), n) == image[..256 * n]
  {
    hide PackBlock, Pack, Block;
    if n > 0 {
      PackedPayload(image, count, n - 1);
      PackedBlocks(image, count, count, n - 1);
      PackedIsGood(image[256 * (n - 1)..256 * n], n - 1, count);
      assert image[..256 * (n - 1)] + image[256 * (n - 1)..256 * n] == image[..256 * n];
    }
  }

  /** An image laid out as UF2 comes back, and is accepted exactly when its vector
      table is good. */
  lemma Uf2RoundTrip(image: Bytes, count: nat)
    requires 512 <= |image| == 256 * count <= STORAGE_OFFSET
    ensures |Pack(image, count, count)| == 512 * count && Payload(Pack(image, count, count), count) == image
    ensures GoodUf2(Pack(image, count, count)) <==> GoodVectors(image)
  {
    hide PackBlock, Pack, Block, GoodBlock, GoodVectors;
    var data := Pack(image, count, count);
    PackedPayload(image, count, count);
    assert image[..|image|] == image;
    forall i | 0 <= i < count ensures GoodBlock(Block(data, i), i, count) {
      PackedBlocks(image, count, count, i);
      PackedIsGood(image[256 * i..256 * (i + 1)], i, count);
    }
    assert |data| / 512 == count;
  }
}

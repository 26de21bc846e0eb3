/**
 * The vendor command blocks of the AX206 frame, as `GetDimensions`,
 * `Brightness` and `Blit` build them, and the decoding of the dimensions
 * reply. Every block is 16 bytes long and starts with the pass-through
 * opcode 0xcd; byte 6 selects the sub-command of a write.
 */
module Cdb {
  import opened Bytes

  const OpVendor: byte := 0xcd
  /** usbCmdSetProperty */
  const CmdSetProperty: byte := 0x01
  /** usbCmdBlit */
  const CmdBlit: byte := 0x12
  /** PROPERTY_BRIGHTNESS, a little-endian 16-bit property id. */
  const PropertyBrightness: nat := 1
  const CdbLength: nat := 16
  /** Number of bytes the dimensions query asks the device for. */
  const DimensionsReplyLength: nat := 5
  const MaxBrightness: int := 7

  /** The block of the "read dimensions" query: opcode, then 2 at byte 5. */
  function DimensionsCdb(): (r: seq<byte>)
    ensures |r| == CdbLength && r[0] == OpVendor && r[5] == 2
    ensures forall i :: 0 < i < CdbLength && i != 5 ==> r[i] == 0
  {
    [0xcd, 0, 0, 0, 0, 2, 0, 0, 0, 0, 0, 0, 0, 0, 0, 0]
  }

  /** The real distance between two levels. */
  function Dist(a: int, b: int): nat
  {
    if a < b then b - a else a - b
  }

  /** `Brightness`'s clamping of lvl: the level in [0, 7] nearest to lvl. */
  function Clamp(lvl: int): (r: int)
    ensures 0 <= r <= MaxBrightness
    ensures forall v :: 0 <= v <= MaxBrightness ==> Dist(lvl, r) <= Dist(lvl, v)
  {
    if lvl < 0 then 0 else if lvl > MaxBrightness then MaxBrightness else lvl
  }

  /** The "set property brightness" block carrying the clamped level. */
  function BrightnessCdb(lvl: int): (r: seq<byte>)
    ensures |r| == CdbLength && r[0] == OpVendor && r[6] == CmdSetProperty
  {
    [OpVendor, 0, 0, 0, 0, 6, CmdSetProperty] + Le16(PropertyBrightness)
      + Le16(Clamp(lvl)) + [0, 0, 0, 0, 0]
  }

  /** Layout of the brightness block: the property id at bytes 7-8 and the clamped level, high byte 0, at bytes 9-10. */
  lemma BrightnessLayout(lvl: int)
    ensures var r := BrightnessCdb(lvl);
      && |r| == CdbLength
      && r[..7] == [OpVendor, 0, 0, 0, 0, 6, CmdSetProperty]
      && ReadLe16(r, 7) == PropertyBrightness
      && ReadLe16(r, 9) == Clamp(lvl) && r[9] == Clamp(lvl) && r[10] == 0
      && r[11..] == [0, 0, 0, 0, 0]
  {
    var r := BrightnessCdb(lvl);
    assert r[9..11] == Le16(Clamp(lvl));
    assert r[7..9] == Le16(PropertyBrightness);
  }

  /** Two levels give the same block exactly when they clamp to the same level. */
  lemma BrightnessSameClamp(a: int, b: int)
    ensures BrightnessCdb(a) == BrightnessCdb(b) <==> Clamp(a) == Clamp(b)
  {
    if BrightnessCdb(a) == BrightnessCdb(b) {
      BrightnessLayout(a);
      BrightnessLayout(b);
    }
  }

  /** Levels outside [0, 7] send the block of the nearest bound. */
  lemma BrightnessOutOfRange(lvl: int)
    ensures lvl < 0 ==> BrightnessCdb(lvl) == BrightnessCdb(0)
    ensures lvl > MaxBrightness ==> BrightnessCdb(lvl) == BrightnessCdb(MaxBrightness)
  {
  }

  /**
   * The blit block for the half-open rectangle [minX, maxX) x [minY, maxY):
   * the device takes inclusive maxima, so maxX - 1 and maxY - 1 are sent.
   */
  function BlitCdb(minX: int, minY: int, maxX: int, maxY: int): (r: seq<byte>)
    ensures |r| == CdbLength && r[0] == OpVendor && r[6] == CmdBlit
  {
    [OpVendor, 0, 0, 0, 0, 6, CmdBlit] + Le16(minX) + Le16(minY)
      + Le16(maxX - 1) + Le16(maxY - 1) + [0]
  }

  /** Layout of the blit block: the four coordinates, each modulo 2^16, at bytes 7-14. */
  lemma BlitLayout(minX: int, minY: int, maxX: int, maxY: int)
    ensures var r := BlitCdb(minX, minY, maxX, maxY);
      && |r| == CdbLength
      && r[..7] == [OpVendor, 0, 0, 0, 0, 6, CmdBlit]
      && ReadLe16(r, 7) == minX % Two16
      && ReadLe16(r, 9) == minY % Two16
      && ReadLe16(r, 11) == (maxX - 1) % Two16
      && ReadLe16(r, 13) == (maxY - 1) % Two16
      && r[15] == 0
  {
    var r := BlitCdb(minX, minY, maxX, maxY);
    assert r[7..9] == Le16(minX);
    assert r[9..11] == Le16(minY);
    assert r[11..13] == Le16(maxX - 1);
    assert r[13..15] == Le16(maxY - 1);
  }

  /** The four fields packed into a blit block (minimum and inclusive maximum on each axis). */
  datatype Corners = Corners(x0: nat, y0: nat, x1: nat, y1: nat)

  /** The device's reading of a blit block. */
  function BlitCorners(cdb: seq<byte>): Corners
    requires |cdb| == CdbLength
  {
    Corners(ReadLe16(cdb, 7), ReadLe16(cdb, 9), ReadLe16(cdb, 11), ReadLe16(cdb, 13))
  }

  /**
   * A rectangle whose coordinates fit the 16-bit fields reaches the device
   * unchanged: the minima as sent and the half-open maxima as sent plus one.
   * An empty rectangle (max <= min) is encoded too; nothing rejects it.
   */
  lemma BlitRoundTrip(minX: int, minY: int, maxX: int, maxY: int)
    requires 0 <= minX < Two16 && 0 <= minY < Two16
    requires 1 <= maxX <= Two16 && 1 <= maxY <= Two16
    ensures var c := BlitCorners(BlitCdb(minX, minY, maxX, maxY));
      c == Corners(minX, minY, maxX - 1, maxY - 1)
  {
    BlitLayout(minX, minY, maxX, maxY);
  }

  /**
   * The dimensions reply: width from bytes 0-1 and height from bytes 2-3,
   * low byte first. The source ORs the low byte with the high byte shifted
   * left by 8; their bits do not overlap, so the OR is a sum.
   */
  function DecodeDimensions(data: seq<byte>): (r: (int, int))
    requires |data| >= 4
    ensures 0 <= r.0 < Two16 && 0 <= r.1 < Two16
    ensures Le16(r.0) == data[0..2] && Le16(r.1) == data[2..4]
  {
    ReadLe16Encodes(data, 0);
    ReadLe16Encodes(data, 2);
    (ReadLe16(data, 0), ReadLe16(data, 2))
  }

  /** A reply that starts with the two 16-bit fields decodes to them, whatever follows. */
  lemma DimensionsRoundTrip(width: int, height: int, rest: seq<byte>)
    requires 0 <= width < Two16 && 0 <= height < Two16
    ensures DecodeDimensions(Le16(width) + Le16(height) + rest) == (width, height)
  {
    var data := Le16(width) + Le16(height) + rest;
    assert data[0..2] == Le16(width);
    assert data[2..4] == Le16(height);
  }
}

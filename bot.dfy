/**
 * The USB Mass Storage Bulk-Only Transport envelopes that carry the
 * frame's vendor commands: the 31-byte Command Block Wrapper (CBW,
 * section 5.1 of the Bulk-Only Transport specification, Rev 1.0) built by
 * `scsiCmdPrepare`, and the acceptance test applied to the Command Status
 * Wrapper (CSW, section 5.2) by `scsiGetAck`.
 */
module Bot {
  import opened Bytes
  import opened Wrappers

  /** dCBWSignature, "USBC". */
  const CbwSignature: seq<byte> := [0x55, 0x53, 0x42, 0x43]
  /** dCSWSignature, "USBS". */
  const CswSignature: seq<byte> := [0x55, 0x53, 0x42, 0x53]
  /** The constant dCBWTag; it is never compared with the CSW's tag. */
  const Tag: seq<byte> := [0xde, 0xad, 0xbe, 0xef]
  /** bmCBWFlags: data stage from host to device. */
  const FlagsOut: byte := 0x00
  /** bmCBWFlags: data stage from device to host. */
  const FlagsIn: byte := 0x80
  const FrameLength: nat := 31
  /** Size of the CBWCB field that holds the command block. */
  const CdbFieldLength: nat := 16
  /** Size of the buffer the status wrapper is read into. */
  const StatusLength: nat := 13

  /** `copy(make([]byte, 16), cmd)`: cmd cut or zero-padded to 16 bytes. */
  function CdbField(cmd: seq<byte>): (r: seq<byte>)
    ensures |r| == CdbFieldLength
    ensures forall i :: 0 <= i < |cmd| && i < CdbFieldLength ==> r[i] == cmd[i]
    ensures forall i :: |cmd| <= i < CdbFieldLength ==> r[i] == 0
  {
    if |cmd| >= CdbFieldLength then cmd[..CdbFieldLength]
    else cmd + seq(CdbFieldLength - |cmd|, _ => 0)
  }

  /**
   * `scsiCmdPrepare(cmd, blockLen, out)`: the CBW announcing a data stage
   * of blockLen bytes, from host to device when `out`.
   */
  function Frame(cmd: seq<byte>, blockLen: int, out: bool): (r: seq<byte>)
    ensures |r| == FrameLength
    ensures r[0..4] == CbwSignature && r[4..8] == Tag
    ensures ReadLe32(r, 8) == blockLen % Two32
    ensures r[12] == (if out then 0x00 else 0x80)
    ensures r[13] == 0x00
    ensures r[14] == |cmd| % 256
    ensures forall i :: 15 <= i < 15 + |cmd| && i < FrameLength ==> r[i] == cmd[i - 15]
    ensures forall i :: 15 + |cmd| <= i < FrameLength ==> r[i] == 0
  {
    var flags := if out then FlagsOut else FlagsIn;
    var r := CbwSignature + Tag + Le32(blockLen) + [flags, 0x00, Low8(|cmd|)] + CdbField(cmd);
    assert r[8..12] == Le32(blockLen);
    r
  }

  /** The fields a CBW carries. */
  datatype Command = Command(cdb: seq<byte>, dataLength: nat, out: bool)

  /**
   * The inverse of Frame on command blocks of at most 16 bytes: it
   * accepts exactly the frames Frame builds from such blocks (signature,
   * this driver's tag, a known flag value, zero reserved byte, the block
   * with zero padding after it) and gives back their fields.
   */
  function Parse(f: seq<byte>): (r: Option<Command>)
    ensures r.Some? ==> |r.value.cdb| <= CdbFieldLength && r.value.dataLength < Two32
  {
    if |f| == FrameLength && f[0..4] == CbwSignature && f[4..8] == Tag
       && f[12] in {FlagsOut, FlagsIn} && f[13] == 0 && f[14] <= CdbFieldLength
       && (forall i :: 15 + f[14] <= i < FrameLength ==> f[i] == 0)
    then Some(Command(f[15..15 + f[14]], ReadLe32(f, 8), f[12] == FlagsOut))
    else None
  }

  /** A frame built from a command block of at most 16 bytes parses back to its fields. */
  lemma ParseFrame(cmd: seq<byte>, blockLen: int, out: bool)
    requires |cmd| <= CdbFieldLength
    ensures Parse(Frame(cmd, blockLen, out)) == Some(Command(cmd, blockLen % Two32, out))
  {
    var f := Frame(cmd, blockLen, out);
    assert f[15..15 + |cmd|] == cmd;
  }

  /** Every frame Parse accepts is the one Frame builds from the parsed fields. */
  lemma FrameParse(f: seq<byte>)
    requires Parse(f).Some?
    ensures var c := Parse(f).value; Frame(c.cdb, c.dataLength, c.out) == f
  {
    var c := Parse(f).value;
    var n := f[14] as int;
    assert c.cdb == f[15..15 + n];
    var field := CdbField(c.cdb);
    assert field == f[15..31] by {
      forall i | 0 <= i < CdbFieldLength
        ensures field[i] == f[15..31][i]
      {
        if i < n {
          assert field[i] == c.cdb[i] == f[15 + i];
        } else {
          assert f[15 + i] == 0;
        }
      }
    }
    ReadLe32Encodes(f, 8);
    var flags := if c.out then FlagsOut else FlagsIn;
    assert flags == f[12];
    assert [flags, 0x00, Low8(|c.cdb|)] == f[12..15];
    assert f == f[0..4] + f[4..8] + f[8..12] + f[12..15] + f[15..31];
  }

  /** Frames built from command blocks of at most 16 bytes determine every argument modulo the field widths. */
  lemma FrameInjective(c1: seq<byte>, n1: int, o1: bool, c2: seq<byte>, n2: int, o2: bool)
    requires |c1| <= CdbFieldLength && |c2| <= CdbFieldLength
    requires Frame(c1, n1, o1) == Frame(c2, n2, o2)
    ensures c1 == c2 && n1 % Two32 == n2 % Two32 && o1 == o2
  {
    ParseFrame(c1, n1, o1);
    ParseFrame(c2, n2, o2);
  }

  /**
   * `scsiGetAck`'s test of the n bytes it read: at least 4 of them, the
   * first 4 being "USBS". Tag, residue and status are not looked at.
   */
  predicate AckValid(reply: seq<byte>)
  {
    |reply| >= 4 && reply[..4] == CswSignature
  }
}

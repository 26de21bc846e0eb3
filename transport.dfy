/**
 * The transport driver as a function of the endpoints' state: a `Bus` is
 * the log of every bulk transfer issued so far, in order, together with
 * the scripted outcomes of the transfers still to come. A write either is
 * accepted or fails; a read either fails or delivers bytes, of which at
 * most the buffer's capacity arrive. An exhausted script fails every
 * further transfer, as a device that has stopped answering would.
 *
 * The byte count a write reports is discarded by the driver (a short
 * write is indistinguishable from a full one), so a write outcome is a
 * plain flag.
 */
module Transport {
  import opened Bytes
  import opened Wrappers
  import opened Bot
  import opened Cdb

  /** A bulk transfer as issued: bytes written to the OUT endpoint, or a read of up to `capacity` bytes on the IN endpoint. */
  datatype Transfer = Sent(bytes: seq<byte>) | Requested(capacity: nat)

  /** What the IN endpoint answers to the next read. */
  datatype InReply = Reply(bytes: seq<byte>) | ReadError

  datatype Bus = Bus(trace: seq<Transfer>, writesOk: seq<bool>, replies: seq<InReply>)

  /**
   * The distinct failures the driver reports. `Panic` is not an error
   * value: it stands for the run-time index-out-of-range panic of
   * `GetDimensions` on a reply shorter than 4 bytes.
   */
  datatype Error =
    | CommandWriteFailed
    | DataWriteFailed
    | DataReadFailed
    | AckReadFailed
    | InvalidAck
    | Panic

  function Tail<T>(s: seq<T>): seq<T>
  {
    if s == [] then [] else s[1..]
  }

  /** The first `n` elements of s, or all of it when it is shorter. */
  function Prefix<T>(s: seq<T>, n: nat): (r: seq<T>)
    ensures |r| == (if |s| <= n then |s| else n) && r == s[..|r|]
  {
    if |s| <= n then s else s[..n]
  }

  /** `epOut.Write(bytes)`: whether the transfer succeeded, and the bus after it. */
  function Send(b: Bus, bytes: seq<byte>): (r: (bool, Bus))
    ensures r.0 == WritesAccepted(b, 1)
    ensures r.1.trace == b.trace + [Sent(bytes)] && r.1.replies == b.replies
  {
    (|b.writesOk| > 0 && b.writesOk[0],
     Bus(b.trace + [Sent(bytes)], Tail(b.writesOk), b.replies))
  }

  /** `epIn.Read(buf)` with `len(buf) == capacity`: the bytes read (None on failure), and the bus after it. */
  function Receive(b: Bus, capacity: nat): (r: (Option<seq<byte>>, Bus))
    ensures r.0.Some? <==> |b.replies| > 0 && b.replies[0].Reply?
    ensures r.0.Some? ==> && |r.0.value| == (if |b.replies[0].bytes| <= capacity then |b.replies[0].bytes| else capacity)
                          && r.0.value == b.replies[0].bytes[..|r.0.value|]
    ensures r.1.trace == b.trace + [Requested(capacity)] && r.1.writesOk == b.writesOk
  {
    (if |b.replies| > 0 && b.replies[0].Reply? then Some(Prefix(b.replies[0].bytes, capacity)) else None,
     Bus(b.trace + [Requested(capacity)], b.writesOk, Tail(b.replies)))
  }

  /** The transfers issued after `b`, given the later bus `b'`. */
  function Issued(b: Bus, b': Bus): seq<Transfer>
    requires |b.trace| <= |b'.trace|
  {
    b'.trace[|b.trace|..]
  }

  /** The next k scripted writes all succeed. */
  predicate WritesAccepted(b: Bus, k: nat)
  {
    k <= |b.writesOk| && forall i :: 0 <= i < k ==> b.writesOk[i]
  }

  /** The next read delivers a status wrapper that `scsiGetAck` accepts. */
  predicate NextAckValid(replies: seq<InReply>)
  {
    |replies| > 0 && replies[0].Reply? && AckValid(replies[0].bytes)
  }

  /** `scsiGetAck`: one read of up to 13 bytes. */
  function GetAck(b: Bus): (r: (Option<Error>, Bus))
    ensures r.0 in {None, Some(AckReadFailed), Some(InvalidAck)}
    ensures r.1.writesOk == b.writesOk
  {
    var (reply, b1) := Receive(b, StatusLength);
    (if reply.None? then Some(AckReadFailed)
     else if !AckValid(reply.value) then Some(InvalidAck)
     else None,
     b1)
  }

  /** `scsiWrite(cmd, data)`, where None is a nil data slice. */
  function ScsiWrite(b: Bus, cmd: seq<byte>, data: Option<seq<byte>>): (r: (Option<Error>, Bus))
    ensures r.0 in {None, Some(CommandWriteFailed), Some(DataWriteFailed), Some(AckReadFailed), Some(InvalidAck)}
    ensures data.None? ==> r.0 != Some(DataWriteFailed)
  {
    var dataLen := if data.Some? then |data.value| else 0;
    var (ok, b1) := Send(b, Frame(cmd, dataLen, true));
    if !ok then (Some(CommandWriteFailed), b1)
    else if data.Some? then
      var (ok2, b2) := Send(b1, data.value);
      if !ok2 then (Some(DataWriteFailed), b2) else GetAck(b2)
    else GetAck(b1)
  }

  /** `scsiRead(cmd, blockLen)`: the data returned (None is a nil slice) and the error. */
  function ScsiRead(b: Bus, cmd: seq<byte>, blockLen: nat): (r: (Option<seq<byte>>, Option<Error>, Bus))
    ensures r.1 in {None, Some(CommandWriteFailed), Some(DataReadFailed), Some(AckReadFailed), Some(InvalidAck)}
    ensures r.0.Some? ==> |r.0.value| <= blockLen
  {
    var (ok, b1) := Send(b, Frame(cmd, blockLen, false));
    if !ok then (None, Some(CommandWriteFailed), b1)
    else
      var (data, b2) := Receive(b1, blockLen);
      if data.None? then (None, Some(DataReadFailed), b2)
      else
        var (err, b3) := GetAck(b2);
        (data, err, b3)
  }

  /** `GetDimensions`: width, height and error. */
  function GetDimensions(b: Bus): (r: (int, int, Option<Error>, Bus))
    ensures 0 <= r.0 < Two16 && 0 <= r.1 < Two16
    ensures r.2.Some? ==> r.0 == 0 && r.1 == 0
  {
    var (data, err, b1) := ScsiRead(b, DimensionsCdb(), DimensionsReplyLength);
    if err.Some? then (0, 0, err, b1)
    else if |data.value| < 4 then (0, 0, Some(Panic), b1)
    else
      var (w, h) := DecodeDimensions(data.value);
      (w, h, None, b1)
  }

  /** `Brightness(lvl)`: a write command without data stage. */
  function Brightness(b: Bus, lvl: int): (r: (Option<Error>, Bus))
    ensures r.0 != Some(DataWriteFailed)
  {
    ScsiWrite(b, BrightnessCdb(lvl), None)
  }

  /** The geometry and pixel bytes of an image; `pixels` is what `PixRect()` returns. */
  datatype Image = Image(minX: int, minY: int, maxX: int, maxY: int, pixels: seq<byte>)

  /** `Blit(img)`: a write command whose data stage is the pixel buffer. */
  function Blit(b: Bus, img: Image): (r: (Option<Error>, Bus))
    ensures |r.1.trace| > |b.trace|
    ensures r.1.trace[|b.trace|] == Sent(Frame(BlitCdb(img.minX, img.minY, img.maxX, img.maxY), |img.pixels|, true))
  {
    ScsiWrite(b, BlitCdb(img.minX, img.minY, img.maxX, img.maxY), Some(img.pixels))
  }

  /** The transfers `scsiWrite` issues when nothing fails: the frame, the data if any, the status read. */
  function WritePlan(cmd: seq<byte>, data: Option<seq<byte>>): (p: seq<Transfer>)
    ensures |p| == if data.Some? then 3 else 2
  {
    var dataLen := if data.Some? then |data.value| else 0;
    [Sent(Frame(cmd, dataLen, true))] + (if data.Some? then [Sent(data.value)] else [])
      + [Requested(StatusLength)]
  }

  /** The transfers `scsiRead` issues when nothing fails: the frame, the data read, the status read. */
  function ReadPlan(cmd: seq<byte>, blockLen: nat): seq<Transfer>
  {
    [Sent(Frame(cmd, blockLen, false)), Requested(blockLen), Requested(StatusLength)]
  }

  /**
   * `scsiGetAck` issues exactly one read of 13 bytes, consumes one reply,
   * and succeeds exactly when that reply arrived and begins with "USBS";
   * a reply that arrived but fails the test is an invalid ACK, whether it
   * is short or carries another signature.
   */
  lemma GetAckOutcome(b: Bus)
    ensures var (err, b') := GetAck(b);
      && b'.trace == b.trace + [Requested(StatusLength)]
      && b'.writesOk == b.writesOk && b'.replies == Tail(b.replies)
      && (err == None <==> NextAckValid(b.replies))
      && (err == Some(AckReadFailed) <==> !(|b.replies| > 0 && b.replies[0].Reply?))
      && (err == Some(InvalidAck) <==> |b.replies| > 0 && b.replies[0].Reply? && !AckValid(b.replies[0].bytes))
  {
    if |b.replies| > 0 && b.replies[0].Reply? {
      var s := b.replies[0].bytes;
      var t := Prefix(s, StatusLength);
      assert |s| >= 4 ==> |t| >= 4 && t[..4] == s[..4];
    }
  }

  /** Bytes 4 to 12 of the status wrapper (tag, residue, status) never influence `scsiGetAck`. */
  lemma GetAckIgnoresStatusFields(b: Bus, s: seq<byte>, t: seq<byte>)
    requires |s| >= 4 && |t| >= 4 && s[..4] == t[..4]
    ensures GetAck(b.(replies := [Reply(s)] + b.replies)).0
         == GetAck(b.(replies := [Reply(t)] + b.replies)).0
  {
    GetAckOutcome(b.(replies := [Reply(s)] + b.replies));
    GetAckOutcome(b.(replies := [Reply(t)] + b.replies));
  }

  /** A short status reply is reported as an invalid ACK, like a bad signature, never as a read failure. */
  lemma GetAckShortReply(b: Bus, s: seq<byte>)
    requires |s| < 4
    ensures GetAck(b.(replies := [Reply(s)] + b.replies)).0 == Some(InvalidAck)
  {
    GetAckOutcome(b.(replies := [Reply(s)] + b.replies));
  }

  /**
   * `scsiWrite` issues a prefix of its plan, at least the frame: it stops
   * at the first failed write, issues the status read exactly when every
   * write was accepted, and only then touches the IN endpoint.
   */
  lemma ScsiWriteTransfers(b: Bus, cmd: seq<byte>, data: Option<seq<byte>>)
    ensures var (err, b') := ScsiWrite(b, cmd, data);
      var plan := WritePlan(cmd, data);
      var writes := |plan| - 1;
      && |b.trace| < |b'.trace| <= |b.trace| + |plan|
      && b'.trace == b.trace + plan[..|b'.trace| - |b.trace|]
      && (|b'.trace| == |b.trace| + |plan| <==> WritesAccepted(b, writes))
      && b'.replies == (if WritesAccepted(b, writes) then Tail(b.replies) else b.replies)
      && (err == Some(CommandWriteFailed) <==> !WritesAccepted(b, 1))
      && (err == Some(DataWriteFailed) <==> data.Some? && WritesAccepted(b, 1) && !WritesAccepted(b, 2))
      && (err == None <==> WritesAccepted(b, writes) && NextAckValid(b.replies))
      && (err == Some(AckReadFailed) <==> WritesAccepted(b, writes) && !(|b.replies| > 0 && b.replies[0].Reply?))
      && (err == Some(InvalidAck) <==> WritesAccepted(b, writes) && |b.replies| > 0 && b.replies[0].Reply?
                                         && !AckValid(b.replies[0].bytes))
      && (!WritesAccepted(b, 1) ==> b'.trace == b.trace + plan[..1])
      && (data.Some? && WritesAccepted(b, 1) && !WritesAccepted(b, 2) ==> b'.trace == b.trace + plan[..2])
  {
    var dataLen := if data.Some? then |data.value| else 0;
    var plan := WritePlan(cmd, data);
    var (ok, b1) := Send(b, Frame(cmd, dataLen, true));
    assert ok <==> WritesAccepted(b, 1);
    if ok && data.Some? {
      var (ok2, b2) := Send(b1, data.value);
      assert ok2 <==> b1.writesOk != [] && b1.writesOk[0];
      assert WritesAccepted(b, 2) <==> ok && ok2 by {
        if |b.writesOk| >= 2 {
          assert b1.writesOk[0] == b.writesOk[1];
        }
      }
      if ok2 {
        GetAckOutcome(b2);
        assert b2.trace == b.trace + plan[..2];
      } else {
        assert b2.trace == b.trace + plan[..2];
      }
    } else if ok {
      GetAckOutcome(b1);
      assert b1.trace == b.trace + plan[..1];
    } else {
      assert b1.trace == b.trace + plan[..1];
      assert !WritesAccepted(b, |plan| - 1);
    }
  }

  /**
   * `scsiRead` issues a prefix of its plan, at least the frame; the data
   * read asks for blockLen bytes and what it delivers, at most blockLen
   * bytes, is returned exactly. A failed data read returns nil data and
   * skips the status read; a failed status read or an invalid ACK still
   * returns the data together with the error.
   */
  lemma ScsiReadTransfers(b: Bus, cmd: seq<byte>, blockLen: nat)
    ensures var (data, err, b') := ScsiRead(b, cmd, blockLen);
      var plan := ReadPlan(cmd, blockLen);
      var delivered := |b.replies| > 0 && b.replies[0].Reply?;
      && |b.trace| < |b'.trace| <= |b.trace| + 3
      && b'.trace == b.trace + plan[..|b'.trace| - |b.trace|]
      && (err == Some(CommandWriteFailed) <==> !WritesAccepted(b, 1))
      && (err == Some(DataReadFailed) <==> WritesAccepted(b, 1) && !delivered)
      && (data.None? <==> err == Some(CommandWriteFailed) || err == Some(DataReadFailed))
      && (data.Some? ==> |b'.trace| == |b.trace| + 3
                         && data.value == Prefix(b.replies[0].bytes, blockLen)
                         && |data.value| <= blockLen)
      && (err == None <==> data.Some? && NextAckValid(b.replies[1..]))
      && (err == Some(AckReadFailed) <==> data.Some? && !(|b.replies| > 1 && b.replies[1].Reply?))
      && (err == Some(InvalidAck) <==> data.Some? && |b.replies| > 1 && b.replies[1].Reply?
                                         && !AckValid(b.replies[1].bytes))
      && (!WritesAccepted(b, 1) ==> b'.trace == b.trace + plan[..1] && b'.replies == b.replies)
      && (err == Some(DataReadFailed) ==> b'.trace == b.trace + plan[..2] && b'.replies == Tail(b.replies))
  {
    var plan := ReadPlan(cmd, blockLen);
    var (ok, b1) := Send(b, Frame(cmd, blockLen, false));
    if ok {
      var (reply, b2) := Receive(b1, blockLen);
      assert b2.trace == b.trace + plan[..2];
      if reply.Some? {
        GetAckOutcome(b2);
        assert b2.replies == b.replies[1..];
        assert GetAck(b2).1.trace == b.trace + plan[..3];
      }
    } else {
      assert b1.trace == b.trace + plan[..1];
    }
  }

  /**
   * `GetDimensions` sends the dimensions query asking for 5 bytes and
   * succeeds exactly when the command write, the data read and the ACK
   * all succeed and at least 4 bytes came back; it then reports the two
   * little-endian 16-bit values at the head of the reply, and on every
   * failure reports zero dimensions.
   */
  lemma GetDimensionsOutcome(b: Bus)
    ensures var (w, h, err, b') := GetDimensions(b);
      var ok := WritesAccepted(b, 1) && |b.replies| > 0 && b.replies[0].Reply?
                && NextAckValid(b.replies[1..]);
      && b'.trace[..|b.trace| + 1] == b.trace + [Sent(Frame(DimensionsCdb(), DimensionsReplyLength, false))]
      && (WritesAccepted(b, 1) ==> |b'.trace| > |b.trace| + 1
                                   && b'.trace[|b.trace| + 1] == Requested(DimensionsReplyLength))
      && (err.Some? ==> w == 0 && h == 0)
      && (err.Some? && err != Some(Panic) ==> err == ScsiRead(b, DimensionsCdb(), DimensionsReplyLength).1)
      && (err == None <==> ok && |b.replies[0].bytes| >= 4)
      && (err == Some(Panic) <==> ok && |b.replies[0].bytes| < 4)
      && (err == None ==> var s := b.replies[0].bytes;
                          w == s[0] as int + 0x100 * (s[1] as int) && h == s[2] as int + 0x100 * (s[3] as int))
  {
    ScsiReadTransfers(b, DimensionsCdb(), DimensionsReplyLength);
    var (data, rerr, b1) := ScsiRead(b, DimensionsCdb(), DimensionsReplyLength);
    assert b1.trace[..|b.trace| + 1] == b.trace + ReadPlan(DimensionsCdb(), DimensionsReplyLength)[..1];
    if rerr.None? {
      var s := b.replies[0].bytes;
      assert |s| >= 4 ==> data.value[..4] == s[..4];
    }
  }

  /** The whole behaviour of `Brightness`, down to every transfer and error, depends on its level only through the clamped level. */
  lemma BrightnessDependsOnClamp(b: Bus, l1: int, l2: int)
    ensures Brightness(b, l1).1.trace == Brightness(b, l2).1.trace <==> Clamp(l1) == Clamp(l2)
    ensures Clamp(l1) == Clamp(l2) ==> Brightness(b, l1) == Brightness(b, l2)
  {
    BrightnessSameClamp(l1, l2);
    BrightnessLayout(l1);
    BrightnessLayout(l2);
    var f1 := Frame(BrightnessCdb(l1), 0, true);
    var f2 := Frame(BrightnessCdb(l2), 0, true);
    ScsiWriteTransfers(b, BrightnessCdb(l1), None);
    ScsiWriteTransfers(b, BrightnessCdb(l2), None);
    var t1, t2 := Brightness(b, l1).1.trace, Brightness(b, l2).1.trace;
    assert t1[|b.trace|] == Sent(f1) && t2[|b.trace|] == Sent(f2);
    if t1 == t2 {
      FrameInjective(BrightnessCdb(l1), 0, true, BrightnessCdb(l2), 0, true);
    }
  }

  /**
   * `Brightness` writes one frame announcing no data stage, carrying the
   * clamped level at frame bytes 24-25 (command block bytes 9-10), and
   * writes no data: at most the frame and the status read are issued.
   */
  lemma BrightnessTransfers(b: Bus, lvl: int)
    ensures var (err, b') := Brightness(b, lvl);
      var f := Frame(BrightnessCdb(lvl), 0, true);
      && (b'.trace == b.trace + [Sent(f)] || b'.trace == b.trace + [Sent(f), Requested(StatusLength)])
      && ReadLe32(f, 8) == 0 && f[12] == FlagsOut
      && f[24] == Clamp(lvl) && f[25] == 0
  {
    BrightnessLayout(lvl);
    ScsiWriteTransfers(b, BrightnessCdb(lvl), None);
    var r := BrightnessCdb(lvl);
    var f := Frame(r, 0, true);
    assert f[24] == r[9] && f[25] == r[10];
  }

  /**
   * `Blit` writes a frame announcing a host-to-device data stage of
   * |pixels| bytes (modulo 2^32) whose command block is the blit block,
   * then the pixels, then reads the status, stopping at the first failed
   * write. No rectangle, however empty, is refused before the frame goes
   * out.
   */
  lemma BlitTransfers(b: Bus, img: Image)
    ensures var (err, b') := Blit(b, img);
      var cdb := BlitCdb(img.minX, img.minY, img.maxX, img.maxY);
      var f := Frame(cdb, |img.pixels|, true);
      && Issued(b, b') in {[Sent(f)], [Sent(f), Sent(img.pixels)], [Sent(f), Sent(img.pixels), Requested(StatusLength)]}
      && ReadLe32(f, 8) == |img.pixels| % Two32 && f[12] == FlagsOut && f[14] == CdbLength
      && f[15..31] == cdb
  {
    var cdb := BlitCdb(img.minX, img.minY, img.maxX, img.maxY);
    BlitLayout(img.minX, img.minY, img.maxX, img.maxY);
    ScsiWriteTransfers(b, cdb, Some(img.pixels));
    var b' := Blit(b, img).1;
    var plan := WritePlan(cdb, Some(img.pixels));
    var f := Frame(cdb, |img.pixels|, true);
    var k := |b'.trace| - |b.trace|;
    assert Issued(b, b') == plan[..k];
    assert plan == [Sent(f), Sent(img.pixels), Requested(StatusLength)];
    assert k == 1 || k == 2 || k == 3;
    assert plan[..1] == [Sent(f)] && plan[..2] == [Sent(f), Sent(img.pixels)] && plan[..3] == plan;
    assert f[15..31] == cdb by {
      forall i | 0 <= i < CdbLength
        ensures f[15..31][i] == cdb[i]
      {
        assert f[15 + i] == cdb[i];
      }
    }
  }

  /**
   * A device that answers the dimensions query with 0x40 0x01 0xf0 0x00
   * 0x00 and accepts both commands: `GetDimensions` reports 320 x 240 and
   * a following `Brightness(9)` succeeds and sends the level bytes 7, 0.
   */
  lemma DimensionsThenBrightness()
    ensures var ack := Reply(CswSignature + [0, 0, 0, 0, 0, 0, 0, 0, 0]);
      var b := Bus([], [true, true], [Reply([0x40, 0x01, 0xf0, 0x00, 0x00]), ack, ack]);
      var (w, h, err, b1) := GetDimensions(b);
      var (err2, b2) := Brightness(b1, 9);
      && (w, h, err) == (320, 240, None)
      && err2 == None
      && |b2.trace| == 5 && b2.trace[3].Sent? && b2.trace[3].bytes[24..26] == [7, 0]
  {
    var ack := Reply(CswSignature + [0, 0, 0, 0, 0, 0, 0, 0, 0]);
    var b := Bus([], [true, true], [Reply([0x40, 0x01, 0xf0, 0x00, 0x00]), ack, ack]);
    GetDimensionsOutcome(b);
    var b1 := GetDimensions(b).3;
    ScsiReadTransfers(b, DimensionsCdb(), DimensionsReplyLength);
    assert b1.writesOk == [true] && b1.replies == [ack];
    BrightnessTransfers(b1, 9);
    ScsiWriteTransfers(b1, BrightnessCdb(9), None);
  }
}

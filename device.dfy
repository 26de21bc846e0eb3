/**
 * The `DPF` handle with its two bulk endpoints replaced by a scripted
 * pair: the transfers the driver issues are appended to `trace`, the
 * outcome of each write is taken from `writesOk` and the answer to each
 * read from `replies`. Each method performs the driver's steps in the
 * source's order, filling freshly allocated read buffers in place, and is
 * proved to leave the handle in the state, and to return the results,
 * that the matching function of module Transport gives; the properties
 * of those functions are proved there.
 */
module Device {
  import opened Bytes
  import opened Wrappers
  import opened Bot
  import opened Cdb
  import Transport

  class Dpf {
    /** Every transfer issued on either endpoint, oldest first. */
    var trace: seq<Transport.Transfer>
    /** Outcomes of the OUT writes still to come (true: accepted). */
    var writesOk: seq<bool>
    /** Answers of the IN reads still to come. */
    var replies: seq<Transport.InReply>

    /** The endpoint state as a value. */
    function State(): Transport.Bus
      reads this
    {
      Transport.Bus(trace, writesOk, replies)
    }

    /** An open handle on a device that will answer as scripted. */
    constructor (writesOk: seq<bool>, replies: seq<Transport.InReply>)
      ensures State() == Transport.Bus([], writesOk, replies)
    {
      this.trace := [];
      this.writesOk := writesOk;
      this.replies := replies;
    }

    /** `epOut.Write(bytes)`; the byte count is not reported because no caller uses it. */
    method WriteOut(bytes: seq<byte>) returns (ok: bool)
      modifies this
      ensures (ok, State()) == Transport.Send(old(State()), bytes)
    {
      ok := |writesOk| > 0 && writesOk[0];
      trace := trace + [Transport.Sent(bytes)];
      writesOk := Transport.Tail(writesOk);
    }

    /** `epIn.Read(buf)`: fills buf[..n] with what arrived and leaves the rest of buf as it was. */
    method ReadIn(buf: array<byte>) returns (n: nat, ok: bool)
      modifies this, buf
      ensures var (reply, b') := Transport.Receive(old(State()), buf.Length);
        && State() == b' && ok == reply.Some?
        && n <= buf.Length
        && (ok ==> n == |reply.value| && buf[..n] == reply.value)
        && (!ok ==> n == 0)
      ensures buf[n..] == old(buf[n..])
    {
      ok := |replies| > 0 && replies[0].Reply?;
      n := 0;
      if ok {
        var arrived := Transport.Prefix(replies[0].bytes, buf.Length);
        n := |arrived|;
        forall i | 0 <= i < n {
          buf[i] := arrived[i];
        }
      }
      trace := trace + [Transport.Requested(buf.Length)];
      replies := Transport.Tail(replies);
    }

    /** `scsiGetAck`: reads the 13-byte status wrapper and checks its signature only. */
    method GetAck() returns (err: Option<Transport.Error>)
      modifies this
      ensures (err, State()) == Transport.GetAck(old(State()))
    {
      var buf := new byte[StatusLength];
      var n, ok := ReadIn(buf);
      if !ok {
        return Some(Transport.AckReadFailed);
      }
      if n < 4 || buf[..4] != CswSignature {
        return Some(Transport.InvalidAck);
      }
      assert buf[..4] == buf[..n][..4];
      return None;
    }

    /** `scsiWrite(cmd, data)`: frame, then the data unless it is nil, then the status, stopping at the first failure. */
    method ScsiWrite(cmd: seq<byte>, data: Option<seq<byte>>) returns (err: Option<Transport.Error>)
      modifies this
      ensures (err, State()) == Transport.ScsiWrite(old(State()), cmd, data)
    {
      var dataLen := if data.Some? then |data.value| else 0;
      var header := Frame(cmd, dataLen, true);
      var ok := WriteOut(header);
      if !ok {
        return Some(Transport.CommandWriteFailed);
      }
      if data.Some? {
        ok := WriteOut(data.value);
        if !ok {
          return Some(Transport.DataWriteFailed);
        }
      }
      err := GetAck();
    }

    /** `scsiRead(cmd, blockLen)`: frame, one read into a fresh blockLen-byte buffer, then the status. */
    method ScsiRead(cmd: seq<byte>, blockLen: nat) returns (data: Option<seq<byte>>, err: Option<Transport.Error>)
      modifies this
      ensures (data, err, State()) == Transport.ScsiRead(old(State()), cmd, blockLen)
    {
      var header := Frame(cmd, blockLen, false);
      var ok := WriteOut(header);
      if !ok {
        return None, Some(Transport.CommandWriteFailed);
      }
      var buf := new byte[blockLen];
      var n, rok := ReadIn(buf);
      if !rok {
        return None, Some(Transport.DataReadFailed);
      }
      data := Some(buf[..n]);
      err := GetAck();
    }

    /** `GetDimensions`: the query, then the two 16-bit values of the reply. */
    method GetDimensions() returns (width: int, height: int, err: Option<Transport.Error>)
      modifies this
      ensures (width, height, err, State()) == Transport.GetDimensions(old(State()))
    {
      var data;
      data, err := ScsiRead(DimensionsCdb(), DimensionsReplyLength);
      if err.Some? {
        return 0, 0, err;
      }
      if |data.value| < 4 {
        // data[3] is out of range: Go panics here
        return 0, 0, Some(Transport.Panic);
      }
      var s := data.value;
      width := s[0] as int + 0x100 * (s[1] as int);
      height := s[2] as int + 0x100 * (s[3] as int);
    }

    /** `Brightness(lvl)`: the brightness block for the clamped level, with no data stage. */
    method Brightness(lvl: int) returns (err: Option<Transport.Error>)
      modifies this
      ensures (err, State()) == Transport.Brightness(old(State()), lvl)
    {
      err := ScsiWrite(BrightnessCdb(lvl), None);
    }

    /** `Blit(img)`: the blit block for the image's rectangle, then its pixel buffer. */
    method Blit(img: Transport.Image) returns (err: Option<Transport.Error>)
      modifies this
      ensures (err, State()) == Transport.Blit(old(State()), img)
    {
      err := ScsiWrite(BlitCdb(img.minX, img.minY, img.maxX, img.maxY), Some(img.pixels));
    }
  }
}

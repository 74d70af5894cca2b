/** Compression envelopes and length-prefixed frames on a connection. */
module Frames {
  import opened ByteReaders
  import opened Prelude

  const COMPRESS_THRESHOLD: nat := 256
  const MAX_FRAME_LEN: nat := 64 * 1024 * 1024
  const NONE: Byte := 0
  const LZ4: Byte := 1
  const BROTLI: Byte := 2

  /** The block compressor and its inverse, given the codec and the original length. */
  datatype Compressor = Compressor(
    compress: seq<Byte> -> seq<Byte>,
    decompress: (Byte, seq<Byte>, nat) -> Option<seq<Byte>>)

  /** Compression pays: the payload is large enough and shrinks by more than the envelope. */
  predicate Shrinks(z: Compressor, payload: seq<Byte>) {
    |payload| >= COMPRESS_THRESHOLD && |z.compress(payload)| + 5 < |payload|
  }

  function FrameEncode(z: Compressor, payload: seq<Byte>): seq<Byte> {
    if Shrinks(z, payload) then [LZ4] + Le(4, |payload|) + z.compress(payload) else [NONE] + payload
  }

  function FrameDecode(z: Compressor, framed: seq<Byte>): Option<seq<Byte>> {
    if framed == [] then None
    else if framed[0] == NONE then Some(framed[1..])
    else if framed[0] == LZ4 || framed[0] == BROTLI then
      if |framed| < 5 then None else z.decompress(framed[0], framed[5..], FromLe(framed[1..5]))
    else None
  }

  /** Decompressing what was compressed, with its length, gives it back. */
  predicate Inverts(z: Compressor, payload: seq<Byte>) {
    z.decompress(LZ4, z.compress(payload), |payload|) == Some(payload)
  }

  /** The envelope loses nothing. */
  lemma FrameRoundTrip(z: Compressor, payload: seq<Byte>)
    requires Inverts(z, payload) && |payload| < Pow256(4)
    ensures FrameDecode(z, FrameEncode(z, payload)) == Some(payload)
  {
    var framed := FrameEncode(z, payload);
    if Shrinks(z, payload) {
      LeRoundTrip(4, |payload|);
      assert framed[1..5] == Le(4, |payload|) && framed[5..] == z.compress(payload);
    } else {
      assert framed[1..] == payload;
    }
  }

  /** The envelope costs one byte, unless a payload of at least 256 bytes compresses by more than five, which then
      is all that is sent. */
  lemma EnvelopeSize(z: Compressor, payload: seq<Byte>)
    ensures |FrameEncode(z, payload)| <= |payload| + 1
    ensures |payload| >= 256 && |z.compress(payload)| + 5 < |payload| ==>
            |FrameEncode(z, payload)| == |z.compress(payload)| + 5
    ensures |payload| < 256 ==> FrameEncode(z, payload) == [0] + payload
  {
  }

  /** One connection: its reused buffers, and the bytes still to be sent on or read from the stream. */
  class Conn {
    const z: Compressor
    var wbuf: seq<Byte>
    var rbuf: seq<Byte>
    var outgoing: seq<Byte>
    var incoming: seq<Byte>

    constructor (z: Compressor, incoming: seq<Byte>)
      ensures this.z == z && this.incoming == incoming && outgoing == []
    {
      this.z, wbuf, rbuf, outgoing, this.incoming := z, [], [], [], incoming;
    }

    /** The payload behind room for the header, compressed in place when that pays. */
    method Pack(payload: seq<Byte>) returns (codec: Byte)
      modifies this`wbuf
      ensures |wbuf| == 4 + |FrameEncode(z, payload)|
      ensures wbuf[5..] == FrameEncode(z, payload)[1..] && codec == FrameEncode(z, payload)[0]
    {
      wbuf := [0, 0, 0, 0, 0];
      wbuf := wbuf + payload;
      assert wbuf[5..] == payload;
      var payloadLen := |wbuf| - 5;
      codec := NONE;
      if payloadLen >= COMPRESS_THRESHOLD {
        var comp := z.compress(wbuf[5..]);
        if |comp| + 5 < payloadLen {
          wbuf := wbuf[..5];
          wbuf := wbuf + Le(4, payloadLen);
          wbuf := wbuf + comp;
          codec := LZ4;
        }
      }
    }

    /** `conn_send`: the frame built in place is the big-endian length and then the envelope of the payload;
        an oversized frame is refused and nothing is written. */
    method Send(payload: seq<Byte>) returns (ok: bool)
      modifies this`wbuf, this`outgoing
      ensures ok <==> |FrameEncode(z, payload)| <= 67_108_864
      ensures ok ==> wbuf == Be(4, |FrameEncode(z, payload)|) + FrameEncode(z, payload)
      ensures ok ==> outgoing == old(outgoing) + wbuf
      ensures !ok ==> outgoing == old(outgoing)
    {
      var codec := Pack(payload);
      if |wbuf| - 4 > MAX_FRAME_LEN { return false; }
      ghost var room := wbuf;
      wbuf := Be(4, |wbuf| - 4) + wbuf[4..];
      wbuf := wbuf[4 := codec];
      Patched(room, FrameEncode(z, payload), codec);
      outgoing := outgoing + wbuf;
      return true;
    }

    /** `conn_recv`: one frame off the stream. The outer result is whether the stream is still usable. */
    method Recv() returns (usable: bool, payload: Option<seq<Byte>>)
      modifies this`rbuf, this`incoming
      ensures usable <==> |old(incoming)| >= 4 && FromBe(old(incoming)[..4]) <= 67_108_864 &&
                          |old(incoming)| >= 4 + FromBe(old(incoming)[..4])
      ensures usable ==> var n := FromBe(old(incoming)[..4]);
                         incoming == old(incoming)[4 + n..] && payload == FrameDecode(z, old(incoming)[4..4 + n])
    {
      payload := None;
      if |incoming| < 4 { return false, None; }
      var n := FromBe(incoming[..4]);
      incoming := incoming[4..];
      if n > MAX_FRAME_LEN || |incoming| < n { return false, None; }
      rbuf := incoming[..n];
      incoming := incoming[n..];
      assert rbuf == old(incoming)[4..4 + n];
      usable := true;
      if rbuf == [] { return; }
      var tag, rest := rbuf[0], rbuf[1..];
      if tag == NONE {
        payload := Some(rest);
      } else if tag == LZ4 || tag == BROTLI {
        if |rest| >= 4 {
          assert rest[..4] == rbuf[1..5] && rest[4..] == rbuf[5..];
          payload := z.decompress(tag, rest[4..], FromLe(rest[..4]));
        }
      }
    }
  }

  lemma Patched(room: seq<Byte>, frame: seq<Byte>, codec: Byte)
    requires frame != [] && |room| == 4 + |frame| && room[5..] == frame[1..] && codec == frame[0]
    ensures (Be(4, |frame|) + room[4..])[4 := codec] == Be(4, |frame|) + frame
  {
    var tail := room[4..][0 := codec];
    assert tail == [codec] + room[5..] && frame == [codec] + frame[1..];
    assert (Be(4, |frame|) + room[4..])[4 := codec] == Be(4, |frame|) + tail;
  }

  lemma FramePrefix(frame: seq<Byte>, rest: seq<Byte>)
    requires |frame| < Pow256(4)
    ensures var s := (Be(4, |frame|) + frame) + rest;
            |s| >= 4 + |frame| && FromBe(s[..4]) == |frame| && s[4..4 + |frame|] == frame && s[4 + |frame|..] == rest
  {
    var s := (Be(4, |frame|) + frame) + rest;
    assert s[..4] == Be(4, |frame|);
    BeRoundTrip(4, |frame|);
  }

  /** What one side sends, the other receives, and the stream is left at the next frame. */
  method SendThenRecv(a: Conn, b: Conn, payload: seq<Byte>, rest: seq<Byte>)
    returns (sent: bool, got: Option<seq<Byte>>)
    requires a != b && a.z == b.z && Inverts(a.z, payload) && a.outgoing == [] && |payload| < Pow256(4)
    modifies a, b
    ensures sent ==> got == Some(payload) && b.incoming == rest
    ensures |payload| < MAX_FRAME_LEN ==> sent
  {
    sent := a.Send(payload);
    got := None;
    if sent {
      var frame := FrameEncode(a.z, payload);
      assert [] + (Be(4, |frame|) + frame) == Be(4, |frame|) + frame;
      b.incoming := a.outgoing + rest;
      SmallFits(a.z, payload);
      FramePrefix(frame, rest);
      var usable;
      usable, got := b.Recv();
      FrameRoundTrip(a.z, payload);
    }
  }

  lemma SmallFits(z: Compressor, payload: seq<Byte>)
    ensures MAX_FRAME_LEN < Pow256(4)
    ensures |payload| < MAX_FRAME_LEN ==> |FrameEncode(z, payload)| <= MAX_FRAME_LEN
  {
    assert Pow256(4) == 0x1_0000_0000;
  }
}

/** A request from one node to another: encoded, framed, sent, received and decoded. */
module Internode {
  import opened ByteReaders
  import opened ExprCodec
  import opened Prelude
  import opened Requests
  import F = Frames

  /** The peer decodes the request that was sent and is left at the next frame; a request with a filter that cannot be
      pushed is refused there. Everything shorter than a frame may be is sent. */
  method Deliver<V>(a: F.Conn, b: F.Conn, c: Values<V>, r: Request<V>, rest: seq<Byte>)
    returns (sent: bool, got: Option<Request<V>>)
    requires a != b && a.z == b.z && a.outgoing == [] && FieldsFit(c, Schema(r.op), r.fields)
    requires F.Inverts(a.z, Encode(c, r)) && |Encode(c, r)| < Pow256(4)
    modifies a, b
    ensures sent ==> b.incoming == rest && got == if FieldsPushable(r.fields) then Some(r) else None
    ensures |Encode(c, r)| < F.MAX_FRAME_LEN ==> sent
  {
    var payload;
    sent, payload := F.SendThenRecv(a, b, Encode(c, r), rest);
    got := None;
    if sent {
      RequestRoundTrip(c, r, []);
      assert Encode(c, r) + [] == Encode(c, r);
      match Decode(c, payload.value)
      case Bad =>
      case Got(q, _) => got := Some(q);
    }
  }
}

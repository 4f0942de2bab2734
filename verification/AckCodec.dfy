/** The ACK framing of datagram2 payloads (hybrid2/sender.go, hybrid2/receiver.go). */
module AckCodec {
  import opened Base

  const ACK_REQUEST: Byte := 0xAC
  const ACK_RESPONSE: Byte := 0xAD

  datatype Decoded =
    | Request(seqNum: U64, data: Bytes)
    | Response(ackedSeqNum: U64)
    | Plain(data: Bytes)

  function EncodeRequest(seqNum: U64, data: Bytes): Bytes {
    [ACK_REQUEST] + PutBigEndian(8, seqNum) + data
  }

  function EncodeResponse(seqNum: U64): Bytes {
    [ACK_RESPONSE] + PutBigEndian(8, seqNum)
  }

  function SeqNumOf(payload: Bytes): U64
    requires |payload| >= 9
  {
    PutGet(payload[1..9]);
    WidthsOfU16AndU64();
    GetBigEndian(payload[1..9])
  }

  function Decode(payload: Bytes): Decoded {
    if |payload| < 9 then Plain(payload)
    else if payload[0] == ACK_REQUEST then Request(SeqNumOf(payload), payload[9..])
    else if payload[0] == ACK_RESPONSE then Response(SeqNumOf(payload))
    else Plain(payload)
  }

  /** What processDatagram2Ack hands to the application; None when the datagram is not forwarded. */
  function Forwarded(payload: Bytes): Option<Bytes> {
    match Decode(payload)
    case Request(_, data) => Some(data)
    case Response(_) => None
    case Plain(data) => Some(data)
  }

  /** A payload the receiver takes for an ACK message. */
  predicate MarkerShaped(payload: Bytes) {
    |payload| >= 9 && payload[0] in {ACK_REQUEST, ACK_RESPONSE}
  }

  lemma DecodeInvertsEncoders(seqNum: U64, data: Bytes)
    ensures Decode(EncodeRequest(seqNum, data)) == Request(seqNum, data)
    ensures Decode(EncodeResponse(seqNum)) == Response(seqNum)
  {
    GetPut(8, seqNum) by { WidthsOfU16AndU64(); }
    var req, resp := EncodeRequest(seqNum, data), EncodeResponse(seqNum);
    assert req[1..9] == PutBigEndian(8, seqNum) && req[9..] == data;
    assert resp[1..9] == PutBigEndian(8, seqNum);
  }

  /** An ACK message is its marker, the number in eight bytes, the most significant one first, and the payload. */
  lemma WireFormat(seqNum: U64, data: Bytes)
    ensures var req, resp := EncodeRequest(seqNum, data), EncodeResponse(seqNum);
            && |req| == 9 + |data| && |resp| == 9 && req[0] == 0xAC && resp[0] == 0xAD
            && req[1..9] == resp[1..9] && req[9..] == data
            && seqNum == req[1] * Pow256(7) + GetBigEndian(req[2..9])
  {
    GetPut(8, seqNum) by { WidthsOfU16AndU64(); }
    var number := EncodeRequest(seqNum, data)[1..9];
    assert number == PutBigEndian(8, seqNum);
    MostSignificantFirst(number);
    assert number[1..] == EncodeRequest(seqNum, data)[2..9];
  }

  /** What a response carries after its number does not matter. */
  lemma TailIgnored(seqNum: U64, tail: Bytes)
    ensures Decode(EncodeResponse(seqNum) + tail) == Response(seqNum)
  {
    GetPut(8, seqNum) by { WidthsOfU16AndU64(); }
    assert (EncodeResponse(seqNum) + tail)[1..9] == PutBigEndian(8, seqNum);
  }

  /** The encoders are the only sources of what Decode recognises: a decoded message determines its bytes,
      except for what an overlong response carries after its number. */
  lemma EncodersInvertDecode(payload: Bytes)
    ensures Decode(payload).Request? ==> payload == EncodeRequest(Decode(payload).seqNum, Decode(payload).data)
    ensures Decode(payload).Response? ==> EncodeResponse(Decode(payload).ackedSeqNum) <= payload
    ensures Decode(payload).Plain? <==> !MarkerShaped(payload)
  {
    if |payload| >= 9 {
      PutGet(payload[1..9]);
      assert payload == [payload[0]] + payload[1..9] + payload[9..];
    }
  }

  /** A payload put on the wire without a frame reaches the application unchanged exactly when
      it does not look like an ACK message. */
  lemma UnframedTransparency(data: Bytes)
    ensures Forwarded(data) == Some(data) <==> !MarkerShaped(data)
  {
    EncodersInvertDecode(data);
  }

  lemma FramedTransparency(seqNum: U64, data: Bytes)
    ensures Forwarded(EncodeRequest(seqNum, data)) == Some(data)
  {
    DecodeInvertsEncoders(seqNum, data);
  }
}

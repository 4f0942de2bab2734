/** The i2pd frame of hybrid1 datagrams: two big-endian ports, then the payload (hybrid1/packetconn.go,
    hybrid1/session.go). */
module Hybrid1Frame {
  import opened Base

  type U16 = n: nat | n < 0x1_0000

  const HEADER: nat := 4
  const MTU: nat := 64 * 1024
  const MAX_PAYLOAD: nat := MTU - HEADER
  const DEFAULT_PORT: U16 := 0

  datatype Datagram = Datagram(sourcePort: U16, destPort: U16, data: Bytes)

  function Frame(payload: Bytes, sourcePort: U16, destPort: U16): Bytes {
    PutBigEndian(2, sourcePort) + PutBigEndian(2, destPort) + payload
  }

  /** Source port, destination port, payload, each port with its high byte first. */
  lemma FrameLayout(payload: Bytes, sourcePort: U16, destPort: U16)
    ensures var frame := Frame(payload, sourcePort, destPort);
            && |frame| == 4 + |payload| && frame[4..] == payload
            && frame[0] == sourcePort / 256 && frame[1] == sourcePort % 256
            && frame[2] == destPort / 256 && frame[3] == destPort % 256
  {
    assert PutBigEndian(2, sourcePort) == [sourcePort / 256, sourcePort % 256];
    assert PutBigEndian(2, destPort) == [destPort / 256, destPort % 256];
  }

  /** Fills a fresh buffer byte by byte. */
  method BuildFrame(payload: Bytes, sourcePort: U16, destPort: U16) returns (frame: array<Byte>)
    ensures fresh(frame) && frame[..] == Frame(payload, sourcePort, destPort)
  {
    frame := new Byte[HEADER + |payload|](_ => 0);
    frame[0], frame[1] := sourcePort / 256, sourcePort % 256;
    frame[2], frame[3] := destPort / 256, destPort % 256;
    for i := 0 to |payload|
      invariant frame[..HEADER] == [sourcePort / 256, sourcePort % 256, destPort / 256, destPort % 256]
      invariant frame[HEADER..HEADER + i] == payload[..i]
    {
      frame[HEADER + i] := payload[i];
    }
    assert PutBigEndian(2, sourcePort) == [sourcePort / 256, sourcePort % 256];
    assert PutBigEndian(2, destPort) == [destPort / 256, destPort % 256];
    assert frame[..] == frame[..HEADER] + frame[HEADER..HEADER + |payload|];
  }

  function PortOf(high: nat, low: nat): nat {
    256 * high + low
  }

  /** Data too short for a header is taken as it is, under the default ports. */
  function Parse(frame: Bytes): Datagram {
    if |frame| < HEADER then Datagram(DEFAULT_PORT, DEFAULT_PORT, frame)
    else Datagram(PortOf(frame[0], frame[1]), PortOf(frame[2], frame[3]), frame[HEADER..])
  }

  lemma PortBytes(a: Byte, b: Byte)
    ensures PutBigEndian(2, PortOf(a, b)) == [a, b]
  {
    assert PortOf(a, b) / 256 == a && PortOf(a, b) % 256 == b;
  }

  lemma ParseInvertsFrame(payload: Bytes, sourcePort: U16, destPort: U16)
    ensures Parse(Frame(payload, sourcePort, destPort)) == Datagram(sourcePort, destPort, payload)
  {
    assert PutBigEndian(2, sourcePort) == [sourcePort / 256, sourcePort % 256];
    assert PutBigEndian(2, destPort) == [destPort / 256, destPort % 256];
  }

  /** Building from what was parsed gives the bytes back exactly when there was a header to parse; without one
      everything is payload, under the ports 0. */
  lemma FrameInvertsParse(frame: Bytes)
    ensures |frame| < 4 ==> Parse(frame) == Datagram(0, 0, frame)
    ensures Frame(Parse(frame).data, Parse(frame).sourcePort, Parse(frame).destPort) == frame <==> |frame| >= HEADER
  {
    if |frame| >= HEADER {
      PortBytes(frame[0], frame[1]);
      PortBytes(frame[2], frame[3]);
      assert frame == [frame[0], frame[1]] + [frame[2], frame[3]] + frame[HEADER..];
    }
  }

  /** WriteTo up to the send: a frame goes out exactly when the connection is open, the deadline not past, and the
      frame within the MTU; the receiver parses it into what was written. An address without a port names the
      default one. */
  method WriteTo(payload: Bytes, localPort: U16, destPort: Option<U16>, closed: bool, late: bool)
      returns (sent: Option<array<Byte>>)
    ensures var port := if destPort.Some? then destPort.value else DEFAULT_PORT;
            && (sent.Some? <==> !closed && !late && |payload| + 4 <= 65536)
            && (sent.Some? ==>
                  fresh(sent.value) && Parse(sent.value[..]) == Datagram(localPort, port, payload) &&
                  sent.value[..] == Frame(payload, localPort, port))
  {
    if closed || |payload| > MAX_PAYLOAD {
      return None;
    }
    var port := if destPort.Some? then destPort.value else DEFAULT_PORT;
    var frame := BuildFrame(payload, localPort, port);
    if late {
      return None;
    }
    ParseInvertsFrame(payload, localPort, port);
    sent := Some(frame);
  }
}

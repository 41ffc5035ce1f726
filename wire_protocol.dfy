/** Properties that connect a writer on one side of a connection to the reader on the
    other: the host's configuration line read by the device. */
module WireProtocol {
  import opened Base
  import opened Text
  import opened Numbers
  import SocketServer
  import VideoReceiver

  lemma DigitsExclude(s: string, c: char)
    requires AllDigits(s) && !IsDigit(c)
    ensures c !in s
  {
  }

  lemma SplitKeyValue(key: string, value: string, c: char)
    requires c !in key && c !in value
    ensures Split(key + [c] + value, c) == [key, value]
  {
    SplitAt(key, c, value);
    SplitNoSep(value, c);
  }

  lemma SettingPart(key: string, v: nat, c: SocketServer.Config)
    requires key == "bitrate" || key == "max_size"
    requires v <= INT_MAX
    ensures SocketServer.ApplyPart(key + "=" + NatToString(v), c)
      == if key == "bitrate" then c.(bitrate := v) else c.(maxResolution := v)
  {
    var d := NatToString(v);
    DigitsExclude(d, '=');
    assert key + "=" + d == key + ['='] + d;
    SplitKeyValue(key, d, '=');
    ParseSignedOfIntToString(v, INT_MIN, INT_MAX);
  }

  lemma LineOfHandshake(bitrate: nat, maxSize: nat)
    requires bitrate <= U32_MAX && maxSize <= U32_MAX
    ensures ReadLine(VideoReceiver.Handshake(bitrate, maxSize))
      == Some("bitrate=" + NatToString(bitrate) + "&max_size=" + NatToString(maxSize))
  {
    var b, m := NatToString(bitrate), NatToString(maxSize);
    var line := "bitrate=" + b + "&max_size=" + m;
    assert VideoReceiver.Handshake(bitrate, maxSize) == line + "\n" + "";
    DigitsExclude(b, '\n'); DigitsExclude(m, '\n');
    DigitsExclude(b, '\r'); DigitsExclude(m, '\r');
    assert forall k :: 0 <= k < |line| ==> line[k] != '\n' && line[k] != '\r';
    LineOfTerminated(line, "");
  }

  /** The line the host sends and the device's reading of it agree: the device starts
      its session with exactly the host's bitrate and size when both fit a signed
      32-bit integer. */
  lemma HandshakeRoundTrip(bitrate: nat, maxSize: nat)
    requires bitrate <= INT_MAX && maxSize <= INT_MAX
    ensures SocketServer.ConfigOf(SocketServer.Received(VideoReceiver.Handshake(bitrate, maxSize)))
      == SocketServer.Config(bitrate, maxSize)
  {
    var b, m := NatToString(bitrate), NatToString(maxSize);
    var p1, p2 := "bitrate=" + b, "max_size=" + m;
    LineOfHandshake(bitrate, maxSize);
    DigitsExclude(b, '&'); DigitsExclude(m, '&');
    assert "bitrate=" + b + "&max_size=" + m == p1 + ['&'] + p2;
    SplitKeyValue(p1, p2, '&');
    assert p1 == "bitrate" + "=" + b && p2 == "max_size" + "=" + m;
    var c1 := SocketServer.ApplyPart(p1, SocketServer.DEFAULTS);
    SettingPart("bitrate", bitrate, SocketServer.DEFAULTS);
    SettingPart("max_size", maxSize, c1);
    assert [p1, p2][1..] == [p2];
    var c2 := SocketServer.ApplyPart(p2, c1);
    assert SocketServer.ApplyParts([p2], c1) == SocketServer.ApplyParts([], c2);
    assert SocketServer.ApplyParts([p1, p2], SocketServer.DEFAULTS) == c2;
  }

  lemma OutOfRangePart(key: string, v: nat, c: SocketServer.Config)
    requires key == "bitrate" || key == "max_size"
    requires v > INT_MAX
    ensures SocketServer.ApplyPart(key + "=" + NatToString(v), c) == c
  {
    var d := NatToString(v);
    DigitsExclude(d, '=');
    assert key + "=" + d == key + ['='] + d;
    SplitKeyValue(key, d, '=');
    DigitsOfNatToString(v);
    assert d[0] != '-' && d[0] != '+';
  }

  /** The host's bitrate is an unsigned 32-bit number but the device reads a signed one:
      a bitrate above 2^31 - 1 is ignored and the device keeps its 8 Mbit/s default. */
  lemma HandshakeBitrateBeyondInt(bitrate: nat, maxSize: nat)
    requires INT_MAX < bitrate <= U32_MAX && maxSize <= INT_MAX
    ensures SocketServer.ConfigOf(SocketServer.Received(VideoReceiver.Handshake(bitrate, maxSize)))
      == SocketServer.Config(8_000_000, maxSize)
  {
    var b, m := NatToString(bitrate), NatToString(maxSize);
    var p1, p2 := "bitrate=" + b, "max_size=" + m;
    LineOfHandshake(bitrate, maxSize);
    DigitsExclude(b, '&'); DigitsExclude(m, '&');
    assert "bitrate=" + b + "&max_size=" + m == p1 + ['&'] + p2;
    SplitKeyValue(p1, p2, '&');
    assert p1 == "bitrate" + "=" + b && p2 == "max_size" + "=" + m;
    var c1 := SocketServer.ApplyPart(p1, SocketServer.DEFAULTS);
    OutOfRangePart("bitrate", bitrate, SocketServer.DEFAULTS);
    SettingPart("max_size", maxSize, c1);
    assert [p1, p2][1..] == [p2];
    var c2 := SocketServer.ApplyPart(p2, c1);
    assert SocketServer.ApplyParts([p2], c1) == SocketServer.ApplyParts([], c2);
    assert SocketServer.ApplyParts([p1, p2], SocketServer.DEFAULTS) == c2;
  }
}

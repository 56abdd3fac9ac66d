/** The pure decoders of `OptionsResultUtil`: an IP address given as a list
    of byte numbers, and the two notification-enable bit masks `ife` and
    `ife2` of the device options. */
module OptionsResults {
  import opened Wrappers
  import opened Decimal
  import opened Text
  import opened Bits

  /** The eight events enabled by bits 0..7 of `ife`, in bit order. */
  datatype NotificationEvents = NotificationEvents(
    programScheduled: bool,
    sensor1StatusUpdate: bool,
    flowSensorStatusUpdate: bool,
    weatherUpdate: bool,
    reboot: bool,
    stationFinish: bool,
    sensor2StatusUpdate: bool,
    rainDelayUpdate: bool)
  {
    /** The fields in declared order, which is bit order. */
    function Flags(): (r: seq<bool>)
      ensures |r| == 8
    {
      [programScheduled, sensor1StatusUpdate, flowSensorStatusUpdate, weatherUpdate,
       reboot, stationFinish, sensor2StatusUpdate, rainDelayUpdate]
    }
  }

  /** The two events enabled by bits 0..1 of `ife2`, in bit order. */
  datatype ExtendedNotificationEvents = ExtendedNotificationEvents(
    stationStart: bool,
    flowAlert: bool)
  {
    function Flags(): (r: seq<bool>)
      ensures |r| == 2
    {
      [stationStart, flowAlert]
    }
  }

  /** `parseIpAddress`: each byte's `toString()`, joined with ".". Bytes are
      not checked against 0..255. */
  function ParseIpAddress(ip: seq<int>): (r: string)
    ensures |ip| == 0 ==> r == ""
    ensures |ip| > 0 ==> Split(r, '.') == Renderings(ip)
    ensures |ip| > 0 ==> Count(r, '.') == |ip| - 1
  {
    var parts := Renderings(ip);
    assert |parts| > 0 ==> Split(Join(parts, '.'), '.') == parts && Count(Join(parts, '.'), '.') == |parts| - 1 by {
      if |parts| > 0 {
        SplitJoin(parts, '.');
        JoinCount(parts, '.');
      }
    }
    Join(parts, '.')
  }

  /** The decimal rendering of every byte; none contains a ".". */
  function Renderings(ip: seq<int>): (parts: seq<string>)
    ensures |parts| == |ip|
    ensures forall i :: 0 <= i < |ip| ==> parts[i] == IntToDecimal(ip[i])
    ensures forall i :: 0 <= i < |ip| ==> '.' !in parts[i]
  {
    seq(|ip|, i requires 0 <= i < |ip| => IntToDecimal(ip[i]))
  }

  /** Reads a dotted-decimal string back into its numbers; the reference
      against which `ParseIpAddress` is shown to lose nothing. */
  function ReadDotted(s: string): (r: Option<seq<int>>)
    ensures r.Some? ==> |r.value| == |Split(s, '.')|
  {
    var parts := Split(s, '.');
    if forall i :: 0 <= i < |parts| ==> ParseInt(parts[i]).Some? then
      Some(seq(|parts|, i requires 0 <= i < |parts| => ParseInt(parts[i]).value))
    else None
  }

  /** A non-empty byte list survives rendering and reading back. */
  lemma IpAddressRoundTrip(ip: seq<int>)
    requires |ip| > 0
    ensures ReadDotted(ParseIpAddress(ip)) == Some(ip)
  {
    var parts := Split(ParseIpAddress(ip), '.');
    forall i | 0 <= i < |parts|
      ensures ParseInt(parts[i]) == Some(ip[i])
    {
      ParseIntRoundTrip(ip[i]);
    }
    assert ReadDotted(ParseIpAddress(ip)).value == ip;
  }

  /** A four-byte address has exactly three dots. */
  lemma FourBytesThreeDots(ip: seq<int>)
    requires |ip| == 4
    ensures Count(ParseIpAddress(ip), '.') == 3
  {
  }

  /** A private-network address renders as it is usually written. */
  lemma IpAddressExample()
    ensures ParseIpAddress([10, 0, 0, 1]) == "10.0.0.1"
  {
    SmallRenderings();
    assert Renderings([10, 0, 0, 1]) == ["10", "0", "0", "1"];
    assert Join(["1"], '.') == "1";
    assert Join(["0", "1"], '.') == "0.1";
    assert Join(["0", "0", "1"], '.') == "0.0.1";
    assert Join(["10", "0", "0", "1"], '.') == "10.0.0.1";
  }

  /** No zero padding: the all-zero address is four single digits. */
  lemma ZeroIpAddress()
    ensures ParseIpAddress([0, 0, 0, 0]) == "0.0.0.0"
  {
    SmallRenderings();
    assert Renderings([0, 0, 0, 0]) == ["0", "0", "0", "0"];
    assert Join(["0"], '.') == "0";
    assert Join(["0", "0"], '.') == "0.0";
    assert Join(["0", "0", "0"], '.') == "0.0.0";
    assert Join(["0", "0", "0", "0"], '.') == "0.0.0.0";
  }

  /** The renderings the two examples use. */
  lemma SmallRenderings()
    ensures IntToDecimal(0) == "0" && IntToDecimal(1) == "1" && IntToDecimal(10) == "10"
  {
    assert NatToDecimal(1) == "1";
    assert NatToDecimal(10) == NatToDecimal(1) + "0";
  }

  /** `parseNotificationEvents`: field `k` is `Boolean(ife & 2^k)`. */
  function ParseNotificationEvents(ife: int): (r: NotificationEvents)
    ensures r.Flags() == Unpack(ife, 8)
  {
    var r := NotificationEvents(
      BitAnd(ife, 0x01) != 0,
      BitAnd(ife, 0x02) != 0,
      BitAnd(ife, 0x04) != 0,
      BitAnd(ife, 0x08) != 0,
      BitAnd(ife, 0x10) != 0,
      BitAnd(ife, 0x20) != 0,
      BitAnd(ife, 0x40) != 0,
      BitAnd(ife, 0x80) != 0);
    NotificationMasks(ife);
    EightBits(Unpack(ife, 8));
    r
  }

  /** `parseExctendedNotificationEvents`: field `k` is `Boolean(ife2 & 2^k)`. */
  function ParseExtendedNotificationEvents(ife2: int): (r: ExtendedNotificationEvents)
    ensures r.Flags() == Unpack(ife2, 2)
  {
    var r := ExtendedNotificationEvents(
      BitAnd(ife2, 0x01) != 0,
      BitAnd(ife2, 0x02) != 0);
    ExtendedMasks(ife2);
    assert Unpack(ife2, 2) == [Unpack(ife2, 2)[0], Unpack(ife2, 2)[1]];
    r
  }

  /** The notification mask an event record corresponds to: the inverse
      of `ParseNotificationEvents` on 0..255. */
  function NotificationMask(ev: NotificationEvents): (ife: nat)
    ensures ife < 256
  {
    PackBound(ev.Flags());
    Pack(ev.Flags())
  }

  function ExtendedNotificationMask(ev: ExtendedNotificationEvents): (ife2: nat)
    ensures ife2 < 4
  {
    PackBound(ev.Flags());
    Pack(ev.Flags())
  }

  /** Field `k`, in declared order, is set iff bit `k` of `ife` is 1. */
  lemma NotificationFieldIsBit(ife: int, k: nat)
    requires k < 8
    ensures ParseNotificationEvents(ife).Flags()[k] <==> (ife / Pow2(k)) % 2 == 1
  {
    UnpackBit(ife, 8, k);
  }

  lemma ExtendedFieldIsBit(ife2: int, k: nat)
    requires k < 2
    ensures ParseExtendedNotificationEvents(ife2).Flags()[k] <==> (ife2 / Pow2(k)) % 2 == 1
  {
    UnpackBit(ife2, 2, k);
  }

  /** Bits above bit 7 are ignored. */
  lemma NotificationIgnoresHighBits(ife: int)
    ensures ParseNotificationEvents(ife) == ParseNotificationEvents(ife % 256)
  {
    UnpackMod(ife, 8, 8);
    assert Pow2(8) == 256;
  }

  /** Bits above bit 1 are ignored. */
  lemma ExtendedIgnoresHighBits(ife2: int)
    ensures ParseExtendedNotificationEvents(ife2) == ParseExtendedNotificationEvents(ife2 % 4)
  {
    UnpackMod(ife2, 2, 2);
    assert Pow2(2) == 4;
  }

  /** Decoding the mask of a record gives the record back. */
  lemma NotificationMaskRoundTrip(ev: NotificationEvents)
    ensures ParseNotificationEvents(NotificationMask(ev)) == ev
  {
    UnpackPack(ev.Flags());
  }

  /** Re-encoding a decoded mask keeps exactly its low eight bits. */
  lemma NotificationDecodeEncode(ife: int)
    ensures NotificationMask(ParseNotificationEvents(ife)) == ife % 256
  {
    PackUnpack(ife, 8);
    assert Pow2(8) == 256;
  }

  lemma ExtendedMaskRoundTrip(ev: ExtendedNotificationEvents)
    ensures ParseExtendedNotificationEvents(ExtendedNotificationMask(ev)) == ev
  {
    UnpackPack(ev.Flags());
  }

  lemma ExtendedDecodeEncode(ife2: int)
    ensures ExtendedNotificationMask(ParseExtendedNotificationEvents(ife2)) == ife2 % 4
  {
    PackUnpack(ife2, 2);
    assert Pow2(2) == 4;
  }

  /** No bit set: every event off. */
  lemma NoNotifications()
    ensures ParseNotificationEvents(0) == NotificationEvents(false, false, false, false, false, false, false, false)
  {
    var none := NotificationEvents(false, false, false, false, false, false, false, false);
    assert Pack(none.Flags()) == 0;
    NotificationMaskRoundTrip(none);
  }

  /** All eight bits set: every event on. */
  lemma AllNotifications()
    ensures ParseNotificationEvents(255) == NotificationEvents(true, true, true, true, true, true, true, true)
  {
    var all := NotificationEvents(true, true, true, true, true, true, true, true);
    assert Pack(all.Flags()) == 255;
    NotificationMaskRoundTrip(all);
  }

  /** 0x05 sets bits 0 and 2: program scheduled and flow sensor only. */
  lemma NotificationExample()
    ensures ParseNotificationEvents(0x05) == NotificationEvents(true, false, true, false, false, false, false, false)
  {
    var ev := NotificationEvents(true, false, true, false, false, false, false, false);
    assert Pack(ev.Flags()) == 5;
    NotificationMaskRoundTrip(ev);
  }

  lemma EightBits(u: seq<bool>)
    requires |u| == 8
    ensures u == [u[0], u[1], u[2], u[3], u[4], u[5], u[6], u[7]]
  {
  }

  /** The masks 0x01..0x80 test bits 0..7. */
  lemma NotificationMasks(x: int)
    ensures (BitAnd(x, 0x01) != 0) == Unpack(x, 8)[0]
    ensures (BitAnd(x, 0x02) != 0) == Unpack(x, 8)[1]
    ensures (BitAnd(x, 0x04) != 0) == Unpack(x, 8)[2]
    ensures (BitAnd(x, 0x08) != 0) == Unpack(x, 8)[3]
    ensures (BitAnd(x, 0x10) != 0) == Unpack(x, 8)[4]
    ensures (BitAnd(x, 0x20) != 0) == Unpack(x, 8)[5]
    ensures (BitAnd(x, 0x40) != 0) == Unpack(x, 8)[6]
    ensures (BitAnd(x, 0x80) != 0) == Unpack(x, 8)[7]
  {
    MaskTestLow(x, 0, 8);
    MaskTestLow(x, 1, 8);
    MaskTestLow(x, 2, 8);
    MaskTestLow(x, 3, 8);
    MaskTestLow(x, 4, 8);
    MaskTestLow(x, 5, 8);
    MaskTestLow(x, 6, 8);
    MaskTestLow(x, 7, 8);
  }

  /** The masks 0x01 and 0x02 test bits 0 and 1. */
  lemma ExtendedMasks(x: int)
    ensures (BitAnd(x, 0x01) != 0) == Unpack(x, 2)[0]
    ensures (BitAnd(x, 0x02) != 0) == Unpack(x, 2)[1]
  {
    MaskTestLow(x, 0, 2);
    MaskTestLow(x, 1, 2);
  }
}

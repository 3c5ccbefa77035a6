/**
 The USB configuration descriptor block the Ride Gate reports: a
 configuration descriptor, an interface descriptor, a HID class descriptor and
 two interrupt endpoint descriptors, 0x29 bytes in all, laid out as in
 chapter 9 of the USB 2.0 specification and section 6.2.1 of the USB HID 1.11
 specification, except that the device stores its 16-bit fields big-endian.
 */
module GateDescriptor {
  import opened HexFormat

  datatype Option<T> = None | Some(value: T)

  /** sizeof(configurationDescriptor): the block is 0x29 bytes long. */
  const BlockLength: nat := 0x29

  /** A 16-bit value as the device stores it: high byte first. */
  function U16BE(v: nat): (r: seq<Byte>)
    requires v < 0x1_0000
    ensures |r| == 2 && 256 * (r[0] as int) + r[1] as int == v
  {
    [v / 256, v % 256]
  }

  /** Configuration descriptor: bLength 9, type 2, wTotalLength 0x29, one interface, value 1, bmAttributes 0x80 (bus powered, no remote wakeup: only the reserved bit 7 set), 500 mA. */
  function ConfigurationDescriptor(): (r: seq<Byte>)
    ensures |r| == 9
  {
    [9, 2] + U16BE(BlockLength) + [1, 1, 0, 0x80, 0xFA]
  }

  /** Interface descriptor: bLength 9, type 4, interface 0, setting 0, two endpoints, class 3 (HID), no subclass or protocol. */
  function InterfaceDescriptor(): (r: seq<Byte>)
    ensures |r| == 9
  {
    [9, 4, 0, 0, 2, 3, 0, 0, 0]
  }

  /** HID descriptor: bLength 9, type 0x21, bcdHID 0x0111, country 0, one report descriptor (type 0x22) of 0x1D bytes. */
  function HidDescriptor(): (r: seq<Byte>)
    ensures |r| == 9
  {
    [9, 0x21] + U16BE(0x0111) + [0x00, 0x01, 0x22] + U16BE(0x001D)
  }

  /** Endpoint descriptor: bLength 7, type 5, the given address, interrupt transfers, 64-byte packets, interval 1. */
  function EndpointDescriptor(address: Byte): (r: seq<Byte>)
    ensures |r| == 7
  {
    [7, 5, address, 3] + U16BE(0x40) + [1]
  }

  /** The whole block: configuration, interface, HID, IN endpoint 0x81, OUT endpoint 0x02. */
  function DescriptorBlock(): (r: seq<Byte>)
    ensures |r| == BlockLength
  {
    ConfigurationDescriptor() + InterfaceDescriptor() + HidDescriptor()
    + EndpointDescriptor(0x81) + EndpointDescriptor(0x02)
  }

  /**
   Walks a chain of descriptors by their bLength bytes and lists their
   bDescriptorType bytes; `None` when a bLength is below 2 or runs past the end.
   */
  function DescriptorTypes(block: seq<Byte>): (r: Option<seq<Byte>>)
    ensures r.Some? ==> |r.value| <= |block| / 2
    decreases |block|
  {
    if block == [] then Some([])
    else if block[0] < 2 || block[0] > |block| then None
    else
      match DescriptorTypes(block[block[0]..])
      case None => None
      case Some(types) => Some([block[1]] + types)
  }

  /** The block, byte by byte. */
  lemma DescriptorBlockBytes()
    ensures DescriptorBlock() == [
      0x09, 0x02, 0x00, 0x29, 0x01, 0x01, 0x00, 0x80, 0xFA,
      0x09, 0x04, 0x00, 0x00, 0x02, 0x03, 0x00, 0x00, 0x00,
      0x09, 0x21, 0x01, 0x11, 0x00, 0x01, 0x22, 0x00, 0x1D,
      0x07, 0x05, 0x81, 0x03, 0x00, 0x40, 0x01,
      0x07, 0x05, 0x02, 0x03, 0x00, 0x40, 0x01]
  {
  }

  /** The 16-bit field at offset `k` of `b`, read high byte first. */
  function Field16(b: seq<Byte>, k: nat): (v: nat)
    requires k + 1 < |b|
    ensures v < 0x1_0000
  {
    256 * (b[k] as int) + b[k + 1] as int
  }

  /**
   What the fields of the block announce: a bus-powered configuration without
   remote wakeup (bmAttributes 0x80 sets only the reserved bit 7), 500 mA and
   one interface; a HID-class interface with two
   endpoints; HID 1.11 with one report descriptor of 0x1D bytes; an interrupt
   IN endpoint 0x81 and an interrupt OUT endpoint 0x02, each with 64-byte
   packets polled every frame.
   */
  lemma DescriptorFields()
    ensures var b := DescriptorBlock();
      Field16(b, 2) == BlockLength && b[4] == 1 && b[5] == 1 && b[7] == 0x80 && 2 * (b[8] as int) == 500
    ensures var b := DescriptorBlock();
      b[9 + 1] == 4 && b[9 + 4] == 2 && b[9 + 5] == 3
    ensures var b := DescriptorBlock();
      b[18 + 1] == 0x21 && Field16(b, 18 + 2) == 0x0111 && b[18 + 5] == 1
      && b[18 + 6] == 0x22 && Field16(b, 18 + 7) == 0x1D
    ensures var b := DescriptorBlock();
      b[27 + 1] == 5 && b[27 + 2] == 0x81 && b[27 + 3] == 3 && Field16(b, 27 + 4) == 64 && b[27 + 6] == 1
    ensures var b := DescriptorBlock();
      b[34 + 1] == 5 && b[34 + 2] == 0x02 && b[34 + 3] == 3 && Field16(b, 34 + 4) == 64 && b[34 + 6] == 1
  {
    DescriptorBlockBytes();
  }

  /**
   The block is a well-formed descriptor chain: its bLength bytes tile it
   exactly into a configuration, an interface, a HID and two endpoint
   descriptors; wTotalLength, read high byte first, is the length of the
   block; and the interface announces as many endpoints as follow it.
   */
  lemma DescriptorChain()
    ensures DescriptorTypes(DescriptorBlock()) == Some([2, 4, 0x21, 5, 5])
    ensures Field16(DescriptorBlock(), 2) == |DescriptorBlock()|
    ensures DescriptorBlock()[9 + 4] == 2
  {
    var c, i, h := ConfigurationDescriptor(), InterfaceDescriptor(), HidDescriptor();
    var e1, e2 := EndpointDescriptor(0x81), EndpointDescriptor(0x02);
    BlockParts();
    ChainOfFive(c, i, h, e1, e2);
  }

  /** The block as its five descriptors, with the bLength and bDescriptorType byte of each. */
  lemma BlockParts()
    ensures var c, i, h := ConfigurationDescriptor(), InterfaceDescriptor(), HidDescriptor();
      var e1, e2 := EndpointDescriptor(0x81), EndpointDescriptor(0x02);
      && DescriptorBlock() == c + (i + (h + (e1 + e2)))
      && c[0] == 9 && c[1] == 2 && i[0] == 9 && i[1] == 4 && h[0] == 9 && h[1] == 0x21
      && e1[0] == 7 && e1[1] == 5 && e2[0] == 7 && e2[1] == 5
  {
  }

  /** Five descriptors whose bLength bytes are their own lengths, one after another, form a chain. */
  lemma ChainOfFive(c: seq<Byte>, i: seq<Byte>, h: seq<Byte>, e1: seq<Byte>, e2: seq<Byte>)
    requires |c| >= 2 && c[0] as int == |c| && |i| >= 2 && i[0] as int == |i|
    requires |h| >= 2 && h[0] as int == |h|
    requires |e1| >= 2 && e1[0] as int == |e1| && |e2| >= 2 && e2[0] as int == |e2|
    ensures DescriptorTypes(c + (i + (h + (e1 + e2)))) == Some([c[1], i[1], h[1], e1[1], e2[1]])
  {
    assert e2 + [] == e2;
    assert [e2[1]] + [] == [e2[1]];
    TypesCons(e2, [], []);
    assert [e1[1]] + [e2[1]] == [e1[1], e2[1]];
    TypesCons(e1, e2, [e2[1]]);
    assert [h[1]] + [e1[1], e2[1]] == [h[1], e1[1], e2[1]];
    TypesCons(h, e1 + e2, [e1[1], e2[1]]);
    assert [i[1]] + [h[1], e1[1], e2[1]] == [i[1], h[1], e1[1], e2[1]];
    TypesCons(i, h + (e1 + e2), [h[1], e1[1], e2[1]]);
    assert [c[1]] + [i[1], h[1], e1[1], e2[1]] == [c[1], i[1], h[1], e1[1], e2[1]];
    TypesCons(c, i + (h + (e1 + e2)), [i[1], h[1], e1[1], e2[1]]);
  }

  /** A descriptor whose bLength is its own length, followed by a chain, is a chain one longer. */
  lemma TypesCons(head: seq<Byte>, tail: seq<Byte>, types: seq<Byte>)
    requires |head| >= 2 && head[0] as int == |head|
    requires DescriptorTypes(tail) == Some(types)
    ensures DescriptorTypes(head + tail) == Some([head[1]] + types)
  {
    assert (head + tail)[head[0]..] == tail;
  }

  /** Writes the configuration descriptor at `p`, leaving the rest of `block` as it was. */
  method WriteConfigurationDescriptor(block: array<Byte>, p: nat)
    requires p + 9 <= block.Length
    modifies block
    ensures block[p..p + 9] == ConfigurationDescriptor()
    ensures block[..p] == old(block[..p]) && block[p + 9..] == old(block[p + 9..])
  {
    var totalLength := U16BE(0x0029);
    block[p + 0] := 9;                // bLength
    block[p + 1] := 2;                // bDescriptorType
    block[p + 2] := totalLength[0];   // wTotalLength, high byte first
    block[p + 3] := totalLength[1];
    block[p + 4] := 1;                // bNumInterfaces
    block[p + 5] := 1;                // bConfigurationValue
    block[p + 6] := 0;                // iConfiguration
    block[p + 7] := 0x80;             // bmAttributes
    block[p + 8] := 0xFA;             // MaxPower
    assert block[p..p + 9] == [9, 2] + totalLength + [1, 1, 0, 0x80, 0xFA];
  }

  /** Writes the interface descriptor at `p`, leaving the rest of `block` as it was. */
  method WriteInterfaceDescriptor(block: array<Byte>, p: nat)
    requires p + 9 <= block.Length
    modifies block
    ensures block[p..p + 9] == InterfaceDescriptor()
    ensures block[..p] == old(block[..p]) && block[p + 9..] == old(block[p + 9..])
  {
    block[p + 0] := 9;                // bLength
    block[p + 1] := 0x04;             // bDescriptorType
    block[p + 2] := 0;                // bInterfaceNumber
    block[p + 3] := 0;                // bAlternateSetting
    block[p + 4] := 2;                // bNumEndpoints
    block[p + 5] := 3;                // bInterfaceClass
    block[p + 6] := 0;                // bInterfaceSubClass
    block[p + 7] := 0;                // bInterfaceProtocol
    block[p + 8] := 0;                // iInterface
  }

  /** Writes the HID descriptor at `p`, leaving the rest of `block` as it was. */
  method WriteHidDescriptor(block: array<Byte>, p: nat)
    requires p + 9 <= block.Length
    modifies block
    ensures block[p..p + 9] == HidDescriptor()
    ensures block[..p] == old(block[..p]) && block[p + 9..] == old(block[p + 9..])
  {
    var bcdHid, reportLength := U16BE(0x0111), U16BE(0x001D);
    block[p + 0] := 9;                // bLength
    block[p + 1] := 0x21;             // bDescriptorType
    block[p + 2] := bcdHid[0];        // bcdHID, high byte first
    block[p + 3] := bcdHid[1];
    block[p + 4] := 0x00;             // bCountryCode
    block[p + 5] := 0x01;             // bNumDescriptors
    block[p + 6] := 0x22;             // bDescriptorType
    block[p + 7] := reportLength[0];  // wDescriptorLength, high byte first
    block[p + 8] := reportLength[1];
    assert block[p..p + 9] == [9, 0x21] + bcdHid + [0x00, 0x01, 0x22] + reportLength;
  }

  /** Writes an endpoint descriptor for `address` at `p`, leaving the rest of `block` as it was. */
  method WriteEndpointDescriptor(block: array<Byte>, p: nat, address: Byte)
    requires p + 7 <= block.Length
    modifies block
    ensures block[p..p + 7] == EndpointDescriptor(address)
    ensures block[..p] == old(block[..p]) && block[p + 7..] == old(block[p + 7..])
  {
    var maxPacketSize := U16BE(0x40);
    block[p + 0] := 7;                 // bLength
    block[p + 1] := 0x05;              // bDescriptorType
    block[p + 2] := address;           // bEndpointAddress
    block[p + 3] := 0x03;              // bmAttributes
    block[p + 4] := maxPacketSize[0];  // wMaxPacketSize, high byte first
    block[p + 5] := maxPacketSize[1];
    block[p + 6] := 0x01;              // bInterval
    assert block[p..p + 7] == [7, 5, address, 3] + maxPacketSize + [1];
  }

  /**
   Fills `configurationDescriptor` descriptor by descriptor through a write
   position that advances past each one, ending exactly at 0x29.
   */
  method BuildConfigurationDescriptor() returns (block: array<Byte>)
    ensures fresh(block)
    ensures block[..] == DescriptorBlock()
  {
    block := new Byte[BlockLength];
    var p := 0;
    WriteConfigurationDescriptor(block, p);
    p := p + 9;
    assert block[..p] == ConfigurationDescriptor();
    WriteInterfaceDescriptor(block, p);
    PrefixSplit(block[..], p, p + 9);
    p := p + 9;
    assert block[..p] == ConfigurationDescriptor() + InterfaceDescriptor();
    WriteHidDescriptor(block, p);
    PrefixSplit(block[..], p, p + 9);
    p := p + 9;
    assert block[..p] == ConfigurationDescriptor() + InterfaceDescriptor() + HidDescriptor();
    WriteEndpointDescriptor(block, p, 0x81);
    PrefixSplit(block[..], p, p + 7);
    p := p + 7;
    assert block[..p] == ConfigurationDescriptor() + InterfaceDescriptor() + HidDescriptor()
      + EndpointDescriptor(0x81);
    WriteEndpointDescriptor(block, p, 0x02);
    PrefixSplit(block[..], p, p + 7);
    p := p + 7;
    assert p == BlockLength;
    assert block[..] == block[..p];
  }

  /** A prefix of a sequence is a shorter prefix followed by the slice between them. */
  lemma PrefixSplit(s: seq<Byte>, p: nat, q: nat)
    requires p <= q <= |s|
    ensures s[..q] == s[..p] + s[p..q]
  {
  }
}

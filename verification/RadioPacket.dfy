/**
 What the RADIO puts on the air out of RAM, and what it stores into RAM of what it hears. Packets are bytes, from the
 header to the end of the CRC.
 */
module RadioPacket {
  import opened Common
  import opened RadioTimings
  import opened Gf2
  import Crc

  type Bytes = seq<bv8>

  /** PCNF0, PCNF1.MAXLEN and CRCCNF.LEN. The length field takes `lengthBits` bits, S1 takes `s1Bits`, and `s1Included`
      gives S1 a byte in RAM even when it has none on the air. */
  datatype Format = Format(mode: Mode, s0: bool, lengthBits: nat, s1Bits: nat, s1Included: bool, crcIncluded: bool,
                           crcLen: nat, maxLen: nat)

  /** The fewest bytes that hold so many bits. */
  function BytesFor(bits: nat): (n: nat)
    ensures 8 * n >= bits && 8 * (n - 1) < bits
  {
    (bits + 7) / 8
  }

  function S0Len(f: Format): nat {
    if f.s0 then 1 else 0
  }

  /** S0 and the length field. */
  function HeaderBytes(f: Format): nat {
    S0Len(f) + BytesFor(f.lengthBits)
  }

  /** The byte of S1 that is in RAM but not on the air. */
  function S1Gap(f: Format): nat {
    if f.s1Included && BytesFor(f.s1Bits) == 0 then 1 else 0
  }

  /** The only formats that are supported. */
  predicate Supported(f: Format) {
    match f.mode
    case Ble1M => f.s0 && f.lengthBits == 8 && f.s1Bits == 0 && f.crcLen == 3
    case Ble2M => f.s0 && f.lengthBits == 8 && f.s1Bits == 0 && f.crcLen == 3
    case Ieee154 => !f.s0 && f.lengthBits == 8 && f.s1Bits == 0 && !f.s1Included && f.crcIncluded && f.crcLen == 2
    case Unsupported => false
  }

  /** Least significant byte first. */
  function Number(bytes: Bytes): nat {
    if bytes == [] then 0 else bytes[0] as nat + 256 * Number(bytes[1..])
  }

  /** Without the CRC; `None` when the length includes a CRC that does not fit into it. */
  function PayloadLength(f: Format, packet: Bytes): Option<nat>
    requires |packet| >= HeaderBytes(f)
  {
    var length := Number(packet[S0Len(f)..HeaderBytes(f)]);
    if !f.crcIncluded then Some(length)
    else if length >= f.crcLen then Some(length - f.crcLen)
    else None
  }

  /** Header and payload on the air of a packet in RAM. */
  function OnAir(f: Format, ram: Bytes): Option<Bytes>
    requires |ram| >= HeaderBytes(f)
  {
    var h := HeaderBytes(f);
    match PayloadLength(f, ram)
    case None => None
    case Some(length) =>
      var n := length + BytesFor(f.s1Bits);
      if length > f.maxLen || |ram| < h + S1Gap(f) + n then None
      else Some(ram[..h] + ram[h + S1Gap(f)..h + S1Gap(f) + n])
  }

  /** The packet takes no more than `size` bytes. */
  predicate Fits(f: Format, packet: Bytes, size: int)
    requires |packet| >= HeaderBytes(f)
  {
    match PayloadLength(f, packet)
    case None => true
    case Some(length) => HeaderBytes(f) + length + BytesFor(f.s1Bits) <= size
  }

  // ---------- The code that copies ----------

  method GetPayloadLength(f: Format, buf: array<bv8>) returns (length: Option<nat>)
    requires buf.Length >= HeaderBytes(f)
    ensures length == PayloadLength(f, buf[..])
  {
    var field := buf[S0Len(f)..HeaderBytes(f)];
    var sum, scale, i := 0, 1, 0;
    while i < BytesFor(f.lengthBits)
      invariant 0 <= i <= BytesFor(f.lengthBits) && scale > 0
      invariant sum + scale * Number(field[i..]) == Number(field)
    {
      Scaled(scale, field[i] as nat, Number(field[i + 1..]));
      assert field[i..][1..] == field[i + 1..];
      sum := sum + scale * (buf[S0Len(f) + i] as nat);
      scale := scale * 256;
      i := i + 1;
    }
    if f.crcIncluded {
      if sum >= f.crcLen {
        length := Some(sum - f.crcLen);
      } else {
        length := None;
      }
    } else {
      length := Some(sum);
    }
  }

  lemma Scaled(scale: nat, digit: nat, rest: nat)
    ensures scale * (digit + 256 * rest) == scale * digit + (scale * 256) * rest
  {
    assert scale * (256 * rest) == (scale * 256) * rest;
  }

  /** Header byte by byte, then the payload, leaving out the byte of S1 that is not on the air. */
  method TxCopyPayload(f: Format, ram: array<bv8>, txBuf: array<bv8>) returns (length: Option<nat>)
    requires ram != txBuf && ram.Length >= HeaderBytes(f)
    requires txBuf.Length >= HeaderBytes(f)
    requires Fits(f, ram[..], ram.Length - S1Gap(f)) && Fits(f, ram[..], txBuf.Length)
    modifies txBuf
    ensures length.Some? <==> OnAir(f, ram[..]).Some?
    ensures length.Some? ==> length == PayloadLength(f, ram[..])
    ensures length.Some? ==> txBuf[..HeaderBytes(f) + length.value + BytesFor(f.s1Bits)] == OnAir(f, ram[..]).value
  {
    CopyHeader(f, ram, txBuf);
    var i := HeaderBytes(f);
    assert txBuf[..][..i] == txBuf[..i] && ram[..][..i] == ram[..i];
    HeaderDecides(f, txBuf[..], ram[..]);
    length := GetPayloadLength(f, txBuf);
    if length.None? || length.value > f.maxLen {
      return None;
    }
    hide PayloadLength, HeaderBytes, S1Gap, BytesFor;
    var n, gap := length.value + BytesFor(f.s1Bits), S1Gap(f);
    ghost var packet, header := ram[..], txBuf[..i];
    CopyBytes(ram, i + gap, txBuf, i, n);
    assert txBuf[..][..i] == header && txBuf[..][i..i + n] == packet[i + gap..i + gap + n];
    assert txBuf[..i + n] == txBuf[..][..i] + txBuf[..][i..i + n];
  }

  method CopyBytes(from: array<bv8>, a: nat, to: array<bv8>, b: nat, n: nat)
    requires from != to && a + n <= from.Length && b + n <= to.Length
    modifies to
    ensures to[..] == Spliced(old(to[..]), b, from[a..a + n]) && from[..] == old(from[..])
  {
    forall k | 0 <= k < n {
      to[b + k] := from[a + k];
    }
  }

  function Spliced(s: Bytes, b: nat, x: Bytes): (r: Bytes)
    requires b + |x| <= |s|
    ensures |r| == |s| && r[..b] == s[..b] && r[b..b + |x|] == x && r[b + |x|..] == s[b + |x|..]
  {
    s[..b] + x + s[b + |x|..]
  }

  method CopyHeader(f: Format, ram: array<bv8>, txBuf: array<bv8>)
    requires ram != txBuf && ram.Length >= HeaderBytes(f) && txBuf.Length >= HeaderBytes(f)
    modifies txBuf
    ensures txBuf[..HeaderBytes(f)] == ram[..HeaderBytes(f)] && ram[..] == old(ram[..])
  {
    var i: nat := 0;
    if f.s0 {
      txBuf[0] := ram[0];
      i := 1;
    }
    while i < HeaderBytes(f)
      invariant S0Len(f) <= i <= HeaderBytes(f)
      invariant txBuf[..i] == ram[..i] && ram[..] == old(ram[..])
    {
      txBuf[i] := ram[i];
      i := i + 1;
    }
  }

  /** Header length as the receiver takes it from the modulation. */
  function RxHeader(f: Format): nat {
    HeaderLen(f.mode)
  }

  function RxGap(f: Format): nat {
    if f.s1Included then 1 else 0
  }

  /** The payload length that is taken for good: a longer packet is rejected, and truncated. */
  function Truncated(f: Format, heard: Bytes): nat
    requires |heard| >= HeaderBytes(f) && PayloadLength(f, heard).Some?
  {
    var length := PayloadLength(f, heard).value;
    if length > f.maxLen then f.maxLen else length
  }

  predicate CanStore(f: Format, heard: Bytes, ram: Bytes) {
    && Supported(f) && |heard| >= RxHeader(f) + f.maxLen
    && |ram| >= RxHeader(f) + RxGap(f) + f.maxLen + |Trailer(f, 0)|
    && PayloadLength(f, heard).Some?
  }

  /** In 802.15.4 the link quality follows the payload in RAM. */
  function Trailer(f: Format, lqi: bv8): Bytes {
    if f.mode == Ieee154 then [lqi] else []
  }

  /** RAM after a packet was heard: header and payload, provided the Phy heard at least a header and a CRC, and then
      the link quality, in any case. */
  function Stored(f: Format, heard: Bytes, packetSize: nat, lqi: bv8, ram: Bytes): Bytes
    requires CanStore(f, heard, ram)
  {
    var h, gap, n := RxHeader(f), RxGap(f), Truncated(f, heard);
    var ram := if packetSize < h + f.crcLen then ram
               else Spliced(Spliced(ram, 0, heard[..h]), h + gap, heard[h..h + n]);
    Spliced(ram, h + gap + n, Trailer(f, lqi))
  }

  method RxCopyPacket(f: Format, rxBuf: array<bv8>, packetSize: nat, lqi: bv8, ram: array<bv8>)
    returns (length: nat, rejected: bool)
    requires ram != rxBuf && CanStore(f, rxBuf[..], ram[..])
    modifies ram
    ensures old(rxBuf[..]) == rxBuf[..] && length == Truncated(f, rxBuf[..])
    ensures rejected <==> PayloadLength(f, rxBuf[..]).value > f.maxLen
    ensures ram[..] == Stored(f, rxBuf[..], packetSize, lqi, old(ram[..]))
  {
    hide *;
    ghost var heard, before := rxBuf[..], ram[..];
    RoomFor(f, heard, lqi, before);
    var l := GetPayloadLength(f, rxBuf);
    length, rejected := l.value, false;
    if l.value > f.maxLen {
      length, rejected := f.maxLen, true;
    }
    var h, gap := RxHeader(f), RxGap(f);
    if packetSize >= h + f.crcLen {
      CopyReceived(rxBuf, ram, h, gap, length);
    }
    assert rxBuf[..] == heard;
    StoredIs(f, heard, packetSize, lqi, before);
    CopyLqi(f, lqi, ram, h + gap + length);
  }

  lemma RoomFor(f: Format, heard: Bytes, lqi: bv8, ram: Bytes)
    requires CanStore(f, heard, ram)
    ensures Supported(f) && |heard| >= HeaderBytes(f) && PayloadLength(f, heard).Some?
    ensures var l := PayloadLength(f, heard).value; Truncated(f, heard) == (if l > f.maxLen then f.maxLen else l)
    ensures RxHeader(f) + Truncated(f, heard) <= |heard|
    ensures RxHeader(f) + RxGap(f) + Truncated(f, heard) + |Trailer(f, lqi)| <= |ram|
  {
    hide PayloadLength;
  }

  lemma StoredIs(f: Format, heard: Bytes, packetSize: nat, lqi: bv8, ram: Bytes)
    requires CanStore(f, heard, ram)
    ensures var h, gap, n := RxHeader(f), RxGap(f), Truncated(f, heard);
      && h + n <= |heard| && h + gap + n + |Trailer(f, lqi)| <= |ram|
      && Stored(f, heard, packetSize, lqi, ram)
         == Spliced(if packetSize < h + f.crcLen then ram
                    else Spliced(Spliced(ram, 0, heard[..h]), h + gap, heard[h..h + n]),
                    h + gap + n, Trailer(f, lqi))
  {
    RoomFor(f, heard, lqi, ram);
    hide CanStore, Truncated, PayloadLength, RxHeader, RxGap, Trailer;
  }

  method CopyReceived(rxBuf: array<bv8>, ram: array<bv8>, h: nat, gap: nat, n: nat)
    requires rxBuf != ram && h + n <= rxBuf.Length && h + gap + n <= ram.Length
    modifies ram
    ensures rxBuf[..] == old(rxBuf[..])
    ensures ram[..] == Spliced(Spliced(old(ram[..]), 0, rxBuf[..][..h]), h + gap, rxBuf[..][h..h + n])
  {
    hide Spliced;
    assert rxBuf[..][..h] == rxBuf[0..h] && rxBuf[..][h..h + n] == rxBuf[h..h + n];
    CopyBytes(rxBuf, 0, ram, 0, h);
    CopyBytes(rxBuf, h, ram, h + gap, n);
  }

  lemma HeaderIsHeard(f: Format, heard: Bytes, ram: Bytes)
    requires CanStore(f, heard, ram)
    ensures |heard| >= HeaderBytes(f)
  {
  }

  method CopyLqi(f: Format, lqi: bv8, ram: array<bv8>, at: nat)
    requires at + |Trailer(f, lqi)| <= ram.Length
    modifies ram
    ensures ram[..] == Spliced(old(ram[..]), at, Trailer(f, lqi))
  {
    if f.mode == Ieee154 {
      ram[at] := lqi;
      assert ram[..] == old(ram[..])[..at] + [lqi] + old(ram[..])[at + 1..];
    } else {
      assert ram[..] == old(ram[..])[..at] + [] + old(ram[..])[at..];
    }
  }

  // ---------- From RAM over the air to RAM ----------

  /** In 802.15.4 the CRC does not cover the header. */
  function CrcStart(f: Format): nat {
    if f.mode == Ieee154 then HeaderBytes(f) else 0
  }

  /** Appends the CRC: in BLE of everything from the header on, in 802.15.4 of the payload alone, which is what follows
      the one byte of the header. */
  method AppendCrc(f: Format, buf: array<bv8>, end: nat, crcInit: bv32)
    requires Supported(f) && (f.mode == Ieee154 ==> end >= 1) && end + f.crcLen <= buf.Length
    modifies buf
    ensures buf[..end] == old(buf[..end])
    ensures f.mode == Ieee154 ==>
      Crc.MessageBits(buf[end..end + 2])
      == LongDivision(Crc.POLY_154, Augmented(Crc.Init154(crcInit), Crc.MessageBits(buf[1..end])))
    ensures f.mode != Ieee154 ==>
      Crc.MessageBits(buf[end..end + 3])
      == LongDivision(Crc.POLY_BLE, Augmented(Crc.InitBle(crcInit), Crc.MessageBits(buf[0..end])))
  {
    var start, is154 := CrcStart(f), f.mode == Ieee154;
    assert f.crcLen == (if is154 then 2 else 3) && start == (if is154 then 1 else 0);
    hide *;
    if is154 {
      Crc.AppendCrc154(buf, start, end - start, crcInit);
    } else {
      Crc.AppendCrcBle(buf, start, end - start, crcInit);
    }
  }

  /** A supported format in bytes: the header, whose last byte is the length, and the byte that S1 has in RAM alone. */
  lemma InBytes(f: Format)
    requires Supported(f)
    ensures HeaderBytes(f) == RxHeader(f) == (if f.mode == Ieee154 then 1 else 2)
    ensures S1Gap(f) == RxGap(f) == (if f.s1Included then 1 else 0) && (f.mode == Ieee154 ==> S1Gap(f) == 0)
    ensures BytesFor(f.s1Bits) == 0 && f.crcLen == (if f.mode == Ieee154 then 2 else 3)
  {
  }

  /** The length byte, less the CRC when that is included. */
  function LengthIn(f: Format, field: bv8): int {
    if f.crcIncluded then field as int - f.crcLen else field as int
  }

  lemma LengthInBytes(f: Format, packet: Bytes)
    requires Supported(f) && |packet| >= HeaderBytes(f)
    ensures var l := LengthIn(f, packet[if f.mode == Ieee154 then 0 else 1]);
      PayloadLength(f, packet) == if l < 0 then None else Some(l)
  {
    var field := packet[S0Len(f)..HeaderBytes(f)];
    assert field == [packet[if f.mode == Ieee154 then 0 else 1]];
    assert Number(field[1..]) == 0;
  }

  /** A packet is sent if and only if its length byte, less the CRC, is no number below zero and no more than MAXLEN.
      What is on the air then is the header in RAM, the payload, which in RAM may follow the byte of S1, and the CRC: in
      BLE that of header and payload, in 802.15.4 that of the payload alone. */
  method Send(f: Format, ram: array<bv8>, air: array<bv8>, crcInit: bv32) returns (length: Option<nat>)
    requires Supported(f) && ram != air && ram.Length >= HeaderBytes(f) && air.Length >= HeaderBytes(f) + f.crcLen
    requires Fits(f, ram[..], ram.Length - S1Gap(f)) && Fits(f, ram[..], air.Length - f.crcLen)
    modifies air
    ensures var l := LengthIn(f, ram[if f.mode == Ieee154 then 0 else 1]);
      length == if 0 <= l <= f.maxLen then Some(l) else None
    ensures length.Some? && f.mode == Ieee154 ==> var n := length.value;
      && 3 + n <= air.Length && 1 + n <= ram.Length
      && air[..1 + n] == ram[..1 + n]
      && Crc.MessageBits(air[1 + n..3 + n])
         == LongDivision(Crc.POLY_154, Augmented(Crc.Init154(crcInit), Crc.MessageBits(air[1..1 + n])))
    ensures length.Some? && f.mode != Ieee154 ==> var n, gap := length.value, if f.s1Included then 1 else 0;
      && 5 + n <= air.Length && 2 + gap + n <= ram.Length
      && air[..2] == ram[..2] && air[2..2 + n] == ram[2 + gap..2 + gap + n]
      && Crc.MessageBits(air[2 + n..5 + n])
         == LongDivision(Crc.POLY_BLE, Augmented(Crc.InitBle(crcInit), Crc.MessageBits(air[0..2 + n])))
  {
    hide *;
    InBytes(f);
    FitsMore(f, ram[..], air.Length - f.crcLen, air.Length);
    length := TxCopyPayload(f, ram, air);
    OnAirInBytes(f, ram[..]);
    if length.Some? {
      ghost var packet, h, n := ram[..], HeaderBytes(f), length.value;
      ghost var sent := air[..h + n];
      AppendCrc(f, air, HeaderBytes(f) + length.value, crcInit);
      assert ram[..] == packet && air[..][..h + n] == air[..h + n] == sent;
      SplitAt(sent, air[..], packet, h, S1Gap(f), n);
      assert air[..][..h] == air[..h] && air[..][h..h + n] == air[h..h + n];
      assert packet[..h] == ram[..h] && packet[h + S1Gap(f)..h + S1Gap(f) + n] == ram[h + S1Gap(f)..h + S1Gap(f) + n];
      assert S1Gap(f) == 0 ==> packet[..h + n] == ram[..h + n];
    }
  }

  lemma FitsMore(f: Format, packet: Bytes, size: int, more: int)
    requires |packet| >= HeaderBytes(f) && Fits(f, packet, size) && size <= more
    ensures Fits(f, packet, more)
    ensures PayloadLength(f, packet).Some? ==>
      HeaderBytes(f) + PayloadLength(f, packet).value + BytesFor(f.s1Bits) <= size
  {
    hide PayloadLength, HeaderBytes;
  }

  lemma OnAirInBytes(f: Format, ram: Bytes)
    requires Supported(f) && |ram| >= HeaderBytes(f) && Fits(f, ram, |ram| - S1Gap(f))
    ensures var h, gap, l := HeaderBytes(f), S1Gap(f), LengthIn(f, ram[if f.mode == Ieee154 then 0 else 1]);
      && (OnAir(f, ram).Some? <==> 0 <= l <= f.maxLen)
      && (OnAir(f, ram).Some? ==>
            && PayloadLength(f, ram) == Some(l) && h + gap + l <= |ram|
            && OnAir(f, ram).value == ram[..h] + ram[h + gap..h + gap + l])
  {
    InBytes(f);
    LengthInBytes(f, ram);
    hide PayloadLength, HeaderBytes, S1Gap, BytesFor, LengthIn;
  }

  /** The two parts of what is sent, seen in the whole buffer. */
  lemma SplitAt(sent: Bytes, air: Bytes, ram: Bytes, h: nat, gap: nat, n: nat)
    requires h + gap + n <= |ram| && sent == ram[..h] + ram[h + gap..h + gap + n]
    requires h + n <= |air| && air[..h + n] == sent
    ensures air[..h] == ram[..h] && air[h..h + n] == ram[h + gap..h + gap + n]
    ensures gap == 0 ==> air[..h + n] == ram[..h + n]
  {
    assert air[..h] == air[..h + n][..h] && air[h..h + n] == air[..h + n][h..];
    assert gap == 0 ==> ram[..h + n] == ram[..h] + ram[h..h + n];
  }

  /** The payload length that counts: what the length byte says, less the CRC, and no more than MAXLEN. */
  lemma TruncatedInBytes(f: Format, heard: Bytes)
    requires Supported(f) && |heard| >= HeaderBytes(f) && PayloadLength(f, heard).Some?
    ensures var l := LengthIn(f, heard[if f.mode == Ieee154 then 0 else 1]);
      l >= 0 && Truncated(f, heard) == (if l > f.maxLen then f.maxLen else l)
  {
    LengthInBytes(f, heard);
    hide PayloadLength;
  }

  /** Where what was heard is stored, provided that the Phy heard at least a header and a CRC: the header first, and the
      payload behind it, or behind the byte of S1, which stays. In 802.15.4 the link quality follows, in any case.
      Everything else in RAM stays. */
  lemma StoredParts(f: Format, heard: Bytes, packetSize: nat, lqi: bv8, ram: Bytes)
    requires CanStore(f, heard, ram)
    ensures var h, gap := if f.mode == Ieee154 then 1 else 2, if f.s1Included then 1 else 0;
      var n := Truncated(f, heard);
      var r, end := Stored(f, heard, packetSize, lqi, ram), h + gap + n;
      && |r| == |ram| && end + (if f.mode == Ieee154 then 1 else 0) <= |r| && h + n <= |heard|
      && (packetSize >= h + f.crcLen ==>
            r[..h] == heard[..h] && r[h..h + gap] == ram[h..h + gap] && r[h + gap..end] == heard[h..h + n])
      && (packetSize < h + f.crcLen ==> r[..end] == ram[..end])
      && (if f.mode == Ieee154 then r[end] == lqi && r[end + 1..] == ram[end + 1..] else r[end..] == ram[end..])
  {
    hide *;
    RoomFor(f, heard, lqi, ram);
    InBytes(f);
    StoredIs(f, heard, packetSize, lqi, ram);
    TrailerIs(f, lqi);
    var h, gap, n := RxHeader(f), RxGap(f), Truncated(f, heard);
    TwoParts(ram, heard[..h], gap, heard[h..h + n]);
    var copied := if packetSize < h + f.crcLen then ram
                  else Spliced(Spliced(ram, 0, heard[..h]), h + gap, heard[h..h + n]);
    Behind(copied, h, gap, n, Trailer(f, lqi));
  }

  lemma TrailerIs(f: Format, lqi: bv8)
    ensures Trailer(f, lqi) == if f.mode == Ieee154 then [lqi] else []
  {
  }

  /** A packet that is sent and heard without errors is stored as it was: the header, and the payload behind the byte of
      S1, if there is one. */
  lemma SentIsStored(f: Format, packet: Bytes, heard: Bytes, packetSize: nat, lqi: bv8, ram: Bytes)
    requires Supported(f) && |packet| >= HeaderBytes(f) && OnAir(f, packet).Some?
    requires OnAir(f, packet).value <= heard && packetSize >= HeaderBytes(f) + f.crcLen
    requires |heard| >= RxHeader(f) + f.maxLen
    requires |ram| >= RxHeader(f) + RxGap(f) + f.maxLen + |Trailer(f, lqi)|
    ensures CanStore(f, heard, ram)
    ensures var h, gap := if f.mode == Ieee154 then 1 else 2, if f.s1Included then 1 else 0;
      var n := LengthIn(f, packet[h - 1]);
      var r := Stored(f, heard, packetSize, lqi, ram);
      && n >= 0 && |packet| >= h + gap + n && |r| >= h + gap + n
      && r[..h] == packet[..h] && r[h + gap..h + gap + n] == packet[h + gap..h + gap + n]
      && (f.mode == Ieee154 ==> |r| > h + gap + n && r[h + gap + n] == lqi)
  {
    hide *;
    InBytes(f);
    CanBeStored(f, packet, heard, lqi, ram);
    HeardIsSent(f, packet, heard);
    LengthInBytes(f, packet);
    StoredParts(f, heard, packetSize, lqi, ram);
  }

  lemma CanBeStored(f: Format, packet: Bytes, heard: Bytes, lqi: bv8, ram: Bytes)
    requires Supported(f) && |packet| >= HeaderBytes(f) && OnAir(f, packet).Some?
    requires OnAir(f, packet).value <= heard && |heard| >= RxHeader(f) + f.maxLen
    requires |ram| >= RxHeader(f) + RxGap(f) + f.maxLen + |Trailer(f, lqi)|
    ensures PayloadLength(f, packet).Some? && CanStore(f, heard, ram) && |heard| >= HeaderBytes(f)
    ensures Truncated(f, heard) == PayloadLength(f, packet).value
  {
    HeardIsSent(f, packet, heard);
    hide PayloadLength, HeaderBytes, RxHeader, RxGap, BytesFor;
  }

  lemma Within(s: Bytes, m: nat, a: nat, b: nat)
    requires a <= b <= m <= |s|
    ensures s[..m][a..b] == s[a..b] && (a == 0 ==> s[a..b] == s[..b])
  {
  }

  lemma Behind(s: Bytes, h: nat, gap: nat, n: nat, x: Bytes)
    requires h + gap + n + |x| <= |s|
    ensures var r, m := Spliced(s, h + gap + n, x), h + gap + n;
      && r[..m] == s[..m] && r[..h] == s[..h] && r[h..h + gap] == s[h..h + gap] && r[h + gap..m] == s[h + gap..m]
      && r[m..m + |x|] == x && r[m + |x|..] == s[m + |x|..] && (x != [] ==> r[m] == x[0])
  {
    var r, m := Spliced(s, h + gap + n, x), h + gap + n;
    Within(r, m, 0, h);
    Within(s, m, 0, h);
    Within(r, m, h, h + gap);
    Within(s, m, h, h + gap);
    Within(r, m, h + gap, m);
    Within(s, m, h + gap, m);
    if x != [] {
      assert r[m] == r[m..m + |x|][0];
    }
  }

  lemma HeardIsSent(f: Format, packet: Bytes, heard: Bytes)
    requires Supported(f) && |packet| >= HeaderBytes(f) && OnAir(f, packet).Some? && OnAir(f, packet).value <= heard
    ensures var h, gap, n := HeaderBytes(f), S1Gap(f), PayloadLength(f, packet).value;
      && h + n <= |heard| && h + gap + n <= |packet| && n <= f.maxLen
      && heard[..h] == packet[..h] && heard[h..h + n] == packet[h + gap..h + gap + n]
      && PayloadLength(f, heard) == Some(n)
  {
    var h, sent := HeaderBytes(f), OnAir(f, packet).value;
    assert heard[..h] == sent[..h] == packet[..h];
    HeaderDecides(f, heard, packet);
    var n := PayloadLength(f, packet).value;
    assert heard[h..h + n] == sent[h..h + n];
  }

  lemma TwoParts(s: Bytes, x: Bytes, gap: nat, y: Bytes)
    requires |x| + gap + |y| <= |s|
    ensures var h, end := |x|, |x| + gap + |y|;
      var r := Spliced(Spliced(s, 0, x), h + gap, y);
      && |r| == |s| && r[..h] == x && r[h..h + gap] == s[h..h + gap] && r[h + gap..end] == y && r[end..] == s[end..]
      && forall i :: end <= i <= |s| ==> r[i..] == s[i..]
  {
    var q, h := Spliced(s, 0, x), |x|;
    var r := Spliced(q, h + gap, y);
    var end := h + gap + |y|;
    assert r[..h] == r[..h + gap][..h] && q[..h] == q[..h + gap][..h];
    assert r[h..h + gap] == r[..h + gap][h..] && q[h..h + gap] == q[..h + gap][h..];
    assert q[h..h + gap] == q[h..][..gap] && s[h..h + gap] == s[h..][..gap];
    forall i | end <= i <= |s|
      ensures r[i..] == s[i..]
    {
      assert r[i..] == r[end..][i - end..] && q[i..] == q[end..][i - end..];
      assert q[i..] == q[h..][i - h..] && s[i..] == s[h..][i - h..];
    }
  }

  lemma HeaderDecides(f: Format, a: Bytes, b: Bytes)
    requires |a| >= HeaderBytes(f) && |b| >= HeaderBytes(f) && a[..HeaderBytes(f)] == b[..HeaderBytes(f)]
    ensures PayloadLength(f, a) == PayloadLength(f, b)
  {
    var h := HeaderBytes(f);
    assert a[S0Len(f)..h] == a[..h][S0Len(f)..] && b[S0Len(f)..h] == b[..h][S0Len(f)..];
  }
}

/**
 Modulations, packet formats and delays of the RADIO. All times are microseconds.
 */
module RadioTimings {

  /** The supported values of MODE; `Unsupported` stands for every other value. */
  datatype Mode = Ble1M | Ble2M | Ieee154 | Unsupported

  /** Index into the timing tables: whatever is neither 2 Mbps nor 802.15.4 uses the first entry. */
  function ModeIndex(mode: Mode): nat {
    match mode
    case Ble2M => 1
    case Ieee154 => 2
    case _ => 0
  }

  // Ramp-up times, per modulation: fast; normal; normal within an automatic turnaround.
  const TX_RAMP_UP_FAST: seq<int> := [41, 40, 40]
  const TX_RAMP_UP_NORMAL: seq<int> := [130, 129, 129]
  const TX_RAMP_UP_TIFS: seq<int> := [141, 140, 130]
  const RX_RAMP_UP_FAST: seq<int> := [40, 40, 40]
  const RX_RAMP_UP_NORMAL: seq<int> := [129, 129, 129]
  const RX_RAMP_UP_TIFS: seq<int> := [140, 140, 130]

  const TX_CHAIN_DELAY: int := 1
  const RX_CHAIN_DELAY: seq<int> := [9, 5, 22]
  const TX_RAMP_DOWN: seq<int> := [6, 6, 21]
  const RX_RAMP_DOWN: int := 0

  function RxChainDelay(mode: Mode): int {
    RX_CHAIN_DELAY[ModeIndex(mode)]
  }

  function TxRampDown(mode: Mode): int {
    TX_RAMP_DOWN[ModeIndex(mode)]
  }

  /** The turnaround variant only exists for normal ramp-up. */
  function RampUp(txNotRx: bool, mode: Mode, fast: bool, hwTifs: bool): int {
    var i := ModeIndex(mode);
    if txNotRx then
      if fast then TX_RAMP_UP_FAST[i] else if hwTifs then TX_RAMP_UP_TIFS[i] else TX_RAMP_UP_NORMAL[i]
    else
      if fast then RX_RAMP_UP_FAST[i] else if hwTifs then RX_RAMP_UP_TIFS[i] else RX_RAMP_UP_NORMAL[i]
  }

  // ---------- Durations on air ----------

  /** Bit rate in bits per four microseconds: 1 Mbps, 2 Mbps or 250 kbps. */
  type Rate = r: nat | r > 0 witness 4

  function BitsPer4us(mode: Mode): Rate {
    match mode
    case Ble2M => 8
    case Ieee154 => 1
    case _ => 4
  }

  /** Air time of a number of bits, truncated to microseconds. */
  function AirTime(rate: Rate, bits: nat): nat {
    bits * 4 / rate
  }

  /** Preamble, address and header lengths in bytes. */
  function PreambleLen(mode: Mode): nat {
    match mode
    case Ble2M => 2
    case Ieee154 => 4
    case _ => 1
  }

  function AddressLen(mode: Mode): nat {
    if mode == Ieee154 then 1 else 4
  }

  function HeaderLen(mode: Mode): nat {
    if mode == Ieee154 then 1 else 2
  }

  /** The whole packet on air, from the preamble to the CRC. */
  function PacketDuration(mode: Mode, payloadLen: nat, crcLen: nat): nat {
    var bits := (PreambleLen(mode) + AddressLen(mode)) * 8 + (HeaderLen(mode) + payloadLen) * 8 + crcLen * 8;
    AirTime(BitsPer4us(mode), bits)
  }

  /** The address, payload and CRC intervals add up to the packet: whole bytes never lose a fraction of a
      microsecond. */
  lemma IntervalsAddUp(mode: Mode, payloadLen: nat, crcLen: nat)
    ensures AirTime(BitsPer4us(mode), (PreambleLen(mode) + AddressLen(mode)) * 8)
          + AirTime(BitsPer4us(mode), (HeaderLen(mode) + payloadLen) * 8)
          + AirTime(BitsPer4us(mode), crcLen * 8)
         == PacketDuration(mode, payloadLen, crcLen)
  {
    WholeBytes(mode, PreambleLen(mode) + AddressLen(mode));
    WholeBytes(mode, HeaderLen(mode) + payloadLen);
    WholeBytes(mode, crcLen);
    WholeBytes(mode, PreambleLen(mode) + AddressLen(mode) + HeaderLen(mode) + payloadLen + crcLen);
  }

  lemma WholeBytes(mode: Mode, bytes: nat)
    ensures AirTime(BitsPer4us(mode), bytes * 8) == bytes * (32 / BitsPer4us(mode))
  {
    match mode
    case Ble2M => assert bytes * 8 * 4 / 8 == bytes * 4;
    case Ieee154 =>
    case _ => assert bytes * 8 * 4 / 4 == bytes * 8;
  }
}

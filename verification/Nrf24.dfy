/** The nRF24 driver over a register file that keeps what is written, and the V1 station's use of it. */
module Nrf24 {
  import opened Bits
  import opened Packet

  const CONFIG := 0x00
  const EN_AA := 0x01
  const EN_RXADDR := 0x02
  const SETUP_AW := 0x03
  const SETUP_RETR := 0x04
  const RF_CH := 0x05
  const RF_SETUP := 0x06
  const RX_PW_P0 := 0x11
  const DYNPD := 0x1C
  const FEATURE := 0x1D
  const REGISTERS := 0x20

  const CONFIG_POWERED_DOWN: uint8 := 0x0C
  const CONFIG_TRANSMIT: uint8 := 0x0E
  const CONFIG_RECEIVE: uint8 := 0x0F
  const SETUP_RETR_VALUE: uint8 := 0x2F
  const PAYLOAD_SIZE: uint8 := 32
  const RF_CHANNEL: uint8 := 76
  const CHANNELS := 126

  type Address = a: seq<uint8> | |a| == 5 witness [0, 0, 0, 0, 0]
  type RegisterFile = r: seq<uint8> | |r| == REGISTERS witness seq(REGISTERS, _ => 0)

  datatype Shot = Shot(address: Address, payload: PacketBytes)

  /**
   * The CE pin, the one-byte registers, the two multi-byte ones, and the transmit FIFO; aired is history, the
   * payloads a pulse on CE has put on the air and the addresses they went to.
   */
  datatype Chip = Chip(
    ce: bool, regs: RegisterFile, rxAddress: Address, txAddress: Address,
    txFifo: seq<PacketBytes>, aired: seq<Shot>)

  function StationAddress(id: uint8): Address {
    [0xD7, 0x31, 0x56, 0x52, id]
  }

  /** RF_SETUP & ~0x06 and (RF_SETUP & 0x06) >> 1. */
  function OtherBits(b: uint8): uint8 {
    b - 2 * (b / 2 % 4)
  }

  function PowerBits(b: uint8): uint8 {
    b / 2 % 4
  }

  /** channel & 0x7F. */
  function ChannelBits(channel: uint8): uint8 {
    channel % 0x80
  }

  predicate ConfigOk(c: Chip, channel: uint8) {
    && c.regs[EN_AA] == 1 && c.regs[EN_RXADDR] == 1 && c.regs[SETUP_AW] == 3
    && c.regs[SETUP_RETR] == SETUP_RETR_VALUE
    && c.regs[RF_CH] == ChannelBits(channel)
    && OtherBits(c.regs[RF_SETUP]) == 0
    && c.regs[RX_PW_P0] == PAYLOAD_SIZE
  }

  // ---------------------------------------------------------------------------
  // What the driver's operations do
  // ---------------------------------------------------------------------------

  function LinkRegisters(r: RegisterFile): RegisterFile {
    r[CONFIG := CONFIG_POWERED_DOWN][EN_AA := 1][EN_RXADDR := 1][SETUP_AW := 3][SETUP_RETR := SETUP_RETR_VALUE]
  }

  function Initialized(c: Chip, channel: uint8): Chip {
    c.(ce := false, txFifo := [],
       regs := LinkRegisters(c.regs)[RF_CH := ChannelBits(channel)][RF_SETUP := 0][RX_PW_P0 := PAYLOAD_SIZE]
               [DYNPD := 0][FEATURE := 0][CONFIG := CONFIG_TRANSMIT])
  }

  function OnChannel(c: Chip, channel: uint8): Chip {
    c.(ce := false, regs := c.regs[RF_CH := ChannelBits(channel)])
  }

  function WithPower(c: Chip, level: uint8): Chip {
    c.(regs := c.regs[RF_SETUP := OtherBits(c.regs[RF_SETUP]) + 2 * (level % 4)])
  }

  function Listening(c: Chip, address: Address): Chip {
    c.(ce := true, rxAddress := address, regs := c.regs[CONFIG := CONFIG_RECEIVE])
  }

  /** Powered up (PWR_UP, bit 1) and not receiving (PRIM_RX, bit 0). */
  predicate Transmits(config: uint8) {
    config % 4 == 2
  }

  /** What a pulse on CE puts on the air: the head of the FIFO, if the chip transmits. */
  function PutOnAir(config: uint8, address: Address, fifo: seq<PacketBytes>): seq<Shot> {
    if fifo == [] || !Transmits(config) then [] else [Shot(address, fifo[0])]
  }

  /** Whatever the FIFO held, the payload alone goes out, and the FIFO is left empty. */
  function Sending(c: Chip, address: Address, payload: PacketBytes): Chip {
    c.(ce := false, rxAddress := address, txAddress := address, regs := c.regs[CONFIG := CONFIG_TRANSMIT],
       txFifo := [], aired := c.aired + PutOnAir(CONFIG_TRANSMIT, address, [payload]))
  }

  function Measuring(c: Chip, channel: uint8): Chip {
    c.(ce := false, regs := c.regs[RF_CH := ChannelBits(channel)][CONFIG := CONFIG_RECEIVE])
  }

  function Receiving(c: Chip, id: uint8): Chip {
    Listening(OnChannel(c, RF_CHANNEL), StationAddress(id))
  }

  /** Setting the power replaces bits 1 and 2 of RF_SETUP, the sixth and seventh from the top, and no other bit. */
  lemma PowerSet(c: Chip, level: uint8, bit: nat)
    requires bit < 8
    ensures var before, after := c.regs[RF_SETUP], WithPower(c, level).regs[RF_SETUP];
            && PowerBits(after) == level % 4
            && (bit != 5 && bit != 6 ==> ByteBits(after)[bit] == ByteBits(before)[bit])
    ensures WithPower(c, level).ce == c.ce
  {
    var before := c.regs[RF_SETUP];
    PowerArithmetic(before, level % 4);
    if bit != 5 && bit != 6 {
      SameOuterBits(before, OtherBits(before) + 2 * (level % 4), bit);
    }
  }

  lemma PowerArithmetic(b: uint8, p: nat)
    requires p < 4
    ensures var after := OtherBits(b) + 2 * p;
            after < 0x100 && after % 2 == b % 2 && after / 8 == b / 8 && after / 2 % 4 == p
  {
    assert b == 8 * (b / 8) + 2 * (b / 2 % 4) + b % 2;
  }

  lemma SameOuterBits(a: uint8, b: uint8, bit: nat)
    requires a % 2 == b % 2 && a / 8 == b / 8 && (bit < 5 || bit == 7)
    ensures ByteBits(a)[bit] == ByteBits(b)[bit]
  {
    HighBits(a);
    HighBits(b);
    if bit < 5 {
      assert ByteBits(a)[bit] == ByteBits(a)[..5][bit] && ByteBits(b)[bit] == ByteBits(b)[..5][bit];
    }
  }

  lemma HighBits(b: uint8)
    ensures ByteBits(b)[..5] == BitsOf(b / 8, 5) && ByteBits(b)[7] == (b % 2 == 1)
  {
    assert Pow2(3) == 8;
    BitsSplit(b / 8, b % 8, 5, 3);
  }

  // ---------------------------------------------------------------------------
  // Transmission results
  // ---------------------------------------------------------------------------

  datatype SendResult = SendOk | MaxRetries | SendTimeout

  predicate DataSent(status: uint8) {
    status / 0x20 % 2 == 1
  }

  predicate RetriesUsedUp(status: uint8) {
    status / 0x10 % 2 == 1
  }

  /** TX_DS is bit 5 of the status and MAX_RT bit 4. */
  lemma StatusBits(status: uint8)
    ensures DataSent(status) <==> status % 64 >= 32
    ensures RetriesUsedUp(status) <==> status % 32 >= 16
  {
  }

  /** The first status read before the deadline that settles the transmission decides. */
  predicate Settles(statuses: seq<uint8>, result: SendResult) {
    if statuses == [] then result == SendTimeout
    else if DataSent(statuses[0]) then result == SendOk
    else if RetriesUsedUp(statuses[0]) then result == MaxRetries
    else Settles(statuses[1..], result)
  }

  /** All registers but those at the given addresses are the same. */
  predicate SameBut(a: RegisterFile, b: RegisterFile, changed: set<int>) {
    forall i :: 0 <= i < REGISTERS && i !in changed ==> a[i] == b[i]
  }

  /** CHANNEL & 0x7F as a number. */
  lemma SevenBits(channel: uint8)
    ensures ChannelBits(channel) == if channel < 128 then channel else channel - 128
  {
  }

  /** Initialisation, register by register, with the chip powered down at first; no other register is touched. */
  lemma InitializedRegisters(c: Chip, channel: uint8)
    ensures var d := Initialized(c, channel);
            && !d.ce && d.txFifo == [] && d.rxAddress == c.rxAddress && d.txAddress == c.txAddress
            && d.aired == c.aired
            && d.regs[0x00] == 0x0E && d.regs[0x01] == 1 && d.regs[0x02] == 1 && d.regs[0x03] == 3
            && d.regs[0x04] == 0x2F && d.regs[0x05] == ChannelBits(channel) && d.regs[0x06] == 0
            && d.regs[0x11] == 32 && d.regs[0x1C] == 0 && d.regs[0x1D] == 0
            && SameBut(c.regs, d.regs, {0x00, 0x01, 0x02, 0x03, 0x04, 0x05, 0x06, 0x11, 0x1C, 0x1D})
            && LinkRegisters(c.regs)[0x00] == 0x0C
  {
  }

  /** The registers and pins each other operation sets; the rest is as it was. */
  lemma OperationRegisters(c: Chip, channel: uint8, address: Address, payload: PacketBytes)
    ensures var d := OnChannel(c, channel);
            d == c.(ce := false, regs := d.regs) && d.regs[0x05] == ChannelBits(channel)
            && SameBut(c.regs, d.regs, {0x05})
    ensures var d := Listening(c, address);
            d == c.(ce := true, rxAddress := address, regs := d.regs) && d.regs[0x00] == 0x0F
            && SameBut(c.regs, d.regs, {0x00})
    ensures var d := Measuring(c, channel);
            d == c.(ce := false, regs := d.regs) && d.regs[0x00] == 0x0F && d.regs[0x05] == ChannelBits(channel)
            && SameBut(c.regs, d.regs, {0x00, 0x05})
    ensures var d := Sending(c, address, payload);
            d == c.(ce := false, rxAddress := address, txAddress := address, regs := d.regs, txFifo := [],
                    aired := c.aired + [Shot(address, payload)])
            && d.regs[0x00] == 0x0E && SameBut(c.regs, d.regs, {0x00})
  {
  }

  /** The number of samples with energy detected. */
  lemma {:induction false} CountIs(hits: seq<bool>)
    ensures Count(hits) == |set i | 0 <= i < |hits| && hits[i]|
  {
    if hits != [] {
      var n := |hits| - 1;
      CountIs(hits[..n]);
      var before, after := set i | 0 <= i < n && hits[..n][i], set i | 0 <= i < |hits| && hits[i];
      assert after == if hits[n] then before + {n} else before;
    }
  }

  function Count(hits: seq<bool>): nat {
    if hits == [] then 0 else Count(hits[..|hits| - 1]) + if hits[|hits| - 1] then 1 else 0
  }

  lemma {:induction false} CountBounded(hits: seq<bool>)
    ensures Count(hits) <= |hits|
  {
    if hits != [] {
      CountBounded(hits[..|hits| - 1]);
    }
  }

  class Radio {
    var ce: bool
    const registers: array<uint8>
    var rxAddress: Address
    var txAddress: Address
    var txFifo: seq<PacketBytes>
    ghost var aired: seq<Shot>

    ghost predicate Valid()
      reads this
    {
      registers.Length == REGISTERS
    }

    ghost function Value(): Chip
      requires Valid()
      reads this, registers
    {
      Chip(ce, registers[..], rxAddress, txAddress, txFifo, aired)
    }

    /** The chip's contents at power-on are not assumed. */
    constructor (regs: RegisterFile, rx: Address, tx: Address, fifo: seq<PacketBytes>)
      ensures Valid() && fresh(registers) && Value() == Chip(false, regs, rx, tx, fifo, [])
    {
      ce := false;
      registers := new uint8[REGISTERS](i requires 0 <= i < REGISTERS => regs[i]);
      rxAddress, txAddress, txFifo, aired := rx, tx, fifo, [];
    }

    method Init(channel: uint8) returns (found: bool)
      requires Valid()
      modifies this, registers
      ensures Valid() && Value() == Initialized(old(Value()), channel) && found
    {
      ce := false;
      WriteLinkRegisters();
      registers[RF_CH] := ChannelBits(channel);
      registers[RF_SETUP] := 0;
      registers[RX_PW_P0] := PAYLOAD_SIZE;
      registers[DYNPD] := 0;
      registers[FEATURE] := 0;
      FlushTx();
      registers[CONFIG] := CONFIG_TRANSMIT;
      found := CheckConfig(channel);
    }

    /** Powered down, with acknowledgements, addresses and retries set up. */
    method WriteLinkRegisters()
      requires Valid()
      modifies registers
      ensures registers[..] == LinkRegisters(old(registers[..]))
    {
      registers[CONFIG] := CONFIG_POWERED_DOWN;
      registers[EN_AA] := 1;
      registers[EN_RXADDR] := 1;
      registers[SETUP_AW] := 3;
      registers[SETUP_RETR] := SETUP_RETR_VALUE;
    }

    method CheckConfig(channel: uint8) returns (ok: bool)
      requires Valid()
      ensures ok == ConfigOk(Value(), channel)
    {
      ok := registers[EN_AA] == 1 && registers[EN_RXADDR] == 1 && registers[SETUP_AW] == 3
            && registers[SETUP_RETR] == SETUP_RETR_VALUE && registers[RF_CH] == ChannelBits(channel)
            && OtherBits(registers[RF_SETUP]) == 0 && registers[RX_PW_P0] == PAYLOAD_SIZE;
    }

    method SetChannel(channel: uint8)
      requires Valid()
      modifies this, registers
      ensures Valid() && Value() == OnChannel(old(Value()), channel)
    {
      ce := false;
      registers[RF_CH] := ChannelBits(channel);
    }

    method SetTxPower(level: uint8)
      requires Valid()
      modifies this, registers
      ensures Valid() && Value() == WithPower(old(Value()), level)
    {
      var wasListening := ce;
      ce := false;
      var rfSetup := registers[RF_SETUP];
      registers[RF_SETUP] := OtherBits(rfSetup) + 2 * (level % 4);
      if wasListening {
        ce := true;
      }
    }

    method GetTxPower() returns (level: uint8)
      requires Valid()
      ensures level == PowerBits(Value().regs[RF_SETUP])
    {
      level := PowerBits(registers[RF_SETUP]);
    }

    method StartListening(address: Address)
      requires Valid()
      modifies this, registers
      ensures Valid() && Value() == Listening(old(Value()), address)
    {
      ce := false;
      rxAddress := address;
      registers[CONFIG] := CONFIG_RECEIVE;
      ce := true;
    }

    method FlushTx()
      modifies this`txFifo
      ensures txFifo == []
    {
      txFifo := [];
    }

    /** A pulse on CE puts the head of the FIFO on the air; an acknowledgement takes it out. */
    method Pulse()
      requires Valid()
      modifies this`ce, this`aired
      ensures !ce && aired == old(aired) + PutOnAir(registers[CONFIG], txAddress, txFifo)
    {
      ce := true;
      aired := aired + PutOnAir(registers[CONFIG], txAddress, txFifo);
      ce := false;
    }

    /** The statuses are those the polling loop reads before its deadline. */
    method Send(address: Address, payload: PacketBytes, statuses: seq<uint8>, observeTx: uint8)
      returns (result: SendResult, retransmits: uint8, lost: uint8)
      requires Valid()
      modifies this, registers
      ensures Valid() && Value() == Sending(old(Value()), address, payload)
      ensures Settles(statuses, result)
      ensures retransmits < 16 && observeTx == 16 * lost + retransmits
    {
      result := SendTimeout;
      ce := false;
      registers[CONFIG] := CONFIG_TRANSMIT;
      txAddress := address;
      rxAddress := address;
      FlushTx();
      txFifo := txFifo + [payload];
      Pulse();
      var i := 0;
      while i < |statuses|
        invariant 0 <= i <= |statuses| && result == SendTimeout
        invariant forall r :: Settles(statuses[i..], r) ==> Settles(statuses, r)
        modifies {}
      {
        assert statuses[i..][1..] == statuses[i + 1..];
        if DataSent(statuses[i]) {
          result := SendOk;
          break;
        }
        if RetriesUsedUp(statuses[i]) {
          result := MaxRetries;
          break;
        }
        i := i + 1;
      }
      assert Settles(statuses[i..], result);
      if result == SendOk {
        txFifo := txFifo[1..];
      }
      retransmits := observeTx % 16;
      lost := observeTx / 16;
      if result != SendOk {
        FlushTx();
      }
    }

    /** rpd holds the receive-power reading after each sample. */
    method MeasureChannelNoise(channel: uint8, rpd: seq<bool>) returns (detected: nat)
      requires Valid()
      modifies this, registers
      ensures Valid() && Value() == Measuring(old(Value()), channel)
      ensures detected == Count(rpd)
    {
      ce := false;
      registers[RF_CH] := ChannelBits(channel);
      registers[CONFIG] := CONFIG_RECEIVE;
      detected := 0;
      for sample := 0 to |rpd|
        invariant Value() == Measuring(old(Value()), channel) && detected == Count(rpd[..sample])
      {
        ce := true;
        ce := false;
        assert rpd[..sample + 1][..sample] == rpd[..sample];
        if rpd[sample] {
          detected := detected + 1;
        }
      }
      assert rpd[..|rpd|] == rpd;
    }

    // -------------------------------------------------------------------------
    // The station
    // -------------------------------------------------------------------------

    method StartStationReceiver(id: uint8)
      requires Valid()
      modifies this, registers
      ensures Valid() && Value() == Receiving(old(Value()), id)
    {
      SetChannel(RF_CHANNEL);
      StartListening(StationAddress(id));
    }

    /** send_command and the answering path: a transmission, and the receiver restarted whatever its result. */
    method TransmitAndListen(
      id: uint8, destination: uint8, packet: PacketBytes, statuses: seq<uint8>, observeTx: uint8)
      returns (result: SendResult)
      requires Valid()
      modifies this, registers
      ensures Valid() && Value() == Receiving(Sending(old(Value()), StationAddress(destination), packet), id)
      ensures Settles(statuses, result)
    {
      var retransmits, lost;
      result, retransmits, lost := Send(StationAddress(destination), packet, statuses, observeTx);
      StartStationReceiver(id);
    }

    /** Every channel measured once, then the receiver restarted; the result is summed up in one pass. */
    method ScanRfChannels(id: uint8, rpd: seq<seq<bool>>)
      returns (detected: seq<nat>, occupied: nat, peakChannel: nat, peakHits: nat)
      requires Valid() && |rpd| == CHANNELS
      modifies this, registers
      ensures Valid() && Value() == Receiving(Scanned(old(Value()), CHANNELS), id)
      ensures |detected| == 126 && forall c :: 0 <= c < 126 ==> detected[c] == Count(rpd[c])
      ensures Summarizes(detected, occupied, peakChannel, peakHits)
    {
      detected, occupied, peakChannel, peakHits := [], 0, 0, 0;
      assert Busy([]) == {};
      for channel := 0 to CHANNELS
        invariant Value() == Scanned(old(Value()), channel)
        invariant |detected| == channel && forall c :: 0 <= c < channel ==> detected[c] == Count(rpd[c])
        invariant Summarizes(detected, occupied, peakChannel, peakHits)
      {
        var hits := MeasureChannelNoise(channel, rpd[channel]);
        SummaryStep(detected, occupied, peakChannel, peakHits, hits);
        detected := detected + [hits];
        if hits != 0 {
          occupied := occupied + 1;
        }
        if hits > peakHits {
          peakHits := hits;
          peakChannel := channel;
        }
      }
      StartStationReceiver(id);
    }
  }

  function Busy(detected: seq<nat>): set<int> {
    set c | 0 <= c < |detected| && detected[c] != 0
  }

  /** The number of busy channels, the most hits on any, and the first channel to have that many. */
  ghost predicate Summarizes(detected: seq<nat>, occupied: nat, peakChannel: nat, peakHits: nat) {
    && occupied == |Busy(detected)|
    && (forall c :: 0 <= c < |detected| ==> detected[c] <= peakHits)
    && (forall c :: 0 <= c < |detected| && c < peakChannel ==> detected[c] < peakHits)
    && (if peakHits == 0 then peakChannel == 0 else peakChannel < |detected| && detected[peakChannel] == peakHits)
  }

  lemma SummaryStep(detected: seq<nat>, occupied: nat, peakChannel: nat, peakHits: nat, hits: nat)
    requires Summarizes(detected, occupied, peakChannel, peakHits)
    ensures Summarizes(detected + [hits], if hits != 0 then occupied + 1 else occupied,
                       if hits > peakHits then |detected| else peakChannel,
                       if hits > peakHits then hits else peakHits)
  {
    var more := detected + [hits];
    assert Busy(more) == if hits != 0 then Busy(detected) + {|detected|} else Busy(detected);
  }

  /** The chip after the first n channels of a scan. */
  function Scanned(c: Chip, n: nat): Chip
    requires n <= CHANNELS
  {
    if n == 0 then c else Measuring(Scanned(c, n - 1), n - 1)
  }

  // ---------------------------------------------------------------------------
  // Every main-loop boundary
  // ---------------------------------------------------------------------------

  /** What a station does with its radio between two rounds of the main loop. */
  datatype Op = Transmit(destination: uint8, packet: PacketBytes) | Scan | SetPower(level: uint8)

  function Apply(c: Chip, id: uint8, op: Op): Chip {
    match op
    case Transmit(destination, packet) => Receiving(Sending(c, StationAddress(destination), packet), id)
    case Scan => Receiving(Scanned(c, CHANNELS), id)
    case SetPower(level) => WithPower(c, level)
  }

  /** Initialisation, the receiver, and the role's start power: 2 on the base, 0 on a remote. */
  function Booted(c: Chip, id: uint8): Chip {
    WithPower(Receiving(Initialized(c, RF_CHANNEL), id), if id == 0 then 2 else 0)
  }

  function Run(c: Chip, id: uint8, ops: seq<Op>): Chip {
    if ops == [] then c else Apply(Run(c, id, ops[..|ops| - 1]), id, ops[|ops| - 1])
  }

  /** Receiving on the station's own address and channel, configuration checked, nothing left to transmit. */
  predicate Home(c: Chip, id: uint8) {
    && c.ce && c.regs[0x00] == 0x0F && c.regs[0x05] == 76 && c.rxAddress == StationAddress(id)
    && c.txFifo == [] && ConfigOk(c, RF_CHANNEL)
  }

  /** A scan touches the channel, the mode and the CE pin only. */
  lemma {:induction false} ScanTouches(c: Chip, n: nat)
    requires 0 < n <= CHANNELS
    ensures Scanned(c, n) ==
            c.(ce := false, regs := c.regs[RF_CH := ChannelBits(n - 1)][CONFIG := CONFIG_RECEIVE])
  {
    if n > 1 {
      ScanTouches(c, n - 1);
      var a, b := ChannelBits(n - 2), ChannelBits(n - 1);
      assert c.regs[RF_CH := a][CONFIG := CONFIG_RECEIVE][RF_CH := b][CONFIG := CONFIG_RECEIVE] ==
             c.regs[RF_CH := b][CONFIG := CONFIG_RECEIVE];
    }
  }

  function LastPower(id: uint8, ops: seq<Op>): uint8 {
    if ops == [] then if id == 0 then 2 else 0
    else if ops[|ops| - 1].SetPower? then ops[|ops| - 1].level % 4
    else LastPower(id, ops[..|ops| - 1])
  }

  /** From any power-on contents, every boundary finds the radio home and at the power last set. */
  lemma {:induction false} AlwaysHome(c: Chip, id: uint8, ops: seq<Op>)
    ensures HomeAt(Run(Booted(c, id), id, ops), id, LastPower(id, ops))
  {
    if ops == [] {
      BootedHome(c, id);
    } else {
      AlwaysHome(c, id, ops[..|ops| - 1]);
      HomeKept(Run(Booted(c, id), id, ops[..|ops| - 1]), id, LastPower(id, ops[..|ops| - 1]), ops[|ops| - 1]);
    }
  }

  predicate HomeAt(c: Chip, id: uint8, level: uint8) {
    Home(c, id) && PowerBits(c.regs[RF_SETUP]) == level
  }

  lemma BootedHome(c: Chip, id: uint8)
    ensures HomeAt(Booted(c, id), id, LastPower(id, []))
  {
    var d := Initialized(c, RF_CHANNEL);
    InitializedOk(c);
    ReceivingHome(d, id);
    PowerKeepsHome(Receiving(d, id), id, LastPower(id, []));
  }

  lemma InitializedOk(c: Chip)
    ensures var d := Initialized(c, RF_CHANNEL);
            ConfigOk(d, RF_CHANNEL) && d.txFifo == []
  {
  }

  /** Restarting the receiver brings the radio home from any channel and mode. */
  lemma ReceivingHome(c: Chip, id: uint8)
    requires c.txFifo == [] && ConfigOk(c.(regs := c.regs[RF_CH := RF_CHANNEL]), RF_CHANNEL)
    ensures Home(Receiving(c, id), id) && Receiving(c, id).regs[RF_SETUP] == c.regs[RF_SETUP]
  {
  }

  lemma PowerKeepsHome(c: Chip, id: uint8, level: uint8)
    requires Home(c, id)
    ensures HomeAt(WithPower(c, level), id, level % 4)
  {
    PowerArithmetic(c.regs[RF_SETUP], level % 4);
  }

  lemma TransmitKeepsHome(c: Chip, id: uint8, level: uint8, address: Address, packet: PacketBytes)
    requires HomeAt(c, id, level)
    ensures HomeAt(Receiving(Sending(c, address, packet), id), id, level)
  {
    var d := Sending(c, address, packet);
    assert d.regs[RF_SETUP] == c.regs[RF_SETUP];
    ReceivingHome(d, id);
  }

  lemma ScanKeepsHome(c: Chip, id: uint8, level: uint8)
    requires HomeAt(c, id, level)
    ensures HomeAt(Receiving(Scanned(c, CHANNELS), id), id, level)
  {
    ScanTouches(c, CHANNELS);
    var channel := ChannelBits(CHANNELS - 1);
    RetunedOk(c, channel);
    ReceivingHome(c.(ce := false, regs := c.regs[RF_CH := channel][CONFIG := CONFIG_RECEIVE]), id);
  }

  lemma RetunedOk(c: Chip, channel: uint8)
    requires ConfigOk(c, RF_CHANNEL)
    ensures var regs := c.regs[RF_CH := channel][CONFIG := CONFIG_RECEIVE];
            && regs[RF_SETUP] == c.regs[RF_SETUP]
            && ConfigOk(c.(ce := false, regs := regs[RF_CH := RF_CHANNEL]), RF_CHANNEL)
  {
  }

  lemma HomeKept(c: Chip, id: uint8, level: uint8, op: Op)
    requires HomeAt(c, id, level)
    ensures HomeAt(Apply(c, id, op), id, if op.SetPower? then op.level % 4 else level)
  {
    match op
    case Transmit(destination, packet) => TransmitKeepsHome(c, id, level, StationAddress(destination), packet);
    case Scan => ScanKeepsHome(c, id, level);
    case SetPower(p) => PowerKeepsHome(c, id, p);
  }

  function Transmissions(ops: seq<Op>): seq<Shot> {
    if ops == [] then []
    else
      var op := ops[|ops| - 1];
      Transmissions(ops[..|ops| - 1]) + if op.Transmit? then [Shot(StationAddress(op.destination), op.packet)] else []
  }

  /** What goes on the air is each packet transmitted, once, to its own destination, whatever failed before it. */
  lemma {:induction false} AiredInOrder(c: Chip, id: uint8, ops: seq<Op>)
    ensures Run(Booted(c, id), id, ops).aired == c.aired + Transmissions(ops)
  {
    var aired := c.aired;
    assert aired + [] == aired;
    if ops != [] {
      var n := |ops| - 1;
      AiredInOrder(c, id, ops[..n]);
      if ops[n].Scan? {
        ScanTouches(Run(Booted(c, id), id, ops[..n]), CHANNELS);
      }
    }
  }

  /** Stations share the first four bytes of their addresses and differ in the last, which is the station's id. */
  lemma AddressesDiffer(a: uint8, b: uint8)
    ensures StationAddress(a)[..4] == StationAddress(b)[..4] == [0xD7, 0x31, 0x56, 0x52]
    ensures StationAddress(a)[4] == a
    ensures StationAddress(a) == StationAddress(b) <==> a == b
  {
  }

  /** The stations the packets were meant for. */
  function Destinations(ops: seq<Op>): seq<uint8> {
    if ops == [] then []
    else
      var op := ops[|ops| - 1];
      Destinations(ops[..|ops| - 1]) + if op.Transmit? then [op.destination] else []
  }

  function Packets(ops: seq<Op>): seq<PacketBytes> {
    if ops == [] then []
    else
      var op := ops[|ops| - 1];
      Packets(ops[..|ops| - 1]) + if op.Transmit? then [op.packet] else []
  }

  lemma {:induction false} ShotAt(ops: seq<Op>, k: nat)
    requires k < |Transmissions(ops)|
    ensures |Destinations(ops)| == |Packets(ops)| == |Transmissions(ops)|
    ensures Transmissions(ops)[k] == Shot(StationAddress(Destinations(ops)[k]), Packets(ops)[k])
  {
    var n := |ops| - 1;
    TransmissionsCount(ops);
    TransmissionsCount(ops[..n]);
    if k < |Transmissions(ops[..n])| {
      ShotAt(ops[..n], k);
    }
  }

  lemma {:induction false} TransmissionsCount(ops: seq<Op>)
    ensures |Destinations(ops)| == |Packets(ops)| == |Transmissions(ops)|
  {
    if ops != [] {
      TransmissionsCount(ops[..|ops| - 1]);
    }
  }

  /**
   * Two stations after any runs: what the one has put on the air is, in order, its packets, and the other's receive
   * address is that of a packet exactly if the packet was meant for it.
   */
  lemma ReachesItsDestination(
    a: Chip, sender: uint8, sent: seq<Op>, b: Chip, receiver: uint8, ops: seq<Op>, k: nat)
    requires k < |Destinations(sent)|
    ensures var s, r, n := Run(Booted(a, sender), sender, sent), Run(Booted(b, receiver), receiver, ops), |a.aired|;
            && |s.aired| == n + |Destinations(sent)| && |Packets(sent)| == |Destinations(sent)|
            && s.aired[n + k].payload == Packets(sent)[k]
            && (s.aired[n + k].address == r.rxAddress <==> Destinations(sent)[k] == receiver)
  {
    TransmissionsCount(sent);
    ShotAt(sent, k);
    AiredInOrder(a, sender, sent);
    AlwaysHome(b, receiver, ops);
    AddressesDiffer(Destinations(sent)[k], receiver);
  }

  /** Without the restart the radio would be left away: a transmission alone always leaves home. */
  lemma SendLeavesHome(c: Chip, id: uint8, destination: uint8, packet: PacketBytes)
    ensures !Home(Sending(c, StationAddress(destination), packet), id)
    ensures Home(Receiving(Sending(c, StationAddress(destination), packet), id), id) <==>
            ConfigOk(c.(regs := c.regs[RF_CH := RF_CHANNEL]), RF_CHANNEL)
  {
  }
}

/** The programmer object: the stored address and data bits, the saved output-enable
    state, and the operations that drive them onto the I/O lines. The I/O lines are a
    ghost map from line to level, and every line write and wait is appended to a ghost
    log, so each operation is specified by the events it appends. */
module Eeprom {
  import opened Bits
  import opened Config
  import opened Gpio
  import opened Trace

  /** The events of construction: both control lines high, every address line
      (including the spare eleventh) and every data line configured low, then the
      output disabled once more. */
  function InitEvents(): seq<Event> {
    BusEvents([WePin, OePin], [1, 1])
      + BusEvents(AddressPins, seq(|AddressPins|, _ => 0))
      + BusEvents(DataPins, seq(|DataPins|, _ => 0))
      + [SetPin(OePin, ActiveLow(false))]
  }

  /** After construction both control lines are high and every bus line is low. */
  lemma InitLevels()
    ensures var m := Replay(map[], InitEvents());
      Level(m, WePin) == 1 && Level(m, OePin) == 1
      && Carries(m, seq(AddrBitLen, _ => 0), seq(DataBitLen, _ => 0))
  {
    var c := BusEvents([WePin, OePin], [1, 1]);
    var za := seq(|AddressPins|, _ => 0);
    var zd := seq(|DataPins|, _ => 0);
    var ea := BusEvents(AddressPins, za);
    var ed := BusEvents(DataPins, zd);
    var m1 := Replay(map[], c);
    var m2 := Replay(m1, ea);
    var m3 := Replay(m2, ed);
    assert Replay(map[], InitEvents()) == m3[OePin := 1] by {
      ReplayAppend(map[], c, ea);
      ReplayAppend(map[], c + ea, ed);
      ReplayAppend(map[], c + ea + ed, [SetPin(OePin, 1)]);
      assert [SetPin(OePin, 1)][..0] == [];
    }
    ShippedTablesWellFormed();
    assert Drove(map[], m1, [WePin, OePin], [1, 1]) by {
      ReplayBus(map[], [WePin, OePin], [1, 1]);
    }
    assert Drove(m1, m2, AddressPins, za) by {
      ReplayBus(m1, AddressPins, za);
    }
    assert Drove(m2, m3, DataPins, zd) by {
      ReplayBus(m2, DataPins, zd);
    }
    assert AddressPins[..|za|] == AddressPins;
    assert DataPins[..|zd|] == DataPins;
    assert [WePin, OePin][0] == WePin;
    assert WePin in m1 && m1[WePin] == 1;
    assert WePin !in AddressPins[..|za|];
    assert WePin in m2 && m2[WePin] == 1;
    assert WePin !in DataPins[..|zd|];
    assert WePin in m3 && m3[WePin] == 1;
    forall j | 0 <= j < AddrBitLen
      ensures AddressPins[j] in m3 && m3[AddressPins[j]] == 0
    {
      assert AddressPins[j] !in DataPins;
    }
  }

  class Programmer {
    /** Bit i of the stored address has weight 2^i and goes to address line i. */
    const address: array<int>
    /** Bit i of the stored data has weight 2^i and goes to data line i. */
    const bits: array<int>
    /** The saved output-enable state: set at construction only. */
    const oeEnabled: bool
    const weEnabled: bool

    /** The level of every I/O line. */
    ghost var pins: map<int, int>
    /** Every line write and every wait, in order. */
    ghost var log: seq<Event>

    /** The line levels are the replay of the log. */
    ghost predicate Recorded()
      reads this
    {
      pins == Replay(map[], log)
    }

    ghost predicate Valid()
      reads this, address, bits
    {
      && address.Length == AddrBitLen && bits.Length == DataBitLen && address != bits
      && !oeEnabled && !weEnabled
      && IsBits(address[..]) && IsBits(bits[..])
      && Recorded()
      && Carries(pins, address[..], bits[..])
    }

    /** One line write of the I/O interface. */
    method Output(pin: int, level: int)
      requires Recorded()
      modifies this`pins, this`log
      ensures Recorded()
      ensures pins == old(pins)[pin := level]
      ensures log == old(log) + [SetPin(pin, level)]
    {
      pins := pins[pin := level];
      log := log + [SetPin(pin, level)];
    }

    /** One call of the I/O interface on a list of lines, all set to `level`. */
    method OutputAll(lines: seq<int>, level: int)
      requires Recorded()
      modifies this`pins, this`log
      ensures Recorded()
      ensures log == old(log) + BusEvents(lines, seq(|lines|, _ => level))
    {
      var evs := BusEvents(lines, seq(|lines|, _ => level));
      ReplayAppend(map[], log, evs);
      pins := Replay(pins, evs);
      log := log + evs;
    }

    /** A wait of `us` microseconds. */
    method Sleep(us: nat)
      requires Recorded()
      modifies this`log
      ensures Recorded()
      ensures log == old(log) + [Delay(us)]
    {
      log := log + [Delay(us)];
    }

    /** Construction and its initialisation: the pin-table check (as intended), both
        control lines high, the bus arrays zeroed, every bus line configured low and
        the output disabled. */
    constructor ()
      ensures Valid() && fresh(address) && fresh(bits)
      ensures address[..] == seq(AddrBitLen, _ => 0) && bits[..] == seq(DataBitLen, _ => 0)
      ensures log == InitEvents()
      ensures Level(pins, WePin) == 1 && Level(pins, OePin) == 1
    {
      oeEnabled, weEnabled := false, false;
      var check := SanityCheck(AddressPins, DataPins, WePin, OePin);
      assert check == Pass by {
        ShippedTablesWellFormed();
      }
      bits := new int[DataBitLen](_ => 0);
      address := new int[AddrBitLen](_ => 0);
      pins, log := map[], [];
      new;
      InitLines();
      assert log == InitEvents();
      InitLevels();
      assert address[..] == seq(AddrBitLen, _ => 0) && bits[..] == seq(DataBitLen, _ => 0);
    }

    /** The line set-up of initialisation: both control lines high, every address and
        data line configured low, then the output disabled. */
    method InitLines()
      requires Recorded()
      modifies this`pins, this`log
      ensures Recorded()
      ensures log == old(log) + InitEvents()
    {
      OutputAll([WePin, OePin], 1);
      OutputAll(AddressPins, 0);
      OutputAll(DataPins, 0);
      OutputEnable(false);
    }

    /** `output_enable(e)`: the output line goes low exactly when `e` (active low). */
    method OutputEnable(enable: bool)
      requires Recorded()
      modifies this`pins, this`log
      ensures Recorded()
      ensures log == old(log) + [SetPin(OePin, ActiveLow(enable))]
      ensures pins == old(pins)[OePin := ActiveLow(enable)]
      ensures pins[OePin] == 0 <==> enable
    {
      Output(OePin, ActiveLow(enable));
    }

    /** `write_enable(e)`: the write line goes low exactly when `e` (active low). */
    method WriteEnable(enable: bool)
      requires Recorded()
      modifies this`pins, this`log
      ensures Recorded()
      ensures log == old(log) + [SetPin(WePin, ActiveLow(enable))]
      ensures pins == old(pins)[WePin := ActiveLow(enable)]
      ensures pins[WePin] == 0 <==> enable
    {
      Output(WePin, ActiveLow(enable));
    }

    /** `update`: re-drive the ten stored address bits, then the eight stored data
        bits. The bus already carries them, so no line changes. */
    method Update()
      requires Valid()
      modifies this`pins, this`log
      ensures Valid()
      ensures log == old(log) + UpdateEvents(address[..], bits[..])
      ensures pins == old(pins)
    {
      ghost var carried := pins;
      assert Carries(carried, address[..], bits[..]);
      for i := 0 to AddrBitLen
        invariant Recorded()
        invariant log == old(log) + BusEvents(AddressPins, address[..i])
      {
        Output(AddressPins[i], address[i]);
        BusEventsSnoc(AddressPins, address[..], i);
      }
      assert address[..AddrBitLen] == address[..];
      for i := 0 to DataBitLen
        invariant Recorded()
        invariant log == old(log) + BusEvents(AddressPins, address[..]) + BusEvents(DataPins, bits[..i])
      {
        Output(DataPins[i], bits[i]);
        BusEventsSnoc(DataPins, bits[..], i);
      }
      assert bits[..DataBitLen] == bits[..];
      assert log == old(log) + UpdateEvents(address[..], bits[..]);
      assert carried == Replay(map[], old(log));
      ReplayAppend(map[], old(log), UpdateEvents(address[..], bits[..]));
      RefreshOfCarriedBus(carried, address[..], bits[..]);
      assert pins == carried;
    }

    /** `set_address(a)`: the ten-digit binary form of `a`, reversed, so that address
        bit i is the bit of weight 2^i; each bit is stored and driven onto its line.
        The data array and every line but the ten address lines are untouched. */
    method SetAddress(a: int)
      requires Valid() && 0 <= a <= 1023
      modifies this`pins, this`log, address
      ensures Valid()
      ensures address[..] == LsbFirst(a, AddrBitLen)
      ensures bits[..] == old(bits[..])
      ensures log == old(log) + BusEvents(AddressPins, address[..])
      ensures DroveBus(old(pins), pins, address[..], bits[..])
    {
      ghost var m0, b := pins, bits[..];
      var digits := ToBinary(a, 10);
      var rev := Reverse(digits);
      assert rev == LsbFirst(a, AddrBitLen) && IsBits(rev) by {
        AddressEncoding(a);
      }
      StoreAddress(rev);
      ghost var e := BusEvents(AddressPins, rev);
      assert pins == Replay(m0, e) by {
        ReplayAppend(map[], old(log), e);
      }
      assert DroveBus(m0, pins, rev, b) by {
        AddressWrite(m0, old(address[..]), rev, b);
      }
    }

    /** The loop of the address setter: store `rev[i]` in address cell i and drive it
        onto address line i, for i = 0 to 9 in turn. */
    method StoreAddress(rev: seq<int>)
      requires Recorded() && address.Length == AddrBitLen && |rev| == AddrBitLen
      modifies this`pins, this`log, address
      ensures Recorded()
      ensures address[..] == rev
      ensures log == old(log) + BusEvents(AddressPins, rev)
    {
      for i := 0 to |rev|
        invariant Recorded()
        invariant address[..i] == rev[..i]
        invariant log == old(log) + BusEvents(AddressPins, rev[..i])
      {
        address[i] := rev[i];
        Output(AddressPins[i], rev[i]);
        BusEventsSnoc(AddressPins, rev, i);
      }
      assert rev[..|rev|] == rev;
    }

    /** `set_bits(w)`: the word as a list, reversed, every nonzero entry made 1; each
        bit is stored and driven onto its data line. The address array and every line
        but the eight data lines are untouched. */
    method SetBits(w: Word)
      requires Valid() && IsDataWord(w)
      modifies this`pins, this`log, bits
      ensures Valid()
      ensures bits[..] == DataBits(w)
      ensures address[..] == old(address[..])
      ensures w.Text? ==> forall i :: 0 <= i < DataBitLen ==> bits[i] == (if w.s[7 - i] == '0' then 0 else 1)
      ensures log == old(log) + BusEvents(DataPins, bits[..])
      ensures DroveBus(old(pins), pins, address[..], bits[..])
    {
      ghost var m0, a := pins, address[..];
      var l := ToList(w);
      var rev := Reverse(l);
      ReverseLength(l);
      StoreBits(rev);
      if w.Text? {
        DataBitsOfText(w.s);
      }
      ghost var e := BusEvents(DataPins, bits[..]);
      assert pins == Replay(m0, e) by {
        ReplayAppend(map[], old(log), e);
      }
      assert DroveBus(m0, pins, a, bits[..]) by {
        DataWrite(m0, a, old(bits[..]), bits[..]);
      }
    }

    /** The loop of the data setter: make `rev[i]` a level (any nonzero value is 1),
        store it in data cell i and drive it onto data line i, for i = 0 to 7 in
        turn. */
    method StoreBits(rev: seq<int>)
      requires Recorded() && bits.Length == DataBitLen && |rev| == DataBitLen
      modifies this`pins, this`log, bits
      ensures Recorded()
      ensures bits[..] == seq(DataBitLen, i requires 0 <= i < DataBitLen => Truth(rev[i]))
      ensures log == old(log) + BusEvents(DataPins, bits[..])
    {
      ghost var target := seq(DataBitLen, i requires 0 <= i < DataBitLen => Truth(rev[i]));
      for i := 0 to |rev|
        invariant Recorded()
        invariant bits[..i] == target[..i]
        invariant log == old(log) + BusEvents(DataPins, bits[..i])
      {
        var bit := if rev[i] == 0 then 0 else 1;
        bits[i] := bit;
        Output(DataPins[i], bit);
        BusEventsSnoc(DataPins, bits[..], i);
      }
      assert bits[..] == bits[..|rev|];
    }

    /** `pulse_write`: save the output-enable state, refresh the bus, disable the
        output and wait the settle time, hold the write line low for the pulse width,
        release it, and restore the output line. Entered with the write line high,
        the device latches exactly the stored data at the stored address, with the
        output disabled; entered with it already low (after `WriteEnable(true)`) there
        is no falling edge and nothing is latched. Afterwards both control lines are
        high (the saved state is always "disabled") and no other line has changed. */
    method PulseWrite()
      requires Valid()
      modifies this`pins, this`log
      ensures Valid()
      ensures log == old(log) + PulseEvents(address[..], bits[..], oeEnabled)
      ensures pins == old(pins)[OePin := 1][WePin := 1]
      ensures Strobes(old(pins), log[|old(log)|..])
        == if Level(old(pins), WePin) != 0 then [Strobe(ValueLsb(address[..]), ValueLsb(bits[..]), 1)] else []
    {
      ghost var m0, a, b := pins, address[..], bits[..];
      var oeState := oeEnabled;
      Update();
      ghost var lu := log;
      OutputEnable(false);
      Sleep(T_OES);
      WriteEnable(true);
      Sleep(T_WP);
      WriteEnable(false);
      OutputEnable(oeState);
      ghost var p := PulseEvents(a, b, oeState);
      assert log == lu + PulseTail(oeState);
      AppendAssoc(old(log), UpdateEvents(a, b), PulseTail(oeState));
      assert log[|old(log)|..] == p;
      PulseStrobe(m0, a, b, oeState);
      assert pins == m0[OePin := 1][WePin := 1] by {
        ShippedTablesWellFormed();
      }
      ControlKeepsCarried(m0, a, b, 1, 1);
      assert address[..] == a && bits[..] == b;
    }
  }

  /** `set_all`: for every address 0, 1, ..., 1023 in turn, set the address, set the
      data word, pulse the write line and wait the fill settle time. Started with the
      write line high, the device latches the word at every address exactly once, in
      increasing order, never with the output enabled; started with it low, the first
      pulse latches nothing and address 0 is skipped. The address array ends all
      ones. */
  method SetAll(prog: Programmer, data: string)
    requires prog.Valid() && |data| == DataBitLen && IsDigitString(data)
    modifies prog`pins, prog`log, prog.address, prog.bits
    ensures prog.Valid()
    ensures prog.log == old(prog.log) + FillEvents(1024, DataBits(Text(data)))
    ensures prog.bits[..] == DataBits(Text(data))
    ensures forall i :: 0 <= i < AddrBitLen ==> prog.address[i] == 1
    ensures Strobes(old(prog.pins), prog.log[|old(prog.log)|..])
      == Latches(if Level(old(prog.pins), WePin) != 0 then 0 else 1, 1024, ValueLsb(DataBits(Text(data))))
  {
    ghost var d := DataBits(Text(data));
    assert IsDataWord(Text(data));
    for i := 0 to 1024
      invariant prog.Valid()
      invariant prog.log == old(prog.log) + FillEvents(i, d)
      invariant i > 0 ==> prog.bits[..] == d && prog.address[..] == LsbFirst(i - 1, AddrBitLen)
    {
      ghost var l0 := prog.log;
      prog.SetAddress(i);
      ghost var a := prog.address[..];
      ghost var l1 := prog.log;
      prog.SetBits(Text(data));
      ghost var l2 := prog.log;
      prog.PulseWrite();
      ghost var l3 := prog.log;
      prog.Sleep(FillSettle);
      FillStep(old(prog.log), i, d, a, l0, l1, l2, l3, prog.log);
    }
    assert forall i :: 0 <= i < AddrBitLen ==> prog.address[i] == 1 by {
      LastAddressAllOnes();
    }
    assert prog.log[|old(prog.log)|..] == FillEvents(1024, d);
    FillStrobes(old(prog.pins), 1024, d);
  }
}

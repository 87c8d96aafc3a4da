/** The event sequences the programmer's operations append to the I/O log, and what
    they mean for the device: which (address, data) pairs it latches on each falling
    edge of the write line, that within a pulse's control sequence (and over the whole
    pulse when it starts with the write line high) the write line is never low while
    the output line is low, and how long each cycle waits. */
module Trace {
  import opened Bits
  import opened Config
  import opened Gpio

  /** The level that puts an active-low control line in the given logical state. */
  function ActiveLow(enable: bool): (level: int)
    ensures level == 0 <==> enable
    ensures level == 1 <==> !enable
  {
    if enable then 0 else 1
  }

  /** The ten address bits then the eight data bits, each onto its own line. */
  function UpdateEvents(a: seq<int>, b: seq<int>): seq<Event>
    requires |a| <= AddrBitLen && |b| <= DataBitLen
  {
    BusEvents(AddressPins, a) + BusEvents(DataPins, b)
  }

  /** The control-line part of a write pulse: output disabled, settle, write asserted
      for the pulse width, write released, output back to `oeState`. */
  function PulseTail(oeState: bool): seq<Event> {
    [SetPin(OePin, ActiveLow(false)), Delay(T_OES),
     SetPin(WePin, ActiveLow(true)), Delay(T_WP),
     SetPin(WePin, ActiveLow(false)), SetPin(OePin, ActiveLow(oeState))]
  }

  /** Everything one write pulse does: refresh the bus, then the control sequence. */
  function PulseEvents(a: seq<int>, b: seq<int>, oeState: bool): seq<Event>
    requires |a| <= AddrBitLen && |b| <= DataBitLen
  {
    UpdateEvents(a, b) + PulseTail(oeState)
  }

  /** An argument the data setter accepts: eight digits, or a list of eight numbers. */
  predicate IsDataWord(w: Word) {
    Convertible(w) && |ToList(w)| == DataBitLen
  }

  /** The data array after the data setter: the word reversed, every nonzero entry
      made 1. */
  function DataBits(w: Word): seq<int>
    requires Convertible(w)
  {
    var rev := Reverse(ToList(w));
    seq(|rev|, i requires 0 <= i < |rev| => Truth(rev[i]))
  }

  /** One iteration of the bulk fill at address i with data bits d: set the address,
      set the data, one write pulse (output state disabled), then the settle wait. */
  function CycleEvents(i: nat, d: seq<int>): seq<Event>
    requires |d| == DataBitLen
  {
    BusEvents(AddressPins, LsbFirst(i, AddrBitLen)) + BusEvents(DataPins, d)
      + PulseEvents(LsbFirst(i, AddrBitLen), d, false) + [Delay(FillSettle)]
  }

  /** The first n iterations of the bulk fill, addresses 0 to n - 1 in turn. */
  function FillEvents(n: nat, d: seq<int>): seq<Event>
    requires |d| == DataBitLen
  {
    if n == 0 then [] else FillEvents(n - 1, d) + CycleEvents(n - 1, d)
  }

  /** The log after one more fill iteration is the log of one more iteration. */
  lemma FillStep(start: seq<Event>, i: nat, d: seq<int>, a: seq<int>,
                 l0: seq<Event>, l1: seq<Event>, l2: seq<Event>, l3: seq<Event>, l4: seq<Event>)
    requires |d| == DataBitLen && a == LsbFirst(i, AddrBitLen)
    requires l0 == start + FillEvents(i, d)
    requires l1 == l0 + BusEvents(AddressPins, a)
    requires l2 == l1 + BusEvents(DataPins, d)
    requires l3 == l2 + PulseEvents(a, d, false)
    requires l4 == l3 + [Delay(FillSettle)]
    ensures l4 == start + FillEvents(i + 1, d)
  {
    var ba, bd := BusEvents(AddressPins, a), BusEvents(DataPins, d);
    var p := PulseEvents(a, d, false);
    var dl := [Delay(FillSettle)];
    AppendAssoc(l0, ba, bd);
    AppendAssoc(l0, ba + bd, p);
    AppendAssoc(l0, ba + bd + p, dl);
    assert CycleEvents(i, d) == ba + bd + p + dl;
    AppendAssoc(start, FillEvents(i, d), ba + bd + p + dl);
    assert FillEvents(i + 1, d) == FillEvents(i, d) + CycleEvents(i, d);
  }

  /** What the device sees at the moment its write line is driven low. */
  datatype Strobe = Strobe(address: int, data: int, oe: int)

  /** The number on the first n lines of a table, line i having weight 2^i. */
  function BusValue(m: map<int, int>, table: seq<int>, n: nat): int
    requires n <= |table|
  {
    ValueLsb(seq(n, j requires 0 <= j < n => Level(m, table[j])))
  }

  function Snapshot(m: map<int, int>): Strobe {
    Strobe(BusValue(m, AddressPins, AddrBitLen), BusValue(m, DataPins, DataBitLen), Level(m, OePin))
  }

  /** Every falling edge of the write line in `evs`, in order: each write that drives it
      low from a level that was not low, with the bus and the output line as they stand
      then. A low write to a line already low is no edge and latches nothing. */
  function Strobes(m: map<int, int>, evs: seq<Event>): seq<Strobe>
    decreases |evs|
  {
    if evs == [] then []
    else
      var before := Replay(m, evs[..|evs| - 1]);
      var edge := evs[|evs| - 1] == SetPin(WePin, 0) && Level(before, WePin) != 0;
      var last := if edge then [Snapshot(Replay(m, evs))] else [];
      Strobes(m, evs[..|evs| - 1]) + last
  }

  /** One latch of the data value v, with the output line disabled, at each address
      lo, lo + 1, ..., hi - 1 in that order. */
  function Latches(lo: nat, hi: nat, v: int): seq<Strobe>
    decreases hi
  {
    if hi <= lo then [] else Latches(lo, hi - 1, v) + [Strobe(hi - 1, v, 1)]
  }

  /** The ten address lines carry `a` and the eight data lines carry `b`. */
  ghost predicate Carries(m: map<int, int>, a: seq<int>, b: seq<int>)
    requires |a| == AddrBitLen && |b| == DataBitLen
  {
    (forall j :: 0 <= j < AddrBitLen ==> AddressPins[j] in m && m[AddressPins[j]] == a[j])
    && (forall j :: 0 <= j < DataBitLen ==> DataPins[j] in m && m[DataPins[j]] == b[j])
  }

  /** Every line outside the two bus tables is the same in `m` and `m2`. */
  ghost predicate SameOffBus(m: map<int, int>, m2: map<int, int>) {
    forall p :: p !in AddressPins[..AddrBitLen] && p !in DataPins ==>
      (p in m2 <==> p in m) && (p in m ==> m2[p] == m[p])
  }

  /** `m2` is `m` with the bus carrying `a` and `b` and every other line unchanged. */
  ghost predicate DroveBus(m: map<int, int>, m2: map<int, int>, a: seq<int>, b: seq<int>)
    requires |a| == AddrBitLen && |b| == DataBitLen
  {
    Carries(m2, a, b) && SameOffBus(m, m2)
  }

  // ---------------------------------------------------------------------------
  // Data word
  // ---------------------------------------------------------------------------

  /** For an eight-digit string s, data bit i is 0 exactly when s[7 - i] is '0'. */
  lemma DataBitsOfText(s: string)
    requires |s| == DataBitLen && IsDigitString(s)
    ensures |DataBits(Text(s))| == DataBitLen && IsBits(DataBits(Text(s)))
    ensures forall i :: 0 <= i < DataBitLen ==> DataBits(Text(s))[i] == (if s[7 - i] == '0' then 0 else 1)
  {
    var l := ToList(Text(s));
    ReverseLength(l);
    forall i | 0 <= i < DataBitLen
      ensures DataBits(Text(s))[i] == (if s[7 - i] == '0' then 0 else 1)
    {
      assert Reverse(l)[i] == l[7 - i] == DigitValue(s[7 - i]);
    }
  }

  /** The data setter driven with `'{0:08b}'.format(v)` stores the eight bits of v,
      least significant at index 0, and they read back as v. */
  lemma DataRoundTrip(v: nat)
    requires v < 256
    ensures IsDigitString(Format(v, 8))
    ensures DataBits(Text(Format(v, 8))) == LsbFirst(v, DataBitLen)
    ensures ValueLsb(DataBits(Text(Format(v, 8)))) == v
  {
    Pow2Widths();
    FormatDigits(v, 8);
    ToBinaryIsMsbFirst(v, 8);
    ReverseMsbFirst(v, 8);
    MsbFirstBits(v, 8);
    LsbFirstBits(v, 8);
    var d := DataBits(Text(Format(v, 8)));
    assert Reverse(ToList(Text(Format(v, 8)))) == LsbFirst(v, 8);
    assert d == LsbFirst(v, DataBitLen);
    ValueOfLsbFirst(v, 8);
  }

  // ---------------------------------------------------------------------------
  // Bus refresh
  // ---------------------------------------------------------------------------

  /** The refresh writes only address lines 0..9 and data lines 0..7: never the
      spare eleventh address line and never a control line. */
  lemma UpdateTouchesBusOnly(a: seq<int>, b: seq<int>)
    requires |a| == AddrBitLen && |b| == DataBitLen
    ensures |UpdateEvents(a, b)| == AddrBitLen + DataBitLen
    ensures forall k :: 0 <= k < |UpdateEvents(a, b)| ==>
      UpdateEvents(a, b)[k].SetPin?
      && UpdateEvents(a, b)[k].pin != AddressPins[AddrBitLen]
      && UpdateEvents(a, b)[k].pin != WePin
      && UpdateEvents(a, b)[k].pin != OePin
  {
    ShippedTablesWellFormed();
    var u := UpdateEvents(a, b);
    forall k | 0 <= k < |u|
      ensures u[k].SetPin? && u[k].pin != AddressPins[AddrBitLen] && u[k].pin != WePin && u[k].pin != OePin
    {
      if k < AddrBitLen {
        assert u[k] == SetPin(AddressPins[k], a[k]);
      } else {
        assert u[k] == SetPin(DataPins[k - AddrBitLen], b[k - AddrBitLen]);
      }
    }
  }

  /** After the refresh the address lines carry `a`, the data lines `b`, and every
      other line is as it was. */
  lemma UpdateDrivesBus(m: map<int, int>, a: seq<int>, b: seq<int>)
    requires |a| == AddrBitLen && |b| == DataBitLen
    ensures DroveBus(m, Replay(m, UpdateEvents(a, b)), a, b)
  {
    ShippedTablesWellFormed();
    ReplayAppend(m, BusEvents(AddressPins, a), BusEvents(DataPins, b));
    var mid := Replay(m, BusEvents(AddressPins, a));
    var m2 := Replay(mid, BusEvents(DataPins, b));
    ReplayBus(m, AddressPins, a);
    ReplayBus(mid, DataPins, b);
    forall j | 0 <= j < AddrBitLen
      ensures AddressPins[j] in m2 && m2[AddressPins[j]] == a[j]
    {
      assert AddressPins[j] !in DataPins;
    }
  }

  /** Refreshing twice leaves every line as refreshing once does. */
  lemma UpdateTwiceSameLevels(m: map<int, int>, a: seq<int>, b: seq<int>)
    requires |a| == AddrBitLen && |b| == DataBitLen
    ensures Replay(Replay(m, UpdateEvents(a, b)), UpdateEvents(a, b)) == Replay(m, UpdateEvents(a, b))
  {
    ReplayIdempotent(m, UpdateEvents(a, b));
  }

  /** When the bus already carries the stored values, the refresh changes no line. */
  lemma RefreshOfCarriedBus(m: map<int, int>, a: seq<int>, b: seq<int>)
    requires |a| == AddrBitLen && |b| == DataBitLen
    requires Carries(m, a, b)
    ensures Replay(m, UpdateEvents(a, b)) == m
  {
    UpdateDrivesBus(m, a, b);
    var m2 := Replay(m, UpdateEvents(a, b));
    forall p
      ensures (p in m2 <==> p in m) && (p in m ==> m2[p] == m[p])
    {
      if p in AddressPins[..AddrBitLen] {
        var j :| 0 <= j < AddrBitLen && AddressPins[j] == p;
      } else if p in DataPins {
        var j :| 0 <= j < DataBitLen && DataPins[j] == p;
      }
    }
    assert m2.Keys == m.Keys;
  }

  /** Setting the address drives the address lines to the new bits and leaves the data
      lines carrying what they carried. */
  lemma AddressWrite(m: map<int, int>, a: seq<int>, a2: seq<int>, b: seq<int>)
    requires |a| == AddrBitLen && |a2| == AddrBitLen && |b| == DataBitLen
    requires Carries(m, a, b)
    ensures DroveBus(m, Replay(m, BusEvents(AddressPins, a2)), a2, b)
  {
    ShippedTablesWellFormed();
    ReplayBus(m, AddressPins, a2);
    var m2 := Replay(m, BusEvents(AddressPins, a2));
    forall j | 0 <= j < DataBitLen
      ensures DataPins[j] in m2 && m2[DataPins[j]] == b[j]
    {
      assert DataPins[j] !in AddressPins;
    }
  }

  /** Setting the data drives the data lines to the new bits and leaves the address
      lines carrying what they carried. */
  lemma DataWrite(m: map<int, int>, a: seq<int>, b: seq<int>, b2: seq<int>)
    requires |a| == AddrBitLen && |b| == DataBitLen && |b2| == DataBitLen
    requires Carries(m, a, b)
    ensures DroveBus(m, Replay(m, BusEvents(DataPins, b2)), a, b2)
  {
    ShippedTablesWellFormed();
    ReplayBus(m, DataPins, b2);
    var m2 := Replay(m, BusEvents(DataPins, b2));
    forall j | 0 <= j < AddrBitLen
      ensures AddressPins[j] in m2 && m2[AddressPins[j]] == a[j]
    {
      assert AddressPins[j] !in DataPins;
    }
    forall p | p !in AddressPins[..AddrBitLen] && p !in DataPins
      ensures (p in m2 <==> p in m) && (p in m ==> m2[p] == m[p])
    {
    }
  }

  // ---------------------------------------------------------------------------
  // Write pulse
  // ---------------------------------------------------------------------------

  /** The line levels after each prefix of the control sequence. */
  lemma TailReplay(m: map<int, int>, oeState: bool)
    ensures var t := PulseTail(oeState); var m1 := m[OePin := 1];
      && Replay(m, t[..1]) == m1
      && Replay(m, t[..2]) == m1
      && Replay(m, t[..3]) == m1[WePin := 0]
      && Replay(m, t[..4]) == m1[WePin := 0]
      && Replay(m, t[..5]) == m1[WePin := 1]
      && Replay(m, t[..6]) == Replay(m, t) == m1[WePin := 1][OePin := ActiveLow(oeState)]
  {
    var t := PulseTail(oeState);
    assert t[..1][..0] == [];
    assert t[..2][..1] == t[..1];
    assert t[..3][..2] == t[..2];
    assert t[..4][..3] == t[..3];
    assert t[..5][..4] == t[..4];
    assert t[..6][..5] == t[..5];
    assert t[..6] == t;
  }

  /** At every point of the control sequence at which the write line is low, the
      output line is high (disabled): the two are never asserted together. */
  lemma PulseNoContention(m: map<int, int>, oeState: bool)
    ensures forall k :: 1 <= k <= |PulseTail(oeState)| ==>
      Level(Replay(m, PulseTail(oeState)[..k]), WePin) == 0 ==>
      Level(Replay(m, PulseTail(oeState)[..k]), OePin) == 1
  {
    TailReplay(m, oeState);
  }

  /** Over a whole pulse entered with the write line high, refresh included, the write
      line is never low while the output line is low. (Entered with the write line
      low, the refresh runs with it low, whatever the output line is.) */
  lemma PulseNoContentionThroughout(m: map<int, int>, a: seq<int>, b: seq<int>, oeState: bool)
    requires |a| == AddrBitLen && |b| == DataBitLen
    requires Level(m, WePin) != 0
    ensures forall k :: 0 <= k <= |PulseEvents(a, b, oeState)| ==>
      Level(Replay(m, PulseEvents(a, b, oeState)[..k]), WePin) == 0 ==>
      Level(Replay(m, PulseEvents(a, b, oeState)[..k]), OePin) == 1
  {
    var u := UpdateEvents(a, b);
    var t := PulseTail(oeState);
    var pe := PulseEvents(a, b, oeState);
    UpdateTouchesBusOnly(a, b);
    var mu := Replay(m, u);
    PulseNoContention(mu, oeState);
    forall k | 0 <= k <= |pe| && Level(Replay(m, pe[..k]), WePin) == 0
      ensures Level(Replay(m, pe[..k]), OePin) == 1
    {
      if k <= |u| {
        assert pe[..k] == u[..k];
        ReplayUntouched(m, u[..k], WePin);
        assert false;
      } else {
        var j := k - |u|;
        assert pe[..k] == u + t[..j];
        ReplayAppend(m, u, t[..j]);
      }
    }
  }

  /** A pulse ends with the write line released, the output line at the saved state,
      and the bus carrying the stored address and data. */
  lemma PulseEndState(m: map<int, int>, a: seq<int>, b: seq<int>, oeState: bool)
    requires |a| == AddrBitLen && |b| == DataBitLen
    ensures Level(Replay(m, PulseEvents(a, b, oeState)), WePin) == 1
    ensures Level(Replay(m, PulseEvents(a, b, oeState)), OePin) == ActiveLow(oeState)
    ensures Carries(Replay(m, PulseEvents(a, b, oeState)), a, b)
  {
    var u := UpdateEvents(a, b);
    var t := PulseTail(oeState);
    ReplayAppend(m, u, t);
    var mu := Replay(m, u);
    UpdateDrivesBus(m, a, b);
    ShippedTablesWellFormed();
    TailReplay(mu, oeState);
  }

  /** The pulse waits for the output-disable settle time and the write-pulse width,
      nothing else. */
  lemma PulseDelay(a: seq<int>, b: seq<int>, oeState: bool)
    requires |a| == AddrBitLen && |b| == DataBitLen
    ensures TotalDelay(PulseEvents(a, b, oeState)) == T_OES + T_WP
  {
    var t := PulseTail(oeState);
    TotalDelayAppend(BusEvents(AddressPins, a), BusEvents(DataPins, b));
    TotalDelayAppend(UpdateEvents(a, b), t);
    BusEventsNoDelay(AddressPins, a);
    BusEventsNoDelay(DataPins, b);
    assert TotalDelay(t) == T_OES + T_WP by {
      assert t[..1][..0] == [];
      assert TotalDelay(t[..1]) == 0;
      assert t[..2][..1] == t[..1];
      assert TotalDelay(t[..2]) == T_OES;
      assert t[..3][..2] == t[..2];
      assert TotalDelay(t[..3]) == T_OES;
      assert t[..4][..3] == t[..3];
      assert TotalDelay(t[..4]) == T_OES + T_WP;
      assert t[..5][..4] == t[..4];
      assert TotalDelay(t[..5]) == T_OES + T_WP;
      assert t[..6][..5] == t[..5];
      assert t[..6] == t;
    }
  }

  // ---------------------------------------------------------------------------
  // Write strobes
  // ---------------------------------------------------------------------------

  lemma {:induction false} StrobesAppend(m: map<int, int>, a: seq<Event>, b: seq<Event>)
    ensures Strobes(m, a + b) == Strobes(m, a) + Strobes(Replay(m, a), b)
    decreases |b|
  {
    if b == [] {
      assert a + b == a;
    } else {
      var b' := b[..|b| - 1];
      assert (a + b)[..|a + b| - 1] == a + b';
      StrobesAppend(m, a, b');
      ReplayAppend(m, a, b');
      ReplayAppend(m, a, b);
    }
  }

  lemma {:induction false} NoStrobes(m: map<int, int>, evs: seq<Event>)
    requires forall k :: 0 <= k < |evs| ==> evs[k] != SetPin(WePin, 0)
    ensures Strobes(m, evs) == []
    decreases |evs|
  {
    if evs != [] {
      NoStrobes(m, evs[..|evs| - 1]);
    }
  }

  /** What the bus reads as when its lines carry a and b. */
  lemma SnapshotOfBus(s: map<int, int>, a: seq<int>, b: seq<int>)
    requires |a| == AddrBitLen && |b| == DataBitLen
    requires Carries(s, a, b)
    ensures Snapshot(s) == Strobe(ValueLsb(a), ValueLsb(b), Level(s, OePin))
  {
    assert seq(AddrBitLen, j requires 0 <= j < AddrBitLen => Level(s, AddressPins[j])) == a;
    assert seq(DataBitLen, j requires 0 <= j < DataBitLen => Level(s, DataPins[j])) == b;
  }

  /** The control sequence drives the write line low once, right after the output line
      went high: a falling edge when the write line was not already low, and no edge
      when it was. */
  lemma TailStrobes(m: map<int, int>, oeState: bool)
    ensures Strobes(m, PulseTail(oeState))
      == if Level(m, WePin) != 0 then [Snapshot(m[OePin := 1][WePin := 0])] else []
  {
    var t := PulseTail(oeState);
    TailReplay(m, oeState);
    assert Level(m[OePin := 1], WePin) == Level(m, WePin);
    var one := if Level(m, WePin) != 0 then [Snapshot(m[OePin := 1][WePin := 0])] else [];
    assert t[..1][..0] == [];
    assert Strobes(m, t[..1]) == [];
    assert t[..2][..1] == t[..1];
    assert Strobes(m, t[..2]) == [];
    assert t[..3][..2] == t[..2];
    assert Strobes(m, t[..3]) == one;
    assert t[..4][..3] == t[..3];
    assert Strobes(m, t[..4]) == one;
    assert t[..5][..4] == t[..4];
    assert Strobes(m, t[..5]) == one;
    assert t[..6][..5] == t[..5];
    assert t[..6] == t;
  }

  /** Driving the two control lines leaves what the bus carries. */
  lemma ControlKeepsBus(mu: map<int, int>, m: map<int, int>, a: seq<int>, b: seq<int>)
    requires |a| == AddrBitLen && |b| == DataBitLen
    requires DroveBus(m, mu, a, b)
    ensures Carries(mu[OePin := 1][WePin := 0], a, b)
  {
    ShippedTablesWellFormed();
  }

  /** The refresh leaves the write line's level as it was. */
  lemma UpdateKeepsWrite(m: map<int, int>, a: seq<int>, b: seq<int>)
    requires |a| == AddrBitLen && |b| == DataBitLen
    ensures Level(Replay(m, UpdateEvents(a, b)), WePin) == Level(m, WePin)
  {
    UpdateTouchesBusOnly(a, b);
    ReplayUntouched(m, UpdateEvents(a, b), WePin);
  }

  /** Driving the two control lines to any levels leaves the bus carrying what it
      carried. */
  lemma ControlKeepsCarried(m: map<int, int>, a: seq<int>, b: seq<int>, oe: int, we: int)
    requires |a| == AddrBitLen && |b| == DataBitLen
    requires Carries(m, a, b)
    ensures Carries(m[OePin := oe][WePin := we], a, b)
  {
    ShippedTablesWellFormed();
  }

  /** A write pulse entered with the write line high latches exactly one byte: the
      stored data at the stored address, with the output line disabled. Entered with
      the write line already low it has no falling edge and latches nothing. */
  lemma PulseStrobe(m: map<int, int>, a: seq<int>, b: seq<int>, oeState: bool)
    requires |a| == AddrBitLen && |b| == DataBitLen
    ensures Strobes(m, PulseEvents(a, b, oeState))
      == if Level(m, WePin) != 0 then [Strobe(ValueLsb(a), ValueLsb(b), 1)] else []
  {
    UpdateKeepsWrite(m, a, b);
    var u := UpdateEvents(a, b);
    StrobesAppend(m, u, PulseTail(oeState));
    UpdateTouchesBusOnly(a, b);
    NoStrobes(m, u);
    var mu := Replay(m, u);
    TailStrobes(mu, oeState);
    UpdateDrivesBus(m, a, b);
    var s := mu[OePin := 1][WePin := 0];
    ControlKeepsBus(mu, m, a, b);
    SnapshotOfBus(s, a, b);
  }

  /** One fill iteration ends with the write line high. */
  lemma CycleEndsWriteHigh(m: map<int, int>, i: nat, d: seq<int>)
    requires |d| == DataBitLen
    ensures Level(Replay(m, CycleEvents(i, d)), WePin) == 1
  {
    var a := LsbFirst(i, AddrBitLen);
    var head := BusEvents(AddressPins, a) + BusEvents(DataPins, d);
    var p := PulseEvents(a, d, false);
    assert CycleEvents(i, d) == head + p + [Delay(FillSettle)];
    ReplayAppend(m, head + p, [Delay(FillSettle)]);
    ReplayAppend(m, head, p);
    PulseEndState(Replay(m, head), a, d, false);
    assert [Delay(FillSettle)][..0] == [];
  }

  /** After one or more fill iterations the write line is high. */
  lemma FillEndsWriteHigh(m: map<int, int>, n: nat, d: seq<int>)
    requires 0 < n && |d| == DataBitLen
    ensures Level(Replay(m, FillEvents(n, d)), WePin) == 1
  {
    ReplayAppend(m, FillEvents(n - 1, d), CycleEvents(n - 1, d));
    CycleEndsWriteHigh(Replay(m, FillEvents(n - 1, d)), n - 1, d);
  }

  /** One fill iteration entered with the write line high latches one byte: d at
      address i, output disabled; entered with it low, nothing. */
  lemma CycleStrobe(m: map<int, int>, i: nat, d: seq<int>)
    requires i < 1024 && |d| == DataBitLen
    ensures Strobes(m, CycleEvents(i, d))
      == if Level(m, WePin) != 0 then [Strobe(i, ValueLsb(d), 1)] else []
  {
    var a := LsbFirst(i, AddrBitLen);
    var setA := BusEvents(AddressPins, a);
    var setD := BusEvents(DataPins, d);
    var p := PulseEvents(a, d, false);
    var head := setA + setD;
    var mh := Replay(m, head);
    var one := if Level(m, WePin) != 0 then [Strobe(i, ValueLsb(d), 1)] else [];
    assert Strobes(m, CycleEvents(i, d))
      == Strobes(m, head) + Strobes(mh, p) + Strobes(Replay(m, head + p), [Delay(FillSettle)]) by {
      assert CycleEvents(i, d) == head + p + [Delay(FillSettle)];
      StrobesAppend(m, head, p);
      StrobesAppend(m, head + p, [Delay(FillSettle)]);
    }
    assert Strobes(m, head) == [] by {
      assert head == UpdateEvents(a, d);
      UpdateTouchesBusOnly(a, d);
      NoStrobes(m, head);
    }
    assert Strobes(mh, p) == one by {
      assert head == UpdateEvents(a, d);
      UpdateKeepsWrite(m, a, d);
      PulseStrobe(mh, a, d, false);
      Pow2Widths();
      ValueOfLsbFirst(i, AddrBitLen);
    }
    assert Strobes(Replay(m, head + p), [Delay(FillSettle)]) == [] by {
      NoStrobes(Replay(m, head + p), [Delay(FillSettle)]);
    }
  }

  /** `Latches(lo, hi, v)` holds hi - lo latches, the k-th at address lo + k: every
      address from lo to hi - 1 once, in strictly increasing order. */
  lemma {:induction false} LatchesAt(lo: nat, hi: nat, v: int)
    requires lo <= hi
    ensures |Latches(lo, hi, v)| == hi - lo
    ensures forall k :: 0 <= k < hi - lo ==> Latches(lo, hi, v)[k] == Strobe(lo + k, v, 1)
    decreases hi
  {
    if lo < hi {
      LatchesAt(lo, hi - 1, v);
    }
  }

  /** The first n fill iterations, entered with the write line high, latch exactly n
      bytes, d at every address below n, in strictly increasing order, never with the
      output line enabled. Entered with the write line already low, the first
      iteration latches nothing and the rest latch addresses 1 to n - 1. */
  lemma {:induction false} FillStrobes(m: map<int, int>, n: nat, d: seq<int>)
    requires n <= 1024 && |d| == DataBitLen
    ensures Strobes(m, FillEvents(n, d)) == Latches(if Level(m, WePin) != 0 then 0 else 1, n, ValueLsb(d))
    decreases n
  {
    if n > 0 {
      var prev := FillEvents(n - 1, d);
      var c := CycleEvents(n - 1, d);
      var mp := Replay(m, prev);
      assert Strobes(m, FillEvents(n, d)) == Strobes(m, prev) + Strobes(mp, c) by {
        assert FillEvents(n, d) == prev + c;
        StrobesAppend(m, prev, c);
      }
      assert Strobes(mp, c) == if Level(mp, WePin) != 0 then [Strobe(n - 1, ValueLsb(d), 1)] else [] by {
        CycleStrobe(mp, n - 1, d);
      }
      FillStrobes(m, n - 1, d);
      if n == 1 {
        assert mp == m;
      } else {
        assert Level(mp, WePin) == 1 by {
          FillEndsWriteHigh(m, n - 1, d);
        }
      }
    }
  }

  /** Each fill iteration waits the settle time, the pulse width and the fill settle
      time: n of them wait n times that. */
  lemma {:induction false} FillDelay(n: nat, d: seq<int>)
    requires |d| == DataBitLen
    ensures TotalDelay(FillEvents(n, d)) == n * (T_OES + T_WP + FillSettle)
    decreases n
  {
    if n > 0 {
      FillDelay(n - 1, d);
      var a := LsbFirst(n - 1, AddrBitLen);
      var c := CycleEvents(n - 1, d);
      TotalDelayAppend(FillEvents(n - 1, d), c);
      var setA := BusEvents(AddressPins, a);
      var setD := BusEvents(DataPins, d);
      var p := PulseEvents(a, d, false);
      assert c == setA + setD + p + [Delay(FillSettle)];
      TotalDelayAppend(setA + setD + p, [Delay(FillSettle)]);
      TotalDelayAppend(setA + setD, p);
      TotalDelayAppend(setA, setD);
      BusEventsNoDelay(AddressPins, a);
      BusEventsNoDelay(DataPins, d);
      PulseDelay(a, d, false);
      assert TotalDelay([Delay(FillSettle)]) == FillSettle;
    }
  }
}

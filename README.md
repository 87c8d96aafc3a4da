# EEPROM programmer: a verified model

This project models the `EEPROMProgrammer` class of `eeprom.py` and its bulk-fill loop
`set_all`. The programmer drives a parallel EEPROM with a 10-bit address and 8-bit data
from a Raspberry Pi. It uses eleven address lines (the eleventh is configured but never
driven afterwards), eight data lines, and two active-low control lines: WE (write
enable, BCM 6) and OE (output enable, BCM 21).

The model has five modules:

- `Bits` covers binary formatting. `'{0:010b}'.format(x)` / `'{0:08b}'.format(x)` is
  modelled as `Format`, `_tolist` as `ToList` and `_tobinary` as `ToBinary`. The
  reversal that `set_address` and `set_bits` apply puts the bit of weight 2^i at list
  index i. The lemmas prove the encoding round-trips and give each bit's position.
- `Config` holds the constants: bus widths, the timing profile, the pin tables and the
  two control lines. It also has the construction-time pin-table check in two forms:
  as the code runs it, and as it is evidently meant.
- `Gpio` models the I/O layer:
  - A line write is an event `SetPin(pin, level)` and a wait is an event `Delay(us)`,
    counted in whole microseconds.
  - The level of every line is the replay of the events so far over a map from line to
    level.
- `Trace` gives the exact event sequences that the bus refresh, the write pulse and
  the bulk fill append. Its lemmas prove what those sequences mean for the device:
  - which (address, data, OE) triple is on the lines at each falling edge of WE, a
    write that drives WE low from a level that was not low;
  - that WE is never low while OE is low within a pulse's control sequence, and over
    the whole pulse when it starts with WE high. A pulse entered with WE already low
    (after `write_enable(True)`) refreshes the bus with WE low, has no falling edge and
    latches nothing; the lemmas state that case too;
  - how long each sequence waits;
  - which lines each sequence leaves alone.
- `Eeprom` has the class `Programmer`:
  - `address` (10 cells) and `bits` (8 cells) are arrays updated in place.
  - `oeEnabled` / `weEnabled` are fixed at construction, because nothing else assigns
    them.
  - A ghost line map `pins` and a ghost event log `log` stand in for the hardware.
  - Every method states the events it appends, the new array contents and the new
    line levels.
  - `SetAll` is the bulk fill: a loop over addresses 0 to 1023 that calls these methods.

The pin dictionaries are keyed by `str(i)` and are modelled as sequences indexed by i.
A call that writes a list of lines with `GPIO.output(list, v)` or
`GPIO.setup(list, OUT, initial=v)` is modelled as one `SetPin` per line, in list order.

Points where the model states what the code does rather than what one might expect:

- Neither setter checks its argument's range. `set_address` with a ≥ 1024 writes ten
  cells and lines and then fails at index 10; a negative a fails in `int('-')` before
  anything is written. `set_bits` with a non-digit character fails in `int` before any
  cell or line is written; a word shorter than eight rewrites only its first cells and
  lines and does not fail; only a word longer than eight fails part-way, after eight
  cells and lines were written. The model takes the valid domain as a precondition and
  states nothing about the other cases.
- The intended check tests only that no data line is an address line and that WE and
  OE are in neither table. It does not require every pin to be pairwise distinct.
  `Config.SanityCheck` models exactly that check. `Config.ShippedTablesPass` proves the
  stronger pairwise distinctness separately, for the shipped tables.
- With assertions enabled, the check as written cannot pass (see Findings). The
  constructor runs the corrected check.

## Model

| member | source | states |
|---|---|---|
| Bits.ToBinaryCorrect | eeprom.py:150-153 | `_tobinary(x, size=10)` for x ≤ 1023 (and `_tobinary(x)` for x ≤ 255) is exactly 10 (8) digits, each 0 or 1, whose most-significant-first value is x |
| Bits.ToBinaryIsMsbFirst | eeprom.py:150-153 | `_tobinary` equals the fixed-width most-significant-first bit list of x |
| Bits.ValueOfMsbFirst | eeprom.py:150-153 | decoding the most-significant-first w-bit list of x < 2^w gives x back |
| Bits.ToListOfTextBits | eeprom.py:145-148 | `_tolist` of a '0'/'1' string is the list of its bits, in the same order |
| Bits.Truth | eeprom.py:130 | the level driven for a list element is 0 or 1, and 0 exactly when the element is 0 |
| Bits.AddressEncoding | eeprom.py:116-118 | for 0 ≤ a ≤ 1023, the reversed `_tobinary(a, size=10)` has entry i equal to (a / 2^i) % 2; the entries are 0 or 1 and read back as a |
| Bits.LsbFirstAt | eeprom.py:118-120 | after the reversal, index i holds the bit of weight 2^i |
| Bits.ValueOfLsbFirst | eeprom.py:118-120 | decoding the stored least-significant-first bits of x < 2^w gives x |
| Bits.LsbFirstOfValue | eeprom.py:118-120 | encoding the value of any 0/1 list at its own width gives the list back: the encoding is a bijection on w-bit values |
| Bits.LastAddressAllOnes | eeprom.py:178-179 | the last address the fill sets, 1023, is stored as ten ones |
| Config.SanityCheckAsWritten | eeprom.py:66-71 | the check as written fails with an undefined name whenever the data table is non-empty; with an empty data table it passes exactly when WE and OE are in neither table |
| Config.AsWrittenRejectsShippedTables | eeprom.py:68-69 | the shipped tables satisfy the intended property, yet the check as written rejects them |
| Config.SanityCheck | eeprom.py:66-71 | the intended check passes exactly when no data line is an address line and WE and OE are in neither table; otherwise it fails on an assertion |
| Config.ShippedTablesWellFormed | eeprom.py:22-57 | the shipped tables have 11 and 8 entries, pass the intended check, and repeat no line within either table |
| Config.ShippedTablesPass | eeprom.py:22-57 | the shipped tables have 11 and 8 entries, pass the intended check, and all 21 lines, WE and OE included, are pairwise distinct |
| Gpio.ReplayBus | eeprom.py:78 | writing values to a list of distinct lines drives each line to its value and leaves every other line as it was |
| Gpio.ReplayIdempotent | eeprom.py:134-139 | repeating the same writes a second time changes no line |
| Trace.ActiveLow | eeprom.py:88-94 | the control level is 0 exactly when the line is enabled and 1 exactly when it is not |
| Trace.DataBitsOfText | eeprom.py:123-132 | for an eight-digit string s, data bit i is 0 exactly when s[7-i] is '0', and every bit is 0 or 1 (nonzero digits become 1) |
| Trace.DataRoundTrip | eeprom.py:123-132 | writing `'{0:08b}'.format(v)` for v ≤ 255 stores the bits of v least significant first, and they read back as v |
| Trace.UpdateTouchesBusOnly | eeprom.py:134-139 | the refresh is 18 line writes, none to the spare eleventh address line, WE or OE |
| Trace.UpdateDrivesBus | eeprom.py:134-139 | after the refresh, the address lines carry the stored address, the data lines carry the stored data, and every other line is unchanged |
| Trace.UpdateTwiceSameLevels | eeprom.py:134-139 | refreshing twice gives the same line levels as refreshing once |
| Trace.RefreshOfCarriedBus | eeprom.py:134-139 | when the bus already carries the stored values, the refresh changes no line |
| Trace.AddressWrite | eeprom.py:119-121 | writing new address bits drives the address lines to them; the data lines and every other line keep their levels |
| Trace.DataWrite | eeprom.py:129-132 | writing new data bits drives the data lines to them; the address lines and every other line keep their levels |
| Trace.TailReplay | eeprom.py:104-114 | the line levels after each step of the control sequence: OE high, WE low, WE high, OE back to the saved state |
| Trace.PulseNoContention | eeprom.py:104-114 | at every step of the control sequence (after the refresh) at which WE is low, OE is high: the two are never asserted together there |
| Trace.PulseEndState | eeprom.py:96-114 | a pulse ends with WE high, OE at the saved state, and the bus carrying the stored address and data |
| Trace.PulseDelay | eeprom.py:104-111 | a pulse waits T_OES + T_WP microseconds in total |
| Trace.TailStrobes | eeprom.py:104-111 | the control sequence drives WE low exactly once, with OE already high; that write is a falling edge exactly when WE was not already low |
| Trace.ControlKeepsBus | eeprom.py:104-109 | driving OE and WE does not change what the bus carries |
| Trace.UpdateKeepsWrite | eeprom.py:134-139 | the refresh leaves WE's level as it was |
| Trace.ControlKeepsCarried | eeprom.py:104-114 | driving OE and WE to any levels leaves the bus carrying what it carried |
| Trace.PulseStrobe | eeprom.py:96-114 | a pulse entered with WE high latches exactly one byte: the stored data at the stored address, with OE disabled; entered with WE low it latches nothing |
| Trace.PulseNoContentionThroughout | eeprom.py:96-114 | over a whole pulse entered with WE high, refresh included, WE is never low while OE is low |
| Trace.FillStep | eeprom.py:178-182 | one more iteration of the fill appends one address write, one data write, one pulse and one 500 µs wait |
| Trace.CycleStrobe | eeprom.py:178-182 | fill iteration i entered with WE high latches exactly one byte, the data word at address i, with OE disabled; entered with WE low, nothing |
| Trace.CycleEndsWriteHigh | eeprom.py:178-182 | every fill iteration ends with WE high |
| Trace.FillEndsWriteHigh | eeprom.py:178-182 | after one or more fill iterations WE is high |
| Trace.LatchesAt | eeprom.py:178-182 | `Latches(lo, hi, v)`, the latch list the fill is specified by, has hi - lo entries, the k-th being v at address lo + k with OE disabled: every address from lo to hi - 1 once, in strictly increasing order |
| Trace.FillStrobes | eeprom.py:178-182 | the first n iterations of the fill, started with WE high, latch exactly `Latches(0, n, word)`: the data word at every address below n, in increasing order, never with OE enabled; started with WE low, the first iteration latches nothing and the rest latch `Latches(1, n, word)` |
| Trace.FillDelay | eeprom.py:178-182 | n fill iterations wait n × (T_OES + T_WP + 500) microseconds |
| Eeprom.InitLevels | eeprom.py:73-86 | after initialisation WE and OE are high and all ten address lines and eight data lines are low |
| Eeprom.Programmer.InitLines | eeprom.py:75-86 | the line set-up of initialisation appends exactly the construction events: WE and OE high, every address and data line low, then OE disabled |
| Eeprom.Programmer.constructor | eeprom.py:59-86 | construction runs the (corrected) pin check, zeroes both arrays, drives WE and OE high and every bus line low, then disables the output |
| Eeprom.Programmer.Output | eeprom.py:121 | one single-line write (as at eeprom.py:90, 94, 121, 132, 136 and 139) appends one `SetPin` event and sets that line's level, every other line unchanged |
| Eeprom.Programmer.OutputAll | eeprom.py:78 | a list write appends one write per listed line, in list order |
| Eeprom.Programmer.Sleep | eeprom.py:5 | a wait appends one delay event and changes no line |
| Eeprom.Programmer.OutputEnable | eeprom.py:88-90 | appends one write of OE and drives OE low exactly when enabling; no other line changes |
| Eeprom.Programmer.WriteEnable | eeprom.py:92-94 | appends one write of WE and drives WE low exactly when enabling; no other line changes |
| Eeprom.Programmer.Update | eeprom.py:134-139 | appends the ten address writes, then the eight data writes, of the stored values; no line level and neither array changes |
| Eeprom.Programmer.SetAddress | eeprom.py:116-121 | stores the bits of a, least significant at index 0, and drives address line i to bit i in increasing i; the data array and every line off the ten address lines are unchanged |
| Eeprom.Programmer.StoreAddress | eeprom.py:119-121 | the address loop stores entry i of its list in address cell i and drives address line i to it, for i from 0 to 9 in order |
| Eeprom.Programmer.StoreBits | eeprom.py:129-132 | the data loop stores entry i of its list, made 0 or 1 (any nonzero value is 1), in data cell i and drives data line i to it, for i from 0 to 7 in order |
| Eeprom.Programmer.SetBits | eeprom.py:123-132 | stores the reversed word with nonzero entries made 1 (for a string s, bit i is 0 exactly when s[7-i] is '0') and drives data line i to bit i; the address array and every line off the data lines are unchanged |
| Eeprom.Programmer.PulseWrite | eeprom.py:96-114 | appends the refresh and then exactly OE←1, wait T_OES, WE←0, wait T_WP, WE←1, OE←saved state; ends with WE and OE high (the saved state is always disabled), other lines unchanged; entered with WE high the device latches exactly the stored data at the stored address, entered with WE low nothing |
| Eeprom.SetAll | eeprom.py:176-182 | 1024 iterations over addresses 0..1023 in order, each one address write, data write, pulse and 500 µs wait; the latches are exactly `Latches(0, 1024, word)` when started with WE high (the word at every address once, in increasing order, with OE disabled) and `Latches(1, 1024, word)` when started with WE low (address 0 is skipped); afterwards the data array holds the word and the address array is all ones |

## Left out

- The RPi.GPIO library (`setwarnings`, `setmode`, `setup`, `output`, `input`, `cleanup`) is a foreign hardware interface. It is replaced by the ghost line map and event log. `GPIO.setup` of a control line without an initial level is not logged, because it sets no level.
- Real sleeping is not modelled. `usleep` divides by a float and calls `time.sleep`; each wait is only a `Delay` event in whole microseconds.
- `main`, the console menu, `os.system('clear')` and the `input()`/`print` parts of `set_addr` and `set_data` are interactive I/O. `set_addr` prints a range error and then still uses the value; that path is not modelled. `set_all` takes its data word as a parameter.
- The menu's 'o' readback is not modelled. It samples `GPIO.input`, which the model cannot observe.
- `cleanup` is not modelled. It is `GPIO.cleanup` followed by a second initialisation, i.e. hardware lifecycle.
- `read` is not modelled. It is a stub that converts its argument and does nothing with it.
- Eeprom.Programmer.SetAddress: requires 0 ≤ a ≤ 1023. A larger a produces 11 digits and fails at the eleventh cell after ten lines were written, and a negative a fails in `int('-')`. The model does not reproduce these partial failures.
- Eeprom.Programmer.SetBits: requires exactly eight ASCII digit characters ('0' to '9'), or a list of exactly eight numbers. Python's `int` also accepts other Unicode decimal digits; those are not modelled. A non-digit character fails before anything is written, a shorter word rewrites only its first cells and lines, and a longer word fails after eight; the model does not reproduce these cases.
- Eeprom.Programmer.constructor: runs the corrected pin check. As written, with assertions enabled, construction always raises (see Findings); with assertions disabled (`python -O`) lines 69-71 are not executed and construction completes with no check at all, a case the model does not represent.
- `oe_enabled` / `we_enabled` are constants in the model. The code assigns them only in `__init__`, so this loses nothing.

## Findings

| source | as written | input that shows it | evidently intended | confidence | as-written member | corrected member |
|---|---|---|---|---|---|---|
| eeprom.py:68-69 | the loop over the data lines asserts that a name `value`, bound nowhere, is not an address line, so with assertions enabled its first iteration raises NameError and construction never completes (under `python -O` the assertions are dropped and construction completes unchecked) | the shipped tables (any non-empty data table) | assert that the loop variable `pin` is not an address line | not executed | Config.SanityCheckAsWritten (shown by Config.AsWrittenRejectsShippedTables) | Config.SanityCheck (with Config.ShippedTablesPass) |

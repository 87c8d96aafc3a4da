/** The programmer's fixed configuration: bus widths, timing constants (microseconds),
    the BCM line numbers of the address and data tables and of the two control lines,
    and the sanity check run when the programmer is constructed. */
module Config {

  const DataBitLen: nat := 8
  const AddrBitLen: nat := 10

  // Timing profile, in microseconds.
  const T_WP: nat := 250   // write-pulse width
  const T_AS: nat := 20    // address setup
  const T_AH: nat := 200   // address hold
  const T_OES: nat := 30   // output-disable settle
  const T_DS: nat := 100   // data setup
  const T_DH: nat := 20    // data hold
  const T_DL: nat := 100
  /** The wait after each byte of a bulk fill. */
  const FillSettle: nat := 500

  /** Address table: entry i is the line of key str(i); entry 10 is a line the bus
      never drives after construction. */
  const AddressPins: seq<int> := [9, 10, 22, 27, 17, 4, 3, 2, 14, 15, 18]
  /** Data table: entry i is the line of key str(i). */
  const DataPins: seq<int> := [5, 0, 11, 20, 16, 12, 1, 7]
  const WePin: int := 6
  const OePin: int := 21

  /** What the construction-time check is meant to establish: no data line is also an
      address line, and neither control line is in either table. */
  predicate TablesDisjoint(addr: seq<int>, data: seq<int>, we: int, oe: int) {
    (forall k :: 0 <= k < |data| ==> data[k] !in addr)
    && we !in addr && we !in data
    && oe !in addr && oe !in data
  }

  /** No line occurs twice in `s`. */
  predicate Distinct(s: seq<int>) {
    forall i, j :: 0 <= i < j < |s| ==> s[i] != s[j]
  }

  /** How the construction-time check can end: a failed assertion, or a lookup of a
      name that is bound nowhere. */
  datatype InitError = AssertionFailed | UndefinedName

  datatype Check = Pass | Fail(error: InitError)

  /** The check as the constructor runs it: the loop over the data lines tests a name
      that is never bound, so its first iteration raises; only an empty data table
      reaches the control-line assertions. */
  function SanityCheckAsWritten(addr: seq<int>, data: seq<int>, we: int, oe: int): (r: Check)
    ensures |data| > 0 ==> r == Fail(UndefinedName)
    ensures |data| == 0 ==> (r == Pass <==> TablesDisjoint(addr, data, we, oe))
  {
    if |data| > 0 then Fail(UndefinedName)
    else if we in addr || we in data then Fail(AssertionFailed)
    else if oe in addr || oe in data then Fail(AssertionFailed)
    else Pass
  }

  /** The check with the loop testing its own variable: it passes exactly when the
      tables are disjoint, and otherwise fails on an assertion. */
  method SanityCheck(addr: seq<int>, data: seq<int>, we: int, oe: int) returns (r: Check)
    ensures r == Pass <==> TablesDisjoint(addr, data, we, oe)
    ensures r != Pass ==> r == Fail(AssertionFailed)
  {
    for k := 0 to |data|
      invariant forall j :: 0 <= j < k ==> data[j] !in addr
    {
      if data[k] in addr {
        return Fail(AssertionFailed);
      }
    }
    if we in addr || we in data {
      return Fail(AssertionFailed);
    }
    if oe in addr || oe in data {
      return Fail(AssertionFailed);
    }
    return Pass;
  }

  /** The shipped tables pass the intended check; beyond it, all twenty-one lines are
      pairwise distinct, the property a pin assignment must have. */
  lemma ShippedTablesPass()
    ensures |AddressPins| == AddrBitLen + 1 && |DataPins| == DataBitLen
    ensures TablesDisjoint(AddressPins, DataPins, WePin, OePin)
    ensures Distinct(AddressPins + DataPins + [WePin, OePin])
  {
    var all := AddressPins + DataPins + [WePin, OePin];
    assert all == [9, 10, 22, 27, 17, 4, 3, 2, 14, 15, 18, 5, 0, 11, 20, 16, 12, 1, 7, 6, 21];
  }

  /** The facts about the shipped tables the programmer's operations rely on: the
      lengths, the intended check, and no line repeated within either table. */
  lemma ShippedTablesWellFormed()
    ensures |AddressPins| == AddrBitLen + 1 && |DataPins| == DataBitLen
    ensures TablesDisjoint(AddressPins, DataPins, WePin, OePin)
    ensures Distinct(AddressPins) && Distinct(DataPins)
  {
  }

  /** The check as written rejects the shipped tables, although they satisfy the
      property it is meant to test: the programmer cannot be constructed. */
  lemma AsWrittenRejectsShippedTables()
    ensures TablesDisjoint(AddressPins, DataPins, WePin, OePin)
    ensures SanityCheckAsWritten(AddressPins, DataPins, WePin, OePin) == Fail(UndefinedName)
  {
    ShippedTablesPass();
  }
}

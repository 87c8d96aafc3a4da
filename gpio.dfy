/** The digital-I/O layer under the programmer, as a record of what was done to it:
    every line write and every wait is an event, and the level of every line at any
    point is the replay of the events so far over a map from line to level. */
module Gpio {

  datatype Event = SetPin(pin: int, level: int) | Delay(us: nat)

  /** The effect of one event on the line levels. */
  function Apply(m: map<int, int>, e: Event): map<int, int> {
    match e
    case SetPin(p, l) => m[p := l]
    case Delay(_) => m
  }

  /** The line levels after `evs`, starting from `m`. */
  function Replay(m: map<int, int>, evs: seq<Event>): map<int, int>
    decreases |evs|
  {
    if evs == [] then m else Apply(Replay(m, evs[..|evs| - 1]), evs[|evs| - 1])
  }

  /** The level a line reads at: an undriven line counts as low. */
  function Level(m: map<int, int>, p: int): int {
    if p in m then m[p] else 0
  }

  /** Total time spent waiting in `evs`. */
  function TotalDelay(evs: seq<Event>): nat
    decreases |evs|
  {
    if evs == [] then 0
    else TotalDelay(evs[..|evs| - 1]) + (match evs[|evs| - 1] case Delay(us) => us case SetPin(_, _) => 0)
  }

  /** Writing `vals[i]` to line `table[i]` for each i, in increasing i. */
  function BusEvents(table: seq<int>, vals: seq<int>): seq<Event>
    requires |vals| <= |table|
  {
    seq(|vals|, i requires 0 <= i < |vals| => SetPin(table[i], vals[i]))
  }

  /** `m2` is `m` with line `table[i]` driven to `vals[i]` for every i and every other
      line as it was. */
  predicate Drove(m: map<int, int>, m2: map<int, int>, table: seq<int>, vals: seq<int>)
    requires |vals| <= |table|
  {
    (forall i :: 0 <= i < |vals| ==> table[i] in m2 && m2[table[i]] == vals[i])
    && (forall p :: p in m2 ==> p in m || p in table[..|vals|])
    && (forall p :: p in m && p !in table[..|vals|] ==> p in m2 && m2[p] == m[p])
  }

  // ---------------------------------------------------------------------------
  // Replay lemmas
  // ---------------------------------------------------------------------------

  /** Replaying a log in two parts is replaying it whole. */
  lemma {:induction false} ReplayAppend(m: map<int, int>, a: seq<Event>, b: seq<Event>)
    ensures Replay(m, a + b) == Replay(Replay(m, a), b)
    decreases |b|
  {
    if b == [] {
      assert a + b == a;
    } else {
      var b' := b[..|b| - 1];
      assert (a + b)[..|a + b| - 1] == a + b';
      assert (a + b)[|a + b| - 1] == b[|b| - 1];
      ReplayAppend(m, a, b');
    }
  }

  /** The levels after a log are the levels before, overridden by the levels the log
      itself sets. */
  lemma {:induction false} ReplayOverlay(m: map<int, int>, evs: seq<Event>)
    ensures Replay(m, evs) == m + Replay(map[], evs)
    decreases |evs|
  {
    if evs != [] {
      ReplayOverlay(m, evs[..|evs| - 1]);
      var r := Replay(map[], evs[..|evs| - 1]);
      match evs[|evs| - 1]
      case SetPin(p, l) =>
        assert (m + r)[p := l] == m + r[p := l];
      case Delay(_) =>
    }
  }

  /** Replaying the same log a second time changes no line. */
  lemma ReplayIdempotent(m: map<int, int>, evs: seq<Event>)
    ensures Replay(Replay(m, evs), evs) == Replay(m, evs)
  {
    ReplayOverlay(m, evs);
    ReplayOverlay(Replay(m, evs), evs);
    var r := Replay(map[], evs);
    assert (m + r) + r == m + r;
  }

  /** Replaying bus writes over distinct lines drives each line to its value and
      leaves every other line alone. */
  lemma {:induction false} ReplayBus(m: map<int, int>, table: seq<int>, vals: seq<int>)
    requires |vals| <= |table|
    requires forall i, j :: 0 <= i < j < |vals| ==> table[i] != table[j]
    ensures Drove(m, Replay(m, BusEvents(table, vals)), table, vals)
    decreases |vals|
  {
    var evs := BusEvents(table, vals);
    if vals != [] {
      var n := |vals| - 1;
      var vals' := vals[..n];
      assert evs[..n] == BusEvents(table, vals');
      ReplayBus(m, table, vals');
      var mid := Replay(m, evs[..n]);
      assert Replay(m, evs) == mid[table[n] := vals[n]];
      assert table[..|vals|] == table[..n] + [table[n]];
    }
  }

  /** Regrouping a log made of consecutive parts. */
  lemma AppendAssoc(x: seq<Event>, y: seq<Event>, z: seq<Event>)
    ensures x + y + z == x + (y + z)
  {
  }

  /** Writing one more entry of `vals` is one more event. */
  lemma BusEventsSnoc(table: seq<int>, vals: seq<int>, i: nat)
    requires i < |vals| <= |table|
    ensures BusEvents(table, vals[..i + 1]) == BusEvents(table, vals[..i]) + [SetPin(table[i], vals[i])]
  {
  }

  /** A log that never writes line `p` leaves its level as it was. */
  lemma {:induction false} ReplayUntouched(m: map<int, int>, evs: seq<Event>, p: int)
    requires forall k :: 0 <= k < |evs| ==> !(evs[k].SetPin? && evs[k].pin == p)
    ensures Level(Replay(m, evs), p) == Level(m, p)
    decreases |evs|
  {
    if evs != [] {
      ReplayUntouched(m, evs[..|evs| - 1], p);
    }
  }

  lemma {:induction false} TotalDelayAppend(a: seq<Event>, b: seq<Event>)
    ensures TotalDelay(a + b) == TotalDelay(a) + TotalDelay(b)
    decreases |b|
  {
    if b == [] {
      assert a + b == a;
    } else {
      var b' := b[..|b| - 1];
      assert (a + b)[..|a + b| - 1] == a + b';
      TotalDelayAppend(a, b');
    }
  }

  /** A bus write waits for nothing. */
  lemma {:induction false} BusEventsNoDelay(table: seq<int>, vals: seq<int>)
    requires |vals| <= |table|
    ensures TotalDelay(BusEvents(table, vals)) == 0
    decreases |vals|
  {
    if vals != [] {
      var n := |vals| - 1;
      assert BusEvents(table, vals)[..n] == BusEvents(table, vals[..n]);
      BusEventsNoDelay(table, vals[..n]);
    }
  }
}

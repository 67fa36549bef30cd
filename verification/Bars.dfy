/** The candle engine of src/bars.rs: forming bars per market and interval, fed by one trade stream. */
module Bars {
  import opened Ints
  import Calendar

  type Length = n: nat | n > 0 witness 1

  datatype Interval = Seconds(length: Length) | CalendarMonth

  const MINUTE := Seconds(60)

  /** 1m 3m 5m 15m 30m 1h 2h 4h 8h 12h 1d 3d 1w 1M. */
  const INTERVALS: seq<Interval> :=
    [Seconds(60), Seconds(180), Seconds(300), Seconds(900), Seconds(1800), Seconds(3600), Seconds(7200),
     Seconds(14400), Seconds(28800), Seconds(43200), Seconds(86400), Seconds(259200), Seconds(604800), CalendarMonth]

  function BucketStart(ts: u64, i: Interval): Option<u64> {
    if i.CalendarMonth? then Calendar.CalendarMonthStartUtc(ts) else Some(ts / i.length * i.length)
  }

  datatype Bar = Bar(start: u64, open: u64, high: u64, low: u64, close: u64, volume: u64, count: u64, closed: bool)

  datatype Trade = Trade(price: u64, volume: u64, ts: u64)

  function Max(a: u64, b: u64): u64 {
    if a >= b then a else b
  }

  function Min(a: u64, b: u64): u64 {
    if a <= b then a else b
  }

  function NewBar(start: u64, t: Trade): Bar {
    Bar(start, t.price, t.price, t.price, t.price, t.volume, 1, false)
  }

  function AddTrade(b: Bar, t: Trade): Bar {
    b.(high := Max(b.high, t.price), low := Min(b.low, t.price), close := t.price,
       volume := SatAdd(b.volume, t.volume), count := SatAdd(b.count, 1))
  }

  // ---- One market and interval ----

  /** The forming bar and the bars handed over as closed, oldest first. */
  datatype KeyState = KeyState(forming: Option<Bar>, closed: seq<Bar>)

  function CloseForming(s: KeyState): KeyState
    requires s.forming.Some?
  {
    KeyState(None, s.closed + [s.forming.value.(closed := true)])
  }

  function TradeStep(s: KeyState, start: u64, t: Trade): KeyState {
    var s1 := if s.forming.Some? && s.forming.value.start != start then CloseForming(s) else s;
    s1.(forming := Some(match s1.forming case Some(b) => AddTrade(b, t) case None => NewBar(start, t)))
  }

  function ExpireStep(s: KeyState, current: u64): KeyState {
    if s.forming.Some? && s.forming.value.start < current then CloseForming(s) else s
  }

  datatype BarKey = BarKey(market: string, interval: Interval)

  datatype ClosedRow = ClosedRow(key: BarKey, bar: Bar)

  function RowsOf(rows: seq<ClosedRow>, key: BarKey): seq<Bar> {
    if rows == [] then []
    else
      var rest, r := RowsOf(rows[..|rows| - 1], key), rows[|rows| - 1];
      if r.key == key then rest + [r.bar] else rest
  }

  lemma {:induction false} RowsOfAppend(rows: seq<ClosedRow>, r: ClosedRow, key: BarKey)
    ensures RowsOf(rows + [r], key) == if r.key == key then RowsOf(rows, key) + [r.bar] else RowsOf(rows, key)
  {
    assert (rows + [r])[..|rows + [r]| - 1] == rows;
  }

  ghost predicate Distinct(intervals: seq<Interval>) {
    forall i, j :: 0 <= i < j < |intervals| ==> intervals[i] != intervals[j]
  }

  /** Minutes, hours, days, a week and the calendar month: fourteen intervals, each once. */
  lemma DistinctIntervals()
    ensures Distinct(INTERVALS) && |INTERVALS| == 14
    ensures forall i: Interval :: i in INTERVALS <==> i.CalendarMonth? || IsSupported(i.length)
  {
  }

  predicate IsSupported(seconds: Length) {
    || seconds in {60, 3 * 60, 5 * 60, 15 * 60, 30 * 60}
    || seconds in {3600, 2 * 3600, 4 * 3600, 8 * 3600, 12 * 3600}
    || seconds in {86400, 3 * 86400, 7 * 86400}
  }

  /** What a trade does under one key when the given intervals take it. */
  function Traded(s: KeyState, key: BarKey, market: string, t: Trade, intervals: seq<Interval>): KeyState {
    if key.market == market && key.interval in intervals && BucketStart(t.ts, key.interval).Some?
    then TradeStep(s, BucketStart(t.ts, key.interval).value, t)
    else s
  }

  /** What a tick does under one key. */
  function Expired(s: KeyState, key: BarKey, now: u64): KeyState {
    if BucketStart(now, key.interval).Some?
    then ExpireStep(s, BucketStart(now, key.interval).value)
    else s
  }

  class Bars {
    var forming: map<BarKey, Bar>
    /** Rows handed to the store, in order. */
    var closed: seq<ClosedRow>

    constructor ()
      ensures forming == map[] && closed == []
    {
      forming, closed := map[], [];
    }

    function View(key: BarKey): KeyState
      reads this
    {
      KeyState(Get(forming, key), RowsOf(closed, key))
    }

    /** Every supported interval of the market takes the trade; nothing else moves. */
    method OnTrade(market: string, price: u64, volume: u64, ts: u64)
      modifies this
      ensures forall key :: View(key) == CallStep(old(View(key)), key, TradeCall(market, Trade(price, volume, ts)))
    {
      if volume == 0 {
        return;
      }
      DistinctIntervals();
      TakeAll(market, Trade(price, volume, ts), INTERVALS);
    }

    method TakeAll(market: string, t: Trade, intervals: seq<Interval>)
      requires Distinct(intervals)
      modifies this
      ensures forall key :: View(key) == Traded(old(View(key)), key, market, t, intervals)
    {
      for i := 0 to |intervals|
        invariant forall key :: View(key) == Traded(old(View(key)), key, market, t, intervals[..i])
      {
        var interval := intervals[i];
        assert forall x: Interval :: x in intervals[..i + 1] <==> x in intervals[..i] || x == interval;
        var start := BucketStart(t.ts, interval);
        if start.None? {
          continue;
        }
        Take(BarKey(market, interval), start.value, t);
      }
      assert intervals[..|intervals|] == intervals;
    }

    method Take(key: BarKey, start: u64, t: Trade)
      modifies this
      ensures forall k :: View(k) == if k == key then TradeStep(old(View(key)), start, t) else old(View(k))
    {
      if key in forming && forming[key].start != start {
        Close(key);
      }
      if key in forming {
        forming := forming[key := AddTrade(forming[key], t)];
      } else {
        forming := forming[key := NewBar(start, t)];
      }
    }

    method Close(key: BarKey)
      requires key in forming
      modifies this
      ensures forming == old(forming) - {key}
      ensures forall k :: View(k) == if k == key then CloseForming(old(View(key))) else old(View(k))
    {
      var row := ClosedRow(key, forming[key].(closed := true));
      forall k
        ensures RowsOf(closed + [row], k) == if k == key then RowsOf(closed, k) + [row.bar] else RowsOf(closed, k)
      {
        RowsOfAppend(closed, row, k);
      }
      closed := closed + [row];
      forming := forming - {key};
    }

    /** Visits the forming bars in any order and closes those whose bucket has ended. */
    method CloseExpired(now: u64)
      modifies this
      ensures forall key :: View(key) == CallStep(old(View(key)), key, ExpireCall(now))
    {
      var todo := forming.Keys;
      while todo != {}
        invariant todo <= forming.Keys && todo <= old(forming.Keys)
        invariant forall key :: View(key) ==
                    if key in old(forming) && key !in todo then Expired(old(View(key)), key, now) else old(View(key))
      {
        var key :| key in todo;
        todo := todo - {key};
        var current := BucketStart(now, key.interval);
        assert View(key) == old(View(key));
        if current.Some? && forming[key].start < current.value {
          Close(key);
        }
      }
    }
  }

  // ---- Calls over all markets, seen from one key ----

  /** What the engine is asked: trades of any market, and ticks for all of them. */
  datatype Call = TradeCall(market: string, trade: Trade) | ExpireCall(now: u64)

  function CallStep(s: KeyState, key: BarKey, c: Call): KeyState {
    match c
    case TradeCall(market, t) => if t.volume > 0 then Traded(s, key, market, t, INTERVALS) else s
    case ExpireCall(now) => Expired(s, key, now)
  }

  function RunCalls(calls: seq<Call>, key: BarKey): KeyState {
    if calls == [] then KeyState(None, []) else CallStep(RunCalls(calls[..|calls| - 1], key), key, calls[|calls| - 1])
  }

  // ---- The events of one market ----

  datatype Event = OnTrade(trade: Trade) | Tick(now: u64)

  function Time(e: Event): u64 {
    if e.OnTrade? then e.trade.ts else e.now
  }

  function EventStep(s: KeyState, start: u64, e: Event): KeyState {
    if e.Tick? then ExpireStep(s, start)
    else if e.trade.volume == 0 then s
    else TradeStep(s, start, e.trade)
  }

  /** An event with the start of its bucket, where there is one. */
  datatype Stamp = Stamp(start: Option<u64>, event: Event)

  function Stamps(events: seq<Event>, i: Interval): seq<Stamp> {
    seq(|events|, k requires 0 <= k < |events| => Stamp(BucketStart(Time(events[k]), i), events[k]))
  }

  /** An event whose time has no bucket changes nothing. */
  function After(s: KeyState, start: Option<u64>, e: Event): KeyState {
    match start
    case None => s
    case Some(x) => EventStep(s, x, e)
  }

  function RunStamped(stamps: seq<Stamp>, n: nat): KeyState
    requires n <= |stamps|
  {
    if n == 0 then KeyState(None, [])
    else After(RunStamped(stamps, n - 1), stamps[n - 1].start, stamps[n - 1].event)
  }

  /** The engine's run for one market and interval. */
  function Run(events: seq<Event>, i: Interval): KeyState {
    RunStamped(Stamps(events, i), |events|)
  }

  /** A market's own trades, and every tick. */
  function EventsOf(calls: seq<Call>, market: string): seq<Event> {
    if calls == [] then []
    else
      var rest := EventsOf(calls[..|calls| - 1], market);
      match calls[|calls| - 1]
      case TradeCall(m, t) => if m == market then rest + [OnTrade(t)] else rest
      case ExpireCall(now) => rest + [Tick(now)]
  }

  lemma {:induction false} StampsPrefix(a: seq<Stamp>, b: seq<Stamp>, n: nat)
    requires n <= |a| && n <= |b| && a[..n] == b[..n]
    ensures RunStamped(a, n) == RunStamped(b, n)
  {
    if n > 0 {
      assert a[..n - 1] == a[..n][..n - 1] && b[..n - 1] == b[..n][..n - 1];
      assert a[n - 1] == a[..n][n - 1] && b[n - 1] == b[..n][n - 1];
      StampsPrefix(a, b, n - 1);
    }
  }

  lemma RunAppend(events: seq<Event>, e: Event, i: Interval)
    ensures Run(events + [e], i) == After(Run(events, i), BucketStart(Time(e), i), e)
  {
    var all := Stamps(events + [e], i);
    assert all[..|events|] == Stamps(events, i)[..|events|];
    StampsPrefix(all, Stamps(events, i), |events|);
  }

  /** Any calls over any markets leave under a key the run of that market's events for that interval. */
  lemma {:induction false} CallsAreRun(calls: seq<Call>, key: BarKey)
    requires key.interval in INTERVALS
    ensures RunCalls(calls, key) == Run(EventsOf(calls, key.market), key.interval)
  {
    if calls != [] {
      var rest, c := calls[..|calls| - 1], calls[|calls| - 1];
      CallsAreRun(rest, key);
      OneCall(RunCalls(rest, key), EventsOf(rest, key.market), c, key);
    }
  }

  lemma OneCall(s: KeyState, events: seq<Event>, c: Call, key: BarKey)
    requires key.interval in INTERVALS && s == Run(events, key.interval)
    ensures var all := (match c
                        case TradeCall(m, t) => if m == key.market then events + [OnTrade(t)] else events
                        case ExpireCall(now) => events + [Tick(now)]);
            CallStep(s, key, c) == Run(all, key.interval)
  {
    match c
    case TradeCall(m, t) => RunAppend(events, OnTrade(t), key.interval);
    case ExpireCall(now) => RunAppend(events, Tick(now), key.interval);
  }

  /** Bars handed over are marked closed, and no forming bar is. */
  ghost predicate Marked(s: KeyState) {
    (forall b :: b in s.closed ==> b.closed) && (s.forming.Some? ==> !s.forming.value.closed)
  }

  lemma StepMarked(s: KeyState, key: BarKey, c: Call)
    requires Marked(s)
    ensures Marked(CallStep(s, key, c))
    ensures s.closed <= CallStep(s, key, c).closed
  {
  }

  /** Over any calls: what was handed over is marked closed, stays handed over, and nothing forming is marked. */
  lemma {:induction false} ClosedAreMarked(calls: seq<Call>, key: BarKey, n: nat)
    requires n <= |calls|
    ensures Marked(RunCalls(calls, key)) && RunCalls(calls[..n], key).closed <= RunCalls(calls, key).closed
  {
    if n < |calls| {
      var rest, c := calls[..|calls| - 1], calls[|calls| - 1];
      ClosedAreMarked(rest, key, n);
      assert rest[..n] == calls[..n];
      StepMarked(RunCalls(rest, key), key, c);
    } else if calls != [] {
      assert calls[..n] == calls;
      var rest, c := calls[..|calls| - 1], calls[|calls| - 1];
      ClosedAreMarked(rest, key, n - 1);
      StepMarked(RunCalls(rest, key), key, c);
    }
  }
}

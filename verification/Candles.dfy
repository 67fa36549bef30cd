/**
 What the candles of src/bars.rs say about the trades: for any times, exactly when they are a group-by of the
 trades into buckets, and the roll-up of the one-minute bars into longer ones.
 */
module Candles {
  import opened Ints
  import opened Bars
  import Calendar

  // ---- Buckets ----

  /** Calendar months are computed correctly up to a fixed second; the other intervals always. */
  predicate InCalendar(ts: u64, i: Interval) {
    i.CalendarMonth? ==> ts <= Calendar.LAST_CALENDAR_SECOND
  }

  /** Start of the bucket of `ts`. */
  ghost function Bucket(ts: u64, i: Interval): (start: u64) {
    if i.CalendarMonth? then
      Calendar.MonthStartMonotone(ts, ts);
      Calendar.MonthStart(ts)
    else ts / i.length * i.length
  }

  lemma BucketStartIff(ts: u64, i: Interval)
    ensures BucketStart(ts, i) == Some(Bucket(ts, i)) <==> InCalendar(ts, i)
  {
    if i.CalendarMonth? {
      Calendar.CalendarMonthStartIff(ts);
    }
  }

  lemma MulLe(x: int, y: int, n: nat)
    requires x <= y
    ensures x * n <= y * n
  {
  }

  lemma MulAssoc(x: int, y: int, z: int)
    ensures x * (y * z) == x * y * z
  {
  }

  lemma DivSplit(a: nat, n: nat)
    requires n > 0
    ensures a / n * n <= a < (a / n + 1) * n
  {
    assert a == n * (a / n) + a % n;
  }

  lemma DivUnique(a: nat, n: nat, q: nat)
    requires n > 0 && q * n <= a < (q + 1) * n
    ensures a / n == q
  {
    var p := a / n;
    DivSplit(a, n);
    if p < q {
      MulLe(p + 1, q, n);
    } else if q < p {
      MulLe(q + 1, p, n);
    }
  }

  lemma FloorMonotone(a: nat, b: nat, n: nat)
    requires a <= b && n > 0
    ensures a / n * n <= b / n * n
  {
    DivSplit(a, n);
    DivSplit(b, n);
    if b / n < a / n {
      MulLe(b / n + 1, a / n, n);
    } else {
      MulLe(a / n, b / n, n);
    }
  }

  /** Cutting a fine grid cell out of a coarse one: both sides scale. */
  lemma MulDiv(d: nat, k: nat, n: nat)
    requires k > 0 && n > 0
    ensures k * n > 0 && (d * n) / (k * n) == d / k
  {
    var q := d / k;
    DivSplit(d, k);
    MulLe(1, k, n);
    MulLe(q * k, d, n);
    MulLe(d + 1, (q + 1) * k, n);
    MulAssoc(q, k, n);
    MulAssoc(q + 1, k, n);
    assert (d + 1) * n == d * n + n;
    DivUnique(d * n, k * n, q);
  }

  lemma DivDiv(a: nat, k: nat, n: nat)
    requires k > 0 && n > 0
    ensures k * n > 0 && a / (k * n) == a / n / k
  {
    var d := a / n;
    var q := d / k;
    DivSplit(a, n);
    DivSplit(d, k);
    MulLe(1, k, n);
    MulLe(q * k, d, n);
    MulLe(d + 1, (q + 1) * k, n);
    MulAssoc(q, k, n);
    MulAssoc(q + 1, k, n);
    DivUnique(a, k * n, q);
  }

  lemma FloorOfFloor(a: nat, n: nat, k: nat)
    requires n > 0 && k > 0
    ensures k * n > 0 && (a / n * n) / (k * n) == a / (k * n)
  {
    MulDiv(a / n, k, n);
    DivDiv(a, k, n);
  }

  lemma BucketMonotone(a: u64, b: u64, i: Interval)
    requires a <= b
    ensures Bucket(a, i) <= Bucket(b, i)
  {
    if i.CalendarMonth? {
      Calendar.MonthStartMonotone(a, b);
    } else {
      FloorMonotone(a, b, i.length);
    }
  }

  /** Months, and intervals of whole minutes. */
  predicate WholeMinutes(i: Interval) {
    i.Seconds? ==> i.length % 60 == 0
  }

  lemma SupportedWhole(i: Interval)
    requires i in INTERVALS
    ensures WholeMinutes(i)
  {
  }

  /** Minutes nest in every interval the engine keeps. */
  lemma MinutesNest(ts: u64, i: Interval)
    requires WholeMinutes(i)
    ensures Bucket(Bucket(ts, MINUTE), i) == Bucket(ts, i)
  {
    if i.CalendarMonth? {
      FloorOfFloor(ts, 60, 1440);
    } else {
      FloorOfFloor(ts, 60, i.length / 60);
    }
  }

  // ---- Grouping trades by bucket ----

  /** A trade with the start of its bucket. */
  datatype Placed = Placed(start: u64, trade: Trade)

  ghost function PlaceAll(trades: seq<Trade>, i: Interval): seq<Placed> {
    seq(|trades|, k requires 0 <= k < |trades| => Placed(Bucket(trades[k].ts, i), trades[k]))
  }

  lemma PlaceAppend(trades: seq<Trade>, t: Trade, i: Interval)
    ensures PlaceAll(trades + [t], i) == PlaceAll(trades, i) + [Placed(Bucket(t.ts, i), t)]
  {
  }

  /** The bars of a trade list: a trade joins the last bar when their buckets agree. */
  function Groups(trades: seq<Placed>): seq<Bar> {
    if trades == [] then [] else Push(Groups(trades[..|trades| - 1]), trades[|trades| - 1])
  }

  function Push(bars: seq<Bar>, p: Placed): seq<Bar> {
    var n := |bars|;
    if n > 0 && bars[n - 1].start == p.start then bars[n - 1 := AddTrade(bars[n - 1], p.trade)]
    else bars + [NewBar(p.start, p.trade)]
  }

  lemma {:induction false} GroupsAppend(trades: seq<Placed>, p: Placed)
    ensures Groups(trades + [p]) == Push(Groups(trades), p)
  {
    assert (trades + [p])[..|trades + [p]| - 1] == trades;
  }

  ghost predicate EndsAt(bars: seq<Bar>, start: u64) {
    bars != [] && bars[|bars| - 1].start == start
  }

  lemma PushEnds(bars: seq<Bar>, p: Placed)
    ensures EndsAt(Push(bars, p), p.start)
    ensures |Push(bars, p)| == |bars| + if EndsAt(bars, p.start) then 0 else 1
  {
  }

  /** Trades that count: those of a positive volume. */
  predicate Counts(e: Event) {
    e.OnTrade? && e.trade.volume > 0
  }

  function Trades(events: seq<Event>): seq<Trade> {
    if events == [] then []
    else
      var rest, e := Trades(events[..|events| - 1]), events[|events| - 1];
      if Counts(e) then rest + [e.trade] else rest
  }

  /** Closed and forming bars together, without the closed mark. */
  function AllBars(s: KeyState): seq<Bar> {
    seq(|s.closed|, k requires 0 <= k < |s.closed| => s.closed[k].(closed := false))
    + if s.forming.Some? then [s.forming.value] else []
  }

  // ---- Events with their buckets ----

  /** An event with the start of its bucket. */
  datatype Mark = Mark(start: u64, event: Event)

  ghost function Marks(events: seq<Event>, i: Interval): seq<Mark> {
    seq(|events|, k requires 0 <= k < |events| => Mark(Bucket(Time(events[k]), i), events[k]))
  }

  // The first n events: the engine after them, its bars, and the groups of their trades.

  function RunTo(m: seq<Mark>, n: nat): KeyState
    requires n <= |m|
  {
    if n == 0 then KeyState(None, []) else EventStep(RunTo(m, n - 1), m[n - 1].start, m[n - 1].event)
  }

  function BarsTo(m: seq<Mark>, n: nat): seq<Bar>
    requires n <= |m|
  {
    AllBars(RunTo(m, n))
  }

  function GroupsTo(m: seq<Mark>, n: nat): seq<Bar>
    requires n <= |m|
  {
    if n == 0 then []
    else if Counts(m[n - 1].event) then Push(GroupsTo(m, n - 1), Placed(m[n - 1].start, m[n - 1].event.trade))
    else GroupsTo(m, n - 1)
  }

  ghost predicate Timed(events: seq<Event>, i: Interval) {
    forall a :: 0 <= a < |events| ==> InCalendar(Time(events[a]), i)
  }

  lemma StampIsMark(events: seq<Event>, i: Interval, k: nat)
    requires k < |events| && InCalendar(Time(events[k]), i)
    ensures Stamps(events, i)[k] == Stamp(Some(Marks(events, i)[k].start), Marks(events, i)[k].event)
  {
    BucketStartIff(Time(events[k]), i);
  }

  lemma {:induction false} SameRun(stamps: seq<Stamp>, m: seq<Mark>, n: nat)
    requires n <= |m| && n <= |stamps|
    requires forall k :: 0 <= k < n ==> stamps[k] == Stamp(Some(m[k].start), m[k].event)
    ensures RunStamped(stamps, n) == RunTo(m, n)
  {
    if n > 0 {
      SameRun(stamps, m, n - 1);
    }
  }

  lemma {:induction false} RunIsMarked(events: seq<Event>, i: Interval)
    requires Timed(events, i)
    ensures Run(events, i) == RunTo(Marks(events, i), |events|)
  {
    var stamps, m := Stamps(events, i), Marks(events, i);
    forall k | 0 <= k < |events|
      ensures stamps[k] == Stamp(Some(m[k].start), m[k].event)
    {
      StampIsMark(events, i, k);
    }
    SameRun(stamps, m, |events|);
  }

  lemma {:induction false} GroupsAreMarked(events: seq<Event>, i: Interval, n: nat)
    requires n <= |events|
    ensures Groups(PlaceAll(Trades(events[..n]), i)) == GroupsTo(Marks(events, i), n)
  {
    if n > 0 {
      GroupsAreMarked(events, i, n - 1);
      var e := events[n - 1];
      assert events[..n][..n - 1] == events[..n - 1];
      if Counts(e) {
        PlaceAppend(Trades(events[..n - 1]), e.trade, i);
        GroupsAppend(PlaceAll(Trades(events[..n - 1]), i), Placed(Bucket(e.trade.ts, i), e.trade));
      }
    } else {
      assert PlaceAll(Trades(events[..0]), i) == [];
    }
  }

  /** The engine and the grouping of all events, told from the marks. */
  lemma {:induction false} AllMarked(events: seq<Event>, i: Interval)
    requires Timed(events, i)
    ensures |Marks(events, i)| == |events|
    ensures AllBars(Run(events, i)) == BarsTo(Marks(events, i), |events|)
    ensures Groups(PlaceAll(Trades(events), i)) == GroupsTo(Marks(events, i), |events|)
  {
    RunIsMarked(events, i);
    GroupsAreMarked(events, i, |events|);
    assert events[..|events|] == events;
  }

  // ---- One step of the engine ----

  ghost predicate FormingOpen(s: KeyState) {
    s.forming.Some? ==> !s.forming.value.closed
  }

  lemma CloseKeepsBars(s: KeyState)
    requires FormingOpen(s) && s.forming.Some?
    ensures AllBars(CloseForming(s)) == AllBars(s) && FormingOpen(CloseForming(s))
  {
  }

  lemma OpenAppends(s: KeyState, start: u64, t: Trade)
    requires s.forming.None?
    ensures AllBars(TradeStep(s, start, t)) == AllBars(s) + [NewBar(start, t)]
  {
  }

  /** A trade of the forming bucket joins its bar; any other trade opens a bar after all the others. */
  lemma TradeBars(s: KeyState, start: u64, t: Trade)
    requires FormingOpen(s)
    ensures var after := TradeStep(s, start, t);
            && FormingOpen(after) && after.forming.Some? && after.forming.value.start == start
            && AllBars(after) == (if s.forming.Some? && s.forming.value.start == start then Push(AllBars(s), Placed(start, t))
                                  else AllBars(s) + [NewBar(start, t)])
  {
    if s.forming.Some? && s.forming.value.start == start {
      var n := |s.closed|;
      assert AllBars(s)[n] == s.forming.value;
      assert AllBars(TradeStep(s, start, t)) == AllBars(s)[n := AddTrade(AllBars(s)[n], t)];
    } else if s.forming.Some? {
      CloseKeepsBars(s);
      OpenAppends(CloseForming(s), start, t);
    } else {
      OpenAppends(s, start, t);
    }
  }

  lemma ExpireBars(s: KeyState, current: u64)
    requires FormingOpen(s)
    ensures FormingOpen(ExpireStep(s, current)) && AllBars(ExpireStep(s, current)) == AllBars(s)
  {
    if s.forming.Some? && s.forming.value.start < current {
      CloseKeepsBars(s);
    }
  }

  lemma FormingIsLast(s: KeyState)
    requires s.forming.Some?
    ensures EndsAt(AllBars(s), s.forming.value.start)
  {
    assert AllBars(s)[|s.closed|] == s.forming.value;
  }

  // ---- What is forming, told from the times ----

  predicate HasTrade(m: seq<Mark>, n: nat)
    requires n <= |m|
  {
    exists a :: 0 <= a < n && Counts(m[a].event)
  }

  /** Index of the last trade that counts among the first n events. */
  function LastCounted(m: seq<Mark>, n: nat): (p: nat)
    requires n <= |m| && HasTrade(m, n)
    ensures p < n && Counts(m[p].event) && forall b :: p < b < n ==> !Counts(m[b].event)
  {
    if Counts(m[n - 1].event) then n - 1 else LastCounted(m, n - 1)
  }

  /** No tick between event p and the n-th belongs to a later bucket. */
  ghost predicate StillOpen(m: seq<Mark>, p: nat, n: nat)
    requires p < |m| && n <= |m|
  {
    forall c :: p < c < n && m[c].event.Tick? ==> m[c].start <= m[p].start
  }

  /** The bucket of the last trade, if any, and whether it is still open. */
  ghost predicate OpenAt(m: seq<Mark>, n: nat, start: u64)
    requires n <= |m|
  {
    HasTrade(m, n) && var p := LastCounted(m, n); m[p].start == start && StillOpen(m, p, n)
  }

  /** A bar is forming exactly while no tick has ended the bucket of the last trade. */
  ghost predicate Told(s: KeyState, start: u64, open: bool) {
    && FormingOpen(s)
    && (s.forming.Some? <==> open)
    && (s.forming.Some? ==> s.forming.value.start == start)
    && EndsAt(AllBars(s), start)
  }

  ghost predicate FormingTold(m: seq<Mark>, n: nat)
    requires n <= |m|
  {
    if HasTrade(m, n) then var p := LastCounted(m, n); Told(RunTo(m, n), m[p].start, StillOpen(m, p, n))
    else RunTo(m, n) == KeyState(None, [])
  }

  lemma ToldAfterTrade(s: KeyState, start: u64, t: Trade)
    requires FormingOpen(s)
    ensures Told(TradeStep(s, start, t), start, true)
  {
    TradeBars(s, start, t);
    FormingIsLast(TradeStep(s, start, t));
  }

  lemma ToldAfterTick(s: KeyState, start: u64, open: bool, current: u64)
    requires Told(s, start, open)
    ensures Told(ExpireStep(s, current), start, open && current <= start)
  {
    ExpireBars(s, current);
  }

  lemma LastStep(m: seq<Mark>, n: nat)
    requires n < |m|
    ensures HasTrade(m, n + 1) <==> HasTrade(m, n) || Counts(m[n].event)
    ensures Counts(m[n].event) ==> LastCounted(m, n + 1) == n
    ensures HasTrade(m, n) && !Counts(m[n].event) ==> LastCounted(m, n + 1) == LastCounted(m, n)
  {
    if HasTrade(m, n) {
      var a :| 0 <= a < n && Counts(m[a].event);
      assert HasTrade(m, n + 1);
    }
    if Counts(m[n].event) {
      assert HasTrade(m, n + 1);
    }
  }

  lemma OpenStep(m: seq<Mark>, p: nat, n: nat)
    requires p < n < |m|
    ensures StillOpen(m, p, n + 1) <==> StillOpen(m, p, n) && (m[n].event.Tick? ==> m[n].start <= m[p].start)
  {
  }

  lemma FormingStep(m: seq<Mark>, n: nat)
    requires n < |m| && FormingTold(m, n)
    ensures FormingTold(m, n + 1)
  {
    var s, e, start := RunTo(m, n), m[n].event, m[n].start;
    LastStep(m, n);
    if Counts(e) {
      ToldAfterTrade(s, start, e.trade);
    } else if HasTrade(m, n) {
      var p := LastCounted(m, n);
      OpenStep(m, p, n);
      if e.Tick? {
        ToldAfterTick(s, m[p].start, StillOpen(m, p, n), start);
      }
    }
  }

  lemma {:induction false} FormingIsTold(m: seq<Mark>, n: nat)
    requires n <= |m|
    ensures FormingTold(m, n) && FormingOpen(RunTo(m, n))
  {
    if n > 0 {
      FormingIsTold(m, n - 1);
      FormingStep(m, n - 1);
    }
  }

  // ---- How one event changes the bars ----

  /** A counted trade joins the last bar when its bucket is open, and opens a bar otherwise. */
  lemma CountedStep(m: seq<Mark>, n: nat)
    requires n < |m| && Counts(m[n].event)
    ensures var before, p := BarsTo(m, n), Placed(m[n].start, m[n].event.trade);
            && (OpenAt(m, n, p.start) ==> EndsAt(before, p.start))
            && BarsTo(m, n + 1) == if OpenAt(m, n, p.start) then Push(before, p) else before + [NewBar(p.start, p.trade)]
  {
    FormingIsTold(m, n);
    TradeBars(RunTo(m, n), m[n].start, m[n].event.trade);
  }

  lemma OtherStep(m: seq<Mark>, n: nat)
    requires n < |m| && !Counts(m[n].event)
    ensures BarsTo(m, n + 1) == BarsTo(m, n)
  {
    FormingIsTold(m, n);
    if m[n].event.Tick? {
      ExpireBars(RunTo(m, n), m[n].start);
    }
  }

  // ---- The bars are the groups of consecutive trades, exactly when no bucket is broken ----

  /** Trade b does not come back to the bucket of the trade before it after a tick has ended that bucket. */
  ghost predicate UnbrokenAt(m: seq<Mark>, b: nat)
    requires b < |m|
  {
    Counts(m[b].event) && HasTrade(m, b) ==>
      var p := LastCounted(m, b); m[p].start == m[b].start ==> StillOpen(m, p, b)
  }

  ghost predicate UnbrokenTo(m: seq<Mark>, n: nat)
    requires n <= |m|
  {
    forall b :: 0 <= b < n ==> UnbrokenAt(m, b)
  }

  ghost predicate Unbroken(m: seq<Mark>) {
    UnbrokenTo(m, |m|)
  }

  lemma {:induction false} GroupsEndAtLast(m: seq<Mark>, n: nat)
    requires n <= |m|
    ensures if HasTrade(m, n) then EndsAt(GroupsTo(m, n), m[LastCounted(m, n)].start) else GroupsTo(m, n) == []
  {
    if n > 0 {
      GroupsEndAtLast(m, n - 1);
      LastStep(m, n - 1);
      if Counts(m[n - 1].event) {
        PushEnds(GroupsTo(m, n - 1), Placed(m[n - 1].start, m[n - 1].event.trade));
      }
    }
  }

  /** There are never fewer bars than groups, and as many exactly when no bucket is broken; then they agree. */
  ghost predicate Compared(bars: seq<Bar>, groups: seq<Bar>, unbroken: bool) {
    && |bars| >= |groups|
    && (unbroken ==> bars == groups)
    && (!unbroken ==> |bars| > |groups|)
  }

  /** A trade pushed onto the groups, and joined or opened among the bars. */
  lemma ComparedPush(bars: seq<Bar>, groups: seq<Bar>, unbroken: bool, p: Placed, joins: bool)
    requires Compared(bars, groups, unbroken)
    requires joins ==> EndsAt(bars, p.start) && EndsAt(groups, p.start)
    ensures var after := if joins then Push(bars, p) else bars + [NewBar(p.start, p.trade)];
            Compared(after, Push(groups, p), unbroken && (EndsAt(groups, p.start) ==> joins))
  {
    PushEnds(bars, p);
    PushEnds(groups, p);
  }

  lemma {:induction false} AgainstGroups(m: seq<Mark>, n: nat)
    requires n <= |m|
    ensures Compared(BarsTo(m, n), GroupsTo(m, n), UnbrokenTo(m, n))
  {
    if n > 0 {
      var k := n - 1;
      AgainstGroups(m, k);
      assert UnbrokenTo(m, n) <==> UnbrokenTo(m, k) && UnbrokenAt(m, k);
      if Counts(m[k].event) {
        CountedStep(m, k);
        GroupsEndAtLast(m, k);
        ComparedPush(BarsTo(m, k), GroupsTo(m, k), UnbrokenTo(m, k), Placed(m[k].start, m[k].event.trade),
                     OpenAt(m, k, m[k].start));
      } else {
        OtherStep(m, k);
      }
    }
  }

  /**
   Closed and forming bars are the bars of the consecutive groups of the trades, if and only if no trade
   comes back to a bucket that a tick has ended.
   */
  lemma {:induction false} EngineGroupsIff(events: seq<Event>, i: Interval)
    requires Timed(events, i)
    ensures AllBars(Run(events, i)) == Groups(PlaceAll(Trades(events), i)) <==> Unbroken(Marks(events, i))
  {
    AllMarked(events, i);
    AgainstGroups(Marks(events, i), |events|);
  }

  // ---- What a bar of the grouping says ----

  ghost predicate Increasing(bars: seq<Bar>) {
    forall k :: 0 < k < |bars| ==> bars[k - 1].start < bars[k].start
  }

  lemma {:induction false} StartsIncrease(bars: seq<Bar>, a: nat, b: nat)
    requires Increasing(bars) && a < b < |bars|
    ensures bars[a].start < bars[b].start
  {
    if a + 1 < b {
      StartsIncrease(bars, a, b - 1);
    }
  }

  /** Trades of one bucket. */
  function InBucket(trades: seq<Placed>, start: u64): seq<Trade> {
    if trades == [] then []
    else
      var rest, p := InBucket(trades[..|trades| - 1], start), trades[|trades| - 1];
      if p.start == start then rest + [p.trade] else rest
  }

  function SumVolume(trades: seq<Trade>): nat {
    if trades == [] then 0 else SumVolume(trades[..|trades| - 1]) + trades[|trades| - 1].volume
  }

  ghost predicate HasPrice(trades: seq<Trade>, price: u64) {
    exists k :: 0 <= k < |trades| && trades[k].price == price
  }

  /** First, extreme and last price, capped volume and count of a non-empty trade list. */
  ghost predicate Summarizes(b: Bar, trades: seq<Trade>) {
    && trades != []
    && b.open == trades[0].price && b.close == trades[|trades| - 1].price
    && (forall k :: 0 <= k < |trades| ==> b.low <= trades[k].price <= b.high)
    && HasPrice(trades, b.high) && HasPrice(trades, b.low)
    && b.volume == Clamped(SumVolume(trades))
    && b.count == Clamped(|trades|)
    && !b.closed
  }

  lemma HasPriceGrows(trades: seq<Trade>, t: Trade, price: u64)
    ensures HasPrice(trades, price) || t.price == price ==> HasPrice(trades + [t], price)
  {
    var all := trades + [t];
    if HasPrice(trades, price) {
      var k :| 0 <= k < |trades| && trades[k].price == price;
      assert all[k].price == price;
    } else {
      assert all[|trades|] == t;
    }
  }

  lemma SummaryGrows(b: Bar, trades: seq<Trade>, t: Trade)
    requires Summarizes(b, trades)
    ensures Summarizes(AddTrade(b, t), trades + [t])
  {
    assert (trades + [t])[..|trades + [t]| - 1] == trades;
    HasPriceGrows(trades, t, AddTrade(b, t).high);
    HasPriceGrows(trades, t, AddTrade(b, t).low);
  }

  lemma SummaryStarts(start: u64, t: Trade)
    ensures Summarizes(NewBar(start, t), [t])
  {
    assert [t][..0] == [];
    assert [t][0] == t;
  }

  ghost predicate Exists(bars: seq<Bar>, start: u64) {
    exists k :: 0 <= k < |bars| && bars[k].start == start
  }

  /** The grouping is a group-by: one bar per bucket that has trades, summarizing exactly those, in time order. */
  ghost predicate IsGroupBy(bars: seq<Bar>, trades: seq<Placed>) {
    && Increasing(bars)
    && (forall k :: 0 <= k < |bars| ==> Summarizes(bars[k], InBucket(trades, bars[k].start)))
    && Buckets(bars, trades)
  }

  lemma {:induction false} InBucketPush(trades: seq<Placed>, p: Placed, start: u64)
    ensures InBucket(trades + [p], start) ==
            if p.start == start then InBucket(trades, start) + [p.trade] else InBucket(trades, start)
  {
    assert (trades + [p])[..|trades + [p]| - 1] == trades;
  }

  ghost predicate PastOf(bars: seq<Bar>, start: u64) {
    bars != [] ==> bars[|bars| - 1].start <= start
  }

  lemma ExistsPush(bars: seq<Bar>, p: Placed, start: u64)
    ensures Exists(Push(bars, p), start) <==> Exists(bars, start) || p.start == start
  {
    var n, after := |bars|, Push(bars, p);
    if Exists(bars, start) {
      var k :| 0 <= k < n && bars[k].start == start;
      assert after[k].start == start;
    }
    assert after[|after| - 1].start == p.start;
    if Exists(after, start) {
      var k :| 0 <= k < |after| && after[k].start == start;
      if k < n {
        assert bars[k].start == start;
      }
    }
  }

  lemma NotYetThere(bars: seq<Bar>, start: u64)
    requires Increasing(bars) && PastOf(bars, start) && (bars == [] || bars[|bars| - 1].start != start)
    ensures !Exists(bars, start)
  {
    if Exists(bars, start) {
      var k :| 0 <= k < |bars| && bars[k].start == start;
      if k < |bars| - 1 {
        StartsIncrease(bars, k, |bars| - 1);
      }
    }
  }

  lemma OnlyLast(bars: seq<Bar>, start: u64, k: nat)
    requires Increasing(bars) && PastOf(bars, start) && k < |bars| && bars[k].start == start
    ensures k == |bars| - 1
  {
    if k < |bars| - 1 {
      StartsIncrease(bars, k, |bars| - 1);
    }
  }

  /** Pushing a trade keeps every bar's summary. */
  lemma {:induction false} PushSummaries(bars: seq<Bar>, trades: seq<Placed>, p: Placed, k: nat)
    requires IsGroupBy(bars, trades) && PastOf(bars, p.start) && k < |Push(bars, p)|
    ensures Summarizes(Push(bars, p)[k], InBucket(trades + [p], Push(bars, p)[k].start))
  {
    InBucketPush(trades, p, Push(bars, p)[k].start);
    if k == |bars| {
      NotYetThere(bars, p.start);
      assert InBucket(trades, p.start) == [];
      assert [] + [p.trade] == [p.trade];
      SummaryStarts(p.start, p.trade);
    } else if bars[k].start == p.start {
      OnlyLast(bars, p.start, k);
      SummaryGrows(bars[k], InBucket(trades, p.start), p.trade);
    }
  }

  lemma PushIncreasing(bars: seq<Bar>, p: Placed)
    requires Increasing(bars) && PastOf(bars, p.start)
    ensures Increasing(Push(bars, p))
  {
  }

  /** Exactly the buckets with trades have bars. */
  ghost predicate Buckets(bars: seq<Bar>, trades: seq<Placed>) {
    forall start :: Exists(bars, start) <==> InBucket(trades, start) != []
  }

  lemma PushBuckets(bars: seq<Bar>, trades: seq<Placed>, p: Placed)
    requires Buckets(bars, trades)
    ensures Buckets(Push(bars, p), trades + [p])
  {
    forall start
      ensures Exists(Push(bars, p), start) <==> InBucket(trades + [p], start) != []
    {
      ExistsPush(bars, p, start);
      InBucketPush(trades, p, start);
    }
  }

  lemma PushGroupBy(bars: seq<Bar>, trades: seq<Placed>, p: Placed)
    requires IsGroupBy(bars, trades) && PastOf(bars, p.start)
    ensures IsGroupBy(Push(bars, p), trades + [p])
  {
    var after := Push(bars, p);
    PushIncreasing(bars, p);
    PushBuckets(bars, trades, p);
    forall k | 0 <= k < |after|
      ensures Summarizes(after[k], InBucket(trades + [p], after[k].start))
    {
      PushSummaries(bars, trades, p, k);
    }
  }

  ghost predicate StartsOrdered(trades: seq<Placed>) {
    forall a, b :: 0 <= a < b < |trades| ==> trades[a].start <= trades[b].start
  }

  lemma {:induction false} GroupsEnd(trades: seq<Placed>)
    requires trades != []
    ensures Groups(trades) != [] && Groups(trades)[|Groups(trades)| - 1].start == trades[|trades| - 1].start
  {
  }

  lemma {:induction false} GroupByOne(trades: seq<Placed>, p: Placed)
    requires IsGroupBy(Groups(trades), trades)
    requires trades != [] ==> trades[|trades| - 1].start <= p.start
    ensures IsGroupBy(Groups(trades + [p]), trades + [p])
  {
    if trades != [] {
      GroupsEnd(trades);
    }
    PushGroupBy(Groups(trades), trades, p);
    GroupsAppend(trades, p);
  }

  lemma {:induction false} GroupsAreGroupBy(trades: seq<Placed>)
    requires StartsOrdered(trades)
    ensures IsGroupBy(Groups(trades), trades)
  {
    if trades != [] {
      var n := |trades| - 1;
      assert trades == trades[..n] + [trades[n]];
      GroupsAreGroupBy(trades[..n]);
      GroupByOne(trades[..n], trades[n]);
    }
  }

  // ---- The bars are a group-by, exactly when trades and ticks come in turn ----

  /** Buckets of counted trades never decrease. */
  ghost predicate Steady(m: seq<Mark>) {
    forall a, b :: 0 <= a < b < |m| && Counts(m[a].event) && Counts(m[b].event) ==> m[a].start <= m[b].start
  }

  /** After a tick of a later bucket than an earlier trade, a trade is of a later bucket too. */
  ghost predicate TicksHold(m: seq<Mark>) {
    forall a, c, b :: 0 <= a < c < b < |m| ==> Held(m, a, c, b)
  }

  ghost predicate Held(m: seq<Mark>, a: nat, c: nat, b: nat)
    requires a < |m| && b < |m| && c < |m|
  {
    Counts(m[a].event) && m[c].event.Tick? && Counts(m[b].event) && m[a].start < m[c].start ==> m[a].start < m[b].start
  }

  /** Told from the times alone. */
  ghost predicate InTurn(m: seq<Mark>) {
    Steady(m) && TicksHold(m)
  }

  lemma HeldUnbroken(m: seq<Mark>, b: nat)
    requires TicksHold(m) && b < |m|
    ensures UnbrokenAt(m, b)
  {
    if Counts(m[b].event) && HasTrade(m, b) {
      var p := LastCounted(m, b);
      if m[p].start == m[b].start {
        forall c | p < c < b && m[c].event.Tick?
          ensures m[c].start <= m[p].start
        {
          assert Held(m, p, c, b);
        }
      }
    }
  }

  /** The first trade after the tick breaks the bucket, or is of a later one. */
  lemma {:induction false} UnbrokenHeld(m: seq<Mark>, a: nat, c: nat, b: nat)
    requires Steady(m) && Unbroken(m)
    requires a < c < b < |m| && Counts(m[a].event) && m[c].event.Tick? && Counts(m[b].event)
    requires m[a].start < m[c].start
    ensures m[a].start < m[b].start
    decreases b
  {
    assert HasTrade(m, b);
    var p := LastCounted(m, b);
    if c < p {
      UnbrokenHeld(m, a, c, p);
    } else {
      assert UnbrokenAt(m, b);
    }
  }

  lemma SteadyTicksIff(m: seq<Mark>)
    requires Steady(m)
    ensures TicksHold(m) <==> Unbroken(m)
  {
    if TicksHold(m) {
      forall b | 0 <= b < |m|
        ensures UnbrokenAt(m, b)
      {
        HeldUnbroken(m, b);
      }
    }
    if Unbroken(m) {
      forall a, c, b | 0 <= a < c < b < |m|
        ensures Held(m, a, c, b)
      {
        if Counts(m[a].event) && m[c].event.Tick? && Counts(m[b].event) && m[a].start < m[c].start {
          UnbrokenHeld(m, a, c, b);
        }
      }
    }
  }

  // ---- From the bars back to the times ----

  /** Starts of bars stay where they are. */
  ghost predicate StartsKept(before: seq<Bar>, after: seq<Bar>) {
    |before| <= |after| && forall k :: 0 <= k < |before| ==> before[k].start == after[k].start
  }

  lemma PushKept(bars: seq<Bar>, p: Placed)
    ensures StartsKept(bars, Push(bars, p))
  {
  }

  lemma BarsGrow(m: seq<Mark>, n: nat)
    requires n < |m|
    ensures StartsKept(BarsTo(m, n), BarsTo(m, n + 1))
  {
    if Counts(m[n].event) {
      CountedStep(m, n);
      PushKept(BarsTo(m, n), Placed(m[n].start, m[n].event.trade));
    } else {
      OtherStep(m, n);
    }
  }

  lemma {:induction false} BarsKept(m: seq<Mark>, b: nat, n: nat)
    requires b <= n <= |m|
    ensures StartsKept(BarsTo(m, b), BarsTo(m, n))
    decreases n - b
  {
    if b < n {
      BarsKept(m, b, n - 1);
      BarsGrow(m, n - 1);
    }
  }

  lemma IncreasingBefore(before: seq<Bar>, after: seq<Bar>)
    requires StartsKept(before, after) && Increasing(after)
    ensures Increasing(before)
  {
    forall k | 0 < k < |before|
      ensures before[k - 1].start < before[k].start
    {
      assert after[k - 1].start < after[k].start;
    }
  }

  /** After a counted trade its bar is the last one. */
  lemma TradeIsLast(m: seq<Mark>, b: nat)
    requires b < |m| && Counts(m[b].event)
    ensures EndsAt(BarsTo(m, b + 1), m[b].start)
  {
    FormingIsTold(m, b + 1);
    LastStep(m, b);
  }

  /** In bars of strict time order no counted trade is of an earlier bucket than one before it. */
  lemma SteadyAt(m: seq<Mark>, a: nat, b: nat)
    requires a < b < |m| && Counts(m[a].event) && Counts(m[b].event) && Increasing(BarsTo(m, b + 1))
    ensures m[a].start <= m[b].start
  {
    var earlier, later := BarsTo(m, a + 1), BarsTo(m, b + 1);
    TradeIsLast(m, a);
    TradeIsLast(m, b);
    BarsKept(m, a + 1, b + 1);
    var k, n := |earlier| - 1, |later| - 1;
    assert later[k].start == m[a].start;
    if k < n {
      StartsIncrease(later, k, n);
    }
  }

  lemma NotIncreasing(bars: seq<Bar>, start: u64, t: Trade)
    requires EndsAt(bars, start)
    ensures !Increasing(bars + [NewBar(start, t)])
  {
    var all := bars + [NewBar(start, t)];
    assert all[|bars| - 1].start == all[|bars|].start;
  }

  /** Nor does it come back to a bucket that was ended. */
  lemma IncreasingUnbroken(m: seq<Mark>, b: nat)
    requires b < |m| && Increasing(BarsTo(m, b + 1))
    ensures UnbrokenAt(m, b)
  {
    if Counts(m[b].event) && HasTrade(m, b) && m[LastCounted(m, b)].start == m[b].start {
      CountedStep(m, b);
      FormingIsTold(m, b);
      NotIncreasing(BarsTo(m, b), m[b].start, m[b].event.trade);
    }
  }

  /** Bars in strict time order tell that trades came in turn. */
  lemma IncreasingInTurn(m: seq<Mark>)
    requires Increasing(BarsTo(m, |m|))
    ensures InTurn(m)
  {
    forall b | 0 <= b < |m|
      ensures Increasing(BarsTo(m, b + 1)) && UnbrokenAt(m, b)
    {
      BarsKept(m, b + 1, |m|);
      IncreasingBefore(BarsTo(m, b + 1), BarsTo(m, |m|));
      IncreasingUnbroken(m, b);
    }
    forall a, b | 0 <= a < b < |m| && Counts(m[a].event) && Counts(m[b].event)
      ensures m[a].start <= m[b].start
    {
      BarsKept(m, b + 1, |m|);
      IncreasingBefore(BarsTo(m, b + 1), BarsTo(m, |m|));
      SteadyAt(m, a, b);
    }
    SteadyTicksIff(m);
  }

  /** Every placed trade is some counted event. */
  lemma {:induction false} PlacedFrom(events: seq<Event>, i: Interval, n: nat, k: nat) returns (a: nat)
    requires n <= |events| && k < |Trades(events[..n])|
    ensures a < n && Counts(events[a]) && Trades(events[..n])[k] == events[a].trade
  {
    assert events[..n][..n - 1] == events[..n - 1];
    if Counts(events[n - 1]) && k == |Trades(events[..n - 1])| {
      a := n - 1;
    } else {
      a := PlacedFrom(events, i, n - 1, k);
    }
  }

  lemma {:induction false} SteadyPlaced(events: seq<Event>, i: Interval, n: nat)
    requires Steady(Marks(events, i)) && n <= |events|
    ensures StartsOrdered(PlaceAll(Trades(events[..n]), i))
  {
    if n > 0 {
      SteadyPlaced(events, i, n - 1);
      assert events[..n][..n - 1] == events[..n - 1];
      if Counts(events[n - 1]) {
        LastPlaced(events, i, n - 1);
      }
    }
  }

  lemma LastPlaced(events: seq<Event>, i: Interval, n: nat)
    requires Steady(Marks(events, i)) && n < |events| && Counts(events[n])
    requires StartsOrdered(PlaceAll(Trades(events[..n]), i))
    ensures StartsOrdered(PlaceAll(Trades(events[..n]) + [events[n].trade], i))
  {
    var trades, m := Trades(events[..n]), Marks(events, i);
    PlaceAppend(trades, events[n].trade, i);
    forall k | 0 <= k < |trades|
      ensures PlaceAll(trades, i)[k].start <= m[n].start
    {
      var a := PlacedFrom(events, i, n, k);
      assert m[a].start <= m[n].start;
    }
  }

  /**
   Candles refine a group-by: closed and forming bars are, bucket by bucket and in time order, exactly first,
   highest, lowest and last price, capped volume and count of the trades there, if and only if the trades and
   ticks come in turn.
   */
  lemma {:induction false} EngineIsGroupByIff(events: seq<Event>, i: Interval)
    requires Timed(events, i)
    ensures IsGroupBy(AllBars(Run(events, i)), PlaceAll(Trades(events), i)) <==> InTurn(Marks(events, i))
  {
    AllMarked(events, i);
    if InTurn(Marks(events, i)) {
      SteadyTicksIff(Marks(events, i));
      EngineGroupsIff(events, i);
      SteadyPlaced(events, i, |events|);
      assert events[..|events|] == events;
      GroupsAreGroupBy(PlaceAll(Trades(events), i));
    }
    if Increasing(AllBars(Run(events, i))) {
      IncreasingInTurn(Marks(events, i));
    }
  }

  /** Bars, closed or forming, start in strict time order, no start twice, if and only if all comes in turn. */
  lemma StartsOnceIff(events: seq<Event>, i: Interval)
    requires Timed(events, i)
    ensures Increasing(AllBars(Run(events, i))) <==> InTurn(Marks(events, i))
  {
    EngineIsGroupByIff(events, i);
    AllMarked(events, i);
    if Increasing(AllBars(Run(events, i))) {
      IncreasingInTurn(Marks(events, i));
    }
  }

  /** Each start of a market and interval is closed at most once, in increasing order. */
  lemma ClosedOnce(events: seq<Event>, i: Interval, a: nat, b: nat)
    requires Timed(events, i) && InTurn(Marks(events, i))
    requires a < b < |Run(events, i).closed|
    ensures Run(events, i).closed[a].start < Run(events, i).closed[b].start
  {
    StartsOnceIff(events, i);
    var bars := AllBars(Run(events, i));
    assert bars[a].start == Run(events, i).closed[a].start && bars[b].start == Run(events, i).closed[b].start;
    StartsIncrease(bars, a, b);
  }

  /** Times that never step back come in turn, for every interval. */
  lemma OrderedInTurn(events: seq<Event>, i: Interval)
    requires forall a, b :: 0 <= a < b < |events| ==> Time(events[a]) <= Time(events[b])
    ensures InTurn(Marks(events, i))
  {
    forall a, b | 0 <= a < b < |events|
      ensures Marks(events, i)[a].start <= Marks(events, i)[b].start
    {
      BucketMonotone(Time(events[a]), Time(events[b]), i);
    }
  }

  /** A clock that steps back: trades at 120, 0 and 120 seconds, and a tick at 180, close minute 120 twice. */
  lemma ClosedTwice(t: Trade)
    requires t.volume > 0
    ensures var events := [OnTrade(t.(ts := 120)), OnTrade(t.(ts := 0)), OnTrade(t.(ts := 120)), Tick(180)];
            var closed := Run(events, MINUTE).closed;
            |closed| == 3 && closed[0].start == 120 && closed[1].start == 0 && closed[2].start == 120
  {
    var e0, e1 := OnTrade(t.(ts := 120)), OnTrade(t.(ts := 0));
    RunAppend([], e0, MINUTE);
    RunAppend([e0], e1, MINUTE);
    RunAppend([e0, e1], e0, MINUTE);
    RunAppend([e0, e1, e0], Tick(180), MINUTE);
    assert [] + [e0] == [e0] && [e0] + [e1] == [e0, e1] && [e0, e1] + [e0] == [e0, e1, e0];
    assert [e0, e1, e0] + [Tick(180)] == [e0, e1, e0, Tick(180)];
  }

  // ---- Roll-up ----

  function Combine(a: Bar, b: Bar): Bar {
    a.(high := Max(a.high, b.high), low := Min(a.low, b.low), close := b.close,
       volume := SatAdd(a.volume, b.volume), count := SatAdd(a.count, b.count))
  }

  function PushBar(bars: seq<Bar>, start: u64, b: Bar): seq<Bar> {
    var n := |bars|;
    if n > 0 && bars[n - 1].start == start then bars[n - 1 := Combine(bars[n - 1], b)]
    else bars + [b.(start := start)]
  }

  /** Bars of a longer interval, combined from bars of a shorter one; `up` leads each short bucket to its long one. */
  function RollUp(bars: seq<Bar>, up: u64 -> u64): seq<Bar> {
    if bars == [] then []
    else
      var b := bars[|bars| - 1];
      PushBar(RollUp(bars[..|bars| - 1], up), up(b.start), b)
  }

  ghost function Up(i: Interval): u64 -> u64 {
    start => Bucket(start, i)
  }

  /** A trade added to the last short bar, or starting one, does the same to the long bars. */
  lemma PushBarGrows(rest: seq<Bar>, start: u64, b: Bar, t: Trade)
    ensures PushBar(rest, start, AddTrade(b, t)) == Push(PushBar(rest, start, b), Placed(start, t))
  {
    var m := |rest|;
    if m > 0 && rest[m - 1].start == start {
      assert Combine(rest[m - 1], AddTrade(b, t)) == AddTrade(Combine(rest[m - 1], b), t);
    } else {
      assert AddTrade(b, t).(start := start) == AddTrade(b.(start := start), t);
    }
  }

  lemma PushBarStarts(rest: seq<Bar>, start: u64, short: u64, t: Trade)
    ensures PushBar(rest, start, NewBar(short, t)) == Push(rest, Placed(start, t))
  {
    var m := |rest|;
    if m > 0 && rest[m - 1].start == start {
      assert Combine(rest[m - 1], NewBar(short, t)) == AddTrade(rest[m - 1], t);
    }
  }

  /** A short bar opened anew rolls up as if the trade had joined. */
  lemma {:induction false} RollUpOpen(bars: seq<Bar>, p: Placed, up: u64 -> u64)
    ensures RollUp(bars + [NewBar(p.start, p.trade)], up) == Push(RollUp(bars, up), Placed(up(p.start), p.trade))
  {
    assert (bars + [NewBar(p.start, p.trade)])[..|bars|] == bars;
    PushBarStarts(RollUp(bars, up), up(p.start), p.start, p.trade);
  }

  lemma {:induction false} RollUpPush(bars: seq<Bar>, p: Placed, up: u64 -> u64)
    ensures RollUp(Push(bars, p), up) == Push(RollUp(bars, up), Placed(up(p.start), p.trade))
  {
    var n := |bars|;
    if n > 0 && bars[n - 1].start == p.start {
      assert Push(bars, p)[..n - 1] == bars[..n - 1];
      PushBarGrows(RollUp(bars[..n - 1], up), up(p.start), bars[n - 1], p.trade);
    } else {
      RollUpOpen(bars, p, up);
    }
  }

  function Lift(trades: seq<Placed>, up: u64 -> u64): seq<Placed> {
    seq(|trades|, k requires 0 <= k < |trades| => Placed(up(trades[k].start), trades[k].trade))
  }

  lemma LiftAppend(trades: seq<Placed>, p: Placed, up: u64 -> u64)
    ensures Lift(trades + [p], up) == Lift(trades, up) + [Placed(up(p.start), p.trade)]
  {
  }

  lemma {:induction false} RollUpOne(trades: seq<Placed>, p: Placed, up: u64 -> u64)
    requires RollUp(Groups(trades), up) == Groups(Lift(trades, up))
    ensures RollUp(Groups(trades + [p]), up) == Groups(Lift(trades + [p], up))
  {
    LiftAppend(trades, p, up);
    GroupsAppend(trades, p);
    GroupsAppend(Lift(trades, up), Placed(up(p.start), p.trade));
    RollUpPush(Groups(trades), p, up);
  }

  lemma {:induction false} RollUpLifts(trades: seq<Placed>, up: u64 -> u64)
    ensures RollUp(Groups(trades), up) == Groups(Lift(trades, up))
  {
    if trades == [] {
      assert Lift(trades, up) == [];
    } else {
      var n := |trades| - 1;
      assert trades == trades[..n] + [trades[n]];
      RollUpLifts(trades[..n], up);
      RollUpOne(trades[..n], trades[n], up);
    }
  }

  /** Roll-up: the bars of every interval are the ordered combination of the one-minute bars. */
  lemma RollUpGroups(trades: seq<Trade>, i: Interval)
    requires WholeMinutes(i)
    ensures RollUp(Groups(PlaceAll(trades, MINUTE)), Up(i)) == Groups(PlaceAll(trades, i))
  {
    forall k | 0 <= k < |trades|
      ensures Lift(PlaceAll(trades, MINUTE), Up(i))[k] == PlaceAll(trades, i)[k]
    {
      MinutesNest(trades[k].ts, i);
    }
    assert Lift(PlaceAll(trades, MINUTE), Up(i)) == PlaceAll(trades, i);
    RollUpLifts(PlaceAll(trades, MINUTE), Up(i));
  }

  /** Marks of the same events, by two intervals. */
  ghost predicate Lifted(short: seq<Mark>, long: seq<Mark>, up: u64 -> u64) {
    |short| == |long| && forall k :: 0 <= k < |short| ==> long[k] == Mark(up(short[k].start), short[k].event)
  }

  lemma MarksLifted(events: seq<Event>, i: Interval)
    requires WholeMinutes(i)
    ensures Lifted(Marks(events, MINUTE), Marks(events, i), Up(i))
  {
    forall k | 0 <= k < |events|
      ensures Marks(events, i)[k].start == Up(i)(Marks(events, MINUTE)[k].start)
    {
      MinutesNest(Time(events[k]), i);
    }
  }

  lemma RollUpStep(short: seq<Mark>, long: seq<Mark>, n: nat, up: u64 -> u64)
    requires n < |short| && n < |long| && long[n] == Mark(up(short[n].start), short[n].event)
    requires RollUp(BarsTo(short, n), up) == GroupsTo(long, n)
    ensures RollUp(BarsTo(short, n + 1), up) == GroupsTo(long, n + 1)
  {
    var mark := short[n];
    if Counts(mark.event) {
      CountedStep(short, n);
      RollUpPush(BarsTo(short, n), Placed(mark.start, mark.event.trade), up);
      RollUpOpen(BarsTo(short, n), Placed(mark.start, mark.event.trade), up);
    } else {
      OtherStep(short, n);
    }
  }

  /** However short bars were split, rolling up the engine's short bars gives the groups of the longer interval. */
  lemma {:induction false} RollUpEngine(short: seq<Mark>, long: seq<Mark>, n: nat, up: u64 -> u64)
    requires Lifted(short, long, up) && n <= |short|
    ensures RollUp(BarsTo(short, n), up) == GroupsTo(long, n)
  {
    if n > 0 {
      RollUpEngine(short, long, n - 1, up);
      RollUpStep(short, long, n - 1, up);
    }
  }

  lemma RollsUpIff(events: seq<Event>, i: Interval)
    requires WholeMinutes(i) && Timed(events, i)
    ensures AllBars(Run(events, i)) == RollUp(AllBars(Run(events, MINUTE)), Up(i)) <==> Unbroken(Marks(events, i))
  {
    EngineGroupsIff(events, i);
    MarksLifted(events, i);
    RollUpEngine(Marks(events, MINUTE), Marks(events, i), |events|, Up(i));
    AllMarked(events, i);
    AllMarked(events, MINUTE);
  }

  /**
   The bars of each interval the engine keeps are the ordered combination of its one-minute bars, volume capped
   alike, if and only if no trade comes back to a bucket of that interval that a tick has ended.
   */
  lemma EngineRollsUpIff(events: seq<Event>, i: Interval)
    requires i in INTERVALS && Timed(events, i)
    ensures AllBars(Run(events, i)) == RollUp(AllBars(Run(events, MINUTE)), Up(i)) <==> Unbroken(Marks(events, i))
  {
    SupportedWhole(i);
    RollsUpIff(events, i);
  }
}

/** Open positions of paper markets and the open interest kept beside them (src/indexer/index_state.rs). */
module PaperOi {
  import opened Ints
  import opened Sums
  import opened Text

  datatype PositionKey = PositionKey(market: string, position: u64)
  datatype InstrumentKey = InstrumentKey(market: string, instrument: nat)

  datatype Position = Position(market: string, position: u64, instrument: nat, isLong: bool, notional: u64, margin: u64)
  {
    function Key(): PositionKey { PositionKey(AddressKey(market), position) }

    function Instrument(): InstrumentKey { InstrumentKey(AddressKey(market), instrument) }
  }

  datatype Oi = Oi(long: u64, short: u64)
  {
    function On(isLong: bool): u64 { if isLong then long else short }

    function With(isLong: bool, raw: u64): Oi { if isLong then this.(long := raw) else this.(short := raw) }
  }

  datatype Paper = Paper(open: map<PositionKey, Position>, oi: map<InstrumentKey, Oi>, volume: map<string, u64>)

  const NO_OI := Oi(0, 0)
  const EMPTY_PAPER := Paper(map[], map[], map[])

  function OiAt(oi: map<InstrumentKey, Oi>, i: InstrumentKey): Oi { Get(oi, i).GetOr(NO_OI) }

  // ---- Specification of one event ----

  datatype PaperEvent = Opened(row: Position) | Ended(market: string, position: u64)

  /** `apply_paper_oi_delta`, both signs saturating. */
  function ApplyOi(oi: map<InstrumentKey, Oi>, i: InstrumentKey, isLong: bool, notional: u64, add: bool): map<InstrumentKey, Oi> {
    var was := OiAt(oi, i);
    oi[i := was.With(isLong, if add then SatAdd(was.On(isLong), notional) else SatSub(was.On(isLong), notional))]
  }

  function Next(p: Paper, e: PaperEvent): Paper {
    match e
    case Opened(row) =>
      Paper(p.open[row.Key() := row], ApplyOi(p.oi, row.Instrument(), row.isLong, row.notional, true),
            p.volume[AddressKey(row.market) := SatAdd(Get(p.volume, AddressKey(row.market)).GetOr(0), row.notional)])
    case Ended(market, position) =>
      var key := PositionKey(AddressKey(market), position);
      if key !in p.open then p
      else
        var o := p.open[key];
        p.(open := p.open - {key},
           oi := ApplyOi(p.oi, InstrumentKey(AddressKey(market), o.instrument), o.isLong, o.notional, false))
  }

  function RunPaper(p: Paper, events: seq<PaperEvent>): Paper {
    if events == [] then p else Next(RunPaper(p, events[..|events| - 1]), events[|events| - 1])
  }

  // ---- Direct sums over the open positions ----

  function Notional(i: InstrumentKey, isLong: bool): Position -> nat {
    (p: Position) => if p.Instrument() == i && p.isLong == isLong then p.notional else 0
  }

  function NotionalIn(keys: set<InstrumentKey>): Position -> nat {
    (p: Position) => if p.Instrument() in keys then p.notional else 0
  }

  function MarketNotional(market: string): Position -> nat {
    (p: Position) => if AddressKey(p.market) == market then p.notional else 0
  }

  function MarketMargin(market: string): Position -> nat {
    (p: Position) => if AddressKey(p.market) == market then p.margin else 0
  }

  function MarketOne(market: string): Position -> nat {
    (p: Position) => if AddressKey(p.market) == market then 1 else 0
  }

  function BothSides(): Oi -> nat { (o: Oi) => o.long + o.short }

  /** Each side of each instrument is the summed notional of its open positions. */
  ghost predicate Conserved(p: Paper) {
    forall i, isLong :: OiAt(p.oi, i).On(isLong) == SumOver(p.open, Notional(i, isLong))
  }

  ghost predicate Filed(p: Paper) {
    forall k :: k in p.open ==> p.open[k].Key() == k
  }

  // ---- The state updated in place ----

  datatype Exposure = Exposure(instrument: nat, long: u64, short: u64, net: int)

  datatype HouseView = HouseView(
    openInterest: u64, openMargin: u64, openPositions: nat, instruments: seq<Exposure>, volume: u64)

  class PaperIndex {
    var open: map<PositionKey, Position>
    var oi: map<InstrumentKey, Oi>
    var volume: map<string, u64>

    constructor ()
      ensures View() == EMPTY_PAPER
    {
      open, oi, volume := map[], map[], map[];
    }

    function View(): Paper
      reads this
    {
      Paper(open, oi, volume)
    }

    method ApplyOiDelta(market: string, instrument: nat, isLong: bool, delta: int)
      requires -U64_MAX <= delta <= U64_MAX
      modifies this`oi
      ensures oi == ApplyOi(old(oi), InstrumentKey(AddressKey(market), instrument), isLong,
                            if delta >= 0 then delta else -delta, delta >= 0)
    {
      var key := InstrumentKey(AddressKey(market), instrument);
      var entry := if key in oi then oi[key] else NO_OI;
      if isLong {
        if delta >= 0 {
          entry := entry.(long := SatAdd(entry.long, delta));
        } else {
          entry := entry.(long := SatSub(entry.long, -delta));
        }
      } else if delta >= 0 {
        entry := entry.(short := SatAdd(entry.short, delta));
      } else {
        entry := entry.(short := SatSub(entry.short, -delta));
      }
      oi := oi[key := entry];
    }

    method UpsertPaperPositionOpen(row: Position)
      modifies this
      ensures View() == Next(old(View()), Opened(row))
    {
      ApplyOiDelta(row.market, row.instrument, row.isLong, row.notional);
      var market := AddressKey(row.market);
      volume := volume[market := if market in volume then SatAdd(volume[market], row.notional) else row.notional];
      open := open[row.Key() := row];
    }

    /** Also the removal behind a liquidation. */
    method ClosePaperPosition(market: string, position: u64) returns (closed: Option<Position>)
      modifies this
      ensures View() == Next(old(View()), Ended(market, position))
      ensures closed == Get(old(open), PositionKey(AddressKey(market), position))
    {
      var key := PositionKey(AddressKey(market), position);
      closed := Get(open, key);
      if closed.Some? {
        open := open - {key};
        var o := closed.value;
        var notional: int := o.notional;
        if notional == 0 {
          ApplyOiDelta(market, o.instrument, o.isLong, 0);
          UnchangedByZero(old(oi), InstrumentKey(AddressKey(market), o.instrument), o.isLong);
        } else {
          ApplyOiDelta(market, o.instrument, o.isLong, -notional);
        }
      }
    }

    /** Margin and count of a market's positions, in whatever order the map yields them. */
    method SumPositions(marketKey: string) returns (margin: u64, count: nat)
      ensures margin == Clamped(SumOver(open, MarketMargin(marketKey)))
      ensures count == SumOver(open, MarketOne(marketKey))
    {
      margin, count := 0, 0;
      var todo := open.Keys;
      ghost var done: map<PositionKey, Position> := map[];
      while todo != {}
        invariant todo !! done.Keys && todo + done.Keys == open.Keys
        invariant forall k :: k in done ==> done[k] == open[k]
        invariant margin == Clamped(SumOver(done, MarketMargin(marketKey)))
        invariant count == SumOver(done, MarketOne(marketKey))
      {
        var k :| k in todo;
        var row := open[k];
        SumAddNew(done, MarketMargin(marketKey), k, row);
        SumAddNew(done, MarketOne(marketKey), k, row);
        if AddressKey(row.market) == marketKey {
          count := count + 1;
          margin := SatAdd(margin, row.margin);
        }
        todo, done := todo - {k}, done[k := row];
      }
      assert done == open;
    }

    /** Open interest and exposures of a market from the kept totals. */
    method SumExposures(marketKey: string) returns (openInterest: u64, instruments: seq<Exposure>)
      ensures openInterest == Clamped(SumOver(OfMarket(oi, marketKey), BothSides()))
      ensures Lists(instruments, oi, marketKey)
    {
      openInterest, instruments := 0, [];
      var todo := OfMarket(oi, marketKey).Keys;
      ghost var done: map<InstrumentKey, Oi> := map[];
      while todo != {}
        invariant todo !! done.Keys && todo + done.Keys == OfMarket(oi, marketKey).Keys
        invariant forall i :: i in done ==> done[i] == oi[i]
        invariant openInterest == Clamped(SumOver(done, BothSides()))
        invariant Lists(instruments, done, marketKey)
      {
        var i :| i in todo;
        var o := oi[i];
        SumAddNew(done, BothSides(), i, o);
        ListsNext(instruments, done, marketKey, i, o);
        if o.long != 0 || o.short != 0 {
          openInterest := SatAdd(SatAdd(openInterest, o.long), o.short);
          instruments := instruments + [Exposure(i.instrument, o.long, o.short, o.long - o.short)];
        }
        todo, done := todo - {i}, done[i := o];
      }
      assert done == OfMarket(oi, marketKey);
      ListsOfMarket(instruments, oi, marketKey);
    }

    method PaperHouseView(market: string) returns (view: HouseView)
      requires Conserved(View()) && Filed(View())
      ensures var m := AddressKey(market);
              && view.openInterest == Clamped(SumOver(open, MarketNotional(m)))
              && view.openMargin == Clamped(SumOver(open, MarketMargin(m)))
              && view.openPositions == SumOver(open, MarketOne(m))
              && view.volume == Get(volume, m).GetOr(0)
              && Ascending(view.instruments) && (forall e :: e in view.instruments <==> Held(open, m, e))
    {
      var marketKey := AddressKey(market);
      var margin, count := SumPositions(marketKey);
      var openInterest, instruments := SumExposures(marketKey);
      SortedLists(instruments);
      view := HouseView(openInterest, margin, count, Sorted(instruments), Get(volume, marketKey).GetOr(0));
      InterestIsDirectSum(View(), marketKey);
      forall e: Exposure
        ensures Exposed(oi, marketKey, e) <==> Held(open, marketKey, e)
      {
        var i := InstrumentKey(marketKey, e.instrument);
        assert OiAt(oi, i).On(true) == SumOver(open, Notional(i, true));
        assert OiAt(oi, i).On(false) == SumOver(open, Notional(i, false));
      }
    }
  }

  function OfMarket(oi: map<InstrumentKey, Oi>, market: string): map<InstrumentKey, Oi> {
    map i | i in oi && i.market == market :: oi[i]
  }

  /** One entry per instrument. */
  predicate Distinct(instruments: seq<Exposure>) {
    forall i, j :: 0 <= i < j < |instruments| ==> instruments[i].instrument != instruments[j].instrument
  }

  /** In order of the instruments, no instrument twice. */
  predicate Ascending(instruments: seq<Exposure>) {
    forall i, j :: 0 <= i < j < |instruments| ==> instruments[i].instrument < instruments[j].instrument
  }

  function Placed(instruments: seq<Exposure>, e: Exposure): seq<Exposure> {
    if instruments == [] || e.instrument < instruments[0].instrument then [e] + instruments
    else [instruments[0]] + Placed(instruments[1..], e)
  }

  /** The list sorted by instrument. */
  function Sorted(instruments: seq<Exposure>): seq<Exposure> {
    if instruments == [] then []
    else Placed(Sorted(instruments[..|instruments| - 1]), instruments[|instruments| - 1])
  }

  lemma {:induction false} PlacedHas(instruments: seq<Exposure>, e: Exposure)
    ensures forall x :: x in Placed(instruments, e) <==> x == e || x in instruments
  {
    if instruments != [] && e.instrument >= instruments[0].instrument {
      PlacedHas(instruments[1..], e);
    }
  }

  lemma {:induction false} PlacedAscending(instruments: seq<Exposure>, e: Exposure)
    requires Ascending(instruments) && forall x :: x in instruments ==> x.instrument != e.instrument
    ensures Ascending(Placed(instruments, e))
  {
    if instruments != [] && e.instrument > instruments[0].instrument {
      var rest := Placed(instruments[1..], e);
      PlacedAscending(instruments[1..], e);
      PlacedHas(instruments[1..], e);
      forall j | 0 <= j < |rest|
        ensures instruments[0].instrument < rest[j].instrument
      {
        assert rest[j] in rest;
      }
    }
  }

  /** Sorting puts distinct instruments in order and keeps them all. */
  lemma {:induction false} SortedLists(instruments: seq<Exposure>)
    requires Distinct(instruments)
    ensures Ascending(Sorted(instruments)) && forall x :: x in Sorted(instruments) <==> x in instruments
  {
    if instruments != [] {
      var n := |instruments| - 1;
      var rest, last := Sorted(instruments[..n]), instruments[n];
      SortedLists(instruments[..n]);
      PlacedHas(rest, last);
      PlacedAscending(rest, last);
      assert instruments == instruments[..n] + [last];
    }
  }

  /** Exactly the exposures of the market, one entry per instrument. */
  ghost predicate Lists(instruments: seq<Exposure>, oi: map<InstrumentKey, Oi>, market: string) {
    Distinct(instruments) && forall e :: e in instruments <==> Exposed(oi, market, e)
  }

  lemma ListsNext(instruments: seq<Exposure>, done: map<InstrumentKey, Oi>, market: string, i: InstrumentKey, o: Oi)
    requires Lists(instruments, done, market) && i.market == market && i !in done
    ensures Lists(if o.long != 0 || o.short != 0 then instruments + [Exposure(i.instrument, o.long, o.short, o.long - o.short)]
                  else instruments, done[i := o], market)
  {
    assert i == InstrumentKey(market, i.instrument);
    assert forall e :: e in instruments ==> InstrumentKey(market, e.instrument) in done;
  }

  lemma ListsOfMarket(instruments: seq<Exposure>, oi: map<InstrumentKey, Oi>, market: string)
    requires Lists(instruments, OfMarket(oi, market), market)
    ensures Lists(instruments, oi, market)
  {
    forall e: Exposure
      ensures Exposed(OfMarket(oi, market), market, e) <==> Exposed(oi, market, e)
    {
    }
  }

  /** An exposure read off the kept totals. */
  predicate Exposed(oi: map<InstrumentKey, Oi>, market: string, e: Exposure) {
    var i := InstrumentKey(market, e.instrument);
    && i in oi && (oi[i].long != 0 || oi[i].short != 0)
    && e.long == oi[i].long && e.short == oi[i].short && e.net == e.long - e.short
  }

  /** The same exposure summed over the positions themselves. */
  ghost predicate Held(open: map<PositionKey, Position>, market: string, e: Exposure) {
    var i := InstrumentKey(market, e.instrument);
    && (e.long != 0 || e.short != 0)
    && e.long == SumOver(open, Notional(i, true)) && e.short == SumOver(open, Notional(i, false))
    && e.net == e.long - e.short
  }

  lemma UnchangedByZero(oi: map<InstrumentKey, Oi>, i: InstrumentKey, isLong: bool)
    ensures ApplyOi(oi, i, isLong, 0, true) == ApplyOi(oi, i, isLong, 0, false)
  {
  }

  // ---- Sums ----

  lemma SumAddNew<K, V>(m: map<K, V>, weight: V -> nat, k: K, v: V)
    requires k !in m
    ensures SumOver(m[k := v], weight) == SumOver(m, weight) + weight(v)
  {
    SumSet(m, weight, k, v);
    assert m - {k} == m;
  }

  lemma {:induction false} SumPointwise<K, V>(m: map<K, V>, f: V -> nat, g: V -> nat, h: V -> nat)
    requires forall k :: k in m ==> h(m[k]) == f(m[k]) + g(m[k])
    ensures SumOver(m, h) == SumOver(m, f) + SumOver(m, g)
    decreases |m|
  {
    if m != map[] {
      var k :| k in m;
      SumSplit(m, f, k);
      SumSplit(m, g, k);
      SumSplit(m, h, k);
      SumPointwise(m - {k}, f, g, h);
    }
  }

  lemma {:induction false} SumZero<K, V>(m: map<K, V>, f: V -> nat)
    requires forall k :: k in m ==> f(m[k]) == 0
    ensures SumOver(m, f) == 0
    decreases |m|
  {
    if m != map[] {
      var k :| k in m;
      SumSplit(m, f, k);
      SumZero(m - {k}, f);
    }
  }

  lemma {:induction false} SumSame<K, V>(m: map<K, V>, f: V -> nat, g: V -> nat)
    requires forall k :: k in m ==> f(m[k]) == g(m[k])
    ensures SumOver(m, f) == SumOver(m, g)
  {
    var zero := (v: V) => 0;
    SumZero(m, zero);
    SumPointwise(m, g, zero, f);
  }

  lemma OneInstrument(p: Paper, i: InstrumentKey)
    requires Conserved(p)
    ensures BothSides()(OiAt(p.oi, i)) == SumOver(p.open, NotionalIn({i}))
  {
    assert OiAt(p.oi, i).On(true) == SumOver(p.open, Notional(i, true));
    assert OiAt(p.oi, i).On(false) == SumOver(p.open, Notional(i, false));
    SumPointwise(p.open, Notional(i, true), Notional(i, false), NotionalIn({i}));
  }

  lemma {:induction false} OneMore(open: map<PositionKey, Position>, keys: set<InstrumentKey>, i: InstrumentKey)
    requires i in keys
    ensures SumOver(open, NotionalIn(keys)) == SumOver(open, NotionalIn(keys - {i})) + SumOver(open, NotionalIn({i}))
  {
    SumPointwise(open, NotionalIn(keys - {i}), NotionalIn({i}), NotionalIn(keys));
  }

  /** Summing kept totals over instruments is summing notionals over their positions. */
  lemma {:induction false} SwapSums(p: Paper, part: map<InstrumentKey, Oi>)
    requires Conserved(p) && forall i :: i in part ==> OiAt(p.oi, i) == part[i]
    ensures SumOver(part, BothSides()) == SumOver(p.open, NotionalIn(part.Keys))
    decreases |part|
  {
    if part == map[] {
      SumZero(p.open, NotionalIn(part.Keys));
    } else {
      var i :| i in part;
      SumSplit(part, BothSides(), i);
      SwapSums(p, part - {i});
      assert (part - {i}).Keys == part.Keys - {i};
      OneInstrument(p, i);
      OneMore(p.open, part.Keys, i);
    }
  }

  lemma InterestIsDirectSum(p: Paper, market: string)
    requires Conserved(p)
    ensures SumOver(OfMarket(p.oi, market), BothSides()) == SumOver(p.open, MarketNotional(market))
  {
    var part := OfMarket(p.oi, market);
    SwapSums(p, part);
    forall k | k in p.open
      ensures NotionalIn(part.Keys)(p.open[k]) == MarketNotional(market)(p.open[k])
    {
      var x := p.open[k];
      if x.Instrument() !in p.oi {
        SumSplit(p.open, Notional(x.Instrument(), x.isLong), k);
        assert OiAt(p.oi, x.Instrument()).On(x.isLong) == 0;
      }
    }
    SumSame(p.open, NotionalIn(part.Keys), MarketNotional(market));
  }

  // ---- Conservation ----

  /** Room for a position on its side of its instrument. */
  predicate HasRoom(p: Paper, row: Position) {
    OiAt(p.oi, row.Instrument()).On(row.isLong) + row.notional <= U64_MAX
  }

  lemma OpenAt(p: Paper, row: Position, i: InstrumentKey, isLong: bool)
    requires Conserved(p)
    ensures var after := Next(p, Opened(row));
            var replaced := if row.Key() in p.open then Notional(i, isLong)(p.open[row.Key()]) else 0;
            && SumOver(after.open, Notional(i, isLong)) + replaced
               == SumOver(p.open, Notional(i, isLong)) + Notional(i, isLong)(row)
            && OiAt(after.oi, i).On(isLong) == Clamped(OiAt(p.oi, i).On(isLong) + Notional(i, isLong)(row))
  {
    SumSet(p.open, Notional(i, isLong), row.Key(), row);
  }

  /** With room, opening keeps the totals exactly when it replaces no position of positive notional. */
  lemma OpenConservesIff(p: Paper, row: Position)
    requires Conserved(p) && HasRoom(p, row)
    ensures Conserved(Next(p, Opened(row))) <==> (row.Key() in p.open ==> p.open[row.Key()].notional == 0)
  {
    var after := Next(p, Opened(row));
    forall i, isLong
      ensures OiAt(after.oi, i).On(isLong) == SumOver(after.open, Notional(i, isLong))
              <==> (row.Key() in p.open ==> Notional(i, isLong)(p.open[row.Key()]) == 0)
    {
      assert OiAt(p.oi, i).On(isLong) == SumOver(p.open, Notional(i, isLong));
      OpenAt(p, row, i, isLong);
    }
    if row.Key() in p.open && p.open[row.Key()].notional != 0 {
      var o := p.open[row.Key()];
      assert OiAt(after.oi, o.Instrument()).On(o.isLong) != SumOver(after.open, Notional(o.Instrument(), o.isLong));
    }
  }

  /** With a fresh id, opening keeps the totals exactly when there is room. */
  lemma FreshOpenConservesIff(p: Paper, row: Position)
    requires Conserved(p) && row.Key() !in p.open
    ensures Conserved(Next(p, Opened(row))) <==> HasRoom(p, row)
  {
    if HasRoom(p, row) {
      OpenConservesIff(p, row);
    } else {
      var i, after := row.Instrument(), Next(p, Opened(row));
      OpenAt(p, row, i, row.isLong);
      assert OiAt(p.oi, i).On(row.isLong) == SumOver(p.open, Notional(i, row.isLong));
      assert OiAt(after.oi, i).On(row.isLong) != SumOver(after.open, Notional(i, row.isLong));
    }
  }

  /** Closing or liquidating always keeps the totals: the subtraction never saturates. */
  lemma CloseConserves(p: Paper, market: string, position: u64)
    requires Conserved(p) && Filed(p)
    ensures Conserved(Next(p, Ended(market, position)))
  {
    var key := PositionKey(AddressKey(market), position);
    if key in p.open {
      var after := Next(p, Ended(market, position));
      forall i, isLong
        ensures OiAt(after.oi, i).On(isLong) == SumOver(after.open, Notional(i, isLong))
      {
        assert OiAt(p.oi, i).On(isLong) == SumOver(p.open, Notional(i, isLong));
        SumSplit(p.open, Notional(i, isLong), key);
      }
    }
  }

  /** A chain never opens an id that is open, and no side of an instrument reaches 2^64. */
  predicate Lawful(p: Paper, e: PaperEvent) {
    e.Opened? ==> e.row.Key() !in p.open && HasRoom(p, e.row)
  }

  predicate LawfulTrace(p: Paper, events: seq<PaperEvent>) {
    events == [] || (LawfulTrace(p, events[..|events| - 1])
                     && Lawful(RunPaper(p, events[..|events| - 1]), events[|events| - 1]))
  }

  /** Over every lawful trace of opens, closes and liquidations the totals are the direct sums. */
  lemma {:induction false} OpenInterestConserved(events: seq<PaperEvent>)
    requires LawfulTrace(EMPTY_PAPER, events)
    ensures Conserved(RunPaper(EMPTY_PAPER, events)) && Filed(RunPaper(EMPTY_PAPER, events))
  {
    if events == [] {
      forall i, isLong
        ensures SumOver(EMPTY_PAPER.open, Notional(i, isLong)) == 0
      {
      }
    } else {
      var before, e := events[..|events| - 1], events[|events| - 1];
      OpenInterestConserved(before);
      var p := RunPaper(EMPTY_PAPER, before);
      match e
      case Opened(row) => FreshOpenConservesIff(p, row);
      case Ended(market, position) => CloseConserves(p, market, position);
    }
  }

  // ---- What a trace leaves, read off the trace ----

  predicate OpensIn(e: PaperEvent, market: string) {
    e.Opened? && AddressKey(e.row.market) == market
  }

  /** The notionals opened in a market, if anything was. */
  function OpenedNotional(events: seq<PaperEvent>, market: string): Option<nat> {
    if events == [] then None
    else
      var rest, e := OpenedNotional(events[..|events| - 1], market), events[|events| - 1];
      if OpensIn(e, market) then Some(rest.GetOr(0) + e.row.notional) else rest
  }

  lemma VolumeNext(p: Paper, e: PaperEvent, market: string)
    ensures Get(Next(p, e).volume, market) ==
            if OpensIn(e, market) then Some(Clamped(Get(p.volume, market).GetOr(0) + e.row.notional)) else Get(p.volume, market)
  {
  }

  /** A market's volume is all that was ever opened in it, within 64 bits; closing takes nothing off. */
  lemma {:induction false} VolumeIsOpened(events: seq<PaperEvent>, market: string)
    ensures var all := OpenedNotional(events, market);
            Get(RunPaper(EMPTY_PAPER, events).volume, market) == if all.Some? then Some(Clamped(all.value)) else None
  {
    if events != [] {
      var before, e := events[..|events| - 1], events[|events| - 1];
      VolumeIsOpened(before, market);
      VolumeNext(RunPaper(EMPTY_PAPER, before), e, market);
      if OpensIn(e, market) {
        ClampedAdds(OpenedNotional(before, market).GetOr(0), e.row.notional);
      }
    }
  }

  /** The position an event is about. */
  function About(e: PaperEvent): PositionKey {
    match e
    case Opened(row) => row.Key()
    case Ended(market, position) => PositionKey(AddressKey(market), position)
  }

  /** Event i is the last one about the position. */
  ghost predicate LastAbout(events: seq<PaperEvent>, i: nat, key: PositionKey) {
    i < |events| && About(events[i]) == key && forall j :: i < j < |events| ==> About(events[j]) != key
  }

  lemma OpenNext(p: Paper, e: PaperEvent, key: PositionKey)
    ensures Get(Next(p, e).open, key) ==
            if About(e) != key then Get(p.open, key) else if e.Opened? then Some(e.row) else None
  {
  }

  /** A position is open exactly when the last event about it opened it, and then with the row of that event. */
  lemma {:induction false} OpenIsLatest(events: seq<PaperEvent>, i: nat, key: PositionKey)
    ensures LastAbout(events, i, key) ==>
              Get(RunPaper(EMPTY_PAPER, events).open, key) == if events[i].Opened? then Some(events[i].row) else None
    ensures (forall j :: 0 <= j < |events| ==> About(events[j]) != key) ==> key !in RunPaper(EMPTY_PAPER, events).open
  {
    if events != [] {
      var before, last := events[..|events| - 1], |events| - 1;
      OpenIsLatest(before, i, key);
      OpenNext(RunPaper(EMPTY_PAPER, before), events[last], key);
      assert LastAbout(events, i, key) && i < last ==> About(events[last]) != key && LastAbout(before, i, key);
    }
  }
}

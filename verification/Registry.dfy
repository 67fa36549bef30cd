/** The market registry: markets, slugs and the spot addresses that lead to them (src/indexer/index_state.rs). */
module Registry {
  import opened Ints
  import opened Text
  import Slugs

  /** `market_uuid` is taken to be injective; ids of other origin are told apart from it. */
  datatype MarketId = UuidOf(address: string) | OtherId(n: nat)

  datatype Market =
    | Spot(id: MarketId, name: string, icon: Option<string>, address: string, deployer: string)
    | Event(id: MarketId, slug: string, question: string, icon: Option<string>, address: string, yes: string, no: string)
    | Perp(id: MarketId, name: string, icon: Option<string>, address: string)
  {
    function Slug(): string { if Event? then slug else "" }

    predicate HasLeg(spot: string) { Event? && (spot == yes || spot == no) }
  }

  datatype SpotRef = SpotRef(market: MarketId, outcome: string)

  datatype Reg = Reg(
    markets: map<MarketId, Market>, slugs: map<string, MarketId>, spots: map<string, SpotRef>, names: map<string, string>)

  const EMPTY_REG := Reg(map[], map[], map[], map[])

  /** Stands for `normalize_spot_market_key` on a text that is no contract address. */
  function NormalSpot(s: string): string { Trim(s) }

  function UpperChar(c: char): char { if 'a' <= c <= 'z' then (c as int - 32) as char else c }

  function NameKey(name: string): string {
    var t := Trim(name);
    seq(|t|, i requires 0 <= i < |t| => UpperChar(t[i]))
  }

  // ---- Specification ----

  /** Icon, name and slug of the market known under the id, where the new one has none. */
  function FillFrom(m: Market, known: Option<Market>): Market {
    match known
    case None => m
    case Some(e) =>
      var n := if m.icon.None? then m.(icon := e.icon) else m;
      match n
      case Event(_, slug, _, _, _, _, _) => if slug == "" && e.Slug() != "" then n.(slug := e.Slug()) else n
      case Spot(_, name, _, _, _) => if name == "" && !e.Event? && e.name != "" then n.(name := e.name) else n
      case Perp(_, name, _, _) => if name == "" && !e.Event? && e.name != "" then n.(name := e.name) else n
  }

  function NormalLegs(m: Market): Market {
    match m
    case Event(_, _, _, _, _, yes, no) => m.(yes := NormalSpot(yes), no := NormalSpot(no))
    case Spot(id, name, icon, address, deployer) => Spot(id, name, icon, NormalSpot(address), deployer)
    case Perp(id, name, icon, address) => Perp(id, name, icon, NormalSpot(address))
  }

  function WithSlug(slugs: map<string, MarketId>, slug: string, id: MarketId): map<string, MarketId> {
    if slug == "" then slugs else (map k | k in slugs && slugs[k] != id :: slugs[k])[slug := id]
  }

  function WithoutShell(markets: map<MarketId, Market>, spot: string): map<MarketId, Market> {
    if UuidOf(spot) in markets && markets[UuidOf(spot)].Spot? then markets - {UuidOf(spot)} else markets
  }

  function Bind(r: Reg, id: MarketId, spot: string, outcome: string): Reg {
    r.(markets := WithoutShell(r.markets, spot), spots := r.spots[spot := SpotRef(id, outcome)])
  }

  function BindLegs(r: Reg, id: MarketId, yes: string, no: string): Reg {
    Bind(Bind(r, id, yes, "yes"), id, no, "no")
  }

  function Stored(r: Reg, m: Market): Market { NormalLegs(FillFrom(m, Get(r.markets, m.id))) }

  function Upsert(r: Reg, m: Market): Reg {
    var n := Stored(r, m);
    var s := r.(slugs := WithSlug(r.slugs, n.Slug(), n.id), markets := r.markets[n.id := n]);
    match n
    case Event(_, _, _, _, _, yes, no) => BindLegs(s, n.id, yes, no)
    case Spot(_, _, _, address, _) => s.(spots := s.spots[address := SpotRef(n.id, "spot")])
    case Perp(_, _, _, address) => s.(spots := s.spots[address := SpotRef(n.id, "perp")])
  }

  predicate LeadsElsewhere(r: Reg, spot: string) {
    spot in r.spots && r.spots[spot].market in r.markets && !r.markets[r.spots[spot].market].Spot?
  }

  function NewShell(name: string, spot: string, deployer: string): Market {
    Spot(UuidOf(spot), Trim(name), None, spot, Trim(deployer))
  }

  function Register(r: Reg, name: string, spotMarket: string, deployer: string): Reg {
    var spot := NormalSpot(spotMarket);
    if NameKey(name) == "" || spot == "" then r
    else
      var named := r.(names := r.names[NameKey(name) := spot]);
      if LeadsElsewhere(r, spot) then named
      else
        named.(spots := if spot in r.spots then r.spots else r.spots[spot := SpotRef(UuidOf(spot), "spot")],
               markets := if UuidOf(spot) in r.markets then r.markets
                          else r.markets[UuidOf(spot) := NewShell(name, spot, deployer)])
  }

  // ---- The state updated in place ----

  class MarketIndex {
    var markets: map<MarketId, Market>
    var slugs: map<string, MarketId>
    var spots: map<string, SpotRef>
    var names: map<string, string>

    constructor ()
      ensures View() == EMPTY_REG
    {
      markets, slugs, spots, names := map[], map[], map[], map[];
    }

    function View(): Reg
      reads this
    {
      Reg(markets, slugs, spots, names)
    }

    method UpsertMarket(m: Market)
      modifies this
      ensures View() == Upsert(old(View()), m)
    {
      var n := FillFrom(m, Get(markets, m.id));
      if n.Slug() != "" {
        RemoveSlugMappings(n.id);
        slugs := slugs[n.Slug() := n.id];
      }
      n := NormalLegs(n);
      markets := markets[n.id := n];
      match n {
        case Event(_, _, _, _, _, yes, no) => BindEventSpotLegs(n.id, yes, no);
        case Spot(_, _, _, address, _) => spots := spots[address := SpotRef(n.id, "spot")];
        case Perp(_, _, _, address) => spots := spots[address := SpotRef(n.id, "perp")];
      }
    }

    /** Keeps the entries of other markets. */
    method RemoveSlugMappings(id: MarketId)
      modifies this`slugs
      ensures slugs == map k | k in old(slugs) && old(slugs)[k] != id :: old(slugs)[k]
    {
      var todo := slugs.Keys;
      while todo != {}
        invariant todo <= slugs.Keys <= old(slugs).Keys
        invariant forall k :: k in slugs ==> slugs[k] == old(slugs)[k] && (k in todo || slugs[k] != id)
        invariant forall k :: k in old(slugs) && old(slugs)[k] != id ==> k in slugs
      {
        var k :| k in todo;
        todo := todo - {k};
        if slugs[k] == id {
          slugs := slugs - {k};
        }
      }
    }

    /** Yes leg first, then the no leg; with one shared address the no leg wins. */
    method BindEventSpotLegs(id: MarketId, yes: string, no: string)
      modifies this`markets, this`spots
      ensures View() == BindLegs(old(View()), id, yes, no)
    {
      var legs := [(yes, "yes"), (no, "no")];
      for i := 0 to 2
        invariant i == 0 ==> View() == old(View())
        invariant i == 1 ==> View() == Bind(old(View()), id, yes, "yes")
        invariant i == 2 ==> View() == BindLegs(old(View()), id, yes, no)
      {
        RemoveOrphanSpotShell(legs[i].0);
        spots := spots[legs[i].0 := SpotRef(id, legs[i].1)];
      }
    }

    /** Takes the market out, and puts it back when it is no spot shell. */
    method RemoveOrphanSpotShell(spot: string)
      modifies this`markets
      ensures markets == WithoutShell(old(markets), spot)
    {
      var orphan := Get(markets, UuidOf(spot));
      markets := markets - {UuidOf(spot)};
      if orphan.Some? && !orphan.value.Spot? {
        markets := markets[UuidOf(spot) := orphan.value];
      }
    }

    method RegisterNamedSpotMarket(name: string, spotMarket: string, deployer: string)
      modifies this
      ensures View() == Register(old(View()), name, spotMarket, deployer)
    {
      var spot := NormalSpot(spotMarket);
      var nameKey := NameKey(name);
      if nameKey == "" || spot == "" {
        return;
      }
      names := names[nameKey := spot];
      if spot in spots {
        var known := spots[spot];
        if known.market in markets && !markets[known.market].Spot? {
          return;
        }
      }
      var id := UuidOf(spot);
      if spot !in spots {
        spots := spots[spot := SpotRef(id, "spot")];
      }
      if id !in markets {
        markets := markets[id := NewShell(name, spot, deployer)];
      }
    }

    /** Finds the reference, or registers a shell under some known name of the address. */
    method EnsureStandaloneSpotMarket(spotMarket: string) returns (found: SpotRef, ghost name: string)
      modifies this
      ensures View() == if NormalSpot(spotMarket) in old(spots) then old(View())
                        else Register(old(View()), name, NormalSpot(spotMarket), "")
      ensures NormalSpot(spotMarket) !in old(spots) ==>
                if NormalSpot(spotMarket) in old(names).Values then Get(old(names), name) == Some(NormalSpot(spotMarket))
                else name == NormalSpot(spotMarket)
      ensures found == Get(spots, NormalSpot(spotMarket)).GetOr(SpotRef(UuidOf(NormalSpot(spotMarket)), "spot"))
    {
      var spot := NormalSpot(spotMarket);
      name := spot;
      if spot in spots {
        found := spots[spot];
        return;
      }
      var chosen := spot;
      if exists k :: k in names && names[k] == spot {
        chosen :| chosen in names && names[chosen] == spot;
      }
      name := chosen;
      RegisterNamedSpotMarket(chosen, spot, "");
      found := if spot in spots then spots[spot] else SpotRef(UuidOf(spot), "spot");
    }

    /** A new event takes the first free slug of its question. */
    method IndexMarketCreated(address: string, question: string, yes: string, no: string)
      returns (m: Market, ghost tries: nat)
      modifies this
      ensures m.Event? && m.id == UuidOf(address) && m.slug !in old(slugs) && Slugs.IsSlug(m.slug)
      ensures m.slug == Slugs.Candidate(Slugs.SlugOf(question), tries)
      ensures forall j :: 0 <= j < tries ==> Slugs.Candidate(Slugs.SlugOf(question), j) in old(slugs)
      ensures m.yes == yes && m.no == no && m.address == address && m.question == question && m.icon == None
      ensures View() == Upsert(old(View()), m)
    {
      var existing := SlugList();
      var slug;
      slug, tries := Slugs.AllocateUniqueSlug(existing, question);
      Slugs.SlugOfIsSlug(question);
      Slugs.CandidateIsSlug(Slugs.SlugOf(question), tries);
      m := Event(UuidOf(address), slug, question, None, address, yes, no);
      UpsertMarket(m);
    }

    method SlugList() returns (r: seq<string>)
      ensures forall s :: s in r <==> s in slugs
    {
      r := [];
      var todo := slugs.Keys;
      while todo != {}
        invariant todo <= slugs.Keys
        invariant forall s :: s in r <==> s in slugs && s !in todo
      {
        var s :| s in todo;
        r, todo := r + [s], todo - {s};
      }
    }
  }

  // ---- Integrity ----

  /** Every address leads to a market; if that is a spot shell, to the shell of this very address. */
  ghost predicate Resolves(r: Reg) {
    forall s :: s in r.spots ==>
      r.spots[s].market in r.markets && (r.markets[r.spots[s].market].Spot? ==> r.spots[s].market == UuidOf(s))
  }

  /** Markets are filed under their id, and a spot shell under the id of its address. */
  ghost predicate FiledById(r: Reg) {
    forall id :: id in r.markets ==>
      r.markets[id].id == id && (r.markets[id].Spot? ==> id == UuidOf(r.markets[id].address))
  }

  /** Each leg of an event leads to a market that is no spot shell. */
  ghost predicate LegsBound(r: Reg) {
    forall id, s :: id in r.markets && r.markets[id].HasLeg(s) ==> LeadsElsewhere(r, s)
  }

  /** No spot shell stands at the address of an event leg. */
  ghost predicate NoShellAtLeg(r: Reg) {
    forall id, s :: id in r.markets && r.markets[id].HasLeg(s) ==>
      (UuidOf(s) in r.markets ==> !r.markets[UuidOf(s)].Spot?)
  }

  /** A slug leads to a market that carries it. */
  ghost predicate SlugsCarried(r: Reg) {
    forall k :: k in r.slugs ==> k != "" && r.slugs[k] in r.markets && r.markets[r.slugs[k]].Slug() == k
  }

  /** Every slug carried leads back to its market. */
  ghost predicate SlugsFound(r: Reg) {
    forall id :: id in r.markets && r.markets[id].Slug() != "" ==> Get(r.slugs, r.markets[id].Slug()) == Some(id)
  }

  /** Known names are not blank. */
  ghost predicate NamesShown(r: Reg) {
    forall k :: k in r.names ==> NameKey(k) != ""
  }

  ghost predicate Integrity(r: Reg) {
    Resolves(r) && NamesShown(r) && FiledById(r) && LegsBound(r) && NoShellAtLeg(r) && SlugsCarried(r) && SlugsFound(r)
  }

  /** The slug a market would be stored with is free, or its own. */
  predicate SlugFree(r: Reg, m: Market) {
    var slug := Stored(r, m).Slug();
    slug in r.slugs ==> r.slugs[slug] == m.id
  }

  // ---- Registration ----

  lemma NameKeyShown(name: string)
    ensures NameKey(name) != "" ==> NameKey(NameKey(name)) != ""
    ensures NameKey(name) != "" <==> Trim(name) != ""
  {
    TrimIsTrimmed(name);
    TrimIsTrimmed(NameKey(name));
    if NameKey(name) != "" {
      TrimIsTrimmed(Trim(name));
      var i :| 0 <= i < |Trim(name)| && !IsSpace(Trim(name)[i]);
      assert !IsSpace(NameKey(name)[i]);
    }
  }

  /** Markets and references after a registration: at most one shell is added, at its own address. */
  lemma RegisterAdds(r: Reg, name: string, spotMarket: string, deployer: string)
    ensures var t, spot := Register(r, name, spotMarket, deployer), NormalSpot(spotMarket);
            && t.slugs == r.slugs
            && (t.markets == r.markets
                || (!LeadsElsewhere(r, spot) && UuidOf(spot) !in r.markets
                    && t.markets == r.markets[UuidOf(spot) := NewShell(name, spot, deployer)]))
            && (t.spots == r.spots
                || (spot !in r.spots && UuidOf(spot) in t.markets && t.spots == r.spots[spot := SpotRef(UuidOf(spot), "spot")]))
  {
  }

  lemma RegisterKeepsLegs(r: Reg, name: string, spotMarket: string, deployer: string)
    requires Integrity(r)
    ensures LegsBound(Register(r, name, spotMarket, deployer)) && NoShellAtLeg(Register(r, name, spotMarket, deployer))
  {
    var t := Register(r, name, spotMarket, deployer);
    RegisterAdds(r, name, spotMarket, deployer);
    forall id, s | id in t.markets && t.markets[id].HasLeg(s)
      ensures LeadsElsewhere(t, s)
      ensures UuidOf(s) in t.markets ==> !t.markets[UuidOf(s)].Spot?
    {
      assert id in r.markets && LeadsElsewhere(r, s);
    }
  }

  lemma RegisterKeeps(r: Reg, name: string, spotMarket: string, deployer: string)
    requires Integrity(r)
    ensures Integrity(Register(r, name, spotMarket, deployer))
  {
    RegisterKeepsLegs(r, name, spotMarket, deployer);
    NameKeyShown(name);
    RegisterAdds(r, name, spotMarket, deployer);
    var t := Register(r, name, spotMarket, deployer);
    assert Resolves(t);
    assert FiledById(t);
    assert SlugsFound(t) && SlugsCarried(t);
  }

  // ---- Upserts ----

  /** An event keeps its id free of shells and leaves every other market but the shells at its legs. */
  lemma EventMarkets(r: Reg, m: Market)
    requires m.Event?
    ensures var n, t := Stored(r, m), Upsert(r, m);
            && n.Event? && n.id == m.id
            && t.spots == r.spots[n.yes := SpotRef(m.id, "yes")][n.no := SpotRef(m.id, "no")]
            && t.slugs == WithSlug(r.slugs, n.slug, m.id) && t.names == r.names
            && forall id :: Get(t.markets, id) ==
                            if id == m.id then Some(n)
                            else if (id == UuidOf(n.yes) || id == UuidOf(n.no)) && id in r.markets && r.markets[id].Spot? then None
                            else Get(r.markets, id)
  {
  }

  lemma EventKeepsSpots(r: Reg, m: Market)
    requires Integrity(r) && m.Event?
    ensures Resolves(Upsert(r, m)) && FiledById(Upsert(r, m))
  {
    EventMarkets(r, m);
    var n, t := Stored(r, m), Upsert(r, m);
    forall s | s in t.spots
      ensures t.spots[s].market in t.markets
      ensures t.markets[t.spots[s].market].Spot? ==> t.spots[s].market == UuidOf(s)
    {
      var id := t.spots[s].market;
      assert Get(t.markets, m.id) == Some(n);
      if s != n.yes && s != n.no {
        assert Get(t.markets, id) == if id == m.id then Some(n) else Get(r.markets, id);
      }
    }
    forall id | id in t.markets
      ensures t.markets[id].id == id && (t.markets[id].Spot? ==> id == UuidOf(t.markets[id].address))
    {
      assert Get(t.markets, id) == if id == m.id then Some(n) else Get(r.markets, id);
    }
  }

  lemma EventKeepsLegs(r: Reg, m: Market)
    requires Integrity(r) && m.Event?
    ensures LegsBound(Upsert(r, m)) && NoShellAtLeg(Upsert(r, m))
  {
    EventMarkets(r, m);
    var n, t := Stored(r, m), Upsert(r, m);
    assert Get(t.markets, m.id) == Some(n);
    forall id, s | id in t.markets && t.markets[id].HasLeg(s)
      ensures LeadsElsewhere(t, s)
      ensures UuidOf(s) in t.markets ==> !t.markets[UuidOf(s)].Spot?
    {
      assert Get(t.markets, id) == if id == m.id then Some(n) else Get(r.markets, id);
      if s != n.yes && s != n.no {
        assert LeadsElsewhere(r, s);
        var other := r.spots[s].market;
        assert Get(t.markets, other) == if other == m.id then Some(n) else Get(r.markets, other);
        assert Get(t.markets, UuidOf(s)) == if UuidOf(s) == m.id then Some(n) else Get(r.markets, UuidOf(s));
      } else {
        assert UuidOf(s) in t.markets ==> UuidOf(s) == m.id || !r.markets[UuidOf(s)].Spot?;
      }
    }
  }

  lemma EventCarriesSlugs(r: Reg, m: Market)
    requires Integrity(r) && m.Event?
    ensures SlugsCarried(Upsert(r, m))
  {
    EventMarkets(r, m);
    var n, t := Stored(r, m), Upsert(r, m);
    assert Get(t.markets, m.id) == Some(n);
    forall k | k in t.slugs
      ensures k != "" && t.slugs[k] in t.markets && t.markets[t.slugs[k]].Slug() == k
    {
      var id := t.slugs[k];
      if id != m.id || n.slug == "" {
        assert k in r.slugs && r.slugs[k] == id;
        assert Get(t.markets, id) == if id == m.id then Some(n) else Get(r.markets, id);
      }
    }
  }

  lemma EventFindsSlugs(r: Reg, m: Market)
    requires Integrity(r) && m.Event? && SlugFree(r, m)
    ensures SlugsFound(Upsert(r, m))
  {
    EventMarkets(r, m);
    var n, t := Stored(r, m), Upsert(r, m);
    assert Get(t.markets, m.id) == Some(n);
    forall id | id in t.markets && t.markets[id].Slug() != ""
      ensures Get(t.slugs, t.markets[id].Slug()) == Some(id)
    {
      assert Get(t.markets, id) == if id == m.id then Some(n) else Get(r.markets, id);
    }
  }

  /** An event upsert keeps every registry claim; slugs stay findable exactly when its slug is free or its own. */
  lemma EventKeepsIff(r: Reg, m: Market)
    requires Integrity(r) && m.Event?
    ensures Integrity(Upsert(r, m)) <==> SlugFree(r, m)
  {
    EventKeepsSpots(r, m);
    EventKeepsLegs(r, m);
    EventCarriesSlugs(r, m);
    if SlugFree(r, m) {
      EventFindsSlugs(r, m);
    }
    if !SlugFree(r, m) {
      EventMarkets(r, m);
      var slug := Stored(r, m).slug;
      var loser := r.slugs[slug];
      assert r.markets[loser].Slug() == slug;
      assert Get(Upsert(r, m).markets, loser) == Some(r.markets[loser]);
      assert Get(Upsert(r, m).slugs, slug) == Some(m.id);
    }
  }

  // ---- Over every trace ----

  datatype Action =
    | RegisterSpot(name: string, spot: string, deployer: string)
    | LookUpSpot(spot: string, name: string)
    | UpsertEvent(event: Market)

  predicate Lawful(r: Reg, a: Action) {
    a.UpsertEvent? ==> a.event.Event? && SlugFree(r, a.event)
  }

  function Next(r: Reg, a: Action): Reg {
    match a
    case RegisterSpot(name, spot, deployer) => Register(r, name, spot, deployer)
    case LookUpSpot(spot, name) => if NormalSpot(spot) in r.spots then r else Register(r, name, NormalSpot(spot), "")
    case UpsertEvent(m) => Upsert(r, m)
  }

  function RunReg(actions: seq<Action>): Reg {
    if actions == [] then EMPTY_REG else Next(RunReg(actions[..|actions| - 1]), actions[|actions| - 1])
  }

  predicate LawfulTrace(actions: seq<Action>) {
    actions == [] || (LawfulTrace(actions[..|actions| - 1])
                      && Lawful(RunReg(actions[..|actions| - 1]), actions[|actions| - 1]))
  }

  /**
   Over every trace of registrations, lookups and event upserts: each address leads to a market, no shell
   stands at a leg of an event, and slugs and the events that carry them lead to each other.
   */
  lemma {:induction false} RegistryIntegrity(actions: seq<Action>)
    requires LawfulTrace(actions)
    ensures Integrity(RunReg(actions))
  {
    if actions != [] {
      var before, a := actions[..|actions| - 1], actions[|actions| - 1];
      RegistryIntegrity(before);
      var r := RunReg(before);
      match a
      case RegisterSpot(name, spot, deployer) => RegisterKeeps(r, name, spot, deployer);
      case LookUpSpot(spot, name) => RegisterKeeps(r, name, NormalSpot(spot), "");
      case UpsertEvent(m) => EventKeepsIff(r, m);
    }
  }

  /** A lookup under a known name, or under the address itself, resolves exactly when the address is not blank. */
  lemma LookUpResolves(r: Reg, spot: string, name: string)
    requires Integrity(r) && (name in r.names || name == NormalSpot(spot))
    requires NormalSpot(spot) !in r.spots
    ensures NormalSpot(spot) in Next(r, LookUpSpot(spot, name)).spots <==> NormalSpot(spot) != ""
    ensures NormalSpot(spot) in Next(r, LookUpSpot(spot, name)).spots ==>
              Next(r, LookUpSpot(spot, name)).spots[NormalSpot(spot)].market in Next(r, LookUpSpot(spot, name)).markets
  {
    TrimIsTrimmed(spot);
    NameKeyShown(name);
  }

  // ---- What one action does, read off its arguments ----

  lemma UpperAlike(c: char, d: char)
    ensures UpperChar(c) == UpperChar(d) <==> SameLetter(c, d)
    ensures SameLetter(c, UpperChar(c)) && !('a' <= UpperChar(c) <= 'z')
  {
  }

  /** Two names share a key exactly when, trimmed, they are the same letters; the key is in upper case. */
  lemma NameKeyAlike(a: string, b: string)
    ensures NameKey(a) == NameKey(b) <==> SameLetters(Trim(a), Trim(b))
    ensures SameLetters(Trim(a), NameKey(a)) && forall i :: 0 <= i < |NameKey(a)| ==> !('a' <= NameKey(a)[i] <= 'z')
  {
    var s, t := Trim(a), Trim(b);
    forall i | 0 <= i < |s|
      ensures SameLetter(s[i], NameKey(a)[i]) && !('a' <= NameKey(a)[i] <= 'z')
      ensures i < |t| ==> (NameKey(a)[i] == NameKey(b)[i] <==> SameLetter(s[i], t[i]))
    {
      UpperAlike(s[i], s[i]);
      if i < |t| {
        UpperAlike(s[i], t[i]);
      }
    }
  }

  /** The address leads to a market, and that is no spot shell. */
  predicate LedOn(r: Reg, spot: string) {
    match Get(r.spots, spot)
    case None => false
    case Some(found) => found.market in r.markets && (r.markets[found.market].Event? || r.markets[found.market].Perp?)
  }

  /**
   A registration records the name of the address; unless the address leads on to another market, it also gets a
   reference and a shell under its own id where it has none. A blank name or address does nothing.
   */
  lemma RegisterTells(r: Reg, name: string, spotMarket: string, deployer: string)
    ensures var y, spot := Register(r, name, spotMarket, deployer), Trim(spotMarket);
            if Trim(name) == "" || spot == "" then y == r
            else
              && y.names == r.names[NameKey(name) := spot] && y.slugs == r.slugs
              && (forall s :: s != spot || s in r.spots || LedOn(r, spot) ==> Get(y.spots, s) == Get(r.spots, s))
              && (forall id :: id != UuidOf(spot) || id in r.markets || LedOn(r, spot) ==> Get(y.markets, id) == Get(r.markets, id))
              && (!LedOn(r, spot) ==>
                    && (spot !in r.spots ==> Get(y.spots, spot) == Some(SpotRef(UuidOf(spot), "spot")))
                    && (UuidOf(spot) !in r.markets ==> IsShell(Get(y.markets, UuidOf(spot)), spot, Trim(name), Trim(deployer))))
  {
    NameKeyShown(name);
  }

  /** A shell bears the trimmed name and deployer, its address, and no icon. */
  predicate IsShell(m: Option<Market>, spot: string, name: string, deployer: string) {
    && m.Some? && m.value.Spot? && m.value.id == UuidOf(spot) && m.value.address == spot
    && m.value.name == name && m.value.deployer == deployer && m.value.icon == None
  }

  /** A stored market: the new one, with what it lacks of icon, name or slug taken from the known one. */
  ghost predicate StoredAs(m: Market, known: Option<Market>, s: Market) {
    && s.id == m.id && s.icon == (if m.icon.None? && known.Some? then known.value.icon else m.icon)
    && match m
       case Event(_, slug, question, _, address, yes, no) =>
         && s.Event? && s.question == question && s.address == address && s.yes == Trim(yes) && s.no == Trim(no)
         && s.slug == if slug == "" && known.Some? && known.value.Event? then known.value.slug else slug
       case Spot(_, name, _, address, deployer) =>
         && s.Spot? && s.address == Trim(address) && s.deployer == deployer
         && s.name == if name == "" && known.Some? && !known.value.Event? then known.value.name else name
       case Perp(_, name, _, address) =>
         && s.Perp? && s.address == Trim(address)
         && s.name == if name == "" && known.Some? && !known.value.Event? then known.value.name else name
  }

  /** Where the addresses of a stored market lead: the legs of an event to its outcomes, where both are one to no. */
  ghost predicate SpotsLead(r: Reg, y: Reg, s: Market) {
    forall a :: Get(y.spots, a) ==
      if s.Event? && a == s.no then Some(SpotRef(s.id, "no"))
      else if s.Event? && a == s.yes then Some(SpotRef(s.id, "yes"))
      else if s.Spot? && a == s.address then Some(SpotRef(s.id, "spot"))
      else if s.Perp? && a == s.address then Some(SpotRef(s.id, "perp"))
      else Get(r.spots, a)
  }

  /** The slug leads to the market, its older slugs lead nowhere, and the other slugs as before. */
  ghost predicate SlugsLead(r: Reg, y: Reg, s: Market) {
    if s.Event? && s.slug != "" then
      forall k :: Get(y.slugs, k) == if k == s.slug then Some(s.id)
                                     else if Get(r.slugs, k) == Some(s.id) then None else Get(r.slugs, k)
    else y.slugs == r.slugs
  }

  /** An upsert stores the market, leads its addresses and slug to it, and takes away the shells at an event's legs. */
  lemma UpsertTells(r: Reg, m: Market)
    ensures var y := Upsert(r, m);
            && y.names == r.names && m.id in y.markets
            && var s := y.markets[m.id];
               && StoredAs(m, Get(r.markets, m.id), s) && SpotsLead(r, y, s) && SlugsLead(r, y, s)
               && forall id :: id != m.id ==>
                    Get(y.markets, id) ==
                    if s.Event? && (id == UuidOf(s.yes) || id == UuidOf(s.no)) && id in r.markets && r.markets[id].Spot? then None
                    else Get(r.markets, id)
  {
    StoredTells(r, m);
    if m.Event? {
      EventMarkets(r, m);
      assert Get(Upsert(r, m).markets, m.id) == Some(Stored(r, m));
    }
  }

  lemma StoredTells(r: Reg, m: Market)
    ensures StoredAs(m, Get(r.markets, m.id), Stored(r, m))
  {
  }
}

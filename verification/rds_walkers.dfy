/** What the three feed walkers of `RdsPriceList` do to the region table, as
    functions of the table before, the fetched document and the call's
    arguments; and what a whole run of calls does. Each walk is a left fold
    over the document's lists, written as recursion on the last element, so
    that the loops in `RdsPricing` can keep "the state so far is the fold of
    the prefix seen so far" as their invariant. */
module RdsWalkers {
  import opened Options
  import opened RubyStrings
  import opened RdsTables
  import opened Feeds
  import opened RdsInstanceTypes
  import opened AwsPricing
  import opened RdsRequests

  /** No update recorded for Aurora claims a multi-AZ deployment. */
  predicate AuroraSingleAzUpdate(u: PriceUpdate)
  {
    match u
    case Pricing(dbType, _, _, isMultiAz, _) => dbType == Aurora ==> !isMultiAz
    case PricingNew(db, _, _, _, isMultiAz, _) => db == Aurora ==> !isMultiAz
  }

  /** Every update of an instance type is single-AZ for Aurora. */
  predicate InstanceAuroraSingleAz(it: InstanceType)
  {
    forall i | 0 <= i < |it.updates| :: AuroraSingleAzUpdate(it.updates[i])
  }

  /** The same, for every instance type of a region. */
  predicate RegionAuroraSingleAz(r: Region)
  {
    forall a | a in r.instanceTypes :: InstanceAuroraSingleAz(r.instanceTypes[a])
  }

  /** The same, for every region of the table. */
  predicate CatalogAuroraSingleAz(m: RegionMap)
  {
    forall k | k in m.table :: RegionAuroraSingleAz(m.table[k])
  }

  /** Writing a walked region back under its key: the table stays well formed
      with the same keys, only that key's region changes, and a catalog with
      no multi-AZ Aurora price keeps none when the new region has none. */
  lemma PutWalked(m: RegionMap, key: string, r': Region)
    requires m.Valid() && key in m.table && r'.name == key && r'.Valid()
    ensures Put(m, key, r').Valid() && Put(m, key, r').keys == m.keys && Put(m, key, r').table.Keys == m.table.Keys
    ensures Put(m, key, r').table == m.table[key := r']
    ensures CatalogAuroraSingleAz(m) && RegionAuroraSingleAz(r') ==> CatalogAuroraSingleAz(Put(m, key, r'))
  {
    PutExisting(m, key, r');
  }

  /** A call whose updates keep Aurora single-AZ: on demand and term-based
      reserved calls that write to Aurora are not multi-AZ, and legacy
      reserved calls never write to Aurora (their multi-AZ flag comes from
      the feed). */
  predicate AuroraSafe(req: Request)
  {
    match req
    case OnDemandFetch(_, dbType, _, isMultiAz) => dbType == Aurora ==> !isMultiAz
    case Reserved2Fetch(_, dbs, isMultiAz, _) => Aurora in dbs ==> !isMultiAz
    case LegacyFetch(_, _, dbType, _) => dbType != Aurora
  }

  /** Recording a price keeps Aurora single-AZ when the update does. */
  lemma RecordPriceAuroraSingleAz(r: Region, apiName: string, name: string, u: PriceUpdate)
    requires r.Valid()
    ensures RegionAuroraSingleAz(r) && AuroraSingleAzUpdate(u) ==> RegionAuroraSingleAz(RecordPrice(r, apiName, name, u))
  {
    var r' := RecordPrice(r, apiName, name, u);
    if RegionAuroraSingleAz(r) && AuroraSingleAzUpdate(u) {
      forall a | a in r'.instanceTypes
        ensures InstanceAuroraSingleAz(r'.instanceTypes[a])
      {
        if a == apiName {
          var prior := if apiName in r.instanceTypes then r.instanceTypes[apiName].updates else [];
          assert forall i | 0 <= i < |prior| :: AuroraSingleAzUpdate(prior[i]);
          assert r'.instanceTypes[a].updates == prior + [u];
        }
      }
    }
  }

  // ---------------------------------------------------------------------------
  // fetch_on_demand_rds_instance_pricing
  // ---------------------------------------------------------------------------

  /** One tier: a name `get_name` rejects is skipped; otherwise the instance
      type is found or created and the tier is recorded as an on-demand price
      with the call's db_type and flags. */
  function OdTier(r: Region, getName: NameLookup, req: Request, typeName: string, tier: Tier): (r': Region)
    requires r.Valid() && req.OnDemandFetch?
    ensures r'.Valid() && r'.name == r.name && r.instanceTypes.Keys <= r'.instanceTypes.Keys
    ensures AuroraSafe(req) && RegionAuroraSingleAz(r) ==> RegionAuroraSingleAz(r')
  {
    match getName(typeName, tier.tierName, false)
    case UnknownType => r
    case Named(apiName, name) =>
      var u := Pricing(req.dbType, OnDemand, tier, req.isMultiAz, req.isByol);
      RecordPriceAuroraSingleAz(r, apiName, name, u);
      RecordPrice(r, apiName, name, u)
  }

  /** The tiers of one type, in order. */
  function OdTiers(r: Region, getName: NameLookup, req: Request, typeName: string, tiers: seq<Tier>): (r': Region)
    requires r.Valid() && req.OnDemandFetch?
    ensures r'.Valid() && r'.name == r.name && r.instanceTypes.Keys <= r'.instanceTypes.Keys
    ensures AuroraSafe(req) && RegionAuroraSingleAz(r) ==> RegionAuroraSingleAz(r')
    decreases |tiers|
  {
    if tiers == [] then r
    else
      OdTier(OdTiers(r, getName, req, typeName, tiers[..|tiers| - 1]), getName, req, typeName, tiers[|tiers| - 1])
  }

  /** The types of one region, in order. */
  function OdTypes(r: Region, getName: NameLookup, req: Request, types: seq<OdType>): (r': Region)
    requires r.Valid() && req.OnDemandFetch?
    ensures r'.Valid() && r'.name == r.name && r.instanceTypes.Keys <= r'.instanceTypes.Keys
    ensures AuroraSafe(req) && RegionAuroraSingleAz(r) ==> RegionAuroraSingleAz(r')
    decreases |types|
  {
    if types == [] then r
    else
      var t := types[|types| - 1];
      OdTiers(OdTypes(r, getName, req, types[..|types| - 1]), getName, req, t.name, t.tiers)
  }

  /** The regions of an on-demand feed, in order: a region `get_region` does
      not find is skipped, so no region is ever added and the key order is
      untouched. */
  function OdRegions(m: RegionMap, getName: NameLookup, req: Request, regions: seq<OdRegion>): (m': RegionMap)
    requires m.Valid() && req.OnDemandFetch?
    ensures m'.Valid() && m'.keys == m.keys && m'.table.Keys == m.table.Keys
    ensures AuroraSafe(req) && CatalogAuroraSingleAz(m) ==> CatalogAuroraSingleAz(m')
    decreases |regions|
  {
    if regions == [] then m
    else
      var m0 := OdRegions(m, getName, req, regions[..|regions| - 1]);
      var reg := regions[|regions| - 1];
      match GetRegion(m0, reg.region)
      case None => m0
      case Some(region) =>
        var key := LookupKey(reg.region);
        var region' := OdTypes(region, getName, req, reg.types);
        PutExisting(m0, key, region');
        Put(m0, key, region')
  }

  /** The tiers whose names `get_name` resolves, in order. */
  function KnownTiers(getName: NameLookup, typeName: string, tiers: seq<Tier>): (ks: seq<Tier>)
    ensures forall t | t in ks :: t in tiers && getName(typeName, t.tierName, false).Named?
    decreases |tiers|
  {
    if tiers == [] then []
    else
      var prefix := KnownTiers(getName, typeName, tiers[..|tiers| - 1]);
      var t := tiers[|tiers| - 1];
      if getName(typeName, t.tierName, false).Named? then prefix + [t] else prefix
  }

  /** An `UnknownTypeError` skips its own tier only: walking all the tiers
      does what walking just the resolvable ones, in order, does. */
  lemma {:induction false} OdUnknownTiersSkipped(r: Region, getName: NameLookup, req: Request, typeName: string, tiers: seq<Tier>)
    requires r.Valid() && req.OnDemandFetch?
    ensures OdTiers(r, getName, req, typeName, tiers) == OdTiers(r, getName, req, typeName, KnownTiers(getName, typeName, tiers))
    decreases |tiers|
  {
    if tiers != [] {
      var prefix := tiers[..|tiers| - 1];
      var t := tiers[|tiers| - 1];
      OdUnknownTiersSkipped(r, getName, req, typeName, prefix);
      var kp := KnownTiers(getName, typeName, prefix);
      if getName(typeName, t.tierName, false).Named? {
        assert (kp + [t])[..|kp + [t]| - 1] == kp;
      }
    }
  }

  // ---------------------------------------------------------------------------
  // fetch_reserved_rds_instance_pricing2
  // ---------------------------------------------------------------------------

  /** `case option["purchaseOption"]`: the three known options; anything else
      leaves `reservation_type` nil. */
  function ReservationType(purchaseOption: string): Reservation
  {
    if purchaseOption == "noUpfront" then NoUpfront
    else if purchaseOption == "allUpfront" then AllUpfront
    else if purchaseOption == "partialUpfront" then PartialUpfront
    else NoReservation
  }

  /** The feed's name for each reservation type. */
  function PurchaseOptionName(r: Reservation): string
    requires r != NoReservation
  {
    match r
    case NoUpfront => "noUpfront"
    case AllUpfront => "allUpfront"
    case PartialUpfront => "partialUpfront"
  }

  /** Each known purchase option maps to its own reservation type, and only
      those three names map to a reservation type at all. */
  lemma ReservationTypeRoundTrip(r: Reservation, s: string)
    ensures r != NoReservation ==> ReservationType(PurchaseOptionName(r)) == r
    ensures ReservationType(s) != NoReservation ==> PurchaseOptionName(ReservationType(s)) == s
  {
  }

  /** The update one purchase option makes for engine `db`. */
  function OptionUpdate(req: Request, db: Db, duration: string, option: PurchaseOption): PriceUpdate
    requires req.Reserved2Fetch?
  {
    PricingNew(db, ReservationType(option.purchaseOption), option.valueColumns, duration, req.isMultiAz, req.isByol)
  }

  /** One purchase option's updates, one per engine of `dbs`, in order. */
  function FanOut(req: Request, duration: string, option: PurchaseOption, dbs: seq<Db>): (us: seq<PriceUpdate>)
    requires req.Reserved2Fetch?
    ensures |us| == |dbs|
  {
    seq(|dbs|, i requires 0 <= i < |dbs| => OptionUpdate(req, dbs[i], duration, option))
  }

  /** `dbs.each { |db| instance_type.update_pricing_new(db, ...) }`: the log
      grows by the purchase option's fan-out, one update per engine. */
  function R2Dbs(it: InstanceType, req: Request, duration: string, option: PurchaseOption, dbs: seq<Db>): (it': InstanceType)
    requires req.Reserved2Fetch?
    ensures it' == it.(updates := it.updates + FanOut(req, duration, option, dbs))
    decreases |dbs|
  {
    if dbs == [] then
      assert it.updates + [] == it.updates;
      it
    else
      var it0 := R2Dbs(it, req, duration, option, dbs[..|dbs| - 1]);
      assert FanOut(req, duration, option, dbs) ==
        FanOut(req, duration, option, dbs[..|dbs| - 1]) + [OptionUpdate(req, dbs[|dbs| - 1], duration, option)];
      UpdatePricing(it0, OptionUpdate(req, dbs[|dbs| - 1], duration, option))
  }

  /** A fan-out to the call's own engines keeps Aurora single-AZ. */
  lemma FanOutAuroraSingleAz(it: InstanceType, req: Request, duration: string, option: PurchaseOption)
    requires req.Reserved2Fetch? && AuroraSafe(req) && InstanceAuroraSingleAz(it)
    ensures InstanceAuroraSingleAz(it.(updates := it.updates + FanOut(req, duration, option, req.dbs)))
  {
    var us := FanOut(req, duration, option, req.dbs);
    forall i | 0 <= i < |us| ensures AuroraSingleAzUpdate(us[i]) {
      assert us[i].db == req.dbs[i];
    }
  }

  /** The purchase options of one term, in order. */
  function R2Options(it: InstanceType, req: Request, duration: string, options: seq<PurchaseOption>): (it': InstanceType)
    requires req.Reserved2Fetch?
    ensures it'.apiName == it.apiName && it'.name == it.name
    ensures AuroraSafe(req) && InstanceAuroraSingleAz(it) ==> InstanceAuroraSingleAz(it')
    decreases |options|
  {
    if options == [] then it
    else
      var it0 := R2Options(it, req, duration, options[..|options| - 1]);
      var option := options[|options| - 1];
      if AuroraSafe(req) && InstanceAuroraSingleAz(it0) then
        FanOutAuroraSingleAz(it0, req, duration, option);
        R2Dbs(it0, req, duration, option, req.dbs)
      else
        R2Dbs(it0, req, duration, option, req.dbs)
  }

  /** The terms of one instance type, in order; `term["term"]` is the duration. */
  function R2Terms(it: InstanceType, req: Request, terms: seq<Term>): (it': InstanceType)
    requires req.Reserved2Fetch?
    ensures it'.apiName == it.apiName && it'.name == it.name
    ensures AuroraSafe(req) && InstanceAuroraSingleAz(it) ==> InstanceAuroraSingleAz(it')
    decreases |terms|
  {
    if terms == [] then it
    else
      var t := terms[|terms| - 1];
      R2Options(R2Terms(it, req, terms[..|terms| - 1]), req, t.term, t.purchaseOptions)
  }

  /** The instance types of one region, in order: one the region does not
      already hold is skipped, so no instance type is ever created. */
  function R2Types(r: Region, req: Request, types: seq<ReservedType>): (r': Region)
    requires r.Valid() && req.Reserved2Fetch?
    ensures r'.Valid() && r'.name == r.name && r'.instanceTypes.Keys == r.instanceTypes.Keys
    ensures AuroraSafe(req) && RegionAuroraSingleAz(r) ==> RegionAuroraSingleAz(r')
    decreases |types|
  {
    if types == [] then r
    else
      var r0 := R2Types(r, req, types[..|types| - 1]);
      var t := types[|types| - 1];
      match GetRdsInstanceType(r0, t.typeName)
      case None => r0
      case Some(it) => StoreInstanceType(r0, R2Terms(it, req, t.terms))
  }

  /** The regions of a term-based reserved feed, in order: a region
      `get_region` does not find is skipped. Neither regions nor instance
      types are ever created. */
  function R2Regions(m: RegionMap, req: Request, regions: seq<ReservedRegion>): (m': RegionMap)
    requires m.Valid() && req.Reserved2Fetch?
    ensures m'.Valid() && m'.keys == m.keys && m'.table.Keys == m.table.Keys
    ensures AuroraSafe(req) && CatalogAuroraSingleAz(m) ==> CatalogAuroraSingleAz(m')
    decreases |regions|
  {
    if regions == [] then m
    else
      var m0 := R2Regions(m, req, regions[..|regions| - 1]);
      var reg := regions[|regions| - 1];
      match GetRegion(m0, reg.region)
      case None => m0
      case Some(region) =>
        var key := LookupKey(reg.region);
        var region' := R2Types(region, req, reg.instanceTypes);
        PutExisting(m0, key, region');
        Put(m0, key, region')
  }

  /** A term-based reserved feed never adds an instance type to any region:
      every region keeps exactly the instance types it had. */
  lemma {:induction false} R2RegionsKeepInstanceTypes(m: RegionMap, req: Request, regions: seq<ReservedRegion>)
    requires m.Valid() && req.Reserved2Fetch?
    ensures forall k | k in m.table ::
      R2Regions(m, req, regions).table[k].instanceTypes.Keys == m.table[k].instanceTypes.Keys
    decreases |regions|
  {
    if regions != [] {
      var prefix := regions[..|regions| - 1];
      R2RegionsKeepInstanceTypes(m, req, prefix);
      var m0 := R2Regions(m, req, prefix);
      var reg := regions[|regions| - 1];
      match GetRegion(m0, reg.region)
      case None =>
      case Some(region) =>
        var key := LookupKey(reg.region);
        PutWalked(m0, key, R2Types(region, req, reg.instanceTypes));
    }
  }

  /** Oracle SE's reserved prices are written to Oracle SE and then to
      Oracle EE, with identical arguments but the engine. */
  lemma R2OracleSeAlias(it: InstanceType, req: Request, duration: string, option: PurchaseOption)
    requires req.Reserved2Fetch? && req.dbs == ReservedWithSamePricing2(OracleSe)
    ensures R2Dbs(it, req, duration, option, req.dbs).updates ==
      it.updates + [OptionUpdate(req, OracleSe, duration, option), OptionUpdate(req, OracleEe, duration, option)]
  {
    assert req.dbs == [OracleSe, OracleEe];
  }

  // ---------------------------------------------------------------------------
  // fetch_reserved_rds_instance_pricing
  // ---------------------------------------------------------------------------

  /** One tier: a name `get_name` rejects is skipped; otherwise the tier is
      recorded at the call's utilization level, multi-AZ exactly when the
      type's label says so. */
  function LgTier(r: Region, getName: NameLookup, req: Request, typeName: string, tier: Tier): (r': Region)
    requires r.Valid() && req.LegacyFetch?
    ensures r'.Valid() && r'.name == r.name && r.instanceTypes.Keys <= r'.instanceTypes.Keys
    ensures AuroraSafe(req) && RegionAuroraSingleAz(r) ==> RegionAuroraSingleAz(r')
  {
    match getName(typeName, tier.tierName, true)
    case UnknownType => r
    case Named(apiName, name) =>
      var u := Pricing(req.dbType, Utilization(req.resType), tier, IsMultiAz(typeName), req.isByol);
      RecordPriceAuroraSingleAz(r, apiName, name, u);
      RecordPrice(r, apiName, name, u)
  }

  /** The tiers of one type, in order. */
  function LgTiers(r: Region, getName: NameLookup, req: Request, typeName: string, tiers: seq<Tier>): (r': Region)
    requires r.Valid() && req.LegacyFetch?
    ensures r'.Valid() && r'.name == r.name && r.instanceTypes.Keys <= r'.instanceTypes.Keys
    ensures AuroraSafe(req) && RegionAuroraSingleAz(r) ==> RegionAuroraSingleAz(r')
    decreases |tiers|
  {
    if tiers == [] then r
    else LgTier(LgTiers(r, getName, req, typeName, tiers[..|tiers| - 1]), getName, req, typeName, tiers[|tiers| - 1])
  }

  /** The instance types of one region, in order. */
  function LgTypes(r: Region, getName: NameLookup, req: Request, types: seq<LegacyType>): (r': Region)
    requires r.Valid() && req.LegacyFetch?
    ensures r'.Valid() && r'.name == r.name && r.instanceTypes.Keys <= r'.instanceTypes.Keys
    ensures AuroraSafe(req) && RegionAuroraSingleAz(r) ==> RegionAuroraSingleAz(r')
    decreases |types|
  {
    if types == [] then r
    else
      var t := types[|types| - 1];
      LgTiers(LgTypes(r, getName, req, types[..|types| - 1]), getName, req, t.typeName, t.tiers)
  }

  /** `true` when `get_name` resolves some tier of the list. */
  function SomeTierResolves(getName: NameLookup, typeName: string, tiers: seq<Tier>): bool
    decreases |tiers|
  {
    if tiers == [] then false
    else
      || SomeTierResolves(getName, typeName, tiers[..|tiers| - 1])
      || getName(typeName, tiers[|tiers| - 1].tierName, true).Named?
  }

  /** The walk of a region `get_region` did not find: tiers `get_name` rejects
      are skipped as usual, but the first one it resolves is added to nil,
      and that failure escapes the walker. */
  function NilRegionFails(getName: NameLookup, types: seq<LegacyType>): bool
    decreases |types|
  {
    if types == [] then false
    else
      var t := types[|types| - 1];
      NilRegionFails(getName, types[..|types| - 1]) || SomeTierResolves(getName, t.typeName, t.tiers)
  }

  /** Some tier resolves exactly when one of them has a name `get_name` accepts. */
  lemma {:induction false} SomeTierResolvesIff(getName: NameLookup, typeName: string, tiers: seq<Tier>)
    ensures SomeTierResolves(getName, typeName, tiers) <==>
      exists j | 0 <= j < |tiers| :: getName(typeName, tiers[j].tierName, true).Named?
    decreases |tiers|
  {
    if tiers != [] {
      var prefix := tiers[..|tiers| - 1];
      SomeTierResolvesIff(getName, typeName, prefix);
      assert forall j | 0 <= j < |prefix| :: prefix[j] == tiers[j];
    }
  }

  /** A missing region makes the legacy walker fail exactly when some tier
      of some instance type has a name `get_name` accepts. */
  lemma {:induction false} NilRegionFailsIff(getName: NameLookup, types: seq<LegacyType>)
    ensures NilRegionFails(getName, types) <==>
      exists i, j | 0 <= i < |types| && 0 <= j < |types[i].tiers| ::
        getName(types[i].typeName, types[i].tiers[j].tierName, true).Named?
    decreases |types|
  {
    if types != [] {
      var prefix := types[..|types| - 1];
      var t := types[|types| - 1];
      NilRegionFailsIff(getName, prefix);
      SomeTierResolvesIff(getName, t.typeName, t.tiers);
      assert forall i | 0 <= i < |prefix| :: prefix[i] == types[i];
      if exists i, j | 0 <= i < |types| && 0 <= j < |types[i].tiers| ::
          getName(types[i].typeName, types[i].tiers[j].tierName, true).Named? {
        var i, j :| 0 <= i < |types| && 0 <= j < |types[i].tiers| &&
          getName(types[i].typeName, types[i].tiers[j].tierName, true).Named?;
        if i == |types| - 1 {
          assert exists j | 0 <= j < |t.tiers| :: getName(t.typeName, t.tiers[j].tierName, true).Named?;
        }
      }
    }
  }

  /** The regions of a legacy reserved feed, in order, up to the first region
      whose walk fails; the failing region's name is reported. The regions
      walked before it keep their updates; no region is ever added. */
  function LgRegions(m: RegionMap, getName: NameLookup, req: Request, regions: seq<LegacyRegion>): (res: (RegionMap, Option<string>))
    requires m.Valid() && req.LegacyFetch?
    ensures res.0.Valid() && res.0.keys == m.keys && res.0.table.Keys == m.table.Keys
    ensures res.1.Some? ==> GetRegion(res.0, res.1.value).None?
    ensures AuroraSafe(req) && CatalogAuroraSingleAz(m) ==> CatalogAuroraSingleAz(res.0)
    decreases |regions|
  {
    if regions == [] then (m, None)
    else
      var (m0, failed) := LgRegions(m, getName, req, regions[..|regions| - 1]);
      var reg := regions[|regions| - 1];
      if failed.Some? then (m0, failed)
      else
        match GetRegion(m0, reg.region)
        case None => (m0, if NilRegionFails(getName, reg.instanceTypes) then Some(reg.region) else None)
        case Some(region) =>
          var key := LookupKey(reg.region);
          var region' := LgTypes(region, getName, req, reg.instanceTypes);
          PutExisting(m0, key, region');
          (Put(m0, key, region'), None)
  }

  // ---------------------------------------------------------------------------
  // One walker call, and a run of calls
  // ---------------------------------------------------------------------------

  /** Why a walker call raised. */
  datatype LoadError =
    | FetchFailure(url: string)
    | MalformedFeed(url: string)
    | RegionMissing(url: string, region: string)

  /** The table after a call, or the error it raised. */
  datatype Outcome = Loaded(regions: RegionMap) | Aborted(error: LoadError)

  /** One walker call: fetch the URL and walk the document with the walker
      the request names. A fetch failure, or a document of another shape,
      raises; only the legacy walker can raise while walking. */
  function Ingest(feed: Feed, getName: NameLookup, m: RegionMap, req: Request): (o: Outcome)
    requires m.Valid()
    ensures feed(req.url).FetchFailed? ==> o == Aborted(FetchFailure(req.url))
    ensures o.Aborted? ==> o.error.url == req.url
    ensures o.Aborted? && !req.LegacyFetch? ==> feed(req.url).FetchFailed? || o.error.MalformedFeed?
    ensures o.Loaded? ==> o.regions.Valid() && o.regions.keys == m.keys && o.regions.table.Keys == m.table.Keys
    ensures o.Loaded? && AuroraSafe(req) && CatalogAuroraSingleAz(m) ==> CatalogAuroraSingleAz(o.regions)
  {
    match feed(req.url)
    case FetchFailed => Aborted(FetchFailure(req.url))
    case Fetched(doc) =>
      match req
      case OnDemandFetch(url, _, _, _) =>
        if doc.OnDemandDocument? then Loaded(OdRegions(m, getName, req, doc.odRegions))
        else Aborted(MalformedFeed(url))
      case Reserved2Fetch(url, _, _, _) =>
        if doc.ReservedDocument? then Loaded(R2Regions(m, req, doc.reservedRegions))
        else Aborted(MalformedFeed(url))
      case LegacyFetch(url, _, _, _) =>
        if doc.LegacyDocument? then
          var (m', failed) := LgRegions(m, getName, req, doc.legacyRegions);
          if failed.Some? then Aborted(RegionMissing(url, failed.value)) else Loaded(m')
        else Aborted(MalformedFeed(url))
  }

  /** The calls in order, stopping at the first one that raises. */
  function Run(feed: Feed, getName: NameLookup, m: RegionMap, reqs: seq<Request>): (o: Outcome)
    requires m.Valid()
    ensures o.Loaded? ==> o.regions.Valid() && o.regions.keys == m.keys && o.regions.table.Keys == m.table.Keys
    ensures o.Loaded? && (forall r | r in reqs :: AuroraSafe(r)) && CatalogAuroraSingleAz(m) ==>
      CatalogAuroraSingleAz(o.regions)
    decreases |reqs|
  {
    if reqs == [] then Loaded(m)
    else
      match Run(feed, getName, m, reqs[..|reqs| - 1])
      case Aborted(e) => Aborted(e)
      case Loaded(m0) => Ingest(feed, getName, m0, reqs[|reqs| - 1])
  }

  /** Running two lists of calls one after the other is running their
      concatenation: a failure in the first skips the second. */
  lemma {:induction false} RunAppend(feed: Feed, getName: NameLookup, m: RegionMap, a: seq<Request>, b: seq<Request>)
    requires m.Valid()
    ensures Run(feed, getName, m, a + b) ==
      match Run(feed, getName, m, a)
      case Aborted(e) => Aborted(e)
      case Loaded(m1) => Run(feed, getName, m1, b)
    decreases |b|
  {
    if b == [] {
      assert a + b == a;
    } else {
      var b0 := b[..|b| - 1];
      RunAppend(feed, getName, m, a, b0);
      assert (a + b)[..|a + b| - 1] == a + b0;
      assert (a + b)[|a + b| - 1] == b[|b| - 1];
    }
  }

  /** Every call of the three enumerators, for any list of engines, keeps
      Aurora single-AZ. */
  lemma EnumeratorsAuroraSafe(dbs: seq<Db>)
    ensures forall r | r in OnDemandForDbs(dbs) :: AuroraSafe(r)
    ensures forall r | r in Reserved2ForDbs(dbs) :: AuroraSafe(r)
    ensures forall r | r in LegacyForDbs(dbs) :: AuroraSafe(r)
  {
  }

  /** Every call `initialize` makes keeps Aurora single-AZ. */
  lemma AllRequestsAuroraSafe()
    ensures forall r | r in AllRequests() :: AuroraSafe(r)
  {
    EnumeratorsAuroraSafe(DbTypes);
  }

  /** A complete load never records a multi-AZ price for Aurora, although
      Aurora's on-demand and reserved feeds sit at multi-AZ-named URLs; and
      it never adds a region. */
  lemma LoadAuroraSingleAz(feed: Feed, getName: NameLookup, m: RegionMap)
    requires m.Valid() && CatalogAuroraSingleAz(m)
    ensures var o := Run(feed, getName, m, AllRequests());
      o.Loaded? ==> CatalogAuroraSingleAz(o.regions) && o.regions.keys == m.keys
  {
    AllRequestsAuroraSafe();
  }

  /** A single type with a single tier is walked as that one tier. */
  lemma OdSingleTier(r: Region, getName: NameLookup, req: Request, typeName: string, tier: Tier)
    requires r.Valid() && req.OnDemandFetch?
    ensures OdTypes(r, getName, req, [OdType(typeName, [tier])]) == OdTier(r, getName, req, typeName, tier)
  {
    assert [tier][..0] == [];
    assert OdTiers(r, getName, req, typeName, [tier]) == OdTier(r, getName, req, typeName, tier);
    assert [OdType(typeName, [tier])][..0] == [];
    assert OdTypes(r, getName, req, [OdType(typeName, [tier])]) == OdTiers(r, getName, req, typeName, [tier]);
  }

  /** A feed with a single region that `get_region` finds rewrites that
      region alone. */
  lemma OdSingleRegion(m: RegionMap, getName: NameLookup, req: Request, reg: OdRegion)
    requires m.Valid() && req.OnDemandFetch? && GetRegion(m, reg.region).Some?
    ensures OdRegions(m, getName, req, [reg]) ==
      Put(m, LookupKey(reg.region), OdTypes(GetRegion(m, reg.region).value, getName, req, reg.types))
  {
    assert [reg][..0] == [];
  }

  /** One on-demand feed with one region, one type and one tier that
      `get_name` resolves to an API name the region does not hold yet: the
      region, looked up by its AWS API name, afterwards holds a new instance
      type whose only update is that tier's on-demand price with the call's
      db_type and flags. */
  lemma OnDemandScenario(m: RegionMap, getName: NameLookup, req: Request, apiRegion: string,
                         typeName: string, tier: Tier, apiName: string, name: string)
    requires m.Valid() && req.OnDemandFetch?
    requires LookupKey(apiRegion) in m.table && apiName !in m.table[LookupKey(apiRegion)].instanceTypes
    requires getName(typeName, tier.tierName, false) == Named(apiName, name)
    ensures var doc := [OdRegion(LookupKey(apiRegion), [OdType(typeName, [tier])])];
      GetInstanceType(OdRegions(m, getName, req, doc), apiRegion, apiName) ==
        Found(Some(InstanceType(apiName, name, [Pricing(req.dbType, OnDemand, tier, req.isMultiAz, req.isByol)])))
  {
    var key := LookupKey(apiRegion);
    LookupKeyIdempotent(apiRegion);
    var region := m.table[key];
    var u := Pricing(req.dbType, OnDemand, tier, req.isMultiAz, req.isByol);
    OdSingleTier(region, getName, req, typeName, tier);
    OdSingleRegion(m, getName, req, OdRegion(key, [OdType(typeName, [tier])]));
    var region' := RecordPrice(region, apiName, name, u);
    assert region'.instanceTypes[apiName] == InstanceType(apiName, name, [u]);
  }

  /** The scenario with the names the feeds and the API use for US East:
      a MySQL single-AZ, license-included on-demand tier for `db.m1.small`
      in a feed region `us-east` is found through `us-east-1`. */
  lemma UsEastScenario(m: RegionMap, getName: NameLookup, url: string, typeName: string, tier: Tier, name: string)
    requires m.Valid() && "us-east" in m.table && "db.m1.small" !in m.table["us-east"].instanceTypes
    requires getName(typeName, tier.tierName, false) == Named("db.m1.small", name)
    ensures var req := OnDemandFetch(url, MySql, false, false);
      var doc := [OdRegion("us-east", [OdType(typeName, [tier])])];
      GetInstanceType(OdRegions(m, getName, req, doc), "us-east-1", "db.m1.small") ==
        Found(Some(InstanceType("db.m1.small", name, [Pricing(MySql, OnDemand, tier, false, false)])))
  {
    assert LookupKey("us-east-1") == "us-east";
    OnDemandScenario(m, getName, OnDemandFetch(url, MySql, false, false), "us-east-1", typeName, tier, "db.m1.small", name);
  }
}

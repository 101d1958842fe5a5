/** `AwsPricing::RdsPriceList`: the three feed walkers as loops that update
    the region table in place, the three enumerators as loops over the calls
    they make, and `initialize`, which runs the three in turn. Each loop keeps
    the table equal to the walk (in `RdsWalkers`) of what it has seen so far. */
module RdsPricing {
  import opened Options
  import opened RdsTables
  import opened Feeds
  import opened RdsInstanceTypes
  import opened AwsPricing
  import opened RdsRequests
  import opened RdsWalkers

  // ---------------------------------------------------------------------------
  // The inner loops of the walkers, on one region or one instance type
  // ---------------------------------------------------------------------------

  /** The type and tier loops of `fetch_on_demand_rds_instance_pricing`, for
      a region `get_region` found: each resolvable tier is recorded, a tier
      `get_name` rejects is skipped. */
  method WalkOnDemandTypes(region: Region, getName: NameLookup, req: Request, types: seq<OdType>)
    returns (r: Region)
    requires region.Valid() && req.OnDemandFetch?
    ensures r == OdTypes(region, getName, req, types)
  {
    r := region;
    var j := 0;
    while j < |types|
      invariant 0 <= j <= |types|
      invariant r == OdTypes(region, getName, req, types[..j])
    {
      var t := types[j];
      var start := r;
      var k := 0;
      while k < |t.tiers|
        invariant 0 <= k <= |t.tiers|
        invariant start.Valid()
        invariant r == OdTiers(start, getName, req, t.name, t.tiers[..k])
      {
        var tier := t.tiers[k];
        match getName(t.name, tier.tierName, false) {
          case UnknownType =>
            // rescue UnknownTypeError: warn and go on with the next tier
          case Named(apiName, name) =>
            var (r1, it) := AddOrUpdateRdsInstanceType(r, apiName, name);
            var it' := UpdatePricing(it, Pricing(req.dbType, OnDemand, tier, req.isMultiAz, req.isByol));
            r := StoreInstanceType(r1, it');
        }
        assert t.tiers[..k + 1][..k] == t.tiers[..k];
        k := k + 1;
      }
      assert t.tiers[..k] == t.tiers;
      assert types[..j + 1][..j] == types[..j];
      j := j + 1;
    }
    assert types[..j] == types;
  }

  /** One purchase option of `fetch_reserved_rds_instance_pricing2`: the
      option's prices are recorded once for each engine of the call. */
  method WalkReservedOption(it: InstanceType, req: Request, duration: string, option: PurchaseOption)
    returns (it': InstanceType)
    requires req.Reserved2Fetch?
    ensures it' == R2Dbs(it, req, duration, option, req.dbs)
  {
    var reservation := ReservationType(option.purchaseOption);
    var prices := option.valueColumns;
    it' := it;
    var d := 0;
    while d < |req.dbs|
      invariant 0 <= d <= |req.dbs|
      invariant it' == R2Dbs(it, req, duration, option, req.dbs[..d])
    {
      it' := UpdatePricing(it', PricingNew(req.dbs[d], reservation, prices, duration, req.isMultiAz, req.isByol));
      assert req.dbs[..d + 1][..d] == req.dbs[..d];
      d := d + 1;
    }
    assert req.dbs[..d] == req.dbs;
  }

  /** The term loop of `fetch_reserved_rds_instance_pricing2`, for an
      instance type the region already holds. */
  method WalkReservedTerms(it: InstanceType, req: Request, terms: seq<Term>) returns (it': InstanceType)
    requires req.Reserved2Fetch?
    ensures it' == R2Terms(it, req, terms)
  {
    it' := it;
    var j := 0;
    while j < |terms|
      invariant 0 <= j <= |terms|
      invariant it' == R2Terms(it, req, terms[..j])
    {
      assert terms[..j + 1][..j] == terms[..j] && terms[..j + 1][j] == terms[j];
      it' := WalkReservedOptions(it', req, terms[j].term, terms[j].purchaseOptions);
      j := j + 1;
    }
    assert terms[..j] == terms;
  }

  /** The purchase-option loop of `fetch_reserved_rds_instance_pricing2`,
      for one term. */
  method WalkReservedOptions(it: InstanceType, req: Request, duration: string, options: seq<PurchaseOption>)
    returns (it': InstanceType)
    requires req.Reserved2Fetch?
    ensures it' == R2Options(it, req, duration, options)
  {
    it' := it;
    var k := 0;
    while k < |options|
      invariant 0 <= k <= |options|
      invariant it' == R2Options(it, req, duration, options[..k])
    {
      assert options[..k + 1][..k] == options[..k] && options[..k + 1][k] == options[k];
      it' := WalkReservedOption(it', req, duration, options[k]);
      k := k + 1;
    }
    assert options[..k] == options;
  }

  /** The instance-type loop of `fetch_reserved_rds_instance_pricing2`, for
      a region `get_region` found:
      an instance type the region does not hold is skipped. */
  method WalkReservedTypes(region: Region, req: Request, types: seq<ReservedType>) returns (r: Region)
    requires region.Valid() && req.Reserved2Fetch?
    ensures r == R2Types(region, req, types)
  {
    r := region;
    var j := 0;
    while j < |types|
      invariant 0 <= j <= |types|
      invariant r == R2Types(region, req, types[..j])
    {
      var t := types[j];
      assert types[..j + 1][..j] == types[..j] && types[..j + 1][j] == t;
      var found := GetRdsInstanceType(r, t.typeName);
      if found.Some? {
        var it' := WalkReservedTerms(found.value, req, t.terms);
        r := StoreInstanceType(r, it');
      }
      // else: "new reserved instances not found", next type
      j := j + 1;
    }
    assert types[..j] == types;
  }

  /** The instance-type and tier loops of `fetch_reserved_rds_instance_pricing`,
      for a region `get_region` found. */
  method WalkLegacyTypes(region: Region, getName: NameLookup, req: Request, types: seq<LegacyType>)
    returns (r: Region)
    requires region.Valid() && req.LegacyFetch?
    ensures r == LgTypes(region, getName, req, types)
  {
    r := region;
    var j := 0;
    while j < |types|
      invariant 0 <= j <= |types|
      invariant r == LgTypes(region, getName, req, types[..j])
    {
      var t := types[j];
      var start := r;
      var k := 0;
      while k < |t.tiers|
        invariant 0 <= k <= |t.tiers|
        invariant start.Valid()
        invariant r == LgTiers(start, getName, req, t.typeName, t.tiers[..k])
      {
        var tier := t.tiers[k];
        var isMultiAz := IsMultiAz(t.typeName);
        match getName(t.typeName, tier.tierName, true) {
          case UnknownType =>
            // rescue UnknownTypeError: warn and go on with the next tier
          case Named(apiName, name) =>
            var (r1, it) := AddOrUpdateRdsInstanceType(r, apiName, name);
            var it' := UpdatePricing(it, Pricing(req.dbType, Utilization(req.resType), tier, isMultiAz, req.isByol));
            r := StoreInstanceType(r1, it');
        }
        assert t.tiers[..k + 1][..k] == t.tiers[..k];
        k := k + 1;
      }
      assert t.tiers[..k] == t.tiers;
      assert types[..j + 1][..j] == types[..j];
      j := j + 1;
    }
    assert types[..j] == types;
  }

  /** Once some tier resolves, every longer list of tiers has one that does. */
  lemma {:induction false} SomeTierResolvesExtends(getName: NameLookup, typeName: string, tiers: seq<Tier>, k: nat)
    requires k <= |tiers| && SomeTierResolves(getName, typeName, tiers[..k])
    ensures SomeTierResolves(getName, typeName, tiers)
    decreases |tiers| - k
  {
    if k < |tiers| {
      assert tiers[..k + 1][..k] == tiers[..k];
      SomeTierResolvesExtends(getName, typeName, tiers, k + 1);
    } else {
      assert tiers[..k] == tiers;
    }
  }

  /** Once the walk of a missing region fails, so does the walk of any longer
      list of instance types. */
  lemma {:induction false} NilRegionFailsExtends(getName: NameLookup, types: seq<LegacyType>, j: nat)
    requires j <= |types| && NilRegionFails(getName, types[..j])
    ensures NilRegionFails(getName, types)
    decreases |types| - j
  {
    if j < |types| {
      assert types[..j + 1][..j] == types[..j];
      NilRegionFailsExtends(getName, types, j + 1);
    } else {
      assert types[..j] == types;
    }
  }

  /** The same loops of `fetch_reserved_rds_instance_pricing` for a region
      `get_region` did not find: the first tier whose name resolves is added
      to nil, which raises. */
  method WalkNilRegion(getName: NameLookup, types: seq<LegacyType>) returns (fails: bool)
    ensures fails == NilRegionFails(getName, types)
  {
    fails := false;
    var j := 0;
    while j < |types| && !fails
      invariant 0 <= j <= |types|
      invariant fails == NilRegionFails(getName, types[..j])
    {
      var t := types[j];
      var k := 0;
      while k < |t.tiers| && !fails
        invariant 0 <= k <= |t.tiers|
        invariant fails == SomeTierResolves(getName, t.typeName, t.tiers[..k])
      {
        assert t.tiers[..k + 1][..k] == t.tiers[..k];
        if getName(t.typeName, t.tiers[k].tierName, true).Named? {
          fails := true;
        }
        k := k + 1;
      }
      if fails {
        SomeTierResolvesExtends(getName, t.typeName, t.tiers, k);
      } else {
        assert t.tiers[..k] == t.tiers;
      }
      assert types[..j + 1][..j] == types[..j];
      j := j + 1;
    }
    if fails {
      NilRegionFailsExtends(getName, types, j);
    } else {
      assert types[..j] == types;
    }
  }

  /** Once a legacy walk has failed, the regions after the failing one are
      never looked at. */
  lemma {:induction false} LgRegionsStop(m: RegionMap, getName: NameLookup, req: Request, regions: seq<LegacyRegion>, i: nat)
    requires m.Valid() && req.LegacyFetch? && i <= |regions|
    requires LgRegions(m, getName, req, regions[..i]).1.Some?
    ensures LgRegions(m, getName, req, regions) == LgRegions(m, getName, req, regions[..i])
    decreases |regions| - i
  {
    if i < |regions| {
      assert regions[..i + 1][..i] == regions[..i];
      LgRegionsStop(m, getName, req, regions, i + 1);
    } else {
      assert regions[..i] == regions;
    }
  }

  /** The error a run of calls raises, if any. */
  function ErrorOf(o: Outcome): Option<LoadError>
  {
    match o
    case Loaded(_) => None
    case Aborted(e) => Some(e)
  }

  /** One more call, after a prefix that raised nothing. */
  lemma RunStep(feed: Feed, getName: NameLookup, m: RegionMap, reqs: seq<Request>, i: nat)
    requires m.Valid() && i < |reqs| && Run(feed, getName, m, reqs[..i]).Loaded?
    ensures Run(feed, getName, m, reqs[..i + 1]) == Ingest(feed, getName, Run(feed, getName, m, reqs[..i]).regions, reqs[i])
  {
    assert reqs[..i + 1][..i] == reqs[..i] && reqs[..i + 1][i] == reqs[i];
  }

  /** Once a call has raised, the calls after it are never made. */
  lemma RunStop(feed: Feed, getName: NameLookup, m: RegionMap, reqs: seq<Request>, i: nat)
    requires m.Valid() && i <= |reqs| && Run(feed, getName, m, reqs[..i]).Aborted?
    ensures Run(feed, getName, m, reqs) == Run(feed, getName, m, reqs[..i])
  {
    assert reqs == reqs[..i] + reqs[i..];
    RunAppend(feed, getName, m, reqs[..i], reqs[i..]);
  }

  /** One more region of an on-demand document: a region the table lacks is
      skipped, a known one is replaced by its walked value. */
  lemma OdRegionsStep(m: RegionMap, getName: NameLookup, req: Request, regions: seq<OdRegion>, i: nat)
    requires m.Valid() && req.OnDemandFetch? && i < |regions|
    ensures var m0 := OdRegions(m, getName, req, regions[..i]);
      var next := OdRegions(m, getName, req, regions[..i + 1]);
      var found := GetRegion(m0, regions[i].region);
      && (found.None? ==> next == m0)
      && (found.Some? ==> next == Put(m0, LookupKey(regions[i].region), OdTypes(found.value, getName, req, regions[i].types)))
  {
    assert regions[..i + 1][..i] == regions[..i] && regions[..i + 1][i] == regions[i];
  }

  /** One more region of a reserved document: a region the table lacks is
      skipped, a known one is replaced by its walked value. */
  lemma R2RegionsStep(m: RegionMap, req: Request, regions: seq<ReservedRegion>, i: nat)
    requires m.Valid() && req.Reserved2Fetch? && i < |regions|
    ensures var m0 := R2Regions(m, req, regions[..i]);
      var next := R2Regions(m, req, regions[..i + 1]);
      var found := GetRegion(m0, regions[i].region);
      && (found.None? ==> next == m0)
      && (found.Some? ==> next == Put(m0, LookupKey(regions[i].region), R2Types(found.value, req, regions[i].instanceTypes)))
  {
    assert regions[..i + 1][..i] == regions[..i] && regions[..i + 1][i] == regions[i];
  }

  /** One more region of a legacy document, while nothing has failed: a
      known region is replaced by its walked value, a missing one fails when a
      tier resolves. */
  lemma LgRegionsStep(m: RegionMap, getName: NameLookup, req: Request, regions: seq<LegacyRegion>, i: nat)
    requires m.Valid() && req.LegacyFetch? && i < |regions|
    requires LgRegions(m, getName, req, regions[..i]).1.None?
    ensures var m0 := LgRegions(m, getName, req, regions[..i]).0;
      var next := LgRegions(m, getName, req, regions[..i + 1]);
      var found := GetRegion(m0, regions[i].region);
      && (found.None? ==> next.0 == m0 && (next.1.Some? <==> NilRegionFails(getName, regions[i].instanceTypes)))
      && (found.None? && next.1.Some? ==> next.1.value == regions[i].region)
      && (found.Some? ==> next.1.None?)
      && (found.Some? ==>
            next.0 == Put(m0, LookupKey(regions[i].region), LgTypes(found.value, getName, req, regions[i].instanceTypes)))
  {
    assert regions[..i + 1][..i] == regions[..i] && regions[..i + 1][i] == regions[i];
  }

  // ---------------------------------------------------------------------------
  // RdsPriceList
  // ---------------------------------------------------------------------------

  /** `RdsPriceList`, whose region table is the one of the `PriceList` it
      extends. */
  class RdsPriceList {
    const base: PriceList

    /** The region table is well formed. */
    predicate Valid()
      reads this, base
    {
      base.regionTable.Valid()
    }

    /** A price list over a given region table; loading is `Initialize`. */
    constructor (initial: RegionMap)
      requires initial.Valid()
      ensures fresh(base) && base.regionTable == initial && Valid()
    {
      base := new PriceList(initial);
    }

    /** `fetch_on_demand_rds_instance_pricing(url, :ondemand, db_type, is_byol, is_multi_az)`:
        on success the table is the on-demand walk of the feed; a fetch
        failure or a document of another shape raises before any change. */
    method FetchOnDemandRdsInstancePricing(feed: Feed, getName: NameLookup, url: string, dbType: Db,
                                           isByol: bool, isMultiAz: bool)
      returns (error: Option<LoadError>)
      requires Valid()
      modifies base
      ensures Valid()
      ensures var o := Ingest(feed, getName, old(base.regionTable), OnDemandFetch(url, dbType, isByol, isMultiAz));
        && (o.Loaded? ==> error.None? && base.regionTable == o.regions)
        && (o.Aborted? ==> error == Some(o.error) && base.regionTable == old(base.regionTable))
    {
      var req := OnDemandFetch(url, dbType, isByol, isMultiAz);
      var fetched := feed(url);
      if fetched.FetchFailed? {
        return Some(FetchFailure(url));
      }
      if !fetched.doc.OnDemandDocument? {
        return Some(MalformedFeed(url));
      }
      WalkOnDemandRegions(getName, req, fetched.doc.odRegions);
      return None;
    }

    /** The regions of an on-demand document, in order; a region the table
        lacks is skipped. */
    method WalkOnDemandRegions(getName: NameLookup, req: Request, regions: seq<OdRegion>)
      requires Valid() && req.OnDemandFetch?
      modifies base
      ensures base.regionTable == OdRegions(old(base.regionTable), getName, req, regions)
    {
      var i := 0;
      while i < |regions|
        invariant 0 <= i <= |regions|
        invariant base.regionTable == OdRegions(old(base.regionTable), getName, req, regions[..i])
      {
        var reg := regions[i];
        OdRegionsStep(old(base.regionTable), getName, req, regions, i);
        var found := GetRegion(base.regionTable, reg.region);
        if found.Some? {
          var region := WalkOnDemandTypes(found.value, getName, req, reg.types);
          base.regionTable := Put(base.regionTable, LookupKey(reg.region), region);
        }
        // else: "unable to find region", next region
        i := i + 1;
      }
      assert regions[..i] == regions;
    }

    /** `fetch_reserved_rds_instance_pricing2(url, dbs, is_multi_az, is_byol)`:
        on success the table is the term-based reserved walk of the feed. */
    method FetchReservedRdsInstancePricing2(feed: Feed, url: string, dbs: seq<Db>, isMultiAz: bool, isByol: bool)
      returns (error: Option<LoadError>)
      requires Valid()
      modifies base
      ensures Valid()
      ensures var o := Ingest(feed, (_, _, _) => UnknownType, old(base.regionTable), Reserved2Fetch(url, dbs, isMultiAz, isByol));
        && (o.Loaded? ==> error.None? && base.regionTable == o.regions)
        && (o.Aborted? ==> error == Some(o.error) && base.regionTable == old(base.regionTable))
    {
      var req := Reserved2Fetch(url, dbs, isMultiAz, isByol);
      var fetched := feed(url);
      if fetched.FetchFailed? {
        return Some(FetchFailure(url));
      }
      if !fetched.doc.ReservedDocument? {
        return Some(MalformedFeed(url));
      }
      WalkReservedRegions(req, fetched.doc.reservedRegions);
      return None;
    }

    /** The regions of a reserved document, in order; a region the table
        lacks is skipped. */
    method WalkReservedRegions(req: Request, regions: seq<ReservedRegion>)
      requires Valid() && req.Reserved2Fetch?
      modifies base
      ensures base.regionTable == R2Regions(old(base.regionTable), req, regions)
    {
      var i := 0;
      while i < |regions|
        invariant 0 <= i <= |regions|
        invariant base.regionTable == R2Regions(old(base.regionTable), req, regions[..i])
      {
        var reg := regions[i];
        R2RegionsStep(old(base.regionTable), req, regions, i);
        var found := GetRegion(base.regionTable, reg.region);
        if found.Some? {
          var region := WalkReservedTypes(found.value, req, reg.instanceTypes);
          base.regionTable := Put(base.regionTable, LookupKey(reg.region), region);
        }
        // else: "unable to find region", next region
        i := i + 1;
      }
      assert regions[..i] == regions;
    }

    /** `fetch_reserved_rds_instance_pricing(url, res_type, db_type, is_byol)`:
        on success the table is the legacy reserved walk of the feed. A missing
        region whose tiers resolve raises; the regions walked before it keep
        their updates. */
    method FetchReservedRdsInstancePricing(feed: Feed, getName: NameLookup, url: string, resType: ResType,
                                           dbType: Db, isByol: bool)
      returns (error: Option<LoadError>)
      requires Valid()
      modifies base
      ensures Valid()
      ensures var req := LegacyFetch(url, resType, dbType, isByol);
        var o := Ingest(feed, getName, old(base.regionTable), req);
        && (o.Loaded? ==> error.None? && base.regionTable == o.regions)
        && (o.Aborted? ==> error == Some(o.error))
        && (o.Aborted? && o.error.RegionMissing? ==>
              base.regionTable == LgRegions(old(base.regionTable), getName, req, feed(url).doc.legacyRegions).0)
        && (o.Aborted? && !o.error.RegionMissing? ==> base.regionTable == old(base.regionTable))
    {
      var req := LegacyFetch(url, resType, dbType, isByol);
      var fetched := feed(url);
      if fetched.FetchFailed? {
        return Some(FetchFailure(url));
      }
      if !fetched.doc.LegacyDocument? {
        return Some(MalformedFeed(url));
      }
      var failed := WalkLegacyRegions(getName, req, fetched.doc.legacyRegions);
      if failed.Some? {
        return Some(RegionMissing(url, failed.value));
      }
      return None;
    }

    /** The regions of a legacy document, in order, up to the first region the
        table lacks whose tiers `get_name` can resolve; its name is returned. */
    method WalkLegacyRegions(getName: NameLookup, req: Request, regions: seq<LegacyRegion>)
      returns (failed: Option<string>)
      requires Valid() && req.LegacyFetch?
      modifies base
      ensures base.regionTable == LgRegions(old(base.regionTable), getName, req, regions).0
      ensures failed == LgRegions(old(base.regionTable), getName, req, regions).1
    {
      ghost var m := base.regionTable;
      failed := None;
      var i := 0;
      assert regions[..i] == [];
      while i < |regions| && failed.None?
        invariant 0 <= i <= |regions|
        invariant base.regionTable == LgRegions(m, getName, req, regions[..i]).0
        invariant failed == LgRegions(m, getName, req, regions[..i]).1
      {
        LgRegionsStep(m, getName, req, regions, i);
        var fails := WalkLegacyRegion(getName, req, regions[i]);
        if fails {
          failed := Some(regions[i].region);
        }
        i := i + 1;
      }
      if failed.Some? {
        LgRegionsStop(m, getName, req, regions, i);
      } else {
        assert regions[..i] == regions;
      }
    }

    /** One region of a legacy document: a known region is walked in place;
        a missing one is reported when one of its tiers resolves. */
    method WalkLegacyRegion(getName: NameLookup, req: Request, reg: LegacyRegion) returns (fails: bool)
      requires Valid() && req.LegacyFetch?
      modifies base
      ensures Valid()
      ensures var found := GetRegion(old(base.regionTable), reg.region);
        && (found.None? ==> base.regionTable == old(base.regionTable) && fails == NilRegionFails(getName, reg.instanceTypes))
        && (found.Some? ==> !fails)
        && (found.Some? ==>
              base.regionTable == Put(old(base.regionTable), LookupKey(reg.region), LgTypes(found.value, getName, req, reg.instanceTypes)))
    {
      var found := GetRegion(base.regionTable, reg.region);
      if found.Some? {
        var region := WalkLegacyTypes(found.value, getName, req, reg.instanceTypes);
        PutExisting(base.regionTable, LookupKey(reg.region), region);
        base.regionTable := Put(base.regionTable, LookupKey(reg.region), region);
        fails := false;
      } else {
        fails := WalkNilRegion(getName, reg.instanceTypes);
      }
    }

    /** One call, by kind. */
    method Fetch(feed: Feed, getName: NameLookup, req: Request) returns (error: Option<LoadError>)
      requires Valid()
      modifies base
      ensures Valid()
      ensures var o := Ingest(feed, getName, old(base.regionTable), req);
        error == ErrorOf(o) && (o.Loaded? ==> base.regionTable == o.regions)
    {
      match req {
        case OnDemandFetch(url, dbType, isByol, isMultiAz) =>
          error := FetchOnDemandRdsInstancePricing(feed, getName, url, dbType, isByol, isMultiAz);
        case Reserved2Fetch(url, dbs, isMultiAz, isByol) =>
          error := FetchReservedRdsInstancePricing2(feed, url, dbs, isMultiAz, isByol);
        case LegacyFetch(url, resType, dbType, isByol) =>
          error := FetchReservedRdsInstancePricing(feed, getName, url, resType, dbType, isByol);
      }
    }

    /** The calls of one enumerator, in order, up to the first that raises. */
    method FetchAll(feed: Feed, getName: NameLookup, reqs: seq<Request>) returns (error: Option<LoadError>)
      requires Valid()
      modifies base
      ensures Valid()
      ensures var o := Run(feed, getName, old(base.regionTable), reqs);
        error == ErrorOf(o) && (o.Loaded? ==> base.regionTable == o.regions)
    {
      error := None;
      var i := 0;
      assert reqs[..i] == [];
      while i < |reqs| && error.None?
        invariant 0 <= i <= |reqs|
        invariant Valid()
        invariant error == ErrorOf(Run(feed, getName, old(base.regionTable), reqs[..i]))
        invariant error.None? ==> Run(feed, getName, old(base.regionTable), reqs[..i]) == Loaded(base.regionTable)
      {
        RunStep(feed, getName, old(base.regionTable), reqs, i);
        error := Fetch(feed, getName, reqs[i]);
        i := i + 1;
      }
      if error.Some? {
        RunStop(feed, getName, old(base.regionTable), reqs, i);
      } else {
        assert reqs[..i] == reqs;
      }
    }

    /** `get_rds_on_demand_instance_pricing` */
    method GetRdsOnDemandInstancePricing(feed: Feed, getName: NameLookup) returns (error: Option<LoadError>)
      requires Valid()
      modifies base
      ensures Valid()
      ensures var o := Run(feed, getName, old(base.regionTable), OnDemandRequests());
        error == ErrorOf(o) && (o.Loaded? ==> base.regionTable == o.regions)
    {
      error := FetchAll(feed, getName, OnDemandRequests());
    }

    /** `get_rds_reserved_instance_pricing2` */
    method GetRdsReservedInstancePricing2(feed: Feed, getName: NameLookup) returns (error: Option<LoadError>)
      requires Valid()
      modifies base
      ensures Valid()
      ensures var o := Run(feed, getName, old(base.regionTable), Reserved2Requests());
        error == ErrorOf(o) && (o.Loaded? ==> base.regionTable == o.regions)
    {
      error := FetchAll(feed, getName, Reserved2Requests());
    }

    /** `get_rds_reserved_instance_pricing` */
    method GetRdsReservedInstancePricing(feed: Feed, getName: NameLookup) returns (error: Option<LoadError>)
      requires Valid()
      modifies base
      ensures Valid()
      ensures var o := Run(feed, getName, old(base.regionTable), LegacyRequests());
        error == ErrorOf(o) && (o.Loaded? ==> base.regionTable == o.regions)
    {
      error := FetchAll(feed, getName, LegacyRequests());
    }

    /** `initialize`: the three enumerations in turn; the first error escapes.
        A complete load is the run of every call, adds no region, and records
        no multi-AZ price for Aurora if none was there before. */
    method Initialize(feed: Feed, getName: NameLookup) returns (error: Option<LoadError>)
      requires Valid()
      modifies base
      ensures Valid()
      ensures var o := Run(feed, getName, old(base.regionTable), AllRequests());
        error == ErrorOf(o) && (o.Loaded? ==> base.regionTable == o.regions)
      ensures error.None? ==> base.regionTable.keys == old(base.regionTable.keys)
      ensures error.None? && CatalogAuroraSingleAz(old(base.regionTable)) ==> CatalogAuroraSingleAz(base.regionTable)
    {
      ghost var m := base.regionTable;
      var od, r2, lg := OnDemandRequests(), Reserved2Requests(), LegacyRequests();
      RunAppend(feed, getName, m, od + r2, lg);
      RunAppend(feed, getName, m, od, r2);
      assert AllRequests() == od + r2 + lg;
      if CatalogAuroraSingleAz(m) {
        LoadAuroraSingleAz(feed, getName, m);
      }
      error := GetRdsOnDemandInstancePricing(feed, getName);
      if error.Some? {
        return;
      }
      error := GetRdsReservedInstancePricing2(feed, getName);
      if error.Some? {
        return;
      }
      error := GetRdsReservedInstancePricing(feed, getName);
    }
  }
}

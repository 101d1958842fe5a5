/** What the three feed walkers record. A walker only ever appends to an
    instance type's log, so nothing recorded earlier in a feed (or by an
    earlier feed) is lost; and every item of a feed whose region `get_region`
    finds, and whose instance type the walker resolves, ends up in that
    instance type's log with the call's arguments. */
module RdsRecords {
  import opened Options
  import opened RdsTables
  import opened Feeds
  import opened RdsInstanceTypes
  import opened AwsPricing
  import opened RdsRequests
  import opened RdsWalkers

  /** `r'` still has every instance type of `r`, and each one's log has only
      grown: the old log is a prefix of the new one. */
  ghost predicate LogsGrow(r: Region, r': Region)
  {
    forall a | a in r.instanceTypes ::
      a in r'.instanceTypes && r.instanceTypes[a].updates <= r'.instanceTypes[a].updates
  }

  /** The same, for every region of a table. */
  ghost predicate TableLogsGrow(m: RegionMap, m': RegionMap)
  {
    forall k | k in m.table :: k in m'.table && LogsGrow(m.table[k], m'.table[k])
  }

  /** Region `r` has an instance type `apiName` whose log holds `u`. */
  ghost predicate Recorded(r: Region, apiName: string, u: PriceUpdate)
  {
    apiName in r.instanceTypes && u in r.instanceTypes[apiName].updates
  }

  /** `part` occurs in `log` as one contiguous run. */
  ghost predicate Occurs(part: seq<PriceUpdate>, log: seq<PriceUpdate>)
  {
    exists i, j | 0 <= i <= j <= |log| :: log[i..j] == part
  }

  /** Region `r` has an instance type `apiName` whose log holds `part` as
      one contiguous run. */
  ghost predicate RecordedRun(r: Region, apiName: string, part: seq<PriceUpdate>)
  {
    apiName in r.instanceTypes && Occurs(part, r.instanceTypes[apiName].updates)
  }

  lemma LogsGrowTrans(r1: Region, r2: Region, r3: Region)
    requires LogsGrow(r1, r2) && LogsGrow(r2, r3)
    ensures LogsGrow(r1, r3)
  {
    forall a | a in r1.instanceTypes
      ensures a in r3.instanceTypes && r1.instanceTypes[a].updates <= r3.instanceTypes[a].updates
    {
      PrefixTrans(r1.instanceTypes[a].updates, r2.instanceTypes[a].updates, r3.instanceTypes[a].updates);
    }
  }

  lemma PrefixTrans(a: seq<PriceUpdate>, b: seq<PriceUpdate>, c: seq<PriceUpdate>)
    requires a <= b && b <= c
    ensures a <= c
  {
    assert b == c[..|b|];
    assert a == b[..|a|];
    assert c[..|b|][..|a|] == c[..|a|];
  }

  /** A record survives a walk that only grows the logs. */
  lemma RecordedKept(r: Region, r': Region, apiName: string, u: PriceUpdate)
    requires Recorded(r, apiName, u) && LogsGrow(r, r')
    ensures Recorded(r', apiName, u)
  {
    var s := r.instanceTypes[apiName].updates;
    var s' := r'.instanceTypes[apiName].updates;
    assert s == s'[..|s|];
    var i :| 0 <= i < |s| && s[i] == u;
    assert s'[i] == u;
  }

  /** A contiguous run survives a walk that only grows the logs. */
  lemma RecordedRunKept(r: Region, r': Region, apiName: string, part: seq<PriceUpdate>)
    requires RecordedRun(r, apiName, part) && LogsGrow(r, r')
    ensures RecordedRun(r', apiName, part)
  {
    var s := r.instanceTypes[apiName].updates;
    var s' := r'.instanceTypes[apiName].updates;
    var i, j :| 0 <= i <= j <= |s| && s[i..j] == part;
    assert s == s'[..|s|];
    assert s'[i..j] == part;
  }

  /** Writing back a walked region whose logs grew: the whole table's logs grew. */
  lemma PutGrows(m: RegionMap, key: string, r': Region)
    requires m.Valid() && key in m.table && r'.name == key && r'.Valid()
    requires LogsGrow(m.table[key], r')
    ensures TableLogsGrow(m, Put(m, key, r'))
  {
    PutWalked(m, key, r');
    forall k | k in m.table
      ensures LogsGrow(m.table[k], Put(m, key, r').table[k])
    {
      if k != key {
        LogsGrowRefl(m.table[k]);
      }
    }
  }

  lemma LogsGrowRefl(r: Region)
    ensures LogsGrow(r, r)
  {
  }

  lemma TableLogsGrowTrans(m1: RegionMap, m2: RegionMap, m3: RegionMap)
    requires TableLogsGrow(m1, m2) && TableLogsGrow(m2, m3)
    ensures TableLogsGrow(m1, m3)
  {
    forall k | k in m1.table
      ensures k in m3.table && LogsGrow(m1.table[k], m3.table[k])
    {
      LogsGrowTrans(m1.table[k], m2.table[k], m3.table[k]);
    }
  }

  // ---------------------------------------------------------------------------
  // fetch_on_demand_rds_instance_pricing
  // ---------------------------------------------------------------------------

  /** The on-demand price a tier is recorded as. */
  function OdUpdate(req: Request, tier: Tier): PriceUpdate
    requires req.OnDemandFetch?
  {
    Pricing(req.dbType, OnDemand, tier, req.isMultiAz, req.isByol)
  }

  /** One tier: the logs only grow, and a tier `get_name` resolves is in the
      log of the instance type it names. */
  lemma OdTierRecords(r: Region, getName: NameLookup, req: Request, typeName: string, tier: Tier)
    requires r.Valid() && req.OnDemandFetch?
    ensures LogsGrow(r, OdTier(r, getName, req, typeName, tier))
    ensures getName(typeName, tier.tierName, false).Named? ==>
      Recorded(OdTier(r, getName, req, typeName, tier), getName(typeName, tier.tierName, false).apiName, OdUpdate(req, tier))
  {
  }

  /** A type's tiers: the logs only grow, and every tier `get_name`
      resolves is in the log of the instance type it names. */
  lemma {:induction false} OdTiersRecords(r: Region, getName: NameLookup, req: Request, typeName: string, tiers: seq<Tier>)
    requires r.Valid() && req.OnDemandFetch?
    ensures LogsGrow(r, OdTiers(r, getName, req, typeName, tiers))
    ensures forall tier | tier in tiers && getName(typeName, tier.tierName, false).Named? ::
      Recorded(OdTiers(r, getName, req, typeName, tiers), getName(typeName, tier.tierName, false).apiName, OdUpdate(req, tier))
    decreases |tiers|
  {
    if tiers == [] {
      LogsGrowRefl(r);
    } else {
      var prefix := tiers[..|tiers| - 1];
      var last := tiers[|tiers| - 1];
      var r0 := OdTiers(r, getName, req, typeName, prefix);
      var r' := OdTier(r0, getName, req, typeName, last);
      OdTiersRecords(r, getName, req, typeName, prefix);
      OdTierRecords(r0, getName, req, typeName, last);
      LogsGrowTrans(r, r0, r');
      forall tier | tier in tiers && getName(typeName, tier.tierName, false).Named?
        ensures Recorded(r', getName(typeName, tier.tierName, false).apiName, OdUpdate(req, tier))
      {
        if tier != last {
          assert tier in prefix;
          RecordedKept(r0, r', getName(typeName, tier.tierName, false).apiName, OdUpdate(req, tier));
        }
      }
    }
  }

  /** A region's types: the logs only grow, and every tier `get_name`
      resolves, of every type, is in the log of the instance type it names. */
  lemma {:induction false} OdTypesRecords(r: Region, getName: NameLookup, req: Request, types: seq<OdType>)
    requires r.Valid() && req.OnDemandFetch?
    ensures LogsGrow(r, OdTypes(r, getName, req, types))
    ensures forall t, tier | t in types && tier in t.tiers && getName(t.name, tier.tierName, false).Named? ::
      Recorded(OdTypes(r, getName, req, types), getName(t.name, tier.tierName, false).apiName, OdUpdate(req, tier))
    decreases |types|
  {
    if types == [] {
      LogsGrowRefl(r);
    } else {
      var prefix := types[..|types| - 1];
      var last := types[|types| - 1];
      var r0 := OdTypes(r, getName, req, prefix);
      var r' := OdTiers(r0, getName, req, last.name, last.tiers);
      OdTypesRecords(r, getName, req, prefix);
      OdTiersRecords(r0, getName, req, last.name, last.tiers);
      LogsGrowTrans(r, r0, r');
      forall t, tier | t in types && tier in t.tiers && getName(t.name, tier.tierName, false).Named?
        ensures Recorded(r', getName(t.name, tier.tierName, false).apiName, OdUpdate(req, tier))
      {
        if t != last {
          assert t in prefix;
          RecordedKept(r0, r', getName(t.name, tier.tierName, false).apiName, OdUpdate(req, tier));
        }
      }
    }
  }

  /** An on-demand feed: every region's logs only grow, and every tier that
      `get_name` resolves, of every type of every region `get_region` finds,
      is in the log of the instance type it names in that region. */
  lemma {:induction false} OdRegionsRecords(m: RegionMap, getName: NameLookup, req: Request, regions: seq<OdRegion>)
    requires m.Valid() && req.OnDemandFetch?
    ensures TableLogsGrow(m, OdRegions(m, getName, req, regions))
    ensures forall reg, t, tier |
        && reg in regions && LookupKey(reg.region) in m.table
        && t in reg.types && tier in t.tiers && getName(t.name, tier.tierName, false).Named? ::
      Recorded(OdRegions(m, getName, req, regions).table[LookupKey(reg.region)],
        getName(t.name, tier.tierName, false).apiName, OdUpdate(req, tier))
    decreases |regions|
  {
    var m' := OdRegions(m, getName, req, regions);
    if regions == [] {
      forall k | k in m.table ensures LogsGrow(m.table[k], m'.table[k]) {
        LogsGrowRefl(m.table[k]);
      }
    } else {
      var prefix := regions[..|regions| - 1];
      var last := regions[|regions| - 1];
      var m0 := OdRegions(m, getName, req, prefix);
      OdRegionsRecords(m, getName, req, prefix);
      var key := LookupKey(last.region);
      if key in m0.table {
        var region := m0.table[key];
        var region' := OdTypes(region, getName, req, last.types);
        assert m' == Put(m0, key, region');
        OdTypesRecords(region, getName, req, last.types);
        PutGrows(m0, key, region');
        TableLogsGrowTrans(m, m0, m');
        forall reg, t, tier |
            && reg in regions && LookupKey(reg.region) in m.table
            && t in reg.types && tier in t.tiers && getName(t.name, tier.tierName, false).Named?
          ensures Recorded(m'.table[LookupKey(reg.region)], getName(t.name, tier.tierName, false).apiName, OdUpdate(req, tier))
        {
          var a := getName(t.name, tier.tierName, false).apiName;
          if reg != last {
            assert reg in prefix;
            RecordedKept(m0.table[LookupKey(reg.region)], m'.table[LookupKey(reg.region)], a, OdUpdate(req, tier));
          }
        }
      } else {
        assert m' == m0;
      }
    }
  }

  // ---------------------------------------------------------------------------
  // fetch_reserved_rds_instance_pricing2
  // ---------------------------------------------------------------------------

  /** A contiguous run of a log is still one after the log grows. */
  lemma OccursKept(part: seq<PriceUpdate>, log: seq<PriceUpdate>, log': seq<PriceUpdate>)
    requires Occurs(part, log) && log <= log'
    ensures Occurs(part, log')
  {
    var i, j :| 0 <= i <= j <= |log| && log[i..j] == part;
    assert log == log'[..|log|];
    assert log'[i..j] == part;
  }

  /** Appending a run to a log extends the log and makes the run occur in it. */
  lemma AppendRun(log: seq<PriceUpdate>, part: seq<PriceUpdate>)
    ensures log <= log + part
    ensures Occurs(part, log + part)
  {
    assert (log + part)[..|log|] == log;
    assert (log + part)[|log|..|log + part|] == part;
  }

  /** The purchase options of one term: the log only grows, and each
      option's fan-out, one update per engine that shares the key's pricing,
      is a contiguous run of it. */
  lemma {:induction false} R2OptionsRecords(it: InstanceType, req: Request, duration: string, options: seq<PurchaseOption>)
    requires req.Reserved2Fetch?
    ensures it.updates <= R2Options(it, req, duration, options).updates
    ensures forall option | option in options ::
      Occurs(FanOut(req, duration, option, req.dbs), R2Options(it, req, duration, options).updates)
    decreases |options|
  {
    if options != [] {
      var prefix := options[..|options| - 1];
      var last := options[|options| - 1];
      var it0 := R2Options(it, req, duration, prefix);
      var log := R2Options(it, req, duration, options).updates;
      R2OptionsRecords(it, req, duration, prefix);
      assert log == it0.updates + FanOut(req, duration, last, req.dbs);
      AppendRun(it0.updates, FanOut(req, duration, last, req.dbs));
      PrefixTrans(it.updates, it0.updates, log);
      forall option | option in options
        ensures Occurs(FanOut(req, duration, option, req.dbs), log)
      {
        if option != last {
          assert option in prefix;
          OccursKept(FanOut(req, duration, option, req.dbs), it0.updates, log);
        }
      }
    }
  }

  /** The terms of one instance type: the log only grows, and every
      purchase option of every term has its fan-out as a contiguous run. */
  lemma {:induction false} R2TermsRecords(it: InstanceType, req: Request, terms: seq<Term>)
    requires req.Reserved2Fetch?
    ensures it.updates <= R2Terms(it, req, terms).updates
    ensures forall tm, option | tm in terms && option in tm.purchaseOptions ::
      Occurs(FanOut(req, tm.term, option, req.dbs), R2Terms(it, req, terms).updates)
    decreases |terms|
  {
    if terms != [] {
      var prefix := terms[..|terms| - 1];
      var last := terms[|terms| - 1];
      var it0 := R2Terms(it, req, prefix);
      var log := R2Terms(it, req, terms).updates;
      R2TermsRecords(it, req, prefix);
      R2OptionsRecords(it0, req, last.term, last.purchaseOptions);
      PrefixTrans(it.updates, it0.updates, log);
      forall tm, option | tm in terms && option in tm.purchaseOptions
        ensures Occurs(FanOut(req, tm.term, option, req.dbs), log)
      {
        if tm != last {
          assert tm in prefix;
          OccursKept(FanOut(req, tm.term, option, req.dbs), it0.updates, log);
        }
      }
    }
  }

  /** One instance type the region holds: its terms are walked and the
      result stored back; the logs only grow, and every purchase option of
      every term has its fan-out as a contiguous run of the type's log. */
  lemma R2TypeRecords(r: Region, req: Request, t: ReservedType)
    requires r.Valid() && req.Reserved2Fetch? && t.typeName in r.instanceTypes
    ensures var r' := StoreInstanceType(r, R2Terms(r.instanceTypes[t.typeName], req, t.terms));
      && LogsGrow(r, r')
      && forall tm, option | tm in t.terms && option in tm.purchaseOptions ::
        RecordedRun(r', t.typeName, FanOut(req, tm.term, option, req.dbs))
  {
    var it := r.instanceTypes[t.typeName];
    R2TermsRecords(it, req, t.terms);
  }

  /** The instance types of one region: the logs only grow, and every
      purchase option of every type the region already holds has its
      fan-out as a contiguous run of that type's log. */
  lemma {:induction false} R2TypesRecords(r: Region, req: Request, types: seq<ReservedType>)
    requires r.Valid() && req.Reserved2Fetch?
    ensures LogsGrow(r, R2Types(r, req, types))
    ensures forall t, tm, option |
        && t in types && t.typeName in r.instanceTypes
        && tm in t.terms && option in tm.purchaseOptions ::
      RecordedRun(R2Types(r, req, types), t.typeName, FanOut(req, tm.term, option, req.dbs))
    decreases |types|
  {
    if types == [] {
      LogsGrowRefl(r);
    } else {
      var prefix := types[..|types| - 1];
      var last := types[|types| - 1];
      var r0 := R2Types(r, req, prefix);
      var r' := R2Types(r, req, types);
      R2TypesRecords(r, req, prefix);
      if last.typeName in r0.instanceTypes {
        assert r' == StoreInstanceType(r0, R2Terms(r0.instanceTypes[last.typeName], req, last.terms));
        R2TypeRecords(r0, req, last);
        LogsGrowTrans(r, r0, r');
        forall t, tm, option |
            && t in types && t.typeName in r.instanceTypes
            && tm in t.terms && option in tm.purchaseOptions
          ensures RecordedRun(r', t.typeName, FanOut(req, tm.term, option, req.dbs))
        {
          if t != last {
            assert t in prefix;
            RecordedRunKept(r0, r', t.typeName, FanOut(req, tm.term, option, req.dbs));
          }
        }
      } else {
        assert r' == r0;
      }
    }
  }

  /** A term-based reserved feed: every region's logs only grow, and every
      purchase option, of every term of every instance type that a region
      `get_region` finds already holds, has its fan-out as a contiguous run
      of that instance type's log. */
  lemma {:induction false} R2RegionsRecords(m: RegionMap, req: Request, regions: seq<ReservedRegion>)
    requires m.Valid() && req.Reserved2Fetch?
    ensures TableLogsGrow(m, R2Regions(m, req, regions))
    ensures forall reg, t, tm, option |
        && reg in regions && LookupKey(reg.region) in m.table
        && t in reg.instanceTypes && t.typeName in m.table[LookupKey(reg.region)].instanceTypes
        && tm in t.terms && option in tm.purchaseOptions ::
      RecordedRun(R2Regions(m, req, regions).table[LookupKey(reg.region)], t.typeName,
        FanOut(req, tm.term, option, req.dbs))
    decreases |regions|
  {
    var m' := R2Regions(m, req, regions);
    if regions == [] {
      forall k | k in m.table ensures LogsGrow(m.table[k], m'.table[k]) {
        LogsGrowRefl(m.table[k]);
      }
    } else {
      var prefix := regions[..|regions| - 1];
      var last := regions[|regions| - 1];
      var m0 := R2Regions(m, req, prefix);
      R2RegionsRecords(m, req, prefix);
      var key := LookupKey(last.region);
      if key in m0.table {
        var region := m0.table[key];
        var region' := R2Types(region, req, last.instanceTypes);
        assert m' == Put(m0, key, region');
        R2TypesRecords(region, req, last.instanceTypes);
        PutGrows(m0, key, region');
        TableLogsGrowTrans(m, m0, m');
        forall reg, t, tm, option |
            && reg in regions && LookupKey(reg.region) in m.table
            && t in reg.instanceTypes && t.typeName in m.table[LookupKey(reg.region)].instanceTypes
            && tm in t.terms && option in tm.purchaseOptions
          ensures RecordedRun(m'.table[LookupKey(reg.region)], t.typeName, FanOut(req, tm.term, option, req.dbs))
        {
          var part := FanOut(req, tm.term, option, req.dbs);
          if reg != last {
            assert reg in prefix;
            RecordedRunKept(m0.table[LookupKey(reg.region)], m'.table[LookupKey(reg.region)], t.typeName, part);
          } else {
            assert t.typeName in region.instanceTypes;
          }
        }
      } else {
        assert m' == m0;
      }
    }
  }

  // ---------------------------------------------------------------------------
  // fetch_reserved_rds_instance_pricing
  // ---------------------------------------------------------------------------

  /** The price a legacy tier is recorded as: at the call's utilization
      level, multi-AZ exactly when the type's label says so. */
  function LgUpdate(req: Request, typeName: string, tier: Tier): PriceUpdate
    requires req.LegacyFetch?
  {
    Pricing(req.dbType, Utilization(req.resType), tier, IsMultiAz(typeName), req.isByol)
  }

  /** One legacy tier: the logs only grow, and a tier `get_name` resolves is
      in the log of the instance type it names. */
  lemma LgTierRecords(r: Region, getName: NameLookup, req: Request, typeName: string, tier: Tier)
    requires r.Valid() && req.LegacyFetch?
    ensures LogsGrow(r, LgTier(r, getName, req, typeName, tier))
    ensures getName(typeName, tier.tierName, true).Named? ==>
      Recorded(LgTier(r, getName, req, typeName, tier), getName(typeName, tier.tierName, true).apiName,
        LgUpdate(req, typeName, tier))
  {
  }

  /** A legacy type's tiers: the logs only grow, and every tier `get_name`
      resolves is in the log of the instance type it names. */
  lemma {:induction false} LgTiersRecords(r: Region, getName: NameLookup, req: Request, typeName: string, tiers: seq<Tier>)
    requires r.Valid() && req.LegacyFetch?
    ensures LogsGrow(r, LgTiers(r, getName, req, typeName, tiers))
    ensures forall tier | tier in tiers && getName(typeName, tier.tierName, true).Named? ::
      Recorded(LgTiers(r, getName, req, typeName, tiers), getName(typeName, tier.tierName, true).apiName,
        LgUpdate(req, typeName, tier))
    decreases |tiers|
  {
    if tiers == [] {
      LogsGrowRefl(r);
    } else {
      var prefix := tiers[..|tiers| - 1];
      var last := tiers[|tiers| - 1];
      var r0 := LgTiers(r, getName, req, typeName, prefix);
      var r' := LgTier(r0, getName, req, typeName, last);
      LgTiersRecords(r, getName, req, typeName, prefix);
      LgTierRecords(r0, getName, req, typeName, last);
      LogsGrowTrans(r, r0, r');
      forall tier | tier in tiers && getName(typeName, tier.tierName, true).Named?
        ensures Recorded(r', getName(typeName, tier.tierName, true).apiName, LgUpdate(req, typeName, tier))
      {
        if tier != last {
          assert tier in prefix;
          RecordedKept(r0, r', getName(typeName, tier.tierName, true).apiName, LgUpdate(req, typeName, tier));
        }
      }
    }
  }

  /** A region's legacy types: the logs only grow, and every tier `get_name`
      resolves, of every type, is in the log of the instance type it names. */
  lemma {:induction false} LgTypesRecords(r: Region, getName: NameLookup, req: Request, types: seq<LegacyType>)
    requires r.Valid() && req.LegacyFetch?
    ensures LogsGrow(r, LgTypes(r, getName, req, types))
    ensures forall t, tier | t in types && tier in t.tiers && getName(t.typeName, tier.tierName, true).Named? ::
      Recorded(LgTypes(r, getName, req, types), getName(t.typeName, tier.tierName, true).apiName,
        LgUpdate(req, t.typeName, tier))
    decreases |types|
  {
    if types == [] {
      LogsGrowRefl(r);
    } else {
      var prefix := types[..|types| - 1];
      var last := types[|types| - 1];
      var r0 := LgTypes(r, getName, req, prefix);
      var r' := LgTiers(r0, getName, req, last.typeName, last.tiers);
      LgTypesRecords(r, getName, req, prefix);
      LgTiersRecords(r0, getName, req, last.typeName, last.tiers);
      LogsGrowTrans(r, r0, r');
      forall t, tier | t in types && tier in t.tiers && getName(t.typeName, tier.tierName, true).Named?
        ensures Recorded(r', getName(t.typeName, tier.tierName, true).apiName, LgUpdate(req, t.typeName, tier))
      {
        if t != last {
          assert t in prefix;
          RecordedKept(r0, r', getName(t.typeName, tier.tierName, true).apiName, LgUpdate(req, t.typeName, tier));
        }
      }
    }
  }

  /** A legacy reserved feed: every region's logs only grow, even when the
      walk stops at a missing region; and when it does not stop, every tier
      that `get_name` resolves, of every type of every region `get_region`
      finds, is in the log of the instance type it names in that region. */
  lemma {:induction false} LgRegionsRecords(m: RegionMap, getName: NameLookup, req: Request, regions: seq<LegacyRegion>)
    requires m.Valid() && req.LegacyFetch?
    ensures TableLogsGrow(m, LgRegions(m, getName, req, regions).0)
    ensures LgRegions(m, getName, req, regions).1.None? ==>
      forall reg, t, tier |
          && reg in regions && LookupKey(reg.region) in m.table
          && t in reg.instanceTypes && tier in t.tiers && getName(t.typeName, tier.tierName, true).Named? ::
        Recorded(LgRegions(m, getName, req, regions).0.table[LookupKey(reg.region)],
          getName(t.typeName, tier.tierName, true).apiName, LgUpdate(req, t.typeName, tier))
    decreases |regions|
  {
    var res := LgRegions(m, getName, req, regions);
    var m' := res.0;
    if regions == [] {
      forall k | k in m.table ensures LogsGrow(m.table[k], m'.table[k]) {
        LogsGrowRefl(m.table[k]);
      }
    } else {
      var prefix := regions[..|regions| - 1];
      var last := regions[|regions| - 1];
      var (m0, failed) := LgRegions(m, getName, req, prefix);
      LgRegionsRecords(m, getName, req, prefix);
      var key := LookupKey(last.region);
      if failed.Some? {
        assert res == (m0, failed);
      } else if key in m0.table {
        var region := m0.table[key];
        var region' := LgTypes(region, getName, req, last.instanceTypes);
        assert res == (Put(m0, key, region'), None);
        LgTypesRecords(region, getName, req, last.instanceTypes);
        PutGrows(m0, key, region');
        TableLogsGrowTrans(m, m0, m');
        forall reg, t, tier |
            && reg in regions && LookupKey(reg.region) in m.table
            && t in reg.instanceTypes && tier in t.tiers && getName(t.typeName, tier.tierName, true).Named?
          ensures Recorded(m'.table[LookupKey(reg.region)], getName(t.typeName, tier.tierName, true).apiName,
            LgUpdate(req, t.typeName, tier))
        {
          var a := getName(t.typeName, tier.tierName, true).apiName;
          if reg != last {
            assert reg in prefix;
            RecordedKept(m0.table[LookupKey(reg.region)], m'.table[LookupKey(reg.region)], a, LgUpdate(req, t.typeName, tier));
          }
        }
      } else {
        assert m' == m0;
      }
    }
  }
}

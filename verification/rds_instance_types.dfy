/** The collaborators the walkers call on: `RdsInstanceType.get_name`, the
    region's RDS instance-type table and an instance type's price updates.
    Their bodies are not part of this model; the name lookup is a parameter,
    and an instance type's pricing is the log of the updates it was given,
    in order. */
module RdsInstanceTypes {
  import opened Options
  import opened RdsTables
  import opened Feeds

  /** The outcome of `RdsInstanceType.get_name(type, tier, reserved)`:
      `[api_name, name]`, or the `UnknownTypeError` it raises. */
  datatype NameResult = Named(apiName: string, name: string) | UnknownType

  /** `RdsInstanceType.get_name`, as a function of its three arguments. */
  type NameLookup = (string, string, bool) -> NameResult

  /** `type_of_rds_instance`: `:ondemand` or a legacy utilization level. */
  datatype InstanceKind = OnDemand | Utilization(resType: ResType)

  /** `reservation_type` of a term-based reserved option; `NoReservation`
      stands for the nil an unrecognised `purchaseOption` leaves. */
  datatype Reservation = NoUpfront | AllUpfront | PartialUpfront | NoReservation

  /** One call of `update_pricing` or `update_pricing_new`, with its arguments. */
  datatype PriceUpdate =
    | Pricing(dbType: Db, kind: InstanceKind, tier: Tier, isMultiAz: bool, isByol: bool)
    | PricingNew(db: Db, reservation: Reservation, prices: Fields, duration: string, isMultiAz: bool, isByol: bool)

  /** An RDS instance type: its identity and the updates it has received. */
  datatype InstanceType = InstanceType(apiName: string, name: string, updates: seq<PriceUpdate>)

  /** A region and its RDS instance types, keyed by API name. */
  datatype Region = Region(name: string, instanceTypes: map<string, InstanceType>)
  {
    /** Every instance type sits under its own API name. */
    predicate Valid()
    {
      forall a | a in instanceTypes :: instanceTypes[a].apiName == a
    }
  }

  /** `Region.new(name)`: a region with no instance types yet. */
  function NewRegion(name: string): (r: Region)
    ensures r.name == name && r.instanceTypes == map[] && r.Valid()
  {
    Region(name, map[])
  }

  /** `region.get_rds_instance_type(api_name)`: nil when absent. */
  function GetRdsInstanceType(r: Region, apiName: string): (it: Option<InstanceType>)
    ensures it.Some? <==> apiName in r.instanceTypes
    ensures it.Some? ==> it.value == r.instanceTypes[apiName]
    ensures r.Valid() && it.Some? ==> it.value.apiName == apiName
  {
    if apiName in r.instanceTypes then Some(r.instanceTypes[apiName]) else None
  }

  /** `region.add_or_update_rds_instance_type(api_name, name)`: the entry
      already under `apiName` is returned unchanged (whatever `name` says);
      otherwise a new entry with no updates is added and returned. */
  function AddOrUpdateRdsInstanceType(r: Region, apiName: string, name: string): (res: (Region, InstanceType))
    ensures res.0.name == r.name
    ensures res.0.instanceTypes == r.instanceTypes[apiName := res.1]
    ensures apiName in r.instanceTypes ==> res == (r, r.instanceTypes[apiName])
    ensures apiName !in r.instanceTypes ==> res.1 == InstanceType(apiName, name, [])
    ensures r.Valid() ==> res.0.Valid() && res.1.apiName == apiName
  {
    if apiName in r.instanceTypes then
      assert r.instanceTypes[apiName := r.instanceTypes[apiName]] == r.instanceTypes;
      (r, r.instanceTypes[apiName])
    else
      var it := InstanceType(apiName, name, []);
      (r.(instanceTypes := r.instanceTypes[apiName := it]), it)
  }

  /** `instance_type.update_pricing(...)` / `update_pricing_new(...)`: the
      update joins the end of the log; the identity is unchanged. */
  function UpdatePricing(it: InstanceType, u: PriceUpdate): (it': InstanceType)
    ensures it'.apiName == it.apiName && it'.name == it.name
    ensures |it'.updates| == |it.updates| + 1
    ensures it'.updates[..|it.updates|] == it.updates && it'.updates[|it.updates|] == u
  {
    it.(updates := it.updates + [u])
  }

  /** The instance type object is shared with the region: storing it back
      under its API name makes an update to it visible through the region. */
  function StoreInstanceType(r: Region, it: InstanceType): (r': Region)
    ensures r'.name == r.name
    ensures r'.instanceTypes.Keys == r.instanceTypes.Keys + {it.apiName}
    ensures r'.instanceTypes[it.apiName] == it
    ensures forall a | a in r.instanceTypes && a != it.apiName :: r'.instanceTypes[a] == r.instanceTypes[a]
    ensures r.Valid() ==> r'.Valid()
  {
    r.(instanceTypes := r.instanceTypes[it.apiName := it])
  }

  /** The add-or-update-then-update-pricing step of the two tier walkers: the
      region afterwards has an entry for `apiName` whose log is the old log
      (empty for a new entry) with `u` appended; nothing else changes. */
  function RecordPrice(r: Region, apiName: string, name: string, u: PriceUpdate): (r': Region)
    requires r.Valid()
    ensures r'.Valid() && r'.name == r.name
    ensures r'.instanceTypes.Keys == r.instanceTypes.Keys + {apiName}
    ensures r'.instanceTypes[apiName].updates ==
      (if apiName in r.instanceTypes then r.instanceTypes[apiName].updates else []) + [u]
    ensures apiName !in r.instanceTypes ==> r'.instanceTypes[apiName].name == name
    ensures forall a | a in r.instanceTypes && a != apiName :: r'.instanceTypes[a] == r.instanceTypes[a]
  {
    var (r1, it) := AddOrUpdateRdsInstanceType(r, apiName, name);
    StoreInstanceType(r1, UpdatePricing(it, u))
  }
}

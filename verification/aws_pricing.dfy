/** `AwsPricing::PriceList`: the table of regions every price list keeps,
    looked up through the alias table `@@Region_Lookup`. The table is a Ruby
    Hash, so it remembers the order in which keys were first stored. */
module AwsPricing {
  import opened Options
  import opened RdsInstanceTypes

  /** `@@Region_Lookup`: AWS API region names to the names the feeds use. */
  const RegionLookup: map<string, string> :=
    map[
      "us-east-1" := "us-east",
      "us-west-1" := "us-west",
      "us-west-2" := "us-west-2",
      "eu-west-1" := "eu-ireland",
      "ap-southeast-1" := "apac-sin",
      "ap-southeast-2" := "apac-syd",
      "ap-northeast-1" := "apac-tokyo",
      "sa-east-1" := "sa-east-1"
    ]

  /** `@@Region_Lookup[name] || name`: the key `get_region` looks under. */
  function LookupKey(name: string): string
  {
    if name in RegionLookup then RegionLookup[name] else name
  }

  /** A feed-side name is its own key: no value of the alias table is itself
      aliased elsewhere, so resolving twice is resolving once. */
  lemma LookupKeyIdempotent(name: string)
    ensures LookupKey(LookupKey(name)) == LookupKey(name)
  {
    var vs := RegionLookup.Values;
    assert forall v | v in vs :: v !in RegionLookup || RegionLookup[v] == v;
  }

  /** `@_regions`: keys in first-insertion order, and the table itself. */
  datatype RegionMap = RegionMap(keys: seq<string>, table: map<string, Region>)
  {
    /** The order lists each key of the table once, and every region sits
        under its own name with a well-formed instance-type table. */
    predicate Valid()
    {
      && (forall i, j | 0 <= i < j < |keys| :: keys[i] != keys[j])
      && (forall k | k in table :: k in keys)
      && (forall i | 0 <= i < |keys| :: keys[i] in table)
      && (forall k | k in table :: table[k].name == k && table[k].Valid())
    }
  }

  /** `@_regions[k] = v`: a new key goes last, an existing key keeps its place. */
  function Put(m: RegionMap, k: string, v: Region): RegionMap
  {
    RegionMap(if k in m.keys then m.keys else m.keys + [k], m.table[k := v])
  }

  /** Storing a region under its own name keeps the table well formed, and
      every key already present keeps its position. */
  lemma PutValid(m: RegionMap, v: Region)
    requires m.Valid() && v.Valid()
    ensures Put(m, v.name, v).Valid()
    ensures |m.keys| <= |Put(m, v.name, v).keys|
    ensures Put(m, v.name, v).keys[..|m.keys|] == m.keys
    ensures Put(m, v.name, v).table.Keys == m.table.Keys + {v.name}
  {
    var m' := Put(m, v.name, v);
    if v.name !in m.keys {
      PutNewKeyDistinct(m, v);
      assert m'.keys[..|m.keys|] == m.keys;
      assert forall i | 0 <= i < |m'.keys| :: m'.keys[i] in m'.table by {
        forall i | 0 <= i < |m'.keys|
          ensures m'.keys[i] in m'.table
        {
          if i < |m.keys| {
            assert m'.keys[i] == m.keys[i];
          }
        }
      }
    } else {
      assert m'.keys == m.keys;
    }
    assert forall k | k in m'.table :: k in m'.keys;
    assert forall k | k in m'.table :: m'.table[k].name == k && m'.table[k].Valid();
  }

  /** A key stored for the first time goes after every key already listed,
      so the listed keys stay distinct. */
  lemma PutNewKeyDistinct(m: RegionMap, v: Region)
    requires m.Valid() && v.name !in m.keys
    ensures Put(m, v.name, v).keys == m.keys + [v.name]
    ensures forall i, j | 0 <= i < j < |m.keys| + 1 :: Put(m, v.name, v).keys[i] != Put(m, v.name, v).keys[j]
  {
    var ks := m.keys + [v.name];
    forall i, j | 0 <= i < j < |ks|
      ensures ks[i] != ks[j]
    {
      if j == |m.keys| {
        assert ks[i] == m.keys[i] && m.keys[i] in m.keys;
      } else {
        assert ks[i] == m.keys[i] && ks[j] == m.keys[j];
      }
    }
  }

  /** Replacing the region under an existing key leaves the key order alone. */
  lemma PutExisting(m: RegionMap, k: string, v: Region)
    requires m.Valid() && k in m.table && v.name == k && v.Valid()
    ensures Put(m, k, v).Valid()
    ensures Put(m, k, v).keys == m.keys && Put(m, k, v).table.Keys == m.table.Keys
  {
  }

  /** `get_region(name)`: nil, not an error, when nothing is stored there. */
  function GetRegion(m: RegionMap, name: string): (r: Option<Region>)
    ensures r.Some? <==> LookupKey(name) in m.table
    ensures r.Some? ==> r.value == m.table[LookupKey(name)]
  {
    var key := LookupKey(name);
    if key in m.table then Some(m.table[key]) else None
  }

  /** An API region name and the feed name it stands for find the same region. */
  lemma GetRegionAlias(m: RegionMap, name: string)
    ensures GetRegion(m, name) == GetRegion(m, LookupKey(name))
  {
    LookupKeyIdempotent(name);
  }

  /** The region found under a name is the one named by its lookup key. */
  lemma GetRegionName(m: RegionMap, name: string)
    requires m.Valid() && GetRegion(m, name).Some?
    ensures GetRegion(m, name).value.name == LookupKey(name)
  {
  }

  /** `regions`: the stored regions, in key order. */
  function Regions(m: RegionMap): (rs: seq<Region>)
    requires m.Valid()
    ensures |rs| == |m.keys|
    ensures forall i | 0 <= i < |rs| :: rs[i] == m.table[m.keys[i]]
  {
    seq(|m.keys|, i requires 0 <= i < |m.keys| => m.table[m.keys[i]])
  }

  /** `regions` holds exactly the values of the table, each once. */
  lemma RegionsAreValues(m: RegionMap)
    requires m.Valid()
    ensures forall r :: r in Regions(m) <==> r in m.table.Values
    ensures forall i, j | 0 <= i < j < |Regions(m)| :: Regions(m)[i] != Regions(m)[j]
  {
    var rs := Regions(m);
    forall r | r in m.table.Values
      ensures r in rs
    {
      var k :| k in m.table && m.table[k] == r;
      var i :| 0 <= i < |m.keys| && m.keys[i] == k;
      assert rs[i] == r;
    }
    forall i, j | 0 <= i < j < |rs|
      ensures rs[i] != rs[j]
    {
      assert rs[i].name == m.keys[i] && rs[j].name == m.keys[j];
    }
  }

  /** The outcome of `get_instance_type(region_name, api_name)`. */
  datatype InstanceTypeLookup =
    | Found(instanceType: Option<InstanceType>)
    | RegionNotFound(regionName: string)

  /** `get_instance_type`: the "Region ... not found" error exactly when
      `get_region` is nil; otherwise the region's answer, which may be nil. */
  function GetInstanceType(m: RegionMap, regionName: string, apiName: string): (res: InstanceTypeLookup)
    ensures res.RegionNotFound? <==> GetRegion(m, regionName).None?
    ensures res.RegionNotFound? ==> res.regionName == regionName
    ensures res.Found? ==>
      && (res.instanceType.Some? <==> apiName in m.table[LookupKey(regionName)].instanceTypes)
      && (res.instanceType.Some? ==> res.instanceType.value == m.table[LookupKey(regionName)].instanceTypes[apiName])
  {
    match GetRegion(m, regionName)
    case None => RegionNotFound(regionName)
    case Some(region) => Found(GetRdsInstanceType(region, apiName))
  }

  /** `find_or_create_region` stores a new region under the raw name, but
      looks it up under the alias: a repeated call finds it again exactly
      when the name is not aliased to another key. */
  lemma FindOrCreateRepeat(m: RegionMap, name: string)
    requires GetRegion(m, name).None?
    ensures GetRegion(Put(m, name, NewRegion(name)), name).Some? <==> LookupKey(name) == name
  {
  }

  /** For `us-east-1` the second call misses the region the first one stored,
      and replaces it with a fresh empty one. */
  lemma FindOrCreateUsEast1(m: RegionMap)
    requires GetRegion(m, "us-east-1").None?
    ensures GetRegion(Put(m, "us-east-1", NewRegion("us-east-1")), "us-east-1").None?
  {
    assert LookupKey("us-east-1") == "us-east";
    FindOrCreateRepeat(m, "us-east-1");
  }

  /** Storing the new region under its canonical key makes a repeated call
      find it, for every name. */
  lemma FindOrCreateCanonicalRepeat(m: RegionMap, name: string)
    ensures var key := LookupKey(name);
      GetRegion(Put(m, key, NewRegion(key)), name) == Some(NewRegion(key))
  {
  }

  /** `PriceList`, reduced to its region table. */
  class PriceList {
    /** `@_regions` */
    var regionTable: RegionMap

    constructor (initial: RegionMap)
      ensures regionTable == initial
    {
      regionTable := initial;
    }

    /** `add_region(region)`: stores the region under its own name. */
    method AddRegion(region: Region)
      modifies this
      ensures regionTable == Put(old(regionTable), region.name, region)
      ensures old(regionTable).Valid() && region.Valid() ==> regionTable.Valid()
    {
      if regionTable.Valid() && region.Valid() {
        PutValid(regionTable, region);
      }
      regionTable := Put(regionTable, region.name, region);
    }

    /** `find_or_create_region(name)`: the region `get_region` finds, with the
        table unchanged; otherwise a new empty region stored under `name`
        itself (not under its alias), every other entry unchanged. */
    method FindOrCreateRegion(name: string) returns (region: Region)
      modifies this
      ensures old(GetRegion(regionTable, name)).Some? ==>
        region == old(GetRegion(regionTable, name)).value && regionTable == old(regionTable)
      ensures old(GetRegion(regionTable, name)).None? ==>
        region == NewRegion(name) && regionTable == Put(old(regionTable), name, region)
      ensures old(regionTable).Valid() ==> regionTable.Valid()
    {
      var found := GetRegion(regionTable, name);
      if found.Some? {
        region := found.value;
      } else {
        region := NewRegion(name);
        AddRegion(region);
      }
    }

    /** `find_or_create_region` with the new region named and stored by its
        lookup key, so that a repeated call finds it. */
    method FindOrCreateCanonicalRegion(name: string) returns (region: Region)
      modifies this
      ensures old(GetRegion(regionTable, name)).Some? ==>
        region == old(GetRegion(regionTable, name)).value && regionTable == old(regionTable)
      ensures old(GetRegion(regionTable, name)).None? ==>
        region == NewRegion(LookupKey(name)) && regionTable == Put(old(regionTable), LookupKey(name), region)
      ensures GetRegion(regionTable, name) == Some(region)
      ensures old(regionTable).Valid() ==> regionTable.Valid()
    {
      var found := GetRegion(regionTable, name);
      if found.Some? {
        region := found.value;
      } else {
        region := NewRegion(LookupKey(name));
        FindOrCreateCanonicalRepeat(regionTable, name);
        AddRegion(region);
      }
    }
  }
}

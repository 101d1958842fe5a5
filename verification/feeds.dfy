/** The three shapes of the JSON pricing documents the RDS feeds return,
    after parsing, and the feed itself: a function from a URL to a fetched
    document or a failure (the network and `JSON.parse` are not modelled). */
module Feeds {

  /** A JSON object whose values the walkers never inspect: the price fields
      of a tier or a purchase option are handed to the instance type as is. */
  type Fields = seq<(string, string)>

  /** A tier of an on-demand or legacy-reserved feed: its `"name"` (on
      demand) or `"size"` (legacy reserved) and its price fields. */
  datatype Tier = Tier(tierName: string, fields: Fields)

  /** `config.regions[].types[]` of an on-demand feed. */
  datatype OdType = OdType(name: string, tiers: seq<Tier>)

  /** `config.regions[]` of an on-demand feed. */
  datatype OdRegion = OdRegion(region: string, types: seq<OdType>)

  /** `config.regions[].instanceTypes[]` of a legacy reserved feed. */
  datatype LegacyType = LegacyType(typeName: string, tiers: seq<Tier>)

  /** `config.regions[]` of a legacy reserved feed. */
  datatype LegacyRegion = LegacyRegion(region: string, instanceTypes: seq<LegacyType>)

  /** `terms[].purchaseOptions[]` of a term-based reserved feed. */
  datatype PurchaseOption = PurchaseOption(purchaseOption: string, valueColumns: Fields)

  /** `instanceTypes[].terms[]` of a term-based reserved feed. */
  datatype Term = Term(term: string, purchaseOptions: seq<PurchaseOption>)

  /** `config.regions[].instanceTypes[]` of a term-based reserved feed. */
  datatype ReservedType = ReservedType(typeName: string, terms: seq<Term>)

  /** `config.regions[]` of a term-based reserved feed. */
  datatype ReservedRegion = ReservedRegion(region: string, instanceTypes: seq<ReservedType>)

  /** A parsed feed, by shape. */
  datatype Document =
    | OnDemandDocument(odRegions: seq<OdRegion>)
    | LegacyDocument(legacyRegions: seq<LegacyRegion>)
    | ReservedDocument(reservedRegions: seq<ReservedRegion>)

  /** The outcome of `PriceList.fetch_url(url)`. */
  datatype Fetch = Fetched(doc: Document) | FetchFailed

  /** `PriceList.fetch_url`, as a function of the URL. */
  type Feed = string -> Fetch
}

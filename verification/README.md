# RDS pricing ingestion, modelled in Dafny

This project models the RDS side of the `amazon-pricing` Ruby gem. `AwsPricing::RdsPriceList` builds an in-memory
catalog of Amazon RDS prices: regions, then RDS instance types, then a log of price observations. It builds it from
the JSON price feeds Amazon publishes. Its `initialize` runs three enumerators in turn:

- `get_rds_on_demand_instance_pricing`;
- `get_rds_reserved_instance_pricing2`, for the current term-based reserved prices;
- `get_rds_reserved_instance_pricing`, for the legacy reserved prices by utilization level.

Each enumerator walks constant tables of engines and deployment tokens and builds feed URLs, calling one of three
feed walkers per URL. A walker reads the fetched document region by region and type by type. It finds each region
through `get_region`, which looks a name up through the `@@Region_Lookup` alias table. It then records each tier or
purchase option on an instance type of that region.

The modules follow that structure:

- `RubyStrings` (`ruby_strings.dfy`): `include?`, `upcase`, `end_with?` and `gsub` on literal patterns.
- `RdsTables` (`rds_tables.dfy`): the engine symbols, the class-variable tables, `is_multi_az?` and `is_byol?`.
- `RdsRequests` (`rds_requests.dfy`): the three enumerators as the ordered list of walker calls they make.
- `Feeds` (`feeds.dfy`): the shapes of the three kinds of feed document.
- `RdsInstanceTypes` (`rds_instance_types.dfy`): regions, instance types, the price-update log, and `get_name` as a parameter.
- `AwsPricing` (`aws_pricing.dfy`): `@@Region_Lookup`, the ordered region table, and the `PriceList` class with `add_region` and `find_or_create_region`.
- `RdsWalkers` (`rds_walkers.dfy`): what each walker does to the region table, as a fold over the document, plus the run of a list of calls.
- `RdsRecords` (`rds_records.dfy`): what the walkers record: which price updates end up in which instance type's log, and that logs only grow.
- `RdsPricing` (`rds_price_list.dfy`): the `RdsPriceList` class: the walkers as loops over the table, the enumerators' call loops and `initialize`.

Each loop in `RdsPricing` is proved against a fold in `RdsWalkers`: the table so far is always the fold of what has
been read so far. The main facts proved about those folds:

- Each enumerator makes exactly the calls of every entry of its tables, no more and no fewer.
- No region is ever added by a walker.
- Every price log only grows: the old log is a prefix of the new one.
- A walk records every tier `get_name` resolves, and every purchase option of an instance type the region already
  holds. Each is recorded on the instance type the region keeps under that name.
- The term-based reserved walker never adds an instance type.
- An unknown tier skips only itself.
- The legacy walker fails on a missing region exactly when some tier of that region resolves.
- A complete load never records a multi-AZ price for Aurora. This holds even though Aurora's feeds sit at
  multi-AZ-named URLs.

## Model

| member | source | states |
|---|---|---|
| `RdsTables.IsByolIff` | lib/amazon-pricing/rds-price-list.rb:96-99 | `is_byol?` holds exactly when `byol` occurs, case-sensitively, somewhere in the token |
| `RdsTables.IsMultiAzIff` | lib/amazon-pricing/rds-price-list.rb:91-94 | `is_multi_az?` holds exactly when `MULTI-AZ` occurs in the upcased type name |
| `RdsTables.IsMultiAzIgnoresCase` | lib/amazon-pricing/rds-price-list.rb:91-94 | `is_multi_az?` gives the same answer for a name and its upcased form |
| `RdsRequests.OnDemandForTokens` | lib/amazon-pricing/rds-price-list.rb:104-110 | every on-demand call for a token list records the row's db_type; under Aurora none is multi-AZ |
| `RdsRequests.OnDemandForRows` | lib/amazon-pricing/rds-price-list.rb:103-110 | every call of an engine's rows records one of that table's db_type keys |
| `RdsRequests.OnDemandForDb` | lib/amazon-pricing/rds-price-list.rb:101-137 | no on-demand call recorded under the Aurora db_type is multi-AZ |
| `RdsRequests.OnDemandForDbs` | lib/amazon-pricing/rds-price-list.rb:101-137 | the same for the calls of any list of engines, so for all of `@@DB_TYPE` |
| `RdsRequests.AuroraRowOnlyInAurora` | lib/amazon-pricing/rds-price-list.rb:19-41 | only Aurora's on-demand table has a row keyed by Aurora |
| `RdsRequests.OnDemandForTokensExactly` | lib/amazon-pricing/rds-price-list.rb:104-134 | a call is made for a token list exactly when it is made for one of its tokens |
| `RdsRequests.OnDemandForRowsExactly` | lib/amazon-pricing/rds-price-list.rb:103-135 | a call is made for an engine's rows exactly when it is made for some token of some row, under that row's db_type |
| `RdsRequests.OnDemandForDbsExactly` | lib/amazon-pricing/rds-price-list.rb:102-136 | a call is made for a list of engines exactly when it is made for some token of some row of one engine's on-demand table |
| `RdsRequests.OnDemandRequestsExactly` | lib/amazon-pricing/rds-price-list.rb:101-137 | `get_rds_on_demand_instance_pricing` makes a call exactly when it is the call of some token of some row of some engine of `@@DB_TYPE` |
| `RdsRequests.OnDemandForDbsFlags` | lib/amazon-pricing/rds-price-list.rb:102-136 | every call for a list of engines comes from a token of one of their rows and carries that row's db_type, the token's BYOL flag, and its multi-AZ flag unless the engine is Aurora |
| `RdsRequests.OnDemandRequestsFlags` | lib/amazon-pricing/rds-price-list.rb:101-137 | the same for every call of `get_rds_on_demand_instance_pricing` |
| `RdsRequests.OnDemandPreviousGeneration` | lib/amazon-pricing/rds-price-list.rb:113-124 | MySQL, PostgreSQL and Oracle: the current feed is followed by its `previous-generation/` twin with identical flags |
| `RdsRequests.OnDemandNoPreviousGeneration` | lib/amazon-pricing/rds-price-list.rb:110-123 | Aurora and MariaDB: exactly one call per token; Aurora's is single-AZ although its URL contains the token |
| `RdsRequests.PricingUrlContainsToken` | lib/amazon-pricing/rds-price-list.rb:114 | a `pricing-<token>-deployments.min.js` URL contains the token |
| `RdsRequests.SqlServerOnDemand` | lib/amazon-pricing/rds-price-list.rb:110-127 | SQL Server: one or two calls; only the `li-ee` forms skip the twin; the multi-AZ flag comes from the token before `-multiAZ` is stripped |
| `RdsRequests.SqlServerOnDemandPrevious` | lib/amazon-pricing/rds-price-list.rb:125-132 | SQL Server: a second call is the same call under `previous-generation/` |
| `RdsRequests.SqlServerOnDemandMaz` | lib/amazon-pricing/rds-price-list.rb:115-132 | SQL Server: a URL ends in `-ondemand-maz.min.js` exactly when the call is multi-AZ |
| `RdsRequests.SqlServerTableTokens` | lib/amazon-pricing/rds-price-list.rb:33-38 | the SQL Server rows hold exactly the eight listed tokens |
| `RdsRequests.SqlServerOnDemandTokens` | lib/amazon-pricing/rds-price-list.rb:111-127 | for every SQL Server token, the skip test on the stripped token matches `li-ee` and `li-ee-multiAZ`; its `li-ee-multiAZ` comparison never matches |
| `RdsRequests.OnDemandSingleToken` | lib/amazon-pricing/rds-price-list.rb:102-104 | an engine with one row and one token makes exactly that token's calls |
| `RdsRequests.AuroraOnDemandRequests` | lib/amazon-pricing/rds-price-list.rb:101-114 | Aurora makes one on-demand call, at a URL containing `multiAZ`, recorded for Aurora, not BYOL and not multi-AZ |
| `RdsRequests.AuroraOnlyFromAurora` | lib/amazon-pricing/rds-price-list.rb:19-41 | no engine but Aurora records on-demand calls under the Aurora db_type |
| `RdsRequests.DbStr` | lib/amazon-pricing/rds-price-list.rb:148-160 | the feed name of a db_type never contains an underscore |
| `RdsRequests.DbStrDashes` | lib/amazon-pricing/rds-price-list.rb:158-159 | outside SQL Server the feed name is the symbol with each `_` turned into `-`, character by character |
| `RdsRequests.Reserved2UrlContains` | lib/amazon-pricing/rds-price-list.rb:165 | a term-based reserved URL contains `<db_str>-<token>`, and so the token |
| `RdsRequests.Reserved2ForRowsExactly` | lib/amazon-pricing/rds-price-list.rb:141-167 | a call is made for an engine's rows exactly when it is the call of some token of some row, for that row's key |
| `RdsRequests.Reserved2ForDbsExactly` | lib/amazon-pricing/rds-price-list.rb:140-168 | a call is made for a list of engines exactly when it is the call of some token of some row of one engine's term-based table |
| `RdsRequests.Reserved2RequestsExactly` | lib/amazon-pricing/rds-price-list.rb:139-169 | `get_rds_reserved_instance_pricing2` makes a call exactly when it is the call of some token of some row of some engine of `@@DB_TYPE` |
| `RdsRequests.Reserved2ForDbsFlags` | lib/amazon-pricing/rds-price-list.rb:140-168 | every call for a list of engines fetches a URL naming its token, is written to its row key's same-pricing list, and carries the token's BYOL flag and its multi-AZ flag unless the key is Aurora |
| `RdsRequests.Reserved2RequestsFlags` | lib/amazon-pricing/rds-price-list.rb:139-169 | the same for every call of `get_rds_reserved_instance_pricing2` |
| `RdsRequests.AuroraReserved2Requests` | lib/amazon-pricing/rds-price-list.rb:139-166 | Aurora fetches two reserved feeds, the second at a `multiAZ` URL; both are written to Aurora alone and neither is multi-AZ |
| `RdsRequests.Reserved2ForTokens` | lib/amazon-pricing/rds-price-list.rb:142-165 | one call per token, in order |
| `RdsRequests.Reserved2ForRows` | lib/amazon-pricing/rds-price-list.rb:141-166 | every call is written to the same-pricing list of one of the rows' keys, and one that writes to Aurora is not multi-AZ |
| `RdsRequests.Reserved2ForDbs` | lib/amazon-pricing/rds-price-list.rb:139-169 | no term-based reserved call that writes to Aurora is multi-AZ |
| `RdsRequests.SamePricingCoversKeys` | lib/amazon-pricing/rds-price-list.rb:51-85 | every key of the reserved table has a same-pricing list that starts with the key; only Oracle SE's is longer (it adds Oracle EE); Oracle EE is never a key |
| `RdsRequests.Reserved2KeysAreEditions` | lib/amazon-pricing/rds-price-list.rb:51-71 | the keys of the term-based table are editions, never the Oracle or SQL Server engine symbols, never Oracle EE |
| `RdsRequests.SamePricingOfEdition` | lib/amazon-pricing/rds-price-list.rb:73-85 | an edition's same-pricing list starts with it and is longer only for Oracle SE |
| `RdsRequests.LegacyPair` | lib/amazon-pricing/rds-price-list.rb:218-245 | every legacy feed is fetched together with its `previous-generation/` twin, with identical arguments |
| `RdsRequests.LegacyForResTypes` | lib/amazon-pricing/rds-price-list.rb:215-229 | MySQL and PostgreSQL calls record the engine itself, are never BYOL, and use a level of `@@RES_TYPES` |
| `RdsRequests.LegacyForTokens` | lib/amazon-pricing/rds-price-list.rb:233-246 | Oracle and SQL Server calls record the row key and the level |
| `RdsRequests.LegacyForLevels` | lib/amazon-pricing/rds-price-list.rb:232-249 | the same for every level of one row |
| `RdsRequests.LegacyForRows` | lib/amazon-pricing/rds-price-list.rb:231-250 | every call records one of the legacy table's keys |
| `RdsRequests.LegacyForDb` | lib/amazon-pricing/rds-price-list.rb:213-252 | no legacy call records an engine of `@@NO_LEGACY_RI_PRICING_AVAILABLE` |
| `RdsRequests.LegacyKeysHaveLegacyPricing` | lib/amazon-pricing/rds-price-list.rb:43-89 | no key of the legacy table is Aurora or MariaDB |
| `RdsRequests.LegacyForDbs` | lib/amazon-pricing/rds-price-list.rb:212-253 | the same for the calls of any list of engines |
| `RdsRequests.LegacyLevels` | lib/amazon-pricing/rds-price-list.rb:215-229 | MySQL fetches every level, PostgreSQL only heavy, each as a current/previous pair |
| `RdsRequests.LegacyTokenPair` | lib/amazon-pricing/rds-price-list.rb:233-246 | Oracle and SQL Server: two calls per token and level, carrying the row key, the level and the token's BYOL flag |
| `RdsRequests.LegacySkipsNewEngines` | lib/amazon-pricing/rds-price-list.rb:214 | Aurora and MariaDB make no legacy call |
| `RdsRequests.LegacyForTokensExactly` | lib/amazon-pricing/rds-price-list.rb:233-248 | a call is made for a token list at one level exactly when it is made for one of its tokens |
| `RdsRequests.LegacyForLevelsExactly` | lib/amazon-pricing/rds-price-list.rb:232-249 | a call is made for one db_type exactly when it is made for some token at some level |
| `RdsRequests.LegacyForRowsExactly` | lib/amazon-pricing/rds-price-list.rb:231-250 | a call is made for an engine's legacy rows exactly when it is made for some token of some row at some level of `@@RES_TYPES` |
| `RdsRequests.LegacyForResTypesExactly` | lib/amazon-pricing/rds-price-list.rb:216-229 | MySQL and PostgreSQL: a call is made for a list of levels exactly when it is made for one of them |
| `RdsRequests.LegacyLevelEnginesExactly` | lib/amazon-pricing/rds-price-list.rb:215-229 | MySQL and PostgreSQL make a call exactly when it is the call of some level of `@@RES_TYPES` |
| `RdsRequests.LegacyTableEnginesExactly` | lib/amazon-pricing/rds-price-list.rb:230-251 | every other engine makes a call exactly when it is the call of some (db_type, level, token) of its legacy table; Aurora's and MariaDB's tables are empty |
| `RdsRequests.LegacyForDbExactly` | lib/amazon-pricing/rds-price-list.rb:213-252 | the calls of one engine are exactly the calls named by `LegacyCallOf` |
| `RdsRequests.LegacyForDbsExactly` | lib/amazon-pricing/rds-price-list.rb:213-252 | a call is made for a list of engines exactly when it is a `LegacyCallOf` call of one of them |
| `RdsRequests.LegacyRequestsExactly` | lib/amazon-pricing/rds-price-list.rb:212-253 | `get_rds_reserved_instance_pricing` makes a call exactly when it is a `LegacyCallOf` call of some engine of `@@DB_TYPE`; Oracle and SQL Server thus make both calls of every (db_type, level, token) |
| `RdsInstanceTypes.NewRegion` | lib/amazon-pricing.rb:55 | a new region has its name and no instance types |
| `RdsInstanceTypes.GetRdsInstanceType` | lib/amazon-pricing/rds-price-list.rb:183-184 | nil exactly when the API name is not in the region, otherwise that entry |
| `RdsInstanceTypes.AddOrUpdateRdsInstanceType` | lib/amazon-pricing/rds-price-list.rb:277-299 | an existing entry is returned unchanged; otherwise a new entry with an empty log is added; the region's other entries are untouched |
| `RdsInstanceTypes.UpdatePricing` | lib/amazon-pricing/rds-price-list.rb:275-300 | the update joins the end of the instance type's log; nothing before it changes |
| `RdsInstanceTypes.StoreInstanceType` | lib/amazon-pricing/rds-price-list.rb:275-300 | the updated instance type is what the region holds under its API name; other entries are unchanged |
| `RdsInstanceTypes.RecordPrice` | lib/amazon-pricing/rds-price-list.rb:275-278 | afterwards the API name has an entry whose log is the old log (empty if new) plus the update; nothing else changes |
| `AwsPricing.LookupKeyIdempotent` | lib/amazon-pricing.rb:65-74 | resolving an alias twice is resolving it once |
| `AwsPricing.PutValid` | lib/amazon-pricing.rb:48-50 | storing a region under its name keeps the table well formed, keeps existing keys in place and adds only that key |
| `AwsPricing.PutExisting` | lib/amazon-pricing.rb:48-50 | re-storing under an existing key keeps the key order |
| `AwsPricing.GetRegion` | lib/amazon-pricing.rb:24-26 | nil, not an error, exactly when nothing is stored under the lookup key; otherwise that region |
| `AwsPricing.GetRegionAlias` | lib/amazon-pricing.rb:65-74 | an API region name and the feed name it stands for find the same region |
| `AwsPricing.GetRegionName` | lib/amazon-pricing.rb:24-26 | the region found is named by the lookup key |
| `AwsPricing.Regions` | lib/amazon-pricing.rb:28-30 | one region per key, in the table's key order |
| `AwsPricing.RegionsAreValues` | lib/amazon-pricing.rb:28-30 | `regions` holds exactly the table's values, each once |
| `AwsPricing.GetInstanceType` | lib/amazon-pricing.rb:32-36 | "Region not found" exactly when `get_region` is nil; otherwise the region's answer, which may be nil |
| `AwsPricing.FindOrCreateRepeat` | lib/amazon-pricing.rb:48-59 | after creating a region, a repeated lookup finds it exactly when the name is its own lookup key |
| `AwsPricing.FindOrCreateUsEast1` | lib/amazon-pricing.rb:52-66 | for `us-east-1` the repeated lookup misses the region just created |
| `AwsPricing.FindOrCreateCanonicalRepeat` | lib/amazon-pricing.rb:52-59 | storing under the lookup key makes the repeated lookup find the region, for every name |
| `AwsPricing.PriceList.AddRegion` | lib/amazon-pricing.rb:48-50 | the table becomes the old one with the region stored under its own name, and stays well formed |
| `AwsPricing.PriceList.FindOrCreateRegion` | lib/amazon-pricing.rb:52-59 | an existing region is returned with the table unchanged; otherwise a new region is stored under the raw name and returned |
| `AwsPricing.PriceList.FindOrCreateCanonicalRegion` | lib/amazon-pricing.rb:52-59 | like `find_or_create_region`, but a later `get_region` of the same name finds the region returned |
| `RdsWalkers.RecordPriceAuroraSingleAz` | lib/amazon-pricing/rds-price-list.rb:277-300 | recording an update that is single-AZ for Aurora keeps a region free of multi-AZ Aurora prices |
| `RdsWalkers.PutWalked` | lib/amazon-pricing/rds-price-list.rb:260-265 | writing a walked region back changes that key only, and keeps the keys and the Aurora property |
| `RdsWalkers.OdTier` | lib/amazon-pricing/rds-price-list.rb:266-281 | a tier adds no region, loses no instance type, and keeps Aurora single-AZ for a safe call |
| `RdsWalkers.OdTiers` | lib/amazon-pricing/rds-price-list.rb:266-282 | the same for a type's tiers |
| `RdsWalkers.OdTypes` | lib/amazon-pricing/rds-price-list.rb:265-283 | the same for a region's types |
| `RdsWalkers.OdRegions` | lib/amazon-pricing/rds-price-list.rb:258-284 | the on-demand walk keeps the table well formed with the same keys, and keeps Aurora single-AZ for a safe call |
| `RdsWalkers.KnownTiers` | lib/amazon-pricing/rds-price-list.rb:275-279 | only tiers whose names `get_name` resolves, all from the list |
| `RdsWalkers.OdUnknownTiersSkipped` | lib/amazon-pricing/rds-price-list.rb:266-282 | walking all tiers equals walking only the resolvable ones: an unknown tier skips itself only |
| `RdsWalkers.ReservationTypeRoundTrip` | lib/amazon-pricing/rds-price-list.rb:191-198 | the three purchase-option names and the three reservation types map onto each other both ways |
| `RdsWalkers.FanOut` | lib/amazon-pricing/rds-price-list.rb:202-204 | one update per engine |
| `RdsWalkers.R2Dbs` | lib/amazon-pricing/rds-price-list.rb:200-204 | the log grows by exactly the option's fan-out |
| `RdsWalkers.FanOutAuroraSingleAz` | lib/amazon-pricing/rds-price-list.rb:202-204 | a fan-out for a safe call keeps an instance type free of multi-AZ Aurora prices |
| `RdsWalkers.R2Options` | lib/amazon-pricing/rds-price-list.rb:190-205 | the instance type's identity is unchanged; Aurora single-AZ is kept for a safe call |
| `RdsWalkers.R2Terms` | lib/amazon-pricing/rds-price-list.rb:189-206 | the same over all terms |
| `RdsWalkers.R2Types` | lib/amazon-pricing/rds-price-list.rb:181-208 | an instance type the region lacks is skipped: the instance-type keys are unchanged |
| `RdsWalkers.R2Regions` | lib/amazon-pricing/rds-price-list.rb:174-209 | the term-based walk keeps the table well formed with the same keys, and keeps Aurora single-AZ |
| `RdsWalkers.R2RegionsKeepInstanceTypes` | lib/amazon-pricing/rds-price-list.rb:176-187 | every region keeps exactly the instance types it had: none is created |
| `RdsWalkers.R2OracleSeAlias` | lib/amazon-pricing/rds-price-list.rb:78-204 | an Oracle SE option is recorded for Oracle SE and then for Oracle EE, with the same arguments |
| `RdsWalkers.LgTier` | lib/amazon-pricing/rds-price-list.rb:294-303 | a tier adds no region, loses no instance type, and keeps Aurora single-AZ |
| `RdsWalkers.LgTiers` | lib/amazon-pricing/rds-price-list.rb:294-304 | the same for a type's tiers |
| `RdsWalkers.LgTypes` | lib/amazon-pricing/rds-price-list.rb:293-305 | the same for a region's instance types |
| `RdsWalkers.SomeTierResolvesIff` | lib/amazon-pricing/rds-price-list.rb:294-303 | the scan finds a resolving tier exactly when one exists |
| `RdsWalkers.NilRegionFailsIff` | lib/amazon-pricing/rds-price-list.rb:292-309 | a missing region fails exactly when some tier of some type has a name `get_name` accepts |
| `RdsWalkers.LgRegions` | lib/amazon-pricing/rds-price-list.rb:290-309 | the walk stops at the first failing region, reports it (it is not in the table), keeps the keys and keeps Aurora single-AZ |
| `RdsRecords.OdTierRecords` | lib/amazon-pricing/rds-price-list.rb:275-278 | a resolved tier adds the on-demand update, with the call's db_type and flags, to the instance type `get_name` names; every log only grows |
| `RdsRecords.OdTiersRecords` | lib/amazon-pricing/rds-price-list.rb:266-282 | every resolved tier of a type is recorded on its instance type, and earlier records stay |
| `RdsRecords.OdTypesRecords` | lib/amazon-pricing/rds-price-list.rb:265-283 | every resolved tier of every type of a region is recorded; every log only grows |
| `RdsRecords.OdRegionsRecords` | lib/amazon-pricing/rds-price-list.rb:258-284 | for any regions: in every found region, every resolved tier of every type is recorded on the named instance type; every log of the table only grows |
| `RdsRecords.R2OptionsRecords` | lib/amazon-pricing/rds-price-list.rb:190-205 | every purchase option's fan-out appears as a contiguous run of the instance type's log; the old log is a prefix of the new |
| `RdsRecords.R2TermsRecords` | lib/amazon-pricing/rds-price-list.rb:189-206 | the same for every option of every term |
| `RdsRecords.R2TypeRecords` | lib/amazon-pricing/rds-price-list.rb:181-207 | an instance type the region holds records the fan-out of each of its options; every log only grows |
| `RdsRecords.R2TypesRecords` | lib/amazon-pricing/rds-price-list.rb:181-208 | the same for every type of a region that the region already holds |
| `RdsRecords.R2RegionsRecords` | lib/amazon-pricing/rds-price-list.rb:174-209 | for any regions: in every found region, each option of each type the region already holds is recorded as a run; every log of the table only grows |
| `RdsRecords.LgTierRecords` | lib/amazon-pricing/rds-price-list.rb:296-300 | a resolved tier adds the legacy update, at the call's level and with the type's multi-AZ flag, to the named instance type; every log only grows |
| `RdsRecords.LgTiersRecords` | lib/amazon-pricing/rds-price-list.rb:294-304 | every resolved tier of a type is recorded on its instance type, and earlier records stay |
| `RdsRecords.LgTypesRecords` | lib/amazon-pricing/rds-price-list.rb:293-305 | every resolved tier of every type of a region is recorded; every log only grows |
| `RdsRecords.LgRegionsRecords` | lib/amazon-pricing/rds-price-list.rb:290-309 | for any regions: every log only grows, and if the walk does not abort, every resolved tier of every found region is recorded on the named instance type |
| `RdsWalkers.Ingest` | lib/amazon-pricing/rds-price-list.rb:171-309 | a failed fetch aborts with that URL; only the legacy walker can abort on a region; a successful call keeps the regions and Aurora single-AZ |
| `RdsWalkers.Run` | lib/amazon-pricing/rds-price-list.rb:4-10 | a run of calls stops at the first abort; a complete run keeps the regions and, for safe calls, Aurora single-AZ |
| `RdsWalkers.RunAppend` | lib/amazon-pricing/rds-price-list.rb:7-9 | running two lists in turn is running their concatenation; an abort in the first skips the second |
| `RdsWalkers.EnumeratorsAuroraSafe` | lib/amazon-pricing/rds-price-list.rb:110-214 | every call of the three enumerators, for any engines, is safe for Aurora |
| `RdsWalkers.AllRequestsAuroraSafe` | lib/amazon-pricing/rds-price-list.rb:7-9 | every call `initialize` makes is safe for Aurora |
| `RdsWalkers.LoadAuroraSingleAz` | lib/amazon-pricing/rds-price-list.rb:4-146 | a complete load records no multi-AZ price for Aurora and adds no region |
| `RdsWalkers.OnDemandScenario` | lib/amazon-pricing/rds-price-list.rb:258-278 | one region, type and tier: the instance type, found through the API region name, holds exactly that on-demand price |
| `RdsWalkers.UsEastScenario` | lib/amazon-pricing/rds-price-list.rb:258-278 | the same for a MySQL `db.m1.small` price in feed region `us-east`, found through `us-east-1` |
| `RdsPricing.WalkOnDemandTypes` | lib/amazon-pricing/rds-price-list.rb:265-283 | the type and tier loops compute the on-demand walk of the region |
| `RdsPricing.WalkReservedOption` | lib/amazon-pricing/rds-price-list.rb:191-204 | the engine loop appends the option's fan-out |
| `RdsPricing.WalkReservedOptions` | lib/amazon-pricing/rds-price-list.rb:190-205 | the purchase-option loop computes the walk of the term |
| `RdsPricing.WalkReservedTerms` | lib/amazon-pricing/rds-price-list.rb:189-206 | the term loop computes the walk of the instance type |
| `RdsPricing.WalkReservedTypes` | lib/amazon-pricing/rds-price-list.rb:181-208 | the instance-type loop computes the walk of the region |
| `RdsPricing.WalkLegacyTypes` | lib/amazon-pricing/rds-price-list.rb:293-305 | the type and tier loops compute the legacy walk of the region |
| `RdsPricing.WalkNilRegion` | lib/amazon-pricing/rds-price-list.rb:292-309 | the loops over a missing region raise exactly when the walk of a missing region fails |
| `RdsPricing.RdsPriceList.constructor` | lib/amazon-pricing/rds-price-list.rb:4-5 | a price list over a given well-formed region table |
| `RdsPricing.RdsPriceList.FetchOnDemandRdsInstancePricing` | lib/amazon-pricing/rds-price-list.rb:255-285 | on success the table becomes the on-demand walk of the feed; on an error nothing changes |
| `RdsPricing.RdsPriceList.WalkOnDemandRegions` | lib/amazon-pricing/rds-price-list.rb:258-284 | the region loop leaves the on-demand walk of the regions in the table |
| `RdsPricing.RdsPriceList.FetchReservedRdsInstancePricing2` | lib/amazon-pricing/rds-price-list.rb:171-210 | on success the table becomes the term-based walk of the feed; on an error nothing changes |
| `RdsPricing.RdsPriceList.WalkReservedRegions` | lib/amazon-pricing/rds-price-list.rb:174-209 | the region loop leaves the term-based walk of the regions in the table |
| `RdsPricing.RdsPriceList.FetchReservedRdsInstancePricing` | lib/amazon-pricing/rds-price-list.rb:287-310 | on success the table is the legacy walk; a missing region raises after the earlier regions were updated; other errors change nothing |
| `RdsPricing.RdsPriceList.WalkLegacyRegions` | lib/amazon-pricing/rds-price-list.rb:290-306 | the region loop leaves the legacy walk in the table and returns the failing region, if any |
| `RdsPricing.RdsPriceList.WalkLegacyRegion` | lib/amazon-pricing/rds-price-list.rb:291-305 | a found region is replaced by its walk; a missing one changes nothing and fails iff a tier resolves |
| `RdsPricing.RdsPriceList.Fetch` | lib/amazon-pricing/rds-price-list.rb:113-245 | one walker call raises exactly when its walk aborts, and otherwise leaves the walk's table |
| `RdsPricing.RdsPriceList.FetchAll` | lib/amazon-pricing/rds-price-list.rb:101-137 | the calls in order raise the first abort of the run, and otherwise leave the run's table |
| `RdsPricing.RdsPriceList.GetRdsOnDemandInstancePricing` | lib/amazon-pricing/rds-price-list.rb:101-137 | the on-demand enumerator's effect is the run of its calls |
| `RdsPricing.RdsPriceList.GetRdsReservedInstancePricing2` | lib/amazon-pricing/rds-price-list.rb:139-169 | the term-based reserved enumerator's effect is the run of its calls |
| `RdsPricing.RdsPriceList.GetRdsReservedInstancePricing` | lib/amazon-pricing/rds-price-list.rb:212-253 | the legacy reserved enumerator's effect is the run of its calls |
| `RdsPricing.RdsPriceList.Initialize` | lib/amazon-pricing/rds-price-list.rb:4-10 | the three enumerators in turn form the run of all calls; a complete load keeps the regions and keeps Aurora single-AZ |

## Left out

- `AwsPricing.GetInstanceType`: the region's `get_instance_type` collaborator (lib/amazon-pricing.rb:35) is not part of this model. It is taken to be the lookup in the region's RDS instance-type table, the one `get_rds_instance_type` reads.
- Network access and JSON parsing (`fetch_url`) are not modelled. The walkers take a `feed` function from URL to a
  fetched document or a failure. A document whose shape is not the one the walker reads is a `MalformedFeed` error.
- The warnings written to `$stderr` are not modelled; the model only skips and goes on. In the legacy walker the
  rescue handler writes to `$sterr`, which is nil, so it raises in turn. The model has the failure escape either way
  and does not tell which exception escapes.
- `InstanceType.populate_lookups`, `RdsInstanceType.get_name`, `update_pricing`, `update_pricing_new` and the region's
  instance-type methods are not part of this model; only their call sites are. `get_name` is a parameter, and an
  instance type's pricing is the log of the arguments it was given.
- The body of `PriceList#initialize` (`super`) is not part of this model. `RdsPriceList` starts from a given
  well-formed region table.
- Prices and tiers are opaque field lists; no float arithmetic is modelled.
- `lib/amazon-pricing/version.rb`, the `require` loop and the EC2 path are not part of this model.
- `upcase` is modelled for ASCII letters only.
- A symbol a Ruby table lacks yields no row. Such symbols never reach the tables from `@@DB_TYPE`.
- `type_of_rds_instance` of the on-demand walker is always `:ondemand` here, so `get_name` is called with `false`.
- Region objects are values. The in-place updates of a region and its instance types are written back into the
  table after each region. The aliasing this stands for is that `get_region` returns the stored object itself.
- `RdsRequests.SqlServerOnDemandTokens`: stated over the eight SQL Server tokens. `RdsRequests.SqlServerTableTokens`
  shows that these are exactly the tokens of the table's SQL Server rows.
- `RdsRequests.AuroraOnDemandRequests` and `RdsRequests.AuroraReserved2Requests`: these take the engine as a
  parameter that must equal Aurora, rather than naming the constant.

## Findings

| source | as written | input that shows it | evidently intended | confidence | as-written member | corrected member |
|---|---|---|---|---|---|---|
| lib/amazon-pricing.rb:48-59 | `find_or_create_region` looks a name up under its alias but stores a new region under the raw name | `find_or_create_region("us-east-1")` twice on a table without `us-east`: the second call misses the first region and replaces it with a new empty one | a repeated call returns the region the first call created | not executed | `AwsPricing.FindOrCreateUsEast1` | `AwsPricing.FindOrCreateCanonicalRepeat` |

/** The constant tables at the top of `RdsPriceList` and its two string
    classifiers. Ruby symbols become the closed enumeration `Db`; an ordered
    Ruby Hash from a db_type symbol to its deployment tokens becomes a sequence
    of pairs, in the order the Hash literal lists them. */
module RdsTables {
  import opened RubyStrings

  /** Every database symbol the tables mention: the six engines of `@@DB_TYPE`
      and the per-edition db_type keys nested under them. */
  datatype Db =
    | MySql | PostgreSql | Oracle | SqlServer | Aurora | MariaDb
    | OracleSe | OracleSe1 | OracleSe2 | OracleEe
    | SqlServerEx | SqlServerWeb | SqlServerSe | SqlServerEe
  {
    /** `Symbol#to_s` */
    function Name(): string
    {
      match this
      case MySql => "mysql"
      case PostgreSql => "postgresql"
      case Oracle => "oracle"
      case SqlServer => "sqlserver"
      case Aurora => "aurora"
      case MariaDb => "mariadb"
      case OracleSe => "oracle_se"
      case OracleSe1 => "oracle_se1"
      case OracleSe2 => "oracle_se2"
      case OracleEe => "oracle_ee"
      case SqlServerEx => "sqlserver_ex"
      case SqlServerWeb => "sqlserver_web"
      case SqlServerSe => "sqlserver_se"
      case SqlServerEe => "sqlserver_ee"
    }
  }

  /** The legacy reserved-instance utilization levels of `@@RES_TYPES`. */
  datatype ResType = Light | Medium | Heavy
  {
    function Name(): string
    {
      match this
      case Light => "light"
      case Medium => "medium"
      case Heavy => "heavy"
    }
  }

  /** One engine's row of a deployment table: db_type key => deployment tokens. */
  type DeployTable = seq<(Db, seq<string>)>

  /** `@@DB_TYPE`, in its order. */
  const DbTypes: seq<Db> := [MySql, PostgreSql, Oracle, SqlServer, Aurora, MariaDb]

  /** `@@RES_TYPES`, in its order. */
  const ResTypes: seq<ResType> := [Light, Medium, Heavy]

  /** `@@NO_LEGACY_RI_PRICING_AVAILABLE` */
  const NoLegacyRiPricingAvailable: seq<Db> := [Aurora, MariaDb]

  /** `@@OD_DB_DEPLOY_TYPE[db]`; a symbol the Hash lacks has no row. */
  function OdDeployType(db: Db): DeployTable
  {
    match db
    case MySql => [(MySql, ["standard", "multiAZ"])]
    case PostgreSql => [(PostgreSql, ["standard", "multiAZ"])]
    case Oracle =>
      [ (OracleSe, ["byol-standard", "byol-multiAZ"]),
        (OracleSe1, ["li-standard", "li-multiAZ"]),
        (OracleSe2, ["se2-li-standard", "se2-li-multiAZ"]) ]
    case SqlServer =>
      [ (SqlServerEx, ["li-ex"]),
        (SqlServerWeb, ["li-web"]),
        (SqlServerSe, ["li-se", "li-se-multiAZ", "byol", "byol-multiAZ"]),
        (SqlServerEe, ["byol", "byol-multiAZ", "li-ee", "li-ee-multiAZ"]) ]
    case Aurora => [(Aurora, ["multiAZ"])]
    case MariaDb => [(MariaDb, ["standard", "multiAZ"])]
    case _ => []
  }

  /** `@@RESERVED_DB_DEPLOY_TYPE[db]` (legacy utilization-based reserved pricing). */
  function ReservedDeployType(db: Db): DeployTable
  {
    match db
    case Oracle => [(OracleSe1, ["li", "byol"]), (OracleSe, ["byol"]), (OracleEe, ["byol"])]
    case SqlServer =>
      [ (SqlServerEx, ["li-ex"]), (SqlServerWeb, ["li-web"]),
        (SqlServerSe, ["li-se", "byol"]), (SqlServerEe, ["byol"]) ]
    case _ => []
  }

  /** `@@RESERVED_DB_DEPLOY_TYPE2[db]` (current term-based reserved pricing). */
  function ReservedDeployType2(db: Db): DeployTable
  {
    match db
    case MySql => [(MySql, ["standard", "multiAZ"])]
    case PostgreSql => [(PostgreSql, ["standard", "multiAZ"])]
    case Oracle =>
      [ (OracleSe, ["byol-standard", "byol-multiAZ"]),
        (OracleSe1, ["license-included-standard", "license-included-multiAZ"]),
        (OracleSe2, ["license-included-standard", "license-included-multiAZ"]) ]
    case SqlServer =>
      [ (SqlServerEx, ["license-included-standard"]),
        (SqlServerWeb, ["license-included-standard", "license-included-multiAZ"]),
        (SqlServerSe, ["byol-standard", "byol-multiAZ", "license-included-standard", "license-included-multiAZ"]),
        (SqlServerEe, ["byol-standard", "byol-multiAZ", "license-included-standard", "license-included-multiAZ"]) ]
    case Aurora => [(Aurora, ["standard", "multiAZ"])]
    case MariaDb => [(MariaDb, ["standard", "multiAZ"])]
    case _ => []
  }

  /** `@@RESERVED_DB_WITH_SAME_PRICING2[db]`: the db_types one reserved feed is
      written to. Oracle SE (BYOL) pricing also stands for Oracle EE. */
  function ReservedWithSamePricing2(db: Db): seq<Db>
  {
    match db
    case MySql => [MySql]
    case PostgreSql => [PostgreSql]
    case OracleSe2 => [OracleSe2]
    case OracleSe1 => [OracleSe1]
    case OracleSe => [OracleSe, OracleEe]
    case SqlServerEx => [SqlServerEx]
    case SqlServerWeb => [SqlServerWeb]
    case SqlServerSe => [SqlServerSe]
    case SqlServerEe => [SqlServerEe]
    case Aurora => [Aurora]
    case MariaDb => [MariaDb]
    case _ => []
  }

  /** `is_multi_az?(type)`: the upcased typeName mentions MULTI-AZ. */
  function IsMultiAz(typeName: string): bool
  {
    Contains(Upcase(typeName), "MULTI-AZ")
  }

  /** `is_byol?(type)`: the token mentions byol, case-sensitively. */
  function IsByol(token: string): bool
  {
    Contains(token, "byol")
  }

  /** The topology test the two current-format enumerators apply to a token,
      before the Aurora exception: `token.upcase.include?("MULTIAZ")`. */
  function MentionsMultiAz(token: string): bool
  {
    Contains(Upcase(token), "MULTIAZ")
  }

  /** is_multi_az? ignores case: a typeName and its upcased form classify alike. */
  lemma IsMultiAzIgnoresCase(typeName: string)
    ensures IsMultiAz(Upcase(typeName)) == IsMultiAz(typeName)
  {
    assert Upcase(Upcase(typeName)) == Upcase(typeName);
  }

  /** is_byol? is a substring test: a token containing "byol" anywhere is BYOL,
      and only such tokens are. */
  lemma IsByolIff(token: string)
    ensures IsByol(token) <==> exists i :: OccursAt(token, "byol", i)
  {
    ContainsIff(token, "byol");
  }

  /** is_multi_az? recognises a typeName exactly when some window of its upcased
      form reads MULTI-AZ. */
  lemma IsMultiAzIff(typeName: string)
    ensures IsMultiAz(typeName) <==> exists i :: OccursAt(Upcase(typeName), "MULTI-AZ", i)
  {
    assert IsMultiAz(typeName) == Contains(Upcase(typeName), "MULTI-AZ");
    ContainsIff(Upcase(typeName), "MULTI-AZ");
  }
}

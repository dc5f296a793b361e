/** The configuration of matrix-corporal (corporal/configuration/configuration.go): the settings
    tree, the defaults filled in after decoding, and the validation that runs its checks in a
    fixed order and reports the first that fails. */
module Config {
  import opened Wrappers
  import opened Strings
  import opened Json
  import MatrixUtil

  datatype Matrix = Matrix(
    homeserverDomainName: string,
    homeserverApiEndpoint: string,
    authSharedSecret: string,
    registrationSharedSecret: string,
    reconciliatorUserId: string,
    timeoutMilliseconds: int)

  datatype Corporal = Corporal(userId: string)

  datatype Reconciliation = Reconciliation(retryIntervalMilliseconds: int)

  datatype HttpApi = HttpApi(enabled: bool, listenAddress: string, authorizationBearerToken: string, timeoutMilliseconds: int)

  /** Both settings are pointers in the decoded tree: absent is `None`. */
  datatype InternalRestAuth = InternalRestAuth(enabled: Option<bool>, ipNetworkWhitelist: Option<seq<string>>)

  datatype UserMappingResolver = UserMappingResolver(cacheSize: int, expirationTimeMilliseconds: int)

  datatype HttpGateway = HttpGateway(
    listenAddress: string,
    timeoutMilliseconds: int,
    internalRestAuth: InternalRestAuth,
    userMappingResolver: UserMappingResolver)

  datatype Misc = Misc(debug: bool)

  const DefaultCacheSize := 10000
  const DefaultExpirationTimeMilliseconds := 5 * 60 * 1000

  /** The resolver settings with their defaults: a zero is replaced, anything else is kept. */
  function ResolverWithDefaults(r: UserMappingResolver): (d: UserMappingResolver)
    ensures d.cacheSize == (if r.cacheSize == 0 then DefaultCacheSize else r.cacheSize)
    ensures d.expirationTimeMilliseconds ==
              (if r.expirationTimeMilliseconds == 0 then DefaultExpirationTimeMilliseconds else r.expirationTimeMilliseconds)
  {
    UserMappingResolver(if r.cacheSize == 0 then DefaultCacheSize else r.cacheSize,
                        if r.expirationTimeMilliseconds == 0 then DefaultExpirationTimeMilliseconds else r.expirationTimeMilliseconds)
  }

  /** After the defaults neither setting is zero; applying them again changes nothing; settings
      that were not zero are left exactly as they were. */
  lemma ResolverDefaultsProperties(r: UserMappingResolver)
    ensures ResolverWithDefaults(r).cacheSize != 0 && ResolverWithDefaults(r).expirationTimeMilliseconds != 0
    ensures ResolverWithDefaults(ResolverWithDefaults(r)) == ResolverWithDefaults(r)
    ensures r.cacheSize != 0 && r.expirationTimeMilliseconds != 0 ==> ResolverWithDefaults(r) == r
    ensures ResolverWithDefaults(r).expirationTimeMilliseconds == 300000 || ResolverWithDefaults(r).expirationTimeMilliseconds == r.expirationTimeMilliseconds
  {
  }

  /** The decimal rendering of `%d` for the values it is used on here. */
  function Decimal(n: nat): (s: string)
    ensures |s| >= 1
    decreases n
  {
    var digit := ['0' + (n % 10) as char];
    if n < 10 then digit else Decimal(n / 10) + digit
  }

  /** The checks of `validateConfiguration`, in the order they run. */
  datatype Check =
    | UserIdOfDomain
    | MatrixTimeoutPositive
    | RetryIntervalPositive
    | GatewayTimeoutPositive
    | GatewayTimeoutNotBelowMatrix
    | HttpApiTimeoutPositive

  function Order(k: Check): nat
  {
    match k
    case UserIdOfDomain => 0
    case MatrixTimeoutPositive => 1
    case RetryIntervalPositive => 2
    case GatewayTimeoutPositive => 3
    case GatewayTimeoutNotBelowMatrix => 4
    case HttpApiTimeoutPositive => 5
  }

  const MatrixTimeoutMessage := "Matrix.TimeoutMilliseconds needs to be a positive number"
  const RetryIntervalMessage := "Reconciliation.RetryIntervalMilliseconds needs to be a positive number"
  const GatewayTimeoutMessage := "HttpGateway.TimeoutMilliseconds needs to be a positive number"
  const HttpApiTimeoutMessage := "HttpApi.TimeoutMilliseconds needs to be a positive number"

  function UserIdMessage(userId: string, domain: string): string
  {
    "Reconciliation user `" + userId + "` (specified in Corporal.UserID) is not hosted on the managed homeserver domain (" + domain + ")"
  }

  function GatewayBelowMatrixMessage(gateway: nat, matrix: nat): string
  {
    "HttpGateway.TimeoutMilliseconds (" + Decimal(gateway) + ") needs to be larger than Matrix.TimeoutMilliseconds (" + Decimal(matrix) + ")"
  }

  /** The configuration as decoded; `setConfigurationDefaults` updates it in place. */
  class Configuration {
    var matrix: Matrix
    var corporal: Corporal
    var reconciliation: Reconciliation
    var httpApi: HttpApi
    var httpGateway: HttpGateway
    var policyProvider: map<string, Json>
    var misc: Misc

    constructor(matrix: Matrix, corporal: Corporal, reconciliation: Reconciliation, httpApi: HttpApi,
                httpGateway: HttpGateway, policyProvider: map<string, Json>, misc: Misc)
      ensures this.matrix == matrix && this.corporal == corporal && this.reconciliation == reconciliation
      ensures this.httpApi == httpApi && this.httpGateway == httpGateway
      ensures this.policyProvider == policyProvider && this.misc == misc
    {
      this.matrix := matrix;
      this.corporal := corporal;
      this.reconciliation := reconciliation;
      this.httpApi := httpApi;
      this.httpGateway := httpGateway;
      this.policyProvider := policyProvider;
      this.misc := misc;
    }

    /** `setConfigurationDefaults`: only the user-mapping resolver settings change. */
    method SetDefaults()
      modifies this
      ensures httpGateway == old(httpGateway).(userMappingResolver := ResolverWithDefaults(old(httpGateway).userMappingResolver))
      ensures matrix == old(matrix) && corporal == old(corporal) && reconciliation == old(reconciliation)
      ensures httpApi == old(httpApi) && policyProvider == old(policyProvider) && misc == old(misc)
    {
      if httpGateway.userMappingResolver.cacheSize == 0 {
        httpGateway := httpGateway.(userMappingResolver := httpGateway.userMappingResolver.(cacheSize := DefaultCacheSize));
      }
      if httpGateway.userMappingResolver.expirationTimeMilliseconds == 0 {
        httpGateway := httpGateway.(userMappingResolver :=
          httpGateway.userMappingResolver.(expirationTimeMilliseconds := DefaultExpirationTimeMilliseconds));
      }
    }

    /** Whether one check of `validateConfiguration` passes. */
    predicate Passes(k: Check)
      reads this
    {
      match k
      case UserIdOfDomain => MatrixUtil.IsFullUserIdOfDomain(corporal.userId, matrix.homeserverDomainName)
      case MatrixTimeoutPositive => matrix.timeoutMilliseconds > 0
      case RetryIntervalPositive => reconciliation.retryIntervalMilliseconds > 0
      case GatewayTimeoutPositive => httpGateway.timeoutMilliseconds > 0
      case GatewayTimeoutNotBelowMatrix => httpGateway.timeoutMilliseconds >= matrix.timeoutMilliseconds
      case HttpApiTimeoutPositive => httpApi.timeoutMilliseconds > 0
    }

    /** The check whose failure `validateConfiguration` reports: the first failing one in
        order. */
    function FirstFailedCheck(): (r: Option<Check>)
      reads this
      ensures r.None? <==> forall k :: Passes(k)
      ensures r.Some? ==> !Passes(r.value) && forall k :: Order(k) < Order(r.value) ==> Passes(k)
    {
      if !Passes(UserIdOfDomain) then Some(UserIdOfDomain)
      else if !Passes(MatrixTimeoutPositive) then Some(MatrixTimeoutPositive)
      else if !Passes(RetryIntervalPositive) then Some(RetryIntervalPositive)
      else if !Passes(GatewayTimeoutPositive) then Some(GatewayTimeoutPositive)
      else if !Passes(GatewayTimeoutNotBelowMatrix) then Some(GatewayTimeoutNotBelowMatrix)
      else if !Passes(HttpApiTimeoutPositive) then Some(HttpApiTimeoutPositive)
      else None
    }

    /** The error message of a failed check. */
    function Message(k: Check): string
      requires k == GatewayTimeoutNotBelowMatrix ==> httpGateway.timeoutMilliseconds > 0 && matrix.timeoutMilliseconds > 0
      reads this
    {
      match k
      case UserIdOfDomain => UserIdMessage(corporal.userId, matrix.homeserverDomainName)
      case MatrixTimeoutPositive => MatrixTimeoutMessage
      case RetryIntervalPositive => RetryIntervalMessage
      case GatewayTimeoutPositive => GatewayTimeoutMessage
      case GatewayTimeoutNotBelowMatrix => GatewayBelowMatrixMessage(httpGateway.timeoutMilliseconds, matrix.timeoutMilliseconds)
      case HttpApiTimeoutPositive => HttpApiTimeoutMessage
    }

    /** `validateConfiguration`: the message of the first failing check, or `None` when all pass.
        The internal REST auth settings are only logged about. */
    function Validate(): (r: Option<string>)
      reads this
      ensures r.None? <==> forall k :: Passes(k)
      ensures r.Some? ==> r.value == Message(FirstFailedCheck().value)
    {
      match FirstFailedCheck()
      case None => None
      case Some(k) => Some(Message(k))
    }
  }

  /** A gateway timeout equal to the Matrix timeout is accepted, whatever the message about a
      smaller one says; one below it is refused with both values in the message. */
  lemma GatewayTimeoutMayEqualMatrixTimeout(c: Configuration)
    requires MatrixUtil.IsFullUserIdOfDomain(c.corporal.userId, c.matrix.homeserverDomainName)
    requires c.matrix.timeoutMilliseconds > 0 && c.reconciliation.retryIntervalMilliseconds > 0
    ensures c.httpGateway.timeoutMilliseconds == c.matrix.timeoutMilliseconds && c.httpApi.timeoutMilliseconds > 0 ==>
              c.Validate().None?
    ensures 0 < c.httpGateway.timeoutMilliseconds < c.matrix.timeoutMilliseconds ==>
              c.Validate() == Some(GatewayBelowMatrixMessage(c.httpGateway.timeoutMilliseconds, c.matrix.timeoutMilliseconds))
  {
  }

  /** The internal REST auth settings never decide validation: two configurations that differ only
      there validate alike. */
  lemma InternalRestAuthOnlyLogs(a: Configuration, b: Configuration)
    requires a.matrix == b.matrix && a.corporal == b.corporal && a.reconciliation == b.reconciliation && a.httpApi == b.httpApi
    requires a.httpGateway.(internalRestAuth := b.httpGateway.internalRestAuth) == b.httpGateway
    ensures a.Validate() == b.Validate()
  {
  }

  /** What reading and decoding the file gave. */
  datatype Decoding = OpenFailed(reason: string) | DecodeFailed(reason: string) | Decoded(configuration: Configuration)

  /** `LoadConfiguration` after the file has been read and decoded: the defaults are filled in,
      then the configuration is validated. */
  method LoadConfiguration(filePath: string, decoding: Decoding) returns (r: Result<Configuration, string>)
    modifies if decoding.Decoded? then {decoding.configuration} else {}
    ensures decoding.OpenFailed? ==> r == Err("Failed to read configuration from " + filePath + ": " + decoding.reason)
    ensures decoding.DecodeFailed? ==> r == Err("Failed to decode JSON: " + decoding.reason)
    ensures decoding.Decoded? ==>
              var c := decoding.configuration;
              && c.httpGateway == old(c.httpGateway).(userMappingResolver := ResolverWithDefaults(old(c.httpGateway).userMappingResolver))
              && c.matrix == old(c.matrix) && c.corporal == old(c.corporal) && c.reconciliation == old(c.reconciliation)
              && c.httpApi == old(c.httpApi)
              && (c.Validate().None? ==> r == Ok(c))
              && (c.Validate().Some? ==> r == Err("Failed to validate configuration: " + c.Validate().value))
  {
    match decoding
    case OpenFailed(reason) =>
      return Err("Failed to read configuration from " + filePath + ": " + reason);
    case DecodeFailed(reason) =>
      return Err("Failed to decode JSON: " + reason);
    case Decoded(configuration) =>
      configuration.SetDefaults();
      var err := configuration.Validate();
      if err.Some? {
        return Err("Failed to validate configuration: " + err.value);
      }
      return Ok(configuration);
  }
}

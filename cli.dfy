/** The command line of `main`: `--ip` and `--endpoint` are required, the
    endpoint is one of nine fixed names, and each name dispatches exactly
    one query of the device client. */
module Cli {
  import opened Values

  datatype Endpoint =
    | MacInfo | MemMonInfo | Info | Settings | ProductInfo
    | C4aInfo | BuildInfo | OptionInfo | UpdateInfo

  /** The `choices` of `--endpoint`, in the order given. */
  const Choices: seq<string> :=
    ["mac_info", "mem_mon_info", "info", "settings", "product_info",
     "c4a_info", "build_info", "option_info", "update_info"]

  function Name(e: Endpoint): string
  {
    match e
    case MacInfo => "mac_info"
    case MemMonInfo => "mem_mon_info"
    case Info => "info"
    case Settings => "settings"
    case ProductInfo => "product_info"
    case C4aInfo => "c4a_info"
    case BuildInfo => "build_info"
    case OptionInfo => "option_info"
    case UpdateInfo => "update_info"
  }

  /** The argument parser's choice check: a listed name or nothing. */
  function ParseEndpoint(s: string): Option<Endpoint>
  {
    if s == "mac_info" then Some(MacInfo)
    else if s == "mem_mon_info" then Some(MemMonInfo)
    else if s == "info" then Some(Info)
    else if s == "settings" then Some(Settings)
    else if s == "product_info" then Some(ProductInfo)
    else if s == "c4a_info" then Some(C4aInfo)
    else if s == "build_info" then Some(BuildInfo)
    else if s == "option_info" then Some(OptionInfo)
    else if s == "update_info" then Some(UpdateInfo)
    else None
  }

  /** The query methods of the device client. */
  datatype Query =
    | GetMacInfo | GetMemMonInfo | GetInfo | GetSettings | GetProductInfo
    | GetC4aInfo | GetBuildInfo | GetOptionInfo | GetUpdateInfo

  /** The `if`/`elif` chain of `main`. */
  function QueryFor(e: Endpoint): Query
  {
    match e
    case MacInfo => GetMacInfo
    case MemMonInfo => GetMemMonInfo
    case Info => GetInfo
    case Settings => GetSettings
    case ProductInfo => GetProductInfo
    case C4aInfo => GetC4aInfo
    case BuildInfo => GetBuildInfo
    case OptionInfo => GetOptionInfo
    case UpdateInfo => GetUpdateInfo
  }

  /** What `main` does: query the device at `ip`, or stop with the argument
      parser's usage error. */
  datatype Invocation = Dispatched(ip: string, query: Query) | UsageError(code: int)

  /** The exit status of the argument parser on a usage error. */
  const UsageExitCode: int := 2

  /** `main` on the values of `--ip` and `--endpoint` (None when absent). */
  function Dispatch(ip: Option<string>, endpoint: Option<string>): Invocation
  {
    if ip.None? || endpoint.None? then UsageError(UsageExitCode)
    else match ParseEndpoint(endpoint.value)
      case None => UsageError(UsageExitCode)
      case Some(e) => Dispatched(ip.value, QueryFor(e))
  }

  /** Every endpoint is parsed back from its name. */
  lemma ParseName(e: Endpoint)
    ensures ParseEndpoint(Name(e)) == Some(e)
    ensures Name(e) in Choices
  {
  }

  /** A string is accepted exactly when it is one of the nine choices, and
      then it is the name of the endpoint it denotes. */
  lemma ParseAcceptsChoices(s: string)
    ensures ParseEndpoint(s).Some? <==> s in Choices
    ensures ParseEndpoint(s).Some? ==> Name(ParseEndpoint(s).value) == s
  {
  }

  /** Distinct endpoints dispatch distinct queries. */
  lemma QueryForInjective(a: Endpoint, b: Endpoint)
    ensures QueryFor(a) == QueryFor(b) ==> a == b
  {
  }

  /** `main` dispatches exactly one query, with the given address, exactly
      when both arguments are present and the endpoint is a choice; otherwise
      it stops with the usage error and queries nothing. */
  lemma DispatchOutcome(ip: Option<string>, endpoint: Option<string>)
    ensures Dispatch(ip, endpoint).Dispatched? <==>
      ip.Some? && endpoint.Some? && endpoint.value in Choices
    ensures Dispatch(ip, endpoint).Dispatched? ==>
      Dispatch(ip, endpoint).ip == ip.value
      && Dispatch(ip, endpoint).query == QueryFor(ParseEndpoint(endpoint.value).value)
    ensures Dispatch(ip, endpoint).UsageError? ==> Dispatch(ip, endpoint).code == UsageExitCode
  {
    if endpoint.Some? {
      ParseAcceptsChoices(endpoint.value);
    }
  }
}

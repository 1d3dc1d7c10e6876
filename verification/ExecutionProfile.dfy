/** The execution profile of a run: where it may run, how hard it may think, and how it must be verified. */
module ExecutionProfile {

  datatype Provider = CodexCli | ClaudeCli | AgyCli | OpenRouterApi

  datatype Profile = Dev | Prod

  datatype Effort = Low | Medium | High | XHigh | Max | Ultra

  datatype Risk = OrdinaryRisk | HighRisk

  datatype VerificationMode = DiffScoped | FullFailClosed

  function SupportedEfforts(p: Provider): set<Effort> {
    match p
    case CodexCli => {Low, Medium, High, XHigh, Max, Ultra}
    case ClaudeCli => {Low, Medium, High, XHigh, Max}
    case AgyCli => {Low, Medium, High}
    case OpenRouterApi => {}
  }

  function ResolveVerificationMode(profile: Profile, risk: Risk): VerificationMode {
    if profile.Prod? || risk.HighRisk? then FullFailClosed else DiffScoped
  }
}

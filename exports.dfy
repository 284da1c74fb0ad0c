/**
  The metadata the pass collects for each exported method: the remote-call
  mode, the export arguments, the exported-method record and the per-class
  aggregate.
*/
module Exports {
  import opened Syntax

  /** How a networked peer may call the method. */
  datatype RpcMode = Disabled | Remote | RemoteSync | Master | Puppet | MasterSync | PuppetSync

  /** The seven strings `rpc = "..."` accepts. */
  const ModeNames: set<string> :=
    {"remote", "remote_sync", "master", "puppet", "disabled", "master_sync", "puppet_sync"}

  /** The string that selects each mode. */
  function ModeName(m: RpcMode): (s: string)
    ensures s in ModeNames
  {
    match m
    case Disabled => "disabled"
    case Remote => "remote"
    case RemoteSync => "remote_sync"
    case Master => "master"
    case Puppet => "puppet"
    case MasterSync => "master_sync"
    case PuppetSync => "puppet_sync"
  }

  /** Exact, case-sensitive match of a mode string; anything else is `None`. */
  function ParseRpcMode(s: string): (r: Option<RpcMode>)
    ensures r.Some? <==> s in ModeNames
    ensures r.Some? ==> ModeName(r.value) == s
  {
    match s
    case "remote" => Some(Remote)
    case "remote_sync" => Some(RemoteSync)
    case "master" => Some(Master)
    case "puppet" => Some(Puppet)
    case "disabled" => Some(Disabled)
    case "master_sync" => Some(MasterSync)
    case "puppet_sync" => Some(PuppetSync)
    case _ => None
  }

  /** Every mode is selected by its own name and no other mode is. */
  lemma ParseModeName(m: RpcMode)
    ensures ParseRpcMode(ModeName(m)) == Some(m)
  {
  }

  /** Parsing is injective on the strings it accepts: seven strings, seven distinct modes. */
  lemma ParseInjective(s: string, t: string)
    requires ParseRpcMode(s).Some? && ParseRpcMode(s) == ParseRpcMode(t)
    ensures s == t
  {
    assert ModeName(ParseRpcMode(s).value) == s;
  }

  /** `RpcMode::default()`. */
  function DefaultRpcMode(): (m: RpcMode)
    ensures ParseRpcMode("disabled") == Some(m)
  {
    Disabled
  }

  /** `optional_args` is the number of trailing optional parameters, if any were marked. */
  datatype ExportArgs = ExportArgs(optionalArgs: Option<nat>, rpcMode: RpcMode)

  /** `ExportArgs::default()`: no optional parameters, rpc disabled. */
  function DefaultExportArgs(): (a: ExportArgs)
    ensures a.optionalArgs == None && a.rpcMode == DefaultRpcMode()
  {
    ExportArgs(None, DefaultRpcMode())
  }

  datatype ExportMethod = ExportMethod(sig: Signature, args: ExportArgs)

  /** The class type and its exported methods in declaration order. */
  datatype ClassMethodExport = ClassMethodExport(classTy: Opaque, methods: seq<ExportMethod>)
}

/** The VM lifecycle tool of server/tools/homelab_vm.py: choosing the VMs a
    request applies to, the state gate in front of each `virsh` command, and
    the one report line per VM. Remote commands go through `ssh_command`,
    which differs from the one in homelab_status.py only in its timeout (30
    seconds instead of 10); a timeout is an outcome of the process here, so
    both are modelled by HomelabStatus.SshCommand. */
module HomelabVm {
  import opened Wrappers
  import opened Strings
  import opened HomelabStatus

  /** The configuration fallback used when no configuration module exists. */
  const HomelabHost: string := "homelab"
  const DefaultVmNames: seq<string> := ["vm1", "vm2", "vm3", "vm4", "vm5"]

  function RunOn(remote: Remote, command: string): SshResult {
    SshCommand(remote(HomelabHost, command))
  }

  /** `get_vm_state`: the lower-cased `virsh domstate` output, or "unknown"
      when the command fails. */
  function VmState(remote: Remote, vm: string): (r: string)
    ensures !RunOn(remote, "sudo virsh domstate " + vm).success ==> r == "unknown"
    ensures RunOn(remote, "sudo virsh domstate " + vm).success ==> r == Lower(RunOn(remote, "sudo virsh domstate " + vm).stdout)
  {
    var result := RunOn(remote, "sudo virsh domstate " + vm);
    if result.success then Lower(result.stdout) else "unknown"
  }

  /** The icon in front of a state. */
  function StatusIcon(state: string): (r: string)
    ensures r == "✅" <==> state == "running"
    ensures r == "❌" <==> state == "shut off"
    ensures r == "⏸️" <==> state != "running" && state != "shut off"
  {
    if state == "running" then "✅" else if state == "shut off" then "❌" else "⏸️"
  }

  /** `stop_vm`: a forced stop powers off with `destroy`, otherwise a
      graceful `shutdown`. */
  function StopCommand(vm: string, force: bool): (r: string)
    ensures force ==> r == "sudo virsh destroy " + vm
    ensures !force ==> r == "sudo virsh shutdown " + vm
  {
    if force then "sudo virsh destroy " + vm else "sudo virsh shutdown " + vm
  }

  /** The `action` argument; any text other than the six the loop handles
      (and "list", handled before it) is `Other`. */
  datatype VmAction = Status | Start | Stop | Restart | Suspend | Resume | Other

  function ParseAction(action: string): (a: VmAction)
    ensures a == Status <==> action == "status"
    ensures a == Start <==> action == "start"
    ensures a == Stop <==> action == "stop"
    ensures a == Restart <==> action == "restart"
    ensures a == Suspend <==> action == "suspend"
    ensures a == Resume <==> action == "resume"
  {
    if action == "status" then Status
    else if action == "start" then Start
    else if action == "stop" then Stop
    else if action == "restart" then Restart
    else if action == "suspend" then Suspend
    else if action == "resume" then Resume
    else Other
  }

  /** The `virsh` command an action issues for a VM in `state`, if the state
      gate lets it through. */
  function Command(action: VmAction, vm: string, state: string, force: bool): Option<string> {
    match action
    case Start => if state == "running" then None else Some("sudo virsh start " + vm)
    case Stop => if state == "shut off" then None else Some(StopCommand(vm, force))
    case Restart => if state != "running" then None else Some("sudo virsh reboot " + vm)
    case Suspend => if state != "running" then None else Some("sudo virsh suspend " + vm)
    case Resume => if state != "paused" then None else Some("sudo virsh resume " + vm)
    case _ => None
  }

  /** The state gates: `start` skips a running VM, `stop` skips a shut-off
      one, `restart` and `suspend` need a running VM and `resume` a paused
      one; `status` and unknown actions issue nothing. A stop that goes
      through powers off when forced and shuts down otherwise. */
  lemma Gates(action: VmAction, vm: string, state: string, force: bool)
    ensures action == Start ==> (Command(action, vm, state, force).Some? <==> state != "running")
    ensures action == Stop ==> (Command(action, vm, state, force).Some? <==> state != "shut off")
    ensures action == Stop && state != "shut off" ==> Command(action, vm, state, force) == Some(StopCommand(vm, force))
    ensures action in {Restart, Suspend} ==> (Command(action, vm, state, force).Some? <==> state == "running")
    ensures action == Resume ==> (Command(action, vm, state, force).Some? <==> state == "paused")
    ensures action in {Status, Other} ==> Command(action, vm, state, force).None?
  {
  }

  /** The line a gated action reports without issuing a command. */
  function SkipLine(action: VmAction, vm: string): string {
    match action
    case Start => "ℹ️  " + vm + " is already running"
    case Stop => "ℹ️  " + vm + " is already stopped"
    case Restart => "❌ Cannot restart " + vm + " - not currently running"
    case Suspend => "❌ Cannot suspend " + vm + " - not currently running"
    case _ => "❌ Cannot resume " + vm + " - not currently suspended"
  }

  /** The line after the command ran: success, or the failure with its
      error output. */
  function OutcomeLine(action: VmAction, vm: string, force: bool, result: SshResult): string {
    match action
    case Start =>
      if result.success then "✅ " + vm + " started successfully" else "❌ Failed to start " + vm + ": " + result.stderr
    case Stop =>
      if result.success then "✅ " + vm + " " + (if force then "force stopped" else "shutdown initiated")
      else "❌ Failed to stop " + vm + ": " + result.stderr
    case Restart =>
      if result.success then "✅ " + vm + " restart initiated" else "❌ Failed to restart " + vm + ": " + result.stderr
    case Suspend =>
      if result.success then "✅ " + vm + " suspended" else "❌ Failed to suspend " + vm + ": " + result.stderr
    case _ =>
      if result.success then "✅ " + vm + " resumed" else "❌ Failed to resume " + vm + ": " + result.stderr
  }

  /** The line an action reports for one VM in `state`. */
  function VmLine(action: VmAction, vm: string, state: string, force: bool, remote: Remote): string {
    if action == Status then StatusIcon(state) + " " + vm + ": " + state
    else match Command(action, vm, state, force)
      case None => SkipLine(action, vm)
      case Some(c) => OutcomeLine(action, vm, force, RunOn(remote, c))
  }

  /** What one VM contributes to the reply: nothing for an unknown action,
      otherwise exactly one line. */
  function VmLines(action: VmAction, vm: string, force: bool, remote: Remote): seq<string> {
    if action == Other then [] else [VmLine(action, vm, VmState(remote, vm), force, remote)]
  }

  /** A `start` on a running VM, or a `stop` on a shut-off one, reports the
      skip and issues no command. */
  lemma SkipsReported(vm: string, force: bool, remote: Remote)
    ensures VmLine(Start, vm, "running", force, remote) == "ℹ️  " + vm + " is already running"
    ensures VmLine(Stop, vm, "shut off", force, remote) == "ℹ️  " + vm + " is already stopped"
  {
  }

  /** The lines of a loop that appends `f(x)` for each `x` in turn. */
  function ConcatMap(xs: seq<string>, f: string -> seq<string>): seq<string>
    decreases |xs|
  {
    if xs == [] then [] else ConcatMap(xs[..|xs| - 1], f) + f(xs[|xs| - 1])
  }

  /** When every step appends exactly one line, line `i` is the one for
      element `i`. */
  lemma {:induction false} ConcatMapSingles(xs: seq<string>, f: string -> seq<string>)
    requires forall x :: |f(x)| == 1
    ensures |ConcatMap(xs, f)| == |xs|
    ensures forall i :: 0 <= i < |xs| ==> ConcatMap(xs, f)[i] == f(xs[i])[0]
    decreases |xs|
  {
    if xs != [] {
      var init := xs[..|xs| - 1];
      ConcatMapSingles(init, f);
      assert forall i :: 0 <= i < |init| ==> init[i] == xs[i];
    }
  }

  /** When no step appends anything, nothing is appended. */
  lemma {:induction false} ConcatMapEmpty(xs: seq<string>, f: string -> seq<string>)
    requires forall x :: f(x) == []
    ensures ConcatMap(xs, f) == []
    decreases |xs|
  {
    if xs != [] {
      ConcatMapEmpty(xs[..|xs| - 1], f);
    }
  }

  /** The step of the loop over the VMs to process. */
  function Step(action: VmAction, force: bool, remote: Remote): string -> seq<string> {
    vm => VmLines(action, vm, force, remote)
  }

  /** The lines for a list of VMs, in processing order. */
  function AllLines(action: VmAction, vms: seq<string>, force: bool, remote: Remote): seq<string> {
    ConcatMap(vms, Step(action, force, remote))
  }

  /** Exactly one line per VM, in processing order, for every action the
      loop handles; none at all for any other action. */
  lemma OneLinePerVm(action: VmAction, vms: seq<string>, force: bool, remote: Remote)
    ensures action != Other ==> |AllLines(action, vms, force, remote)| == |vms|
    ensures action != Other ==> forall i :: 0 <= i < |vms| ==>
      AllLines(action, vms, force, remote)[i] == VmLine(action, vms[i], VmState(remote, vms[i]), force, remote)
    ensures action == Other ==> AllLines(action, vms, force, remote) == []
  {
    var f := Step(action, force, remote);
    if action != Other {
      ConcatMapSingles(vms, f);
    } else {
      ConcatMapEmpty(vms, f);
    }
  }

  /** The VMs a request applies to: "all" is every configured VM in
      configuration order; any other name must be configured. */
  function Targets(vmName: string, available: seq<string>): (r: Result<seq<string>, string>)
    ensures vmName == "all" ==> r == Ok(available)
    ensures vmName != "all" && vmName in available ==> r == Ok([vmName])
    ensures vmName != "all" && vmName !in available ==>
      r == Err("Error: Unknown VM '" + vmName + "'. Available: " + Join(available, ", "))
  {
    if vmName == "all" then Ok(available)
    else if vmName in available then Ok([vmName])
    else Err("Error: Unknown VM '" + vmName + "'. Available: " + Join(available, ", "))
  }

  /** One line of the `list` action. */
  function ListLine(vm: string, state: string): string {
    "  " + StatusIcon(state) + " " + PadRight(vm, 15) + " - " + state
  }

  /** The line `list` writes for one VM, after querying its state. */
  function ListEntry(remote: Remote, vm: string): seq<string> {
    [ListLine(vm, VmState(remote, vm))]
  }

  /** The step of the `list` loop. */
  function ListStep(remote: Remote): string -> seq<string> {
    vm => ListEntry(remote, vm)
  }

  /** The lines of the `list` action after its heading. */
  function ListLines(available: seq<string>, remote: Remote): seq<string> {
    ConcatMap(available, ListStep(remote))
  }

  /** The `list` action shows every configured VM, in configuration order,
      with its state and icon. */
  lemma ListLinesAt(available: seq<string>, remote: Remote)
    ensures |ListLines(available, remote)| == |available|
    ensures forall i :: 0 <= i < |available| ==>
      ListLines(available, remote)[i] == ListLine(available[i], VmState(remote, available[i]))
  {
    ConcatMapSingles(available, ListStep(remote));
    forall i | 0 <= i < |available|
      ensures ListLines(available, remote)[i] == ListLine(available[i], VmState(remote, available[i]))
    {
      var vm := available[i];
      assert ListStep(remote)(vm) == ListEntry(remote, vm);
    }
  }

  /** The `list` loop. */
  method ListVms(available: seq<string>, remote: Remote) returns (text: string)
    ensures text == Join(["Available VMs:"] + ListLines(available, remote), "\n")
  {
    var lines := [];
    var i := 0;
    while i < |available|
      invariant 0 <= i <= |available|
      invariant lines == ListLines(available[..i], remote)
    {
      assert available[..i + 1][..i] == available[..i];
      assert available[..i + 1][i] == available[i];
      lines := lines + ListEntry(remote, available[i]);
      i := i + 1;
    }
    assert available[..i] == available;
    text := Join(["Available VMs:"] + lines, "\n");
  }

  /** The loop over the VMs to process. */
  method ProcessVms(action: VmAction, vms: seq<string>, force: bool, remote: Remote) returns (results: seq<string>)
    ensures results == AllLines(action, vms, force, remote)
  {
    results := [];
    var i := 0;
    while i < |vms|
      invariant 0 <= i <= |vms|
      invariant results == AllLines(action, vms[..i], force, remote)
    {
      assert vms[..i + 1][..i] == vms[..i];
      results := results + VmLines(action, vms[i], force, remote);
      i := i + 1;
    }
    assert vms[..i] == vms;
  }

  /** `homelab_vm`: `list` needs no VM name; every other action without one
      (absent or empty) is refused before any VM is looked at. */
  method HomelabVm(action: Option<string>, vmName: Option<string>, force: bool,
                   available: seq<string>, remote: Remote) returns (text: string)
    ensures action == Some("list") ==>
      text == Join(["Available VMs:"] + ListLines(available, remote), "\n")
    ensures action != Some("list") && vmName.GetOr("") == "" ==> text == "Error: vm_name is required for this action"
    ensures action != Some("list") && vmName.GetOr("") != "" ==>
      match Targets(vmName.GetOr(""), available)
      case Err(e) => text == e
      case Ok(vms) => text == Join(AllLines(ParseAction(action.GetOr("")), vms, force, remote), "\n")
  {
    if action == Some("list") {
      text := ListVms(available, remote);
      return;
    }
    var name := vmName.GetOr("");
    if name == "" {
      return "Error: vm_name is required for this action";
    }
    var targets := Targets(name, available);
    if targets.Err? {
      return targets.error;
    }
    var results := ProcessVms(ParseAction(action.GetOr("")), targets.value, force, remote);
    text := Join(results, "\n");
  }
}

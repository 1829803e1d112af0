/** The homelab status report of server/tools/homelab_status.py: the remote
    commands run over ssh, the parsing of `virsh dominfo` and `docker ps`
    output, the service probes and the summary counts. What a remote command
    does is an input: a function from host and command text to the outcome of
    the `ssh` process. */
module HomelabStatus {
  import opened Wrappers
  import opened Strings

  /** How the `ssh` process ended: with an exit code and its output, by the
      timeout, or by another exception with its message. */
  datatype ProcessOutcome =
    | Completed(returncode: int, stdout: string, stderr: string)
    | TimedOut
    | Raised(message: string)

  /** The dict `ssh_command` returns. */
  datatype SshResult = SshResult(success: bool, stdout: string, stderr: string)

  type Remote = (string, string) -> ProcessOutcome

  /** `ssh_command`: success exactly when the process exited with code 0;
      both streams stripped; a timeout or another exception gives failure
      with empty output and the reason as the error text. */
  function SshCommand(outcome: ProcessOutcome): (r: SshResult)
    ensures r.success <==> outcome.Completed? && outcome.returncode == 0
    ensures outcome.Completed? ==> r.stdout == Strip(outcome.stdout) && r.stderr == Strip(outcome.stderr)
    ensures outcome.TimedOut? ==> r == SshResult(false, "", "Command timed out")
    ensures outcome.Raised? ==> r == SshResult(false, "", outcome.message)
  {
    match outcome
    case Completed(code, out, err) => SshResult(code == 0, Strip(out), Strip(err))
    case TimedOut => SshResult(false, "", "Command timed out")
    case Raised(m) => SshResult(false, "", m)
  }

  const Host: string := "aimph"

  function Run(remote: Remote, command: string): SshResult {
    SshCommand(remote(Host, command))
  }

  /** The output of a successful probe, else "unknown". */
  function OrUnknown(r: SshResult): string {
    if r.success then r.stdout else "unknown"
  }

  datatype HostStatus = HostStatus(uptime: string, cpuUsage: string, memory: string, disk: string)

  const UptimeCommand: string := "uptime -p"
  const CpuCommand: string := "top -bn1 | grep 'Cpu(s)' | awk '{print $2}' | cut -d'%' -f1"
  const MemoryCommand: string := "free -h | awk 'NR==2{printf \"%s/%s (%.1f%%)\", $3,$2,($3/$2)*100}'"
  const DiskCommand: string := "df -h / | awk 'NR==2{printf \"%s/%s (%s)\", $3,$2,$5}'"

  /** A field read from a probe: the stripped output when the ssh process
      exited with code 0, else "unknown". */
  predicate Probed(remote: Remote, command: string, field: string) {
    var outcome := remote(Host, command);
    field == (if outcome.Completed? && outcome.returncode == 0 then Strip(outcome.stdout) else "unknown")
  }

  /** `get_host_status` */
  function GetHostStatus(remote: Remote): (r: HostStatus)
    ensures Probed(remote, UptimeCommand, r.uptime) && Probed(remote, CpuCommand, r.cpuUsage)
    ensures Probed(remote, MemoryCommand, r.memory) && Probed(remote, DiskCommand, r.disk)
  {
    HostStatus(OrUnknown(Run(remote, UptimeCommand)), OrUnknown(Run(remote, CpuCommand)),
               OrUnknown(Run(remote, MemoryCommand)), OrUnknown(Run(remote, DiskCommand)))
  }

  /** The exceptions the dominfo parse can raise: `split()[0]` on an empty
      memory value, and `int()` on a value that is not an integer. */
  datatype PyError = IndexError | ValueError(literal: string)

  function ErrorText(e: PyError): string {
    match e
    case IndexError => "list index out of range"
    case ValueError(l) => "invalid literal for int() with base 10: '" + l + "'"
  }

  /** `line.split(":", 1)[1].strip()` for a line holding a colon. */
  function AfterFirstColon(line: string): string {
    var i := IndexOf(line, ":");
    if i < 0 then "" else Strip(line[i + 1..])
  }

  /** The memory figure: the first word of the value read as KiB, divided
      twice by 1024 with Python's floor division (which Dafny's division
      matches for a positive divisor), followed by "GB". */
  function MemoryField(value: string): (r: Result<string, PyError>)
    ensures Words(value) == [] ==> r == Err(IndexError)
    ensures Words(value) != [] && ParseInt(Words(value)[0]).None? ==> r == Err(ValueError(Words(value)[0]))
    ensures Words(value) != [] && ParseInt(Words(value)[0]).Some? ==>
      r == Ok(IntToString(ParseInt(Words(value)[0]).value / 1048576) + "GB")
  {
    var words := Words(value);
    if words == [] then Err(IndexError)
    else match ParseInt(words[0])
      case None => Err(ValueError(words[0]))
      case Some(kib) =>
        DivideTwice(kib);
        Ok(IntToString(kib / 1024 / 1024) + "GB")
  }

  /** Dividing by 1024 twice is dividing by 2^20. */
  lemma DivideTwice(n: int)
    ensures n / 1024 / 1024 == n / 1048576
  {
    var q1 := n / 1024;
    var r1 := n % 1024;
    var q2 := q1 / 1024;
    var r2 := q1 % 1024;
    assert n == 1024 * q1 + r1;
    assert q1 == 1024 * q2 + r2;
    assert n == 1048576 * q2 + (1024 * r2 + r1);
    assert 0 <= 1024 * r2 + r1 < 1048576;
  }

  datatype DomInfo = DomInfo(state: string, cpu: string, memory: string)

  const UnknownInfo: DomInfo := DomInfo("unknown", "unknown", "unknown")

  /** One line of `virsh dominfo` applied to the fields read so far. */
  function ApplyLine(f: DomInfo, line: string): Result<DomInfo, PyError> {
    if StartsWith(line, "State:") then Ok(f.(state := AfterFirstColon(line)))
    else if StartsWith(line, "CPU(s):") then Ok(f.(cpu := AfterFirstColon(line)))
    else if StartsWith(line, "Used memory:") then
      match MemoryField(AfterFirstColon(line))
      case Err(e) => Err(e)
      case Ok(m) => Ok(f.(memory := m))
    else Ok(f)
  }

  /** The fields after reading `lines` in order, or the first exception. */
  function ScanDominfo(lines: seq<string>): Result<DomInfo, PyError>
    decreases |lines|
  {
    if lines == [] then Ok(UnknownInfo)
    else match ScanDominfo(lines[..|lines| - 1])
      case Err(e) => Err(e)
      case Ok(f) => ApplyLine(f, lines[|lines| - 1])
  }

  /** The parse loop of `get_vm_status` over one dominfo output. */
  method ParseDominfo(stdout: string) returns (r: Result<DomInfo, PyError>)
    ensures r == ScanDominfo(Split(stdout, "\n"))
  {
    var lines := Split(stdout, "\n");
    var f := UnknownInfo;
    var i := 0;
    while i < |lines|
      invariant 0 <= i <= |lines|
      invariant ScanDominfo(lines[..i]) == Ok(f)
    {
      assert lines[..i + 1][..i] == lines[..i];
      var next := ApplyLine(f, lines[i]);
      if next.Err? {
        ScanDominfoErrSticks(lines, i + 1);
        return next;
      }
      f := next.value;
      i := i + 1;
    }
    assert lines[..i] == lines;
    r := Ok(f);
  }

  /** Once the parse has raised, later lines do not matter. */
  lemma {:induction false} ScanDominfoErrSticks(lines: seq<string>, k: nat)
    requires k <= |lines| && ScanDominfo(lines[..k]).Err?
    ensures ScanDominfo(lines) == ScanDominfo(lines[..k])
    decreases |lines| - k
  {
    if k < |lines| {
      assert lines[..k + 1][..k] == lines[..k];
      ScanDominfoErrSticks(lines, k + 1);
    } else {
      assert lines[..k] == lines;
    }
  }

  /** A line that is not a "State:" line leaves the state as it was. */
  lemma ApplyLineKeepsState(f: DomInfo, line: string)
    requires !StartsWith(line, "State:") && ApplyLine(f, line).Ok?
    ensures ApplyLine(f, line).value.state == f.state
  {
  }

  /** Without a "State:" line the state stays "unknown". */
  lemma {:induction false} StateUnknownWithoutStateLine(lines: seq<string>)
    requires ScanDominfo(lines).Ok?
    requires forall i :: 0 <= i < |lines| ==> !StartsWith(lines[i], "State:")
    ensures ScanDominfo(lines).value.state == "unknown"
    decreases |lines|
  {
    if lines != [] {
      var init := lines[..|lines| - 1];
      assert forall i :: 0 <= i < |init| ==> init[i] == lines[i];
      StateUnknownWithoutStateLine(init);
      ApplyLineKeepsState(ScanDominfo(init).value, lines[|lines| - 1]);
    }
  }

  /** The state reported is the value of the LAST "State:" line. */
  lemma {:induction false} StateFromLastStateLine(lines: seq<string>, k: nat)
    requires ScanDominfo(lines).Ok?
    requires k < |lines| && StartsWith(lines[k], "State:")
    requires forall j :: k < j < |lines| ==> !StartsWith(lines[j], "State:")
    ensures ScanDominfo(lines).value.state == AfterFirstColon(lines[k])
    decreases |lines|
  {
    var init := lines[..|lines| - 1];
    if k < |lines| - 1 {
      assert forall i :: 0 <= i < |init| ==> init[i] == lines[i];
      StateFromLastStateLine(init, k);
      ApplyLineKeepsState(ScanDominfo(init).value, lines[|lines| - 1]);
    }
  }

  /** Without a "Used memory:" line the parse cannot raise and the memory
      stays "unknown". */
  lemma {:induction false} NoMemoryLineNoError(lines: seq<string>)
    requires forall i :: 0 <= i < |lines| ==> !StartsWith(lines[i], "Used memory:")
    ensures ScanDominfo(lines).Ok? && ScanDominfo(lines).value.memory == "unknown"
    decreases |lines|
  {
    if lines != [] {
      var init := lines[..|lines| - 1];
      forall i | 0 <= i < |init| ensures !StartsWith(init[i], "Used memory:") {
        assert init[i] == lines[i];
      }
      NoMemoryLineNoError(init);
    }
  }

  datatype VmInfo = VmInfo(name: string, state: string, cpu: string, memory: string, ip: string)

  const VmNames: seq<string> := ["apps01", "db01", "gitlab01", "gitrunner01", "ops01"]

  /** `ip_map.get(vm_name, "unknown")` */
  function IpOf(name: string): string {
    if name == "apps01" then "192.168.20.10"
    else if name == "db01" then "192.168.30.10"
    else if name == "gitlab01" then "192.168.40.10"
    else if name == "gitrunner01" then "192.168.20.11"
    else if name == "ops01" then "192.168.40.11"
    else "unknown"
  }

  function DominfoCommand(name: string): string {
    "sudo virsh dominfo " + name
  }

  /** The entry for `name` after its dominfo call: none when the call
      fails, the parsed fields when it succeeds, the error when parsing
      raises. */
  function VmEntry(name: string, remote: Remote): Result<seq<VmInfo>, PyError> {
    var info := Run(remote, DominfoCommand(name));
    if !info.success then Ok([])
    else match ScanDominfo(Split(info.stdout, "\n"))
      case Err(e) => Err(e)
      case Ok(f) => Ok([VmInfo(name, f.state, f.cpu, f.memory, IpOf(name))])
  }

  /** One step of the VM loop: an error sticks, otherwise the entry for
      `name` is appended. */
  function VmStep(acc: Result<seq<VmInfo>, PyError>, name: string, remote: Remote): Result<seq<VmInfo>, PyError> {
    match acc
    case Err(e) => Err(e)
    case Ok(vs) =>
      match VmEntry(name, remote)
      case Err(e) => Err(e)
      case Ok(entry) => Ok(vs + entry)
  }

  /** The VMs listed for `names`, in order: a VM whose dominfo fails is
      skipped, a parse that raises ends everything. */
  function VmsFrom(names: seq<string>, remote: Remote): Result<seq<VmInfo>, PyError>
    decreases |names|
  {
    if names == [] then Ok([])
    else VmStep(VmsFrom(names[..|names| - 1], remote), names[|names| - 1], remote)
  }

  /** The names whose dominfo call succeeds, in order. */
  function Reachable(names: seq<string>, remote: Remote): seq<string>
    decreases |names|
  {
    if names == [] then []
    else
      var last := names[|names| - 1];
      Reachable(names[..|names| - 1], remote) + (if Run(remote, DominfoCommand(last)).success then [last] else [])
  }

  function NamesOf(vms: seq<VmInfo>): (r: seq<string>)
    ensures |r| == |vms|
    ensures forall i :: 0 <= i < |vms| ==> r[i] == vms[i].name
  {
    seq(|vms|, i requires 0 <= i < |vms| => vms[i].name)
  }

  /** The entry of a VM is the VM itself when it is reachable, with its
      fixed address, and nothing otherwise. */
  lemma VmEntryIsTheVm(name: string, remote: Remote)
    requires VmEntry(name, remote).Ok?
    ensures NamesOf(VmEntry(name, remote).value) == if Run(remote, DominfoCommand(name)).success then [name] else []
    ensures forall v :: v in VmEntry(name, remote).value ==> v.ip == IpOf(v.name)
  {
    VmEntryNames(name, remote);
    VmEntryAddresses(name, remote);
  }

  lemma VmEntryNames(name: string, remote: Remote)
    requires VmEntry(name, remote).Ok?
    ensures NamesOf(VmEntry(name, remote).value) == if Run(remote, DominfoCommand(name)).success then [name] else []
  {
    if Run(remote, DominfoCommand(name)).success {
      var v :| VmEntry(name, remote).value == [v] && v.name == name;
      assert NamesOf([v])[0] == v.name;
    }
  }

  lemma VmEntryAddresses(name: string, remote: Remote)
    requires VmEntry(name, remote).Ok?
    ensures forall v :: v in VmEntry(name, remote).value ==> v.ip == IpOf(v.name)
  {
  }

  lemma NamesOfAppend(a: seq<VmInfo>, b: seq<VmInfo>)
    ensures NamesOf(a + b) == NamesOf(a) + NamesOf(b)
  {
  }

  /** A step that succeeds adds the VM exactly when it is reachable, with
      its fixed address. */
  lemma VmStepAdds(acc: Result<seq<VmInfo>, PyError>, name: string, remote: Remote)
    requires VmStep(acc, name, remote).Ok?
    ensures acc.Ok?
    ensures NamesOf(VmStep(acc, name, remote).value) ==
      NamesOf(acc.value) + (if Run(remote, DominfoCommand(name)).success then [name] else [])
    ensures forall v :: v in VmStep(acc, name, remote).value ==> v in acc.value || v.ip == IpOf(v.name)
  {
    VmEntryIsTheVm(name, remote);
    NamesOfAppend(acc.value, VmEntry(name, remote).value);
  }

  /** When nothing raises, the VMs reported are exactly the reachable ones,
      in order, each with its fixed address. */
  lemma {:induction false} VmsAreTheReachable(names: seq<string>, remote: Remote)
    requires VmsFrom(names, remote).Ok?
    ensures NamesOf(VmsFrom(names, remote).value) == Reachable(names, remote)
    ensures forall v :: v in VmsFrom(names, remote).value ==> v.ip == IpOf(v.name)
    decreases |names|
  {
    if names != [] {
      var init := names[..|names| - 1];
      VmStepAdds(VmsFrom(init, remote), names[|names| - 1], remote);
      VmsAreTheReachable(init, remote);
    }
  }

  /** `get_vm_status` */
  method GetVmStatus(remote: Remote) returns (r: Result<seq<VmInfo>, PyError>)
    ensures !Run(remote, "sudo virsh list --all").success ==> r == Ok([])
    ensures Run(remote, "sudo virsh list --all").success ==> r == VmsFrom(VmNames, remote)
  {
    if !Run(remote, "sudo virsh list --all").success {
      return Ok([]);
    }
    r := CollectVms(VmNames, remote);
  }

  /** The loop of `get_vm_status` over the configured names. */
  method CollectVms(names: seq<string>, remote: Remote) returns (r: Result<seq<VmInfo>, PyError>)
    ensures r == VmsFrom(names, remote)
  {
    var vms: seq<VmInfo> := [];
    var i := 0;
    while i < |names|
      invariant 0 <= i <= |names|
      invariant VmsFrom(names[..i], remote) == Ok(vms)
    {
      var name := names[i];
      VmsFromSnoc(names, i, remote);
      var info := Run(remote, DominfoCommand(name));
      if info.success {
        var parsed := ParseDominfo(info.stdout);
        if parsed.Err? {
          VmsFromErrSticks(names, remote, i + 1);
          return Err(parsed.error);
        }
        vms := vms + [VmInfo(name, parsed.value.state, parsed.value.cpu, parsed.value.memory, IpOf(name))];
      } else {
        assert vms + [] == vms;
      }
      i := i + 1;
    }
    assert names[..i] == names;
    r := Ok(vms);
  }

  /** The VMs of one more name are one more step. */
  lemma VmsFromSnoc(names: seq<string>, i: nat, remote: Remote)
    requires i < |names|
    ensures VmsFrom(names[..i + 1], remote) == VmStep(VmsFrom(names[..i], remote), names[i], remote)
  {
    assert names[..i + 1][..i] == names[..i];
  }

  lemma {:induction false} VmsFromErrSticks(names: seq<string>, remote: Remote, k: nat)
    requires k <= |names| && VmsFrom(names[..k], remote).Err?
    ensures VmsFrom(names, remote) == VmsFrom(names[..k], remote)
    decreases |names| - k
  {
    if k < |names| {
      assert names[..k + 1][..k] == names[..k];
      VmsFromErrSticks(names, remote, k + 1);
    } else {
      assert names[..k] == names;
    }
  }

  datatype Container = Container(name: string, status: string, ports: string)

  /** One line of `docker ps` output: blank lines and lines with fewer than
      two '|'-separated fields give nothing; ports is the third field or "". */
  function ContainerOf(line: string): (r: Option<Container>)
    ensures IsBlank(line) ==> r.None?
    ensures !IsBlank(line) && |Split(line, "|")| >= 2 ==> r.Some?
    ensures r.Some? ==> |Split(line, "|")| >= 2 && r.value.name == Split(line, "|")[0] && r.value.status == Split(line, "|")[1]
    ensures r.Some? ==> r.value.ports == (if |Split(line, "|")| > 2 then Split(line, "|")[2] else "")
  {
    if IsBlank(line) then None
    else
      var parts := Split(line, "|");
      if |parts| >= 2 then Some(Container(parts[0], parts[1], if |parts| > 2 then parts[2] else "")) else None
  }

  function ContainersOf(lines: seq<string>): (r: seq<Container>)
    ensures |r| <= |lines|
    decreases |lines|
  {
    if lines == [] then []
    else
      var found := match ContainerOf(lines[|lines| - 1]) case Some(c) => [c] case None => [];
      ContainersOf(lines[..|lines| - 1]) + found
  }

  /** Fields joined with '|', none holding a '|', read back as the
      container they name: the third field is the ports, or "" when there
      are only two. */
  lemma ContainerOfJoin(fields: seq<string>)
    requires 2 <= |fields| <= 3
    requires forall k :: 0 <= k < |fields| ==> '|' !in fields[k]
    ensures ContainerOf(Join(fields, "|")) ==
      Some(Container(fields[0], fields[1], if |fields| > 2 then fields[2] else ""))
  {
    var line := Join(fields, "|");
    SplitJoin(fields, '|');
    JoinCons(fields[0], fields[1..], "|");
    assert [fields[0]] + fields[1..] == fields;
    assert line[|fields[0]|] == '|';
    NotBlankAt(line, |fields[0]|);
  }

  /** A line written as name|status|ports, none of which holds a '|', reads
      back as that container. */
  lemma ContainerLineRoundTrip(name: string, status: string, ports: string)
    requires '|' !in name && '|' !in status && '|' !in ports
    ensures ContainerOf(Join([name, status, ports], "|")) == Some(Container(name, status, ports))
  {
    ContainerOfJoin([name, status, ports]);
  }

  /** A line of two fields reads back with no ports. */
  lemma ContainerLineNoPorts(name: string, status: string)
    requires '|' !in name && '|' !in status
    ensures ContainerOf(Join([name, status], "|")) == Some(Container(name, status, ""))
  {
    ContainerOfJoin([name, status]);
  }

  /** The containers of one more line are those of the line appended. */
  lemma ContainersOfSnoc(lines: seq<string>, i: nat)
    requires i < |lines|
    ensures ContainersOf(lines[..i + 1]) ==
      ContainersOf(lines[..i]) + match ContainerOf(lines[i]) case Some(c) => [c] case None => []
  {
    assert lines[..i + 1][..i] == lines[..i];
  }

  /** `get_containers_status` given the result of the `docker ps` probe. */
  method GetContainers(probe: SshResult) returns (cs: seq<Container>)
    ensures !probe.success ==> cs == []
    ensures probe.success ==> cs == ContainersOf(Split(probe.stdout, "\n"))
  {
    if !probe.success {
      return [];
    }
    var lines := Split(probe.stdout, "\n");
    cs := [];
    var i := 0;
    while i < |lines|
      invariant 0 <= i <= |lines|
      invariant cs == ContainersOf(lines[..i])
    {
      ContainersOfSnoc(lines, i);
      var line := lines[i];
      if !IsBlank(line) {
        var parts := Split(line, "|");
        if |parts| >= 2 {
          cs := cs + [Container(parts[0], parts[1], if |parts| > 2 then parts[2] else "")];
        }
      }
      i := i + 1;
    }
    assert lines[..i] == lines;
  }

  const ContainersCommand: string := "ssh apps01 'sudo docker ps --format \"{{.Names}}|{{.Status}}|{{.Ports}}\"'"

  datatype Service = Service(name: string, vm: string, status: string)

  /** A service probe counts as running exactly when it succeeded with
      non-empty output. */
  function ServiceStatus(r: SshResult): (s: string)
    ensures s == "running" <==> r.success && r.stdout != ""
    ensures s == "running" || s == "stopped"
  {
    if r.success && r.stdout != "" then "running" else "stopped"
  }

  /** The probed services: name, VM and probe command, in report order. */
  const Probes: seq<(string, string, string)> := [
    ("postgresql", "db01", "ssh db01 'ps aux | grep \"postgres -D\" | grep -v grep'"),
    ("gitlab", "gitlab01", "ssh gitlab01 'ps aux | grep gitlab | grep -v grep | head -1'"),
    ("gitlab_runner", "gitrunner01", "ssh gitrunner01 'ps aux | grep gitlab-runner | grep -v grep | head -1'"),
    ("grafana", "ops01", "ssh ops01 'ps aux | grep grafana.*server | grep -v grep'"),
    ("prometheus", "ops01", "ssh ops01 'ps aux | grep prometheus | grep -v grep | head -1'")
  ]

  /** `get_services_status` */
  function GetServices(remote: Remote): (r: seq<Service>)
    ensures |r| == |Probes|
    ensures forall i :: 0 <= i < |Probes| ==>
      r[i].name == Probes[i].0 && r[i].vm == Probes[i].1
      && (r[i].status == "running" <==> Run(remote, Probes[i].2).success && Run(remote, Probes[i].2).stdout != "")
  {
    seq(|Probes|, i requires 0 <= i < |Probes| => Service(Probes[i].0, Probes[i].1, ServiceStatus(Run(remote, Probes[i].2))))
  }

  /** `sum(1 for x in xs if p(x))` */
  function CountIf<T>(xs: seq<T>, p: T -> bool): (n: nat)
    ensures n <= |xs|
  {
    if xs == [] then 0 else (if p(xs[0]) then 1 else 0) + CountIf(xs[1..], p)
  }

  /** The count reaches the total exactly when every element qualifies, and
      is zero exactly when none does. */
  lemma {:induction false} CountIfExtremes<T>(xs: seq<T>, p: T -> bool)
    ensures CountIf(xs, p) == |xs| <==> forall i :: 0 <= i < |xs| ==> p(xs[i])
    ensures CountIf(xs, p) == 0 <==> forall i :: 0 <= i < |xs| ==> !p(xs[i])
    decreases |xs|
  {
    if xs != [] {
      CountIfExtremes(xs[1..], p);
      assert forall i :: 1 <= i < |xs| ==> xs[1..][i - 1] == xs[i];
    }
  }

  predicate VmRunning(v: VmInfo) { v.state == "running" }
  predicate ContainerUp(c: Container) { Contains(c.status, "Up") }
  predicate ServiceRunning(s: Service) { s.status == "running" }

  const Rule: string := "================================================================================"
  const Dashes: string := "--------------------------------------------------------------------------------"

  /** `f"{s:<w}"`: left-aligned in a field of at least `w` characters. */
  function PadRight(s: string, w: nat): (r: string)
    ensures |r| == if |s| < w then w else |s|
    ensures r[..|s|] == s
    ensures forall i :: |s| <= i < |r| ==> r[i] == ' '
  {
    if |s| < w then s + seq(w - |s|, _ => ' ') else s
  }

  function Icon(ok: bool): string {
    if ok then "✅" else "❌"
  }

  function VmLine(v: VmInfo): string {
    "  " + Icon(VmRunning(v)) + " " + PadRight(v.name, 15) + " " + PadRight(v.state, 10) + " "
    + PadRight(v.ip, 16) + " " + v.cpu + " vCPU  " + v.memory + " RAM"
  }

  function ContainerLine(c: Container): string {
    "  " + Icon(ContainerUp(c)) + " " + PadRight(c.name, 20) + " " + PadRight(c.status, 25) + " "
    + (if |c.ports| > 50 then c.ports[..50] + "..." else c.ports)
  }

  function ServiceLine(s: Service): string {
    "  " + Icon(ServiceRunning(s)) + " " + PadRight(s.name, 20) + " " + PadRight(s.status, 10) + " on " + s.vm
  }

  function Map<T>(xs: seq<T>, f: T -> string): (r: seq<string>)
    ensures |r| == |xs|
    ensures forall i :: 0 <= i < |xs| ==> r[i] == f(xs[i])
  {
    seq(|xs|, i requires 0 <= i < |xs| => f(xs[i]))
  }

  /** The summary block: running count over total for each kind. */
  function SummaryLines(vms: seq<VmInfo>, containers: seq<Container>, services: seq<Service>): (r: seq<string>)
    ensures |r| == 7
  {
    [ "📈 SUMMARY", Dashes,
      "  VMs:         " + NatToString(CountIf(vms, VmRunning)) + "/" + NatToString(|vms|) + " running",
      "  Containers:  " + NatToString(CountIf(containers, ContainerUp)) + "/" + NatToString(|containers|) + " running",
      "  Services:    " + NatToString(CountIf(services, ServiceRunning)) + "/" + NatToString(|services|) + " running",
      "", Rule ]
  }

  function ContainerSection(containers: seq<Container>): seq<string> {
    if containers == [] then []
    else ["🐳 DOCKER CONTAINERS (apps01)", Dashes] + Map(containers, ContainerLine) + [""]
  }

  function HostLines(host: HostStatus): (r: seq<string>)
    ensures |r| == 13
  {
    [Rule, "🏠 AIMPH HOMELAB STATUS", Rule, "",
     "📊 HOST (AIMPH)", Dashes,
     "  Uptime:     " + host.uptime,
     "  CPU Usage:  " + host.cpuUsage + "%",
     "  Memory:     " + host.memory,
     "  Disk:       " + host.disk, "",
     "💻 VIRTUAL MACHINES", Dashes]
  }

  function ServiceSection(services: seq<Service>): (r: seq<string>)
    ensures |r| == |services| + 3 && r[0] == "⚙️  KEY SERVICES"
  {
    ["⚙️  KEY SERVICES", Dashes] + Map(services, ServiceLine) + [""]
  }

  /** `format_homelab_status`, as its list of lines. */
  function ReportLines(host: HostStatus, vms: seq<VmInfo>, containers: seq<Container>, services: seq<Service>): seq<string> {
    HostLines(host) + Map(vms, VmLine) + [""] + ContainerSection(containers)
    + ServiceSection(services) + SummaryLines(vms, containers, services)
  }

  /** The report starts with the header and host block, ends with the
      summary block, and the VM lines follow the host block, one per VM in
      order. */
  lemma ReportShape(host: HostStatus, vms: seq<VmInfo>, containers: seq<Container>, services: seq<Service>)
    ensures var lines := ReportLines(host, vms, containers, services);
      && |lines| >= 14 + |vms| + 7
      && lines[..13] == HostLines(host)
      && lines[|lines| - 7..] == SummaryLines(vms, containers, services)
      && lines[13..13 + |vms|] == Map(vms, VmLine)
  {
    Sections(HostLines(host), Map(vms, VmLine), [""], ContainerSection(containers),
             ServiceSection(services), SummaryLines(vms, containers, services));
  }

  /** Where the first, the second and the last of six concatenated parts sit. */
  lemma Sections<T>(a: seq<T>, b: seq<T>, c: seq<T>, d: seq<T>, e: seq<T>, f: seq<T>)
    ensures var s := a + b + c + d + e + f;
      && |s| == |a| + |b| + |c| + |d| + |e| + |f|
      && s[|s| - |f|..] == f
      && s[..|a|] == a
      && s[|a|..|a| + |b|] == b
  {
    var s := a + b + c + d + e + f;
    assert s == (a + b + c + d + e) + f;
    assert s == a + b + (c + d + e + f);
  }

  /** The container section is printed exactly when containers were found. */
  lemma ContainerSectionIff(containers: seq<Container>, services: seq<Service>)
    ensures var rest := ContainerSection(containers) + ServiceSection(services);
      containers != [] <==> rest[0] == "🐳 DOCKER CONTAINERS (apps01)"
  {
    if containers == [] {
      assert "⚙️  KEY SERVICES"[0] != "🐳 DOCKER CONTAINERS (apps01)"[0];
    }
  }

  /** `homelab_status`: the four probes, then the report; an exception from
      the dominfo parse becomes the error reply. */
  method HomelabStatus(remote: Remote) returns (text: string)
    ensures var vms := if Run(remote, "sudo virsh list --all").success then VmsFrom(VmNames, remote) else Ok([]);
      var probe := Run(remote, ContainersCommand);
      var containers := if probe.success then ContainersOf(Split(probe.stdout, "\n")) else [];
      && (vms.Err? ==> text == "Error getting homelab status: " + ErrorText(vms.error))
      && (vms.Ok? ==> text == Join(ReportLines(GetHostStatus(remote), vms.value, containers, GetServices(remote)), "\n"))
  {
    var host := GetHostStatus(remote);
    var vms := GetVmStatus(remote);
    if vms.Err? {
      return "Error getting homelab status: " + ErrorText(vms.error);
    }
    var containers := GetContainers(Run(remote, ContainersCommand));
    var services := GetServices(remote);
    text := Join(ReportLines(host, vms.value, containers, services), "\n");
  }
}

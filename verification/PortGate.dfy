/** The one gate between a port's name and opening it, and the two operations behind it. */
module PortGate {
  import opened HandshakeReader
  import opened Pong
  import opened Wrappers

  datatype PortType = Usb(vid: nat, pid: nat) | Pci | Bluetooth | Unknown

  datatype PortInfo = PortInfo(name: string, kind: PortType)

  datatype Descriptor = Descriptor(name: string, kind: PortType, supported: bool)

  datatype Refusal =
    | NotFound
    | MacosTtySibling(callOut: string)
    | UnsupportedUsb(vid: nat, pid: nat)
    | NotUsb

  datatype Admission = Admitted(port: Descriptor) | Denied(why: Refusal)

  const ALLOWLIST: seq<(nat, nat)> := [
    (0x1A86, 0x7523), (0x0403, 0x6001), (0x10C4, 0xEA60), (0x2341, 0x0043), (0x2341, 0x0001),
    (0x067B, 0x2303), (0x1A86, 0x5523), (0x10C4, 0xEA70), (0x0403, 0x6014)]

  const TTY := "/dev/tty."
  const CALL_OUT := "/dev/cu."

  predicate Supported(kind: PortType) {
    kind.Usb? && (kind.vid, kind.pid) in ALLOWLIST
  }

  /** The blocking sibling macOS lists beside every call-out device. */
  predicate IsTtyPath(macos: bool, name: string) {
    macos && TTY <= name
  }

  function Describe(port: PortInfo): Descriptor {
    Descriptor(port.name, port.kind, Supported(port.kind))
  }

  /** `listed_ports`: what the interface is shown, in the system's order. */
  function Listed(macos: bool, ports: seq<PortInfo>): seq<Descriptor> {
    if ports == [] then []
    else if IsTtyPath(macos, ports[0].name) then Listed(macos, ports[1..])
    else [Describe(ports[0])] + Listed(macos, ports[1..])
  }

  function FirstNamed(list: seq<Descriptor>, name: string): Option<Descriptor> {
    if list == [] then None
    else if list[0].name == name then Some(list[0])
    else FirstNamed(list[1..], name)
  }

  function WhyNot(d: Descriptor): Refusal {
    if d.kind.Usb? then UnsupportedUsb(d.kind.vid, d.kind.pid) else NotUsb
  }

  /** `admit_port`. */
  function Admit(macos: bool, ports: seq<PortInfo>, name: string): Admission {
    if IsTtyPath(macos, name) then
      Denied(if exists i :: 0 <= i < |ports| && ports[i].name == name
              then MacosTtySibling(CALL_OUT + name[|TTY|..]) else NotFound)
    else
      match FirstNamed(Listed(macos, ports), name)
      case None => Denied(NotFound)
      case Some(d) => if d.supported then Admitted(d) else Denied(WhyNot(d))
  }

  // -------------------------------------------------------------------------
  // What the list offers is what the gate admits
  // -------------------------------------------------------------------------

  ghost predicate Offers(list: seq<Descriptor>, name: string) {
    exists i :: 0 <= i < |list| && list[i].name == name && list[i].supported
  }

  ghost predicate OffersFirst(list: seq<Descriptor>, name: string) {
    exists i ::
      && 0 <= i < |list| && list[i].name == name && list[i].supported
      && forall j :: 0 <= j < i ==> list[j].name != name
  }

  lemma {:induction false} FirstNamedIsFirst(list: seq<Descriptor>, name: string)
    ensures FirstNamed(list, name).None? <==> forall i :: 0 <= i < |list| ==> list[i].name != name
    ensures FirstNamed(list, name).Some? ==> exists i ::
      && 0 <= i < |list| && list[i] == FirstNamed(list, name).value && list[i].name == name
      && forall j :: 0 <= j < i ==> list[j].name != name
  {
    if list != [] && list[0].name != name {
      FirstNamedIsFirst(list[1..], name);
      assert list == [list[0]] + list[1..];
      if FirstNamed(list, name).Some? {
        var i :| 0 <= i < |list[1..]| && list[1..][i] == FirstNamed(list, name).value && list[1..][i].name == name
          && forall j :: 0 <= j < i ==> list[1..][j].name != name;
        assert list[i + 1] == list[1..][i];
        assert forall j :: 1 <= j < i + 1 ==> list[j] == list[1..][j - 1];
      }
    } else if list != [] {
      assert list[0] == FirstNamed(list, name).value;
    }
  }

  /** Every listed port is one the system enumerated, judged by the allowlist; no listed name is a
      blocking sibling; and no other port is left out. */
  lemma {:induction false} ListedExactly(macos: bool, ports: seq<PortInfo>, d: Descriptor)
    ensures d in Listed(macos, ports) <==>
      !IsTtyPath(macos, d.name) && d.supported == Supported(d.kind) && PortInfo(d.name, d.kind) in ports
  {
    if ports != [] {
      ListedExactly(macos, ports[1..], d);
      assert ports == [ports[0]] + ports[1..];
    }
  }

  /** A name is admitted exactly when the list offers it and no unsupported port of the same name
      stands before; what is admitted is on the allowlist. */
  lemma AdmissionFollowsTheList(macos: bool, ports: seq<PortInfo>, name: string)
    ensures Admit(macos, ports, name).Admitted? <==> OffersFirst(Listed(macos, ports), name)
    ensures Admit(macos, ports, name).Admitted? ==>
      Offers(Listed(macos, ports), name) && Supported(Admit(macos, ports, name).port.kind)
  {
    var list := Listed(macos, ports);
    FirstNamedIsFirst(list, name);
    forall i | 0 <= i < |list|
      ensures !IsTtyPath(macos, list[i].name) && list[i].supported == Supported(list[i].kind)
    {
      ListedExactly(macos, ports, list[i]);
    }
  }

  /** The port judged is the first the system enumerates under the name, unless macOS hides it. */
  lemma {:induction false} FirstEnumerated(macos: bool, ports: seq<PortInfo>, name: string, i: nat)
    requires !IsTtyPath(macos, name) && i <= |ports|
    requires forall j :: 0 <= j < i ==> ports[j].name != name
    requires i < |ports| ==> ports[i].name == name
    ensures FirstNamed(Listed(macos, ports), name) == if i < |ports| then Some(Describe(ports[i])) else None
  {
    if i > 0 {
      FirstEnumerated(macos, ports[1..], name, i - 1);
    }
  }

  /** What the gate answers, of the enumeration alone: `i` is the first port of the name, or past the end
      if there is none. A blocking macOS path is refused by naming its sibling, a USB port by its ids. */
  lemma TheGateSaysWhy(macos: bool, ports: seq<PortInfo>, name: string, i: nat)
    requires i <= |ports| && forall j :: 0 <= j < i ==> ports[j].name != name
    requires i < |ports| ==> ports[i].name == name
    ensures
      var hidden := macos && |name| >= 9 && name[..9] == "/dev/tty.";
      Admit(macos, ports, name) ==
      if i == |ports| then Denied(NotFound)
      else if hidden then Denied(MacosTtySibling("/dev/cu." + name[9..]))
      else if Supported(ports[i].kind) then Admitted(Describe(ports[i]))
      else if ports[i].kind.Usb? then Denied(UnsupportedUsb(ports[i].kind.vid, ports[i].kind.pid))
      else Denied(NotUsb)
  {
    assert IsTtyPath(macos, name) <==> macos && |name| >= 9 && name[..9] == "/dev/tty.";
    if !IsTtyPath(macos, name) {
      FirstEnumerated(macos, ports, name, i);
    }
  }

  /** The exception is real: two ports of one name, the unsupported one first. */
  lemma AnOfferedDuplicateCanBeRefused(name: string)
    ensures var ports := [PortInfo(name, Pci), PortInfo(name, Usb(0x1A86, 0x7523))];
            && Offers(Listed(false, ports), name)
            && Admit(false, ports, name) == Denied(NotUsb)
  {
    var ports := [PortInfo(name, Pci), PortInfo(name, Usb(0x1A86, 0x7523))];
    var chip: (nat, nat) := (0x1A86, 0x7523);
    assert chip == ALLOWLIST[0];
    assert ports[1..] == [ports[1]] && ports[1..][1..] == [];
    assert Listed(false, ports[1..]) == [Describe(ports[1])];
    assert Listed(false, ports) == [Describe(ports[0]), Describe(ports[1])];
    assert Listed(false, ports)[1].supported;
  }

  // -------------------------------------------------------------------------
  // Opening
  // -------------------------------------------------------------------------

  /** The system's ports behind the seam: what it lists, which open, and which were tried. */
  class PortAccess {
    const macos: bool
    const inventory: Option<seq<PortInfo>>
    const opens: bool
    const device: SerialPort
    var tried: seq<string>

    constructor (macos: bool, inventory: Option<seq<PortInfo>>, opens: bool, device: SerialPort)
      ensures this.macos == macos && this.inventory == inventory && this.opens == opens && this.device == device
      ensures tried == []
    {
      this.macos, this.inventory, this.opens, this.device, tried := macos, inventory, opens, device, [];
    }

    method OpenAndSettle(name: string) returns (ok: bool)
      modifies `tried
      ensures tried == old(tried) + [name] && ok == opens
    {
      tried := tried + [name];
      ok := opens;
    }
  }

  /** The names an operation on `name` tries to open: itself if the gate admits it, and no other. */
  function Tries(macos: bool, inventory: Option<seq<PortInfo>>, name: string): seq<string> {
    if inventory.Some? && Admit(macos, inventory.value, name).Admitted? then [name] else []
  }

  datatype ConnectFailure = ListFailed | GateRefused(why: Refusal) | OpenFailed

  datatype ConnectOutcome =
    | Connected(firmware: Option<PongResponse>, warned: bool)
    | NotConnected(failure: ConnectFailure, admitted: bool)

  const CONNECT_HANDSHAKE_TIMEOUT: nat := 250
  const HANDSHAKE_ROUND_TRIP_TIMEOUT: nat := 2000

  /** `connect_serial_port_blocking`. A device that stays silent or answers garbage still connects. */
  method Connect(io: PortAccess, name: string) returns (outcome: ConnectOutcome, ghost used: nat)
    modifies io`tried, io.device
    ensures io.tried == old(io.tried) + Tries(io.macos, io.inventory, name)
    ensures outcome.Connected? <==> Tries(io.macos, io.inventory, name) != [] && io.opens
    ensures outcome.NotConnected? ==> (outcome.admitted <==> Tries(io.macos, io.inventory, name) != [])
    ensures used <= |old(io.device.script)|
    ensures outcome.Connected? ==>
      (outcome.firmware.Some? <==>
        io.device.writable && AnswersInTime(old(io.device.script), CONNECT_HANDSHAKE_TIMEOUT))
    ensures outcome.Connected? && outcome.firmware.Some? ==>
      Completes(old(io.device.script), used, CONNECT_HANDSHAKE_TIMEOUT, outcome.firmware.value)
    ensures outcome.Connected? ==>
      (outcome.warned <==> outcome.firmware.Some? && !outcome.firmware.value.IsVersionSupported())
    ensures outcome.NotConnected? ==> io.device.script == old(io.device.script)
  {
    hide Admit, AnswersInTime, Completes, GivesUp;
    used := 0;
    if io.inventory.None? {
      return NotConnected(ListFailed, false), 0;
    }
    var admission := Admit(io.macos, io.inventory.value, name);
    if admission.Denied? {
      return NotConnected(GateRefused(admission.why), false), 0;
    }
    var ok := io.OpenAndSettle(name);
    if !ok {
      return NotConnected(OpenFailed, true), 0;
    }
    var probe;
    probe, used := ProbeFirmware(io.device, CONNECT_HANDSHAKE_TIMEOUT);
    match probe
    case Heard(pong) => outcome := Connected(Some(pong), !pong.IsVersionSupported());
    case Silent => outcome := Connected(None, false);
    case Garbled(_) => outcome := Connected(None, false);
  }

  datatype Stage = Visible | SupportedPort | ConnectAndVerify | Handshake

  datatype Step = Step(stage: Stage, pass: bool)

  datatype Health = Health(pass: bool, steps: seq<Step>, firmware: Option<PongResponse>)

  const STAGES := [Visible, SupportedPort, ConnectAndVerify, Handshake]

  /** A check runs the stages in order and stops at the first that fails. */
  ghost predicate WellOrdered(h: Health) {
    && 1 <= |h.steps| <= |STAGES|
    && (forall i :: 0 <= i < |h.steps| ==> h.steps[i].stage == STAGES[i])
    && (forall i :: 0 <= i < |h.steps| - 1 ==> h.steps[i].pass)
    && (h.pass <==> |h.steps| == |STAGES| && h.steps[|h.steps| - 1].pass)
    && (|h.steps| < |STAGES| ==> !h.steps[|h.steps| - 1].pass)
    && (h.firmware.Some? <==> h.pass)
  }

  method AllPass(steps: seq<Step>) returns (pass: bool)
    ensures pass <==> forall i :: 0 <= i < |steps| ==> steps[i].pass
  {
    pass := true;
    for i := 0 to |steps|
      invariant pass <==> forall j :: 0 <= j < i ==> steps[j].pass
    {
      pass := pass && steps[i].pass;
    }
  }

  /** `run_serial_health_check_blocking`: opens exactly what a connect would, and passes exactly when
      the device completes a valid answer in time. */
  method HealthCheck(io: PortAccess, name: string) returns (h: Health, ghost used: nat)
    modifies io`tried, io.device
    ensures io.tried == old(io.tried) + Tries(io.macos, io.inventory, name)
    ensures WellOrdered(h)
    ensures |h.steps| >= 3 <==> Tries(io.macos, io.inventory, name) != []
    ensures |h.steps| == |STAGES| <==> Tries(io.macos, io.inventory, name) != [] && io.opens
    ensures h.steps[0].pass <==>
      io.inventory.Some? && Admit(io.macos, io.inventory.value, name) != Denied(NotFound)
    ensures used <= |old(io.device.script)|
    ensures h.pass <==>
      && Tries(io.macos, io.inventory, name) != [] && io.opens
      && io.device.writable && AnswersInTime(old(io.device.script), HANDSHAKE_ROUND_TRIP_TIMEOUT)
    ensures h.pass ==>
      Completes(old(io.device.script), used, HANDSHAKE_ROUND_TRIP_TIMEOUT, h.firmware.value)
  {
    hide Admit, AnswersInTime, Completes, GivesUp;
    used := 0;
    var steps := [];
    if io.inventory.None? {
      return Health(false, [Step(Visible, false)], None), 0;
    }
    var admission := Admit(io.macos, io.inventory.value, name);
    if admission == Denied(NotFound) {
      return Health(false, [Step(Visible, false)], None), 0;
    }
    steps := steps + [Step(Visible, true)];
    if admission.Denied? {
      return Health(false, steps + [Step(SupportedPort, false)], None), 0;
    }
    steps := steps + [Step(SupportedPort, true)];
    var ok := io.OpenAndSettle(name);
    if !ok {
      return Health(false, steps + [Step(ConnectAndVerify, false)], None), 0;
    }
    steps := steps + [Step(ConnectAndVerify, true)];
    var result;
    result, used := PerformHandshake(io.device, HANDSHAKE_ROUND_TRIP_TIMEOUT);
    steps := steps + [Step(Handshake, result.Answered?)];
    var pass := AllPass(steps);
    h := Health(pass, steps, if result.Answered? then Some(result.pong) else None);
  }
}

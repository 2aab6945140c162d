/** Execution plan negotiation (src/policy.rs:13-205). */
module Policy {
  import opened Types

  datatype CapabilityMode = Adaptive | Strict

  datatype Profile = Process | LinuxSandbox

  datatype Namespaces = Namespaces(mount: bool, pid: bool, uts: bool, ipc: bool, net: bool)

  datatype Sandbox = Sandbox(
    profile: Profile,
    workspaceSubdir: Option<string>,
    rootfs: Option<string>,
    chroot: bool,
    namespaces: Option<Namespaces>)

  const DEFAULT_NAMESPACES := Namespaces(true, true, true, true, false)

  function EffectiveNamespaces(s: Sandbox): Namespaces {
    match s.namespaces
    case None => DEFAULT_NAMESPACES
    case Some(n) => n
  }

  datatype Capabilities = Capabilities(
    linuxSandbox: bool,
    chroot: bool,
    namespaces: Namespaces,
    cgroupWritable: bool,
    rlimitCpu: bool,
    rlimitMemory: bool,
    pidsLimit: bool,
    oomDetection: bool,
    warnings: seq<string>)

  datatype PlanRequest = PlanRequest(
    sandbox: Sandbox,
    limits: Limits,
    policy: Option<CapabilityMode>,
    requiresStrictSandbox: bool)

  /** Why a plan falls short of its request; also the strict mode's error. */
  datatype Shortfall =
    | NoLinuxSandbox | NoChroot
    | NoMountNamespace | NoPidNamespace | NoUtsNamespace | NoIpcNamespace | NoNetNamespace
    | NoCpuLimit | NoMemoryLimit | NoPidsLimit

  datatype Enforcement = Enforcement(
    wallTimeMs: U64,
    cpuTimeSec: Option<U64>, cpuTimeEnforced: bool,
    memoryBytes: Option<U64>, memoryEnforced: bool,
    pidsMax: Option<U64>, pidsEnforced: bool,
    cgroupEnforced: bool,
    oomDetection: bool)

  datatype Plan = Plan(
    mode: CapabilityMode,
    requestedSandbox: Sandbox,
    effectiveSandbox: Sandbox,
    enforcement: Enforcement,
    degraded: bool,
    fallbackReasons: seq<Shortfall>,
    warnings: seq<string>)

  function EffectiveMode(request: PlanRequest, defaultMode: CapabilityMode): CapabilityMode {
    match request.policy
    case None => defaultMode
    case Some(mode) => mode
  }

  predicate IsStrict(request: PlanRequest, defaultMode: CapabilityMode) {
    EffectiveMode(request, defaultMode).Strict? || request.requiresStrictSandbox
  }

  // ---- reference: the shortfalls of a request, and the plan they leave

  function When(b: bool, reason: Shortfall): seq<Shortfall> {
    if b then [reason] else []
  }

  /** What the namespaces lack: only asked of a profile that is kept as linux_sandbox. */
  function NamespaceShortfalls(wanted: Namespaces, have: Namespaces): seq<Shortfall> {
    When(wanted.mount && !have.mount, NoMountNamespace) + When(wanted.pid && !have.pid, NoPidNamespace)
    + RestShortfalls(wanted, have)
  }

  function RestShortfalls(wanted: Namespaces, have: Namespaces): seq<Shortfall> {
    When(wanted.uts && !have.uts, NoUtsNamespace) + When(wanted.ipc && !have.ipc, NoIpcNamespace)
    + When(wanted.net && !have.net, NoNetNamespace)
  }

  predicate KeepsLinux(s: Sandbox, caps: Capabilities) {
    s.profile.LinuxSandbox? && caps.linuxSandbox
  }

  /** chroot is reconsidered only if the profile fallback has not dropped it already. */
  predicate WantsChroot(s: Sandbox, caps: Capabilities) {
    s.chroot && (s.profile.LinuxSandbox? ==> caps.linuxSandbox)
  }

  function SandboxShortfalls(s: Sandbox, caps: Capabilities): seq<Shortfall> {
    When(s.profile.LinuxSandbox? && !caps.linuxSandbox, NoLinuxSandbox)
    + When(WantsChroot(s, caps) && !caps.chroot, NoChroot)
    + if KeepsLinux(s, caps) then NamespaceShortfalls(EffectiveNamespaces(s), caps.namespaces) else []
  }

  predicate CgroupEnforced(s: Sandbox, caps: Capabilities) {
    KeepsLinux(s, caps) && caps.cgroupWritable
  }

  function LimitShortfalls(request: PlanRequest, caps: Capabilities): seq<Shortfall> {
    When(request.limits.cpuTimeSec.Some? && !caps.rlimitCpu, NoCpuLimit)
    + When(request.limits.memoryBytes.Some? && !caps.rlimitMemory, NoMemoryLimit)
    + When(request.limits.pidsMax.Some? && !(CgroupEnforced(request.sandbox, caps) && caps.pidsLimit), NoPidsLimit)
  }

  function Shortfalls(request: PlanRequest, caps: Capabilities): seq<Shortfall> {
    SandboxShortfalls(request.sandbox, caps) + LimitShortfalls(request, caps)
  }

  function Meet(a: Namespaces, b: Namespaces): Namespaces {
    Namespaces(a.mount && b.mount, a.pid && b.pid, a.uts && b.uts, a.ipc && b.ipc, a.net && b.net)
  }

  function EffectiveSandbox(s: Sandbox, caps: Capabilities): Sandbox {
    if s.profile.LinuxSandbox? && !caps.linuxSandbox
    then s.(profile := Process, chroot := false, rootfs := None, namespaces := None)
    else
      var kept := if s.chroot && !caps.chroot then s.(chroot := false, rootfs := None) else s;
      if s.profile.LinuxSandbox? then kept.(namespaces := Some(Meet(EffectiveNamespaces(s), caps.namespaces)))
      else kept
  }

  function EnforcementOf(request: PlanRequest, caps: Capabilities): Enforcement {
    var limits, cgroup := request.limits, CgroupEnforced(request.sandbox, caps);
    Enforcement(limits.wallTimeMs,
                limits.cpuTimeSec, limits.cpuTimeSec.Some? && caps.rlimitCpu,
                limits.memoryBytes, limits.memoryBytes.Some? && caps.rlimitMemory,
                limits.pidsMax, limits.pidsMax.Some? && cgroup && caps.pidsLimit,
                cgroup,
                limits.memoryBytes.Some? && cgroup && caps.oomDetection)
  }

  function Negotiated(request: PlanRequest, caps: Capabilities, defaultMode: CapabilityMode): Result<Plan, Shortfall> {
    var reasons := Shortfalls(request, caps);
    if IsStrict(request, defaultMode) && reasons != [] then Err(reasons[0])
    else Ok(Plan(EffectiveMode(request, defaultMode), request.sandbox, EffectiveSandbox(request.sandbox, caps),
                 EnforcementOf(request, caps), reasons != [], reasons, caps.warnings))
  }

  // ---- the negotiation as the code runs it

  /** The plan's mutable half while it is being negotiated. */
  datatype Draft = Draft(degraded: bool, reasons: seq<Shortfall>)

  method NamespaceOrFallback(requested: bool, supported: bool, strict: bool, draft: Draft, reason: Shortfall)
    returns (r: Result<bool, Shortfall>, draft': Draft)
    ensures r == if requested && !supported && strict then Err(reason) else Ok(requested && supported)
    ensures r.Ok? ==> draft' == Noting(draft, When(requested && !supported, reason))
  {
    draft' := draft;
    assert draft.reasons + [] == draft.reasons;
    if !requested {
      return Ok(false), draft';
    }
    if supported {
      return Ok(true), draft';
    }
    if strict {
      return Err(reason), draft';
    }
    draft' := Draft(true, draft.reasons + [reason]);
    r := Ok(false);
  }

  function Noting(draft: Draft, lacking: seq<Shortfall>): Draft {
    Draft(draft.degraded || lacking != [], draft.reasons + lacking)
  }

  lemma NotingTwice(draft: Draft, a: seq<Shortfall>, b: seq<Shortfall>)
    ensures Noting(Noting(draft, a), b) == Noting(draft, a + b)
  {
  }

  /** Two namespaces in order, stopping at the first strict error. */
  method NegotiatePair(want1: bool, have1: bool, reason1: Shortfall, want2: bool, have2: bool, reason2: Shortfall,
                       strict: bool, draft: Draft)
    returns (r: Result<(bool, bool), Shortfall>, draft': Draft)
    ensures var lacking := When(want1 && !have1, reason1) + When(want2 && !have2, reason2);
            if strict && lacking != [] then r == Err(lacking[0])
            else r == Ok((want1 && have1, want2 && have2)) && draft' == Noting(draft, lacking)
  {
    var first, second;
    first, draft' := NamespaceOrFallback(want1, have1, strict, draft, reason1);
    if first.Err? { return Err(first.error), draft'; }
    second, draft' := NamespaceOrFallback(want2, have2, strict, draft', reason2);
    if second.Err? { return Err(second.error), draft'; }
    NotingTwice(draft, When(want1 && !have1, reason1), When(want2 && !have2, reason2));
    r := Ok((first.value, second.value));
  }

  /** The last three namespaces. */
  method NegotiateRest(wanted: Namespaces, have: Namespaces, strict: bool, draft: Draft)
    returns (r: Result<(bool, bool, bool), Shortfall>, draft': Draft)
    ensures var lacking := RestShortfalls(wanted, have);
            if strict && lacking != [] then r == Err(lacking[0])
            else r == Ok((wanted.uts && have.uts, wanted.ipc && have.ipc, wanted.net && have.net))
                 && draft' == Noting(draft, lacking)
  {
    var two, net;
    ghost var l1 := When(wanted.uts && !have.uts, NoUtsNamespace) + When(wanted.ipc && !have.ipc, NoIpcNamespace);
    ghost var l2 := When(wanted.net && !have.net, NoNetNamespace);
    two, draft' := NegotiatePair(wanted.uts, have.uts, NoUtsNamespace,
                                 wanted.ipc, have.ipc, NoIpcNamespace, strict, draft);
    if two.Err? { return Err(two.error), draft'; }
    net, draft' := NamespaceOrFallback(wanted.net, have.net, strict, draft', NoNetNamespace);
    if net.Err? { return Err(net.error), draft'; }
    NotingTwice(draft, l1, l2);
    r := Ok((two.value.0, two.value.1, net.value));
  }

  /** The five namespaces in order, stopping at the first strict error. */
  method NegotiateNamespaces(wanted: Namespaces, have: Namespaces, strict: bool, draft: Draft)
    returns (r: Result<Namespaces, Shortfall>, draft': Draft)
    ensures var lacking := NamespaceShortfalls(wanted, have);
            if strict && lacking != [] then r == Err(lacking[0])
            else r == Ok(Meet(wanted, have)) && draft' == Noting(draft, lacking)
  {
    var one, rest;
    one, draft' := NegotiatePair(wanted.mount, have.mount, NoMountNamespace,
                                 wanted.pid, have.pid, NoPidNamespace, strict, draft);
    if one.Err? { return Err(one.error), draft'; }
    rest, draft' := NegotiateRest(wanted, have, strict, draft');
    if rest.Err? { return Err(rest.error), draft'; }
    NotingTwice(draft,
                When(wanted.mount && !have.mount, NoMountNamespace) + When(wanted.pid && !have.pid, NoPidNamespace),
                RestShortfalls(wanted, have));
    r := Ok(Namespaces(one.value.0, one.value.1, rest.value.0, rest.value.1, rest.value.2));
  }

  /** Profile, chroot and namespaces in order. */
  method NegotiateSandbox(s: Sandbox, caps: Capabilities, strict: bool)
    returns (r: Result<Sandbox, Shortfall>, draft: Draft)
    ensures var lacking := SandboxShortfalls(s, caps);
            if strict && lacking != [] then r == Err(lacking[0])
            else r == Ok(EffectiveSandbox(s, caps)) && draft == Noting(Draft(false, []), lacking)
  {
    draft := Draft(false, []);
    var effective := s;
    if effective.profile.LinuxSandbox? && !caps.linuxSandbox {
      if strict { return Err(NoLinuxSandbox), draft; }
      draft := Draft(true, draft.reasons + [NoLinuxSandbox]);
      effective := effective.(profile := Process, chroot := false, rootfs := None, namespaces := None);
    }
    if effective.chroot && !caps.chroot {
      if strict { return Err(NoChroot), draft; }
      draft := Draft(true, draft.reasons + [NoChroot]);
      effective := effective.(chroot := false, rootfs := None);
    }
    if effective.profile.LinuxSandbox? {
      var adjusted;
      adjusted, draft := NegotiateNamespaces(EffectiveNamespaces(effective), caps.namespaces, strict, draft);
      if adjusted.Err? { return Err(adjusted.error), draft; }
      effective := effective.(namespaces := Some(adjusted.value));
    }
    r := Ok(effective);
  }

  /** The three limits in order; returns the strict error if there is one. */
  method NegotiateLimits(limits: Limits, cpu: bool, memory: bool, pids: bool, strict: bool, draft: Draft)
    returns (error: Option<Shortfall>, draft': Draft)
    ensures var lacking := When(limits.cpuTimeSec.Some? && !cpu, NoCpuLimit)
                         + When(limits.memoryBytes.Some? && !memory, NoMemoryLimit)
                         + When(limits.pidsMax.Some? && !pids, NoPidsLimit);
            if strict && lacking != [] then error == Some(lacking[0])
            else error == None && draft' == Noting(draft, lacking)
  {
    draft' := draft;
    if limits.cpuTimeSec.Some? && !cpu {
      if strict { return Some(NoCpuLimit), draft'; }
      draft' := Draft(true, draft'.reasons + [NoCpuLimit]);
    }
    if limits.memoryBytes.Some? && !memory {
      if strict { return Some(NoMemoryLimit), draft'; }
      draft' := Draft(true, draft'.reasons + [NoMemoryLimit]);
    }
    if limits.pidsMax.Some? && !pids {
      if strict { return Some(NoPidsLimit), draft'; }
      draft' := Draft(true, draft'.reasons + [NoPidsLimit]);
    }
    error := None;
  }

  /** The whole negotiation yields the plan that the list of shortfalls determines; in strict
      mode the first shortfall is the error. */
  method ResolveExecutionPlan(request: PlanRequest, caps: Capabilities, defaultMode: CapabilityMode)
    returns (r: Result<Plan, Shortfall>)
    ensures r == Negotiated(request, caps, defaultMode)
  {
    var strict := IsStrict(request, defaultMode);
    var sandbox, draft := NegotiateSandbox(request.sandbox, caps, strict);
    ghost var first, second := SandboxShortfalls(request.sandbox, caps), LimitShortfalls(request, caps);
    ShortfallParts(first, second);
    if sandbox.Err? { return Err(sandbox.error); }
    var error, enforcement;
    error, enforcement, draft := NegotiateEnforcement(request, caps, sandbox.value.profile, strict, draft);
    if error.Some? { return Err(error.value); }
    NotingTwice(Draft(false, []), first, second);
    r := Ok(Plan(EffectiveMode(request, defaultMode), request.sandbox, sandbox.value, enforcement,
                 draft.degraded, draft.reasons, caps.warnings));
  }

  lemma ShortfallParts(first: seq<Shortfall>, second: seq<Shortfall>)
    ensures first != [] ==> (first + second)[0] == first[0]
    ensures first == [] ==> first + second == second
    ensures Noting(Draft(false, []), first + second) == Draft(first + second != [], first + second)
  {
  }

  /** The limits checked against the profile the sandbox ended with. */
  method NegotiateEnforcement(request: PlanRequest, caps: Capabilities, profile: Profile, strict: bool, draft: Draft)
    returns (error: Option<Shortfall>, enforcement: Enforcement, draft': Draft)
    requires profile.LinuxSandbox? <==> KeepsLinux(request.sandbox, caps)
    ensures var lacking := LimitShortfalls(request, caps);
            if strict && lacking != [] then error == Some(lacking[0])
            else error == None && enforcement == EnforcementOf(request, caps) && draft' == Noting(draft, lacking)
  {
    var limits := request.limits;
    var cgroup := profile.LinuxSandbox? && caps.cgroupWritable;
    var cpu := limits.cpuTimeSec.None? || caps.rlimitCpu;
    var memory := limits.memoryBytes.None? || caps.rlimitMemory;
    var pids := limits.pidsMax.None? || (cgroup && caps.pidsLimit);
    var oom := limits.memoryBytes.Some? && cgroup && caps.oomDetection;
    error, draft' := NegotiateLimits(limits, cpu, memory, pids, strict, draft);
    enforcement := Enforcement(limits.wallTimeMs,
                               limits.cpuTimeSec, limits.cpuTimeSec.Some? && cpu,
                               limits.memoryBytes, limits.memoryBytes.Some? && memory,
                               limits.pidsMax, limits.pidsMax.Some? && pids,
                               cgroup, oom);
  }

  // ---- laws

  /** Strict negotiation, by whichever of policy, default or control context asked for it,
      succeeds exactly when the adaptive plan for the same sandbox and limits is not degraded,
      and then both agree on sandbox and enforcement; else it fails with the first reason. */
  lemma StrictIffNotDegraded(strictly: PlanRequest, adaptively: PlanRequest, caps: Capabilities,
                             mode1: CapabilityMode, mode2: CapabilityMode)
    requires strictly.sandbox == adaptively.sandbox && strictly.limits == adaptively.limits
    requires IsStrict(strictly, mode1) && !IsStrict(adaptively, mode2)
    ensures var strict, adaptive := Negotiated(strictly, caps, mode1), Negotiated(adaptively, caps, mode2);
            && adaptive.Ok?
            && (strict.Ok? <==> !adaptive.value.degraded)
            && (adaptive.value.degraded <==> adaptive.value.fallbackReasons != [])
            && (strict.Err? ==> strict.error == adaptive.value.fallbackReasons[0])
            && (strict.Ok? ==> strict.value.effectiveSandbox == adaptive.value.effectiveSandbox
                               && strict.value.enforcement == adaptive.value.enforcement)
  {
    assert Shortfalls(strictly, caps) == Shortfalls(adaptively, caps);
  }

  predicate Leq(a: Namespaces, b: Namespaces) {
    (a.mount ==> b.mount) && (a.pid ==> b.pid) && (a.uts ==> b.uts) && (a.ipc ==> b.ipc) && (a.net ==> b.net)
  }

  /** A sandbox the runtime can provide in full. */
  predicate Supported(s: Sandbox, caps: Capabilities) {
    && (s.profile.LinuxSandbox? ==> caps.linuxSandbox && s.namespaces.Some? && Leq(s.namespaces.value, caps.namespaces))
    && (s.chroot ==> caps.chroot)
  }

  /** The effective sandbox never exceeds the capabilities, and is left alone when resolved again. */
  lemma EffectiveIsSupportedAndStable(s: Sandbox, caps: Capabilities)
    ensures Supported(EffectiveSandbox(s, caps), caps)
    ensures EffectiveSandbox(EffectiveSandbox(s, caps), caps) == EffectiveSandbox(s, caps)
    ensures SandboxShortfalls(EffectiveSandbox(s, caps), caps) == []
  {
  }

  predicate AtMost(a: Capabilities, b: Capabilities) {
    && (a.linuxSandbox ==> b.linuxSandbox) && (a.chroot ==> b.chroot) && Leq(a.namespaces, b.namespaces)
    && (a.cgroupWritable ==> b.cgroupWritable) && (a.rlimitCpu ==> b.rlimitCpu)
    && (a.rlimitMemory ==> b.rlimitMemory) && (a.pidsLimit ==> b.pidsLimit) && (a.oomDetection ==> b.oomDetection)
  }

  /** Adding capabilities never makes a non-degraded plan degraded, nor changes what a strict
      request is granted beyond the enforcement that the new capabilities allow. */
  lemma MoreCapabilitiesNeverDegrade(request: PlanRequest, few: Capabilities, many: Capabilities,
                                     defaultMode: CapabilityMode)
    requires AtMost(few, many)
    requires Negotiated(request, few, defaultMode).Ok? && !Negotiated(request, few, defaultMode).value.degraded
    ensures Negotiated(request, many, defaultMode).Ok? && !Negotiated(request, many, defaultMode).value.degraded
    ensures Negotiated(request, many, defaultMode).value.effectiveSandbox
         == Negotiated(request, few, defaultMode).value.effectiveSandbox
  {
    var s := request.sandbox;
    assert SandboxShortfalls(s, few) == [] && LimitShortfalls(request, few) == [];
    assert SandboxShortfalls(s, many) == [] by { NoneLacking(s, few); NoneLacking(s, many); }
    NoLimitLacking(request, few);
    NoLimitLacking(request, many);
    assert Shortfalls(request, many) == [];
    SameWhenNothingLacks(s, few, many);
  }

  lemma NoLimitLacking(request: PlanRequest, caps: Capabilities)
    ensures LimitShortfalls(request, caps) == [] <==>
      && (request.limits.cpuTimeSec.Some? ==> caps.rlimitCpu)
      && (request.limits.memoryBytes.Some? ==> caps.rlimitMemory)
      && (request.limits.pidsMax.Some? ==> CgroupEnforced(request.sandbox, caps) && caps.pidsLimit)
  {
  }

  lemma SameWhenNothingLacks(s: Sandbox, few: Capabilities, many: Capabilities)
    requires SandboxShortfalls(s, few) == [] && SandboxShortfalls(s, many) == []
    ensures EffectiveSandbox(s, few) == EffectiveSandbox(s, many)
  {
  }

  /** A sandbox has no shortfall exactly when everything it asks for is there. */
  lemma NoneLacking(s: Sandbox, caps: Capabilities)
    ensures SandboxShortfalls(s, caps) == [] <==>
      && (s.profile.LinuxSandbox? ==> caps.linuxSandbox && Leq(EffectiveNamespaces(s), caps.namespaces))
      && (s.chroot ==> caps.chroot)
  {
  }
}

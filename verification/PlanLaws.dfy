/** What a negotiated plan enforces, keeps and gives up, in terms of the request and the host. */
module PlanLaws {
  import opened Types
  import opened Policy

  // ---- what a host lacks, reason by reason

  /** The namespaces asked for; all but the network when the request names none. */
  function Wants(s: Sandbox): Namespaces {
    if s.namespaces.Some? then s.namespaces.value else Namespaces(true, true, true, true, false)
  }

  /** A Linux sandbox is asked for and the host has it. */
  predicate Linux(s: Sandbox, caps: Capabilities) {
    s.profile == LinuxSandbox && caps.linuxSandbox
  }

  predicate Lacks(request: PlanRequest, caps: Capabilities, reason: Shortfall) {
    var s, limits, has := request.sandbox, request.limits, caps.namespaces;
    match reason
    case NoLinuxSandbox => s.profile == LinuxSandbox && !caps.linuxSandbox
    case NoChroot => s.chroot && !caps.chroot && (s.profile == Process || caps.linuxSandbox)
    case NoMountNamespace => Linux(s, caps) && Wants(s).mount && !has.mount
    case NoPidNamespace => Linux(s, caps) && Wants(s).pid && !has.pid
    case NoUtsNamespace => Linux(s, caps) && Wants(s).uts && !has.uts
    case NoIpcNamespace => Linux(s, caps) && Wants(s).ipc && !has.ipc
    case NoNetNamespace => Linux(s, caps) && Wants(s).net && !has.net
    case NoCpuLimit => limits.cpuTimeSec.Some? && !caps.rlimitCpu
    case NoMemoryLimit => limits.memoryBytes.Some? && !caps.rlimitMemory
    case NoPidsLimit => limits.pidsMax.Some? && !(Linux(s, caps) && caps.cgroupWritable && caps.pidsLimit)
  }

  const ORDER: seq<Shortfall> := [
    NoLinuxSandbox, NoChroot, NoMountNamespace, NoPidNamespace, NoUtsNamespace, NoIpcNamespace, NoNetNamespace,
    NoCpuLimit, NoMemoryLimit, NoPidsLimit]

  /** The reasons from `order` that apply, in that order. */
  function Applying(request: PlanRequest, caps: Capabilities, order: seq<Shortfall>): seq<Shortfall> {
    if order == [] then []
    else (if Lacks(request, caps, order[0]) then [order[0]] else []) + Applying(request, caps, order[1..])
  }

  lemma {:induction false} ApplyingIsExact(request: PlanRequest, caps: Capabilities, order: seq<Shortfall>)
    ensures forall reason ::
              reason in Applying(request, caps, order) <==> reason in order && Lacks(request, caps, reason)
    ensures var found := Applying(request, caps, order);
            found != [] ==> exists k :: 0 <= k < |order| && order[k] == found[0]
                                        && forall j :: 0 <= j < k ==> !Lacks(request, caps, order[j])
  {
    if order != [] {
      ApplyingIsExact(request, caps, order[1..]);
      var found, rest := Applying(request, caps, order), Applying(request, caps, order[1..]);
      if found != [] && !Lacks(request, caps, order[0]) {
        assert found == rest;
        var k :| 0 <= k < |order[1..]| && order[1..][k] == rest[0]
                 && forall j :: 0 <= j < k ==> !Lacks(request, caps, order[1..][j]);
        assert order[k + 1] == found[0];
        forall j | 0 <= j < k + 1 ensures !Lacks(request, caps, order[j]) {
          if j > 0 { assert order[j] == order[1..][j - 1]; }
        }
      } else if found != [] {
        assert order[0] == found[0];
      }
    }
  }

  lemma EveryReasonIsOrdered(reason: Shortfall)
    ensures reason in ORDER
  {
    match reason {
      case NoLinuxSandbox => assert ORDER[0] == reason;
      case NoChroot => assert ORDER[1] == reason;
      case NoMountNamespace => assert ORDER[2] == reason;
      case NoPidNamespace => assert ORDER[3] == reason;
      case NoUtsNamespace => assert ORDER[4] == reason;
      case NoIpcNamespace => assert ORDER[5] == reason;
      case NoNetNamespace => assert ORDER[6] == reason;
      case NoCpuLimit => assert ORDER[7] == reason;
      case NoMemoryLimit => assert ORDER[8] == reason;
      case NoPidsLimit => assert ORDER[9] == reason;
    }
  }

  lemma ApplyingCons(request: PlanRequest, caps: Capabilities, reason: Shortfall, order: seq<Shortfall>)
    ensures Applying(request, caps, [reason] + order)
         == When(Lacks(request, caps, reason), reason) + Applying(request, caps, order)
  {
    assert ([reason] + order)[1..] == order;
  }

  lemma LimitReasons(request: PlanRequest, caps: Capabilities)
    ensures Applying(request, caps, [NoCpuLimit, NoMemoryLimit, NoPidsLimit]) == LimitShortfalls(request, caps)
  {
    ApplyingCons(request, caps, NoPidsLimit, []);
    ApplyingCons(request, caps, NoMemoryLimit, [NoPidsLimit]);
    ApplyingCons(request, caps, NoCpuLimit, [NoMemoryLimit, NoPidsLimit]);
    assert [NoPidsLimit] == [NoPidsLimit] + [];
    assert [NoMemoryLimit, NoPidsLimit] == [NoMemoryLimit] + [NoPidsLimit];
    assert [NoCpuLimit, NoMemoryLimit, NoPidsLimit] == [NoCpuLimit] + [NoMemoryLimit, NoPidsLimit];
    assert Applying(request, caps, []) == [];
  }

  lemma LastNamespaceReasons(request: PlanRequest, caps: Capabilities, rest: seq<Shortfall>)
    ensures Applying(request, caps, [NoUtsNamespace] + ([NoIpcNamespace] + ([NoNetNamespace] + rest)))
         == (if Linux(request.sandbox, caps) then RestShortfalls(Wants(request.sandbox), caps.namespaces) else [])
            + Applying(request, caps, rest)
  {
    ApplyingCons(request, caps, NoNetNamespace, rest);
    ApplyingCons(request, caps, NoIpcNamespace, [NoNetNamespace] + rest);
    ApplyingCons(request, caps, NoUtsNamespace, [NoIpcNamespace] + ([NoNetNamespace] + rest));
  }

  lemma NamespaceReasons(request: PlanRequest, caps: Capabilities, last: seq<Shortfall>)
    ensures Applying(request, caps, [NoMountNamespace] + ([NoPidNamespace] + last))
         == (if !Linux(request.sandbox, caps) then []
             else When(Wants(request.sandbox).mount && !caps.namespaces.mount, NoMountNamespace)
                  + When(Wants(request.sandbox).pid && !caps.namespaces.pid, NoPidNamespace))
            + Applying(request, caps, last)
  {
    ApplyingCons(request, caps, NoPidNamespace, last);
    ApplyingCons(request, caps, NoMountNamespace, [NoPidNamespace] + last);
  }

  lemma Regroup(a: seq<Shortfall>, b: seq<Shortfall>, c: seq<Shortfall>, d: seq<Shortfall>, e: seq<Shortfall>)
    ensures a + (b + (c + (d + e))) == (a + b + (c + d)) + e
  {
  }

  lemma OrderIs(limits: seq<Shortfall>)
    requires limits == [NoCpuLimit, NoMemoryLimit, NoPidsLimit]
    ensures ORDER == [NoLinuxSandbox] + ([NoChroot] + ([NoMountNamespace] + ([NoPidNamespace]
                     + ([NoUtsNamespace] + ([NoIpcNamespace] + ([NoNetNamespace] + limits))))))
  {
  }

  lemma ReasonsInOrder(request: PlanRequest, caps: Capabilities)
    ensures Applying(request, caps, ORDER) == Shortfalls(request, caps)
  {
    var s, has := request.sandbox, caps.namespaces;
    var limits := [NoCpuLimit, NoMemoryLimit, NoPidsLimit];
    var last := [NoUtsNamespace] + ([NoIpcNamespace] + ([NoNetNamespace] + limits));
    var spaces := [NoMountNamespace] + ([NoPidNamespace] + last);
    OrderIs(limits);
    LimitReasons(request, caps);
    LastNamespaceReasons(request, caps, limits);
    NamespaceReasons(request, caps, last);
    ApplyingCons(request, caps, NoChroot, spaces);
    ApplyingCons(request, caps, NoLinuxSandbox, [NoChroot] + spaces);
    Regroup(When(Lacks(request, caps, NoLinuxSandbox), NoLinuxSandbox), When(Lacks(request, caps, NoChroot), NoChroot),
            if Linux(s, caps) then When(Wants(s).mount && !has.mount, NoMountNamespace)
                                   + When(Wants(s).pid && !has.pid, NoPidNamespace) else [],
            if Linux(s, caps) then RestShortfalls(Wants(s), has) else [],
            LimitShortfalls(request, caps));
  }

  // ---- the outcome

  /** Strictness comes from the request's policy, or the default when it has none, or from the
      control context. */
  predicate Strictly(request: PlanRequest, defaultMode: CapabilityMode) {
    request.requiresStrictSandbox || request.policy == Some(Strict) || (request.policy == None && defaultMode == Strict)
  }

  /** Negotiation fails exactly when something is lacking and strictness was asked for; the error
      is the first reason in order. */
  lemma {:induction false} RefusedExactly(request: PlanRequest, caps: Capabilities, defaultMode: CapabilityMode)
    ensures var r := Negotiated(request, caps, defaultMode);
            && (r.Err? <==> Strictly(request, defaultMode) && exists reason :: Lacks(request, caps, reason))
            && (r.Err? ==> exists k :: 0 <= k < |ORDER| && ORDER[k] == r.error && Lacks(request, caps, r.error)
                                       && forall j :: 0 <= j < k ==> !Lacks(request, caps, ORDER[j]))
  {
    ReasonsInOrder(request, caps);
    ApplyingIsExact(request, caps, ORDER);
    var found := Applying(request, caps, ORDER);
    if reason :| Lacks(request, caps, reason) {
      EveryReasonIsOrdered(reason);
      assert reason in found;
    }
    if found != [] { assert found[0] in found; }
  }

  /** A plan's reasons are exactly those that apply, and it is degraded exactly when there is one. */
  lemma {:induction false} ReasonsExactly(request: PlanRequest, caps: Capabilities, defaultMode: CapabilityMode,
                                          reason: Shortfall)
    requires Negotiated(request, caps, defaultMode).Ok?
    ensures var plan := Negotiated(request, caps, defaultMode).value;
            && (reason in plan.fallbackReasons <==> Lacks(request, caps, reason))
            && plan.fallbackReasons == Applying(request, caps, ORDER)
            && (plan.degraded <==> exists reason :: Lacks(request, caps, reason))
            && plan.requestedSandbox == request.sandbox && plan.warnings == caps.warnings
            && plan.mode == (if request.policy.Some? then request.policy.value else defaultMode)
  {
    ReasonsInOrder(request, caps);
    ApplyingIsExact(request, caps, ORDER);
    forall other ensures other in ORDER { EveryReasonIsOrdered(other); }
    var found := Applying(request, caps, ORDER);
    if found != [] { assert found[0] in found; }
  }

  // ---- enforcement

  /** A requested limit is enforced or its shortfall is among the reasons, never both; one that
      nobody asked for is neither. */
  predicate Accounted(requested: Option<U64>, amount: Option<U64>, enforced: bool, reason: Shortfall,
                      reasons: seq<Shortfall>)
  {
    && amount == requested
    && (requested.Some? ==> (enforced <==> reason !in reasons))
    && (requested.None? ==> !enforced && reason !in reasons)
  }

  /** What is enforced is what the host can enforce under the profile the sandbox ended with. */
  lemma EnforcedIsSupported(request: PlanRequest, caps: Capabilities, defaultMode: CapabilityMode)
    requires Negotiated(request, caps, defaultMode).Ok?
    ensures var plan := Negotiated(request, caps, defaultMode).value;
            var e, limits := plan.enforcement, request.limits;
            && (e.cpuTimeEnforced <==> limits.cpuTimeSec.Some? && caps.rlimitCpu)
            && (e.memoryEnforced <==> limits.memoryBytes.Some? && caps.rlimitMemory)
            && (e.cgroupEnforced <==> plan.effectiveSandbox.profile == LinuxSandbox && caps.cgroupWritable)
            && (e.pidsEnforced <==> limits.pidsMax.Some? && e.cgroupEnforced && caps.pidsLimit)
            && (e.oomDetection <==> limits.memoryBytes.Some? && e.cgroupEnforced && caps.oomDetection)
  {
  }

  lemma CpuIsAccountedFor(request: PlanRequest, caps: Capabilities, plan: Plan)
    requires plan.enforcement == EnforcementOf(request, caps)
    requires NoCpuLimit in plan.fallbackReasons <==> Lacks(request, caps, NoCpuLimit)
    ensures var e := plan.enforcement;
            Accounted(request.limits.cpuTimeSec, e.cpuTimeSec, e.cpuTimeEnforced, NoCpuLimit, plan.fallbackReasons)
  {
  }

  lemma MemoryIsAccountedFor(request: PlanRequest, caps: Capabilities, plan: Plan)
    requires plan.enforcement == EnforcementOf(request, caps)
    requires NoMemoryLimit in plan.fallbackReasons <==> Lacks(request, caps, NoMemoryLimit)
    ensures var e := plan.enforcement;
            Accounted(request.limits.memoryBytes, e.memoryBytes, e.memoryEnforced, NoMemoryLimit, plan.fallbackReasons)
  {
  }

  lemma PidsAreAccountedFor(request: PlanRequest, caps: Capabilities, plan: Plan)
    requires plan.enforcement == EnforcementOf(request, caps)
    requires NoPidsLimit in plan.fallbackReasons <==> Lacks(request, caps, NoPidsLimit)
    ensures var e := plan.enforcement;
            Accounted(request.limits.pidsMax, e.pidsMax, e.pidsEnforced, NoPidsLimit, plan.fallbackReasons)
  {
  }

  /** Every plan enforces each requested limit the host supports and owns up to the others. */
  lemma {:induction false} LimitsAreAccountedFor(request: PlanRequest, caps: Capabilities, defaultMode: CapabilityMode)
    requires Negotiated(request, caps, defaultMode).Ok?
    ensures var plan := Negotiated(request, caps, defaultMode).value;
            var e, reasons, limits := plan.enforcement, plan.fallbackReasons, request.limits;
            && e.wallTimeMs == limits.wallTimeMs
            && Accounted(limits.cpuTimeSec, e.cpuTimeSec, e.cpuTimeEnforced, NoCpuLimit, reasons)
            && Accounted(limits.memoryBytes, e.memoryBytes, e.memoryEnforced, NoMemoryLimit, reasons)
            && Accounted(limits.pidsMax, e.pidsMax, e.pidsEnforced, NoPidsLimit, reasons)
  {
    var plan := Negotiated(request, caps, defaultMode).value;
    ReasonsExactly(request, caps, defaultMode, NoCpuLimit);
    ReasonsExactly(request, caps, defaultMode, NoMemoryLimit);
    ReasonsExactly(request, caps, defaultMode, NoPidsLimit);
    CpuIsAccountedFor(request, caps, plan);
    MemoryIsAccountedFor(request, caps, plan);
    PidsAreAccountedFor(request, caps, plan);
  }

  /** A plan that is not degraded enforces everything requested. */
  lemma {:induction false} UndegradedEnforcesAll(request: PlanRequest, caps: Capabilities, defaultMode: CapabilityMode)
    requires Negotiated(request, caps, defaultMode).Ok? && !Negotiated(request, caps, defaultMode).value.degraded
    ensures var e, limits := Negotiated(request, caps, defaultMode).value.enforcement, request.limits;
            && (limits.cpuTimeSec.Some? ==> e.cpuTimeEnforced)
            && (limits.memoryBytes.Some? ==> e.memoryEnforced)
            && (limits.pidsMax.Some? ==> e.pidsEnforced)
  {
    LimitsAreAccountedFor(request, caps, defaultMode);
    forall reason ensures reason !in Negotiated(request, caps, defaultMode).value.fallbackReasons {
      ReasonsExactly(request, caps, defaultMode, reason);
    }
  }

  // ---- the sandbox

  /** The effective sandbox keeps everything requested that the host supports, and nothing else. */
  lemma EffectiveKeepsSupported(request: PlanRequest, caps: Capabilities, defaultMode: CapabilityMode)
    requires Negotiated(request, caps, defaultMode).Ok?
    ensures var s, e := request.sandbox, Negotiated(request, caps, defaultMode).value.effectiveSandbox;
            && (e.profile == LinuxSandbox <==> s.profile == LinuxSandbox && caps.linuxSandbox)
            && e.workspaceSubdir == s.workspaceSubdir
            && (e.chroot <==> s.chroot && caps.chroot && (s.profile == LinuxSandbox ==> caps.linuxSandbox))
            && (s.profile == LinuxSandbox && !caps.linuxSandbox ==> e.rootfs == None && e.namespaces == None)
            && ((s.profile == LinuxSandbox ==> caps.linuxSandbox) ==>
                  e.rootfs == if s.chroot && !caps.chroot then None else s.rootfs)
            && (s.profile == Process ==> e.namespaces == s.namespaces)
            && (Linux(s, caps) ==>
                  && e.namespaces.Some?
                  && (e.namespaces.value.mount <==> Wants(s).mount && caps.namespaces.mount)
                  && (e.namespaces.value.pid <==> Wants(s).pid && caps.namespaces.pid)
                  && (e.namespaces.value.uts <==> Wants(s).uts && caps.namespaces.uts)
                  && (e.namespaces.value.ipc <==> Wants(s).ipc && caps.namespaces.ipc)
                  && (e.namespaces.value.net <==> Wants(s).net && caps.namespaces.net))
  {
  }
}

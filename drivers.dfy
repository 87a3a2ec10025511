/**
 * The drivers page's command plans: the NVIDIA driver plan built from the
 * options ticked in the selection dialog, the closed/open conflict check that
 * guards it, and the fixed Tailscale and ASUS ROG plans.
 */
module Drivers {
  import opened Wrappers
  import opened CommandTypes
  import Executor

  const ClosedId: string := "nvidia_closed"
  const OpenId: string := "nvidia_open"
  const CudaId: string := "cuda"

  /** The leading arguments of every package install on the NVIDIA plan. */
  const InstallFlags: seq<string> := ["-S", "--needed", "--noconfirm"]

  const ClosedStep: CommandStep := AurStep(
    ["-S", "--needed", "--noconfirm", "libvdpau", "egl-wayland", "nvidia-dkms", "nvidia-utils",
     "opencl-nvidia", "libvdpau-va-gl", "nvidia-settings", "vulkan-icd-loader", "lib32-nvidia-utils",
     "lib32-opencl-nvidia", "linux-firmware-nvidia", "lib32-vulkan-icd-loader"],
    "Installing NVIDIA proprietary drivers...")

  const OpenStep: CommandStep := AurStep(
    ["-S", "--needed", "--noconfirm", "libvdpau", "egl-wayland", "nvidia-utils", "opencl-nvidia",
     "libvdpau-va-gl", "nvidia-settings", "nvidia-open-dkms", "vulkan-icd-loader", "lib32-nvidia-utils",
     "lib32-opencl-nvidia", "linux-firmware-nvidia", "lib32-vulkan-icd-loader"],
    "Installing NVIDIA open source drivers...")

  const CudaStep: CommandStep := AurStep(
    ["-S", "--needed", "--noconfirm", "cuda", "cudnn"],
    "Installing CUDA Toolkit...")

  const SetupStep: CommandStep := PrivilegedStep(
    "bash", ["/opt/xero-toolkit/scripts/nv-setup.sh"],
    "Configuring NVIDIA drivers...")

  /** Either NVIDIA driver is ticked. */
  predicate DriverSelected(selected: seq<string>) {
    ClosedId in selected || OpenId in selected
  }

  /** Both NVIDIA drivers are ticked, which the page refuses. */
  predicate Conflicting(selected: seq<string>) {
    ClosedId in selected && OpenId in selected
  }

  /** The step a ticked option contributes, or nothing. */
  function When(chosen: bool, step: CommandStep): seq<CommandStep> {
    if chosen then [step] else []
  }

  /**
   * The NVIDIA plan as a value: closed driver, open driver, CUDA, each when
   * ticked, and the post-install configuration when a driver is ticked.
   */
  function GpuPlan(selected: seq<string>): seq<CommandStep> {
    When(ClosedId in selected, ClosedStep) + When(OpenId in selected, OpenStep)
    + When(CudaId in selected, CudaStep) + When(DriverSelected(selected), SetupStep)
  }

  /** Collects the steps of the ticked options into a fresh list, one conditional push at a time. */
  method BuildGpuDriverCommands(selected: seq<string>) returns (commands: seq<CommandStep>)
    ensures commands == GpuPlan(selected)
  {
    commands := [];
    if ClosedId in selected {
      commands := commands + [ClosedStep];
    }
    if OpenId in selected {
      commands := commands + [OpenStep];
    }
    if CudaId in selected {
      commands := commands + [CudaStep];
    }
    var driverSelected := ClosedId in selected || OpenId in selected;
    if driverSelected {
      commands := commands + [SetupStep];
    }
  }

  /** The position of a step in the fixed plan order; 4 for a step the plan never holds. */
  function Rank(step: CommandStep): nat {
    if step == ClosedStep then 0
    else if step == OpenStep then 1
    else if step == CudaStep then 2
    else if step == SetupStep then 3
    else 4
  }

  lemma StepsDistinct()
    ensures Rank(ClosedStep) == 0 && Rank(OpenStep) == 1 && Rank(CudaStep) == 2 && Rank(SetupStep) == 3
  {
    assert ClosedStep.friendlyName != OpenStep.friendlyName;
    assert ClosedStep.friendlyName != CudaStep.friendlyName && OpenStep.friendlyName != CudaStep.friendlyName;
    assert SetupStep.commandType != ClosedStep.commandType;
  }

  /**
   * The plan is in the fixed order closed, open, CUDA, configuration, with no
   * step twice: ranks strictly increase and never leave 0..3, so at most four steps.
   */
  lemma GpuPlanOrdered(selected: seq<string>)
    ensures var plan := GpuPlan(selected);
            && |plan| <= 4
            && (forall i :: 0 <= i < |plan| ==> Rank(plan[i]) < 4)
            && (forall i, j :: 0 <= i < j < |plan| ==> Rank(plan[i]) < Rank(plan[j]))
  {
    StepsDistinct();
  }

  /** Each option contributes its step exactly when ticked. */
  lemma GpuPlanSelects(selected: seq<string>)
    ensures ClosedStep in GpuPlan(selected) <==> ClosedId in selected
    ensures OpenStep in GpuPlan(selected) <==> OpenId in selected
    ensures CudaStep in GpuPlan(selected) <==> CudaId in selected
  {
    StepsDistinct();
  }

  /** The configuration step is present exactly when a driver is ticked, and then it is last. */
  lemma SetupStepLast(selected: seq<string>)
    ensures SetupStep in GpuPlan(selected) <==> DriverSelected(selected)
    ensures DriverSelected(selected) ==> GpuPlan(selected)[|GpuPlan(selected)| - 1] == SetupStep
  {
    StepsDistinct();
  }

  /** With none of the three options ticked the plan is empty, and only then. */
  lemma GpuPlanEmpty(selected: seq<string>)
    ensures GpuPlan(selected) == [] <==> ClosedId !in selected && OpenId !in selected && CudaId !in selected
  {
  }

  /** Every package install on the plan starts with the same three flags. */
  lemma GpuPlanInstallFlags(selected: seq<string>)
    ensures forall i :: 0 <= i < |GpuPlan(selected)| && GpuPlan(selected)[i].commandType == Aur ==>
              |GpuPlan(selected)[i].args| >= 3 && GpuPlan(selected)[i].args[..3] == InstallFlags
  {
    var plan := GpuPlan(selected);
    forall i | 0 <= i < |plan| && plan[i].commandType == Aur
      ensures |plan[i].args| >= 3 && plan[i].args[..3] == InstallFlags
    {
      StepsDistinct();
      assert Rank(plan[i]) < 4 by { GpuPlanOrdered(selected); }
    }
  }

  /**
   * With an AUR helper available, every package install resolves to that helper
   * escalating itself and then installing without questions.
   */
  lemma GpuPlanResolvesThroughHelper(selected: seq<string>, configured: Option<string>, detected: Option<string>, i: nat)
    requires i < |GpuPlan(selected)| && GpuPlan(selected)[i].commandType == Aur
    requires configured.Some? || detected.Some?
    ensures var r := Executor.ResolveCommand(GpuPlan(selected)[i], configured, detected);
            && r.Ok? && |r.value.args| >= 5
            && r.value.args[..5] == ["--sudo", Executor.PrivilegeTool] + InstallFlags
  {
    var step := GpuPlan(selected)[i];
    GpuPlanInstallFlags(selected);
    var r := Executor.ResolveCommand(step, configured, detected);
    assert r.value.args[..2] == ["--sudo", Executor.PrivilegeTool];
    assert r.value.args[2..][..3] == InstallFlags;
  }

  /** Where a confirmed NVIDIA selection leads. */
  datatype SelectionOutcome =
    | Conflict(message: string)
    | NothingToRun
    | RunPlan(title: string, commands: seq<CommandStep>)

  const ConflictMessage: string := "Cannot install both closed and open source NVIDIA drivers.\nPlease select only one."
  const GpuTitle: string := "GPU Driver Installation"

  /**
   * The selection dialog's confirm handler: a conflicting selection shows an
   * error and builds nothing; otherwise a non-empty plan goes to the task runner.
   */
  method HandleGpuSelection(selected: seq<string>) returns (outcome: SelectionOutcome)
    ensures outcome.Conflict? <==> Conflicting(selected)
    ensures outcome.Conflict? ==> outcome.message == ConflictMessage
    ensures outcome.NothingToRun? <==> !Conflicting(selected) && GpuPlan(selected) == []
    ensures outcome.RunPlan? ==> outcome.title == GpuTitle && outcome.commands == GpuPlan(selected) && outcome.commands != []
  {
    if ClosedId in selected && OpenId in selected {
      return Conflict(ConflictMessage);
    }
    var commands := BuildGpuDriverCommands(selected);
    if commands != [] {
      outcome := RunPlan(GpuTitle, commands);
    } else {
      outcome := NothingToRun;
    }
  }

  /** A plan that reaches the task runner installs one driver at most, and configures it last. */
  lemma RunPlanHasOneDriver(selected: seq<string>)
    requires !Conflicting(selected)
    ensures !(ClosedStep in GpuPlan(selected) && OpenStep in GpuPlan(selected))
    ensures DriverSelected(selected) ==> |GpuPlan(selected)| <= 3
  {
    GpuPlanSelects(selected);
  }

  const TailscaleTitle: string := "Install Tailscale VPN"

  /** Tailscale: one privileged shell running the distribution's install script. */
  const TailscalePlan: seq<CommandStep> := [PrivilegedStep(
    "bash",
    ["-c", "curl -fsSL https://raw.githubusercontent.com/xerolinux/xero-fixes/main/conf/install.sh | bash"],
    "Installing Tailscale VPN...")]

  lemma TailscalePlanShape()
    ensures |TailscalePlan| == 1 && TailscalePlan[0].commandType == Privileged
    ensures Executor.ResolveCommand(TailscalePlan[0], None, None).Ok?
    ensures Executor.ResolveCommand(TailscalePlan[0], None, None).value.args[..2] == ["bash", "-c"]
  {
  }

  const AsusTitle: string := "Install ASUS ROG Tools"

  /** ASUS ROG: install the control tools through the AUR helper, then enable their services. */
  const AsusRogPlan: seq<CommandStep> := [
    AurStep(["-S", "--noconfirm", "--needed", "rog-control-center", "asusctl", "supergfxctl"],
            "Installing ASUS ROG control tools..."),
    PrivilegedStep("systemctl", ["enable", "--now", "asusd", "supergfxd"], "Enabling ASUS ROG services...")
  ]

  /** The ASUS plan is exactly an AUR install followed by a privileged service enable. */
  lemma AsusRogPlanShape()
    ensures |AsusRogPlan| == 2
    ensures AsusRogPlan[0].commandType == Aur && AsusRogPlan[1].commandType == Privileged
    ensures AsusRogPlan[0].args[3..] == ["rog-control-center", "asusctl", "supergfxctl"]
    ensures Executor.ResolveCommand(AsusRogPlan[1], None, None)
              == Ok(Executor.Invocation("pkexec", ["systemctl", "enable", "--now", "asusd", "supergfxd"]))
  {
    assert ["systemctl"] + AsusRogPlan[1].args == ["systemctl", "enable", "--now", "asusd", "supergfxd"];
  }
}

/** The Addon resource: its spec, its status and the operations on the status
    (api/addon/v1alpha1/addon_types.go, pkg/common/helpers.go). */
module AddonTypes {

  datatype Option<+T> = None | Some(value: T)

  type uint32 = n: nat | n < 0x1_0000_0000

  const FINALIZER := "delete.addonmgr.keikoproj.io"

  // One hour, in milliseconds.
  const TTL := 3_600_000

  /** The phases of an addon; `NoPhase` is the empty string. */
  datatype Phase =
    | NoPhase | Pending | Succeeded | Failed | ValidationFailed
    | Deleting | DeleteFailed | DeleteSucceeded
  {
    predicate IsSucceeded() { this == Succeeded || this == DeleteSucceeded }

    predicate IsFailed() { this == Failed || this == DeleteFailed }

    predicate IsCompleted() { IsSucceeded() || IsFailed() }

    predicate IsDeleting() { this == Deleting || this == DeleteFailed || this == DeleteSucceeded }

    predicate IsRunning() { this == Pending || this == ValidationFailed }
  }

  /** The phases Argo gives a workflow; `WfUnknown` is the empty string. */
  datatype WfPhase = WfUnknown | WfPending | WfRunning | WfSucceeded | WfFailed | WfError

  datatype LifecycleStep = Prereqs | Install | Delete | Validate
  {
    function Text(): string {
      match this
      case Prereqs => "prereqs"
      case Install => "install"
      case Delete => "delete"
      case Validate => "validate"
    }
  }

  datatype WorkflowType = WorkflowType(namePrefix: string, role: string, workflowRole: string, template: string)

  datatype PackageSpec = PackageSpec(
    channel: string, name: string, version: string, pkgType: string, description: string,
    deps: map<string, string>)

  datatype AddonParams = AddonParams(
    namespace: string, clusterName: string, clusterRegion: string,
    additionalConfigs: map<string, string>, data: map<string, string>)

  /** `other` stands for the selector and the overrides, which only the checksum reads. */
  datatype Spec = Spec(
    pkg: PackageSpec, params: AddonParams, secrets: seq<string>,
    prereqs: WorkflowType, install: WorkflowType, delete: WorkflowType, validate: WorkflowType,
    other: string)
  {
    function Workflow(step: LifecycleStep): WorkflowType {
      match step
      case Prereqs => prereqs
      case Install => install
      case Delete => delete
      case Validate => validate
    }
  }

  datatype Status = Status(
    checksum: string, prereqs: Phase, installed: Phase,
    resources: seq<string>, reason: string, startTime: int)

  const EMPTY_STATUS := Status("", NoPhase, NoPhase, [], "", 0)

  // ---------------------------------------------------------------------------
  // The status setters, as functions of the old status.

  predicate KeepsReason(phase: Phase) {
    phase == Pending || phase == ValidationFailed || phase == DeleteFailed || phase == Failed
  }

  function WithInstalled(st: Status, phase: Phase, reason: string): Status {
    st.(installed := phase, reason := if KeepsReason(phase) then reason else "")
  }

  function WithPrereqs(st: Status, phase: Phase, reason: string): Status {
    match phase
    case Pending => WithInstalled(st.(prereqs := Pending), Pending, "")
    case Failed => WithInstalled(st.(prereqs := Failed), Failed, reason)
    case Succeeded => WithInstalled(st.(prereqs := Succeeded), Pending, "")
    case _ => st.(prereqs := NoPhase)
  }

  function WithStep(st: Status, step: LifecycleStep, phase: Phase, reason: string): Status {
    match step
    case Prereqs => WithPrereqs(st, phase, reason)
    case Install => WithInstalled(st, phase, reason)
    case Delete =>
      WithInstalled(st, if phase == Succeeded then DeleteSucceeded else if phase == Failed then DeleteFailed else phase,
                    reason)
    case Validate => st
  }

  function Cleared(st: Status): Status {
    st.(prereqs := NoPhase, installed := NoPhase, reason := "")
  }

  function ConvertPhase(step: LifecycleStep, phase: WfPhase): Phase {
    match phase
    case WfPending | WfRunning => if step == Delete then Deleting else Pending
    case WfSucceeded => if step == Delete then DeleteSucceeded else Succeeded
    case WfFailed | WfError => if step == Delete then DeleteFailed else Failed
    case WfUnknown => NoPhase
  }

  /** What a workflow's phase can do to a status: a success is recorded only for a workflow that
      succeeded, only on the field of its own step, and the checksum is never touched. */
  lemma StepOutcome(st: Status, step: LifecycleStep, phase: WfPhase, reason: string)
    requires phase != WfUnknown
    ensures var st' := WithStep(st, step, ConvertPhase(step, phase), reason);
            && st'.checksum == st.checksum
            && (st'.prereqs.IsSucceeded() ==> st'.prereqs == st.prereqs || (step == Prereqs && phase == WfSucceeded))
            && (st'.installed == Succeeded ==>
                  (step == Validate && st.installed == Succeeded) || (step == Install && phase == WfSucceeded))
            && (st'.installed == DeleteSucceeded ==>
                  (step == Validate && st.installed == DeleteSucceeded) || (step == Delete && phase == WfSucceeded))
            && (step != Validate ==>
                  (st'.installed.IsCompleted() <==>
                   phase == WfFailed || phase == WfError || (phase == WfSucceeded && step != Prereqs)))
            && (step != Validate ==> st'.installed != NoPhase)
  {
  }

  /** The stored object: what the API server holds of an addon, less its name. */
  datatype Record = Record(spec: Spec, status: Status, deleting: bool, finalizers: set<string>)

  /** What never changes about one addon: its name and the hash behind its checksum. */
  datatype Context = Context(name: string, adler: Spec -> uint32)

  /** An in-memory addon, which the controllers change field by field. */
  class Addon {
    const name: string
    const spec: Spec
    const deleting: bool
    var finalizers: set<string>
    var status: Status

    constructor (name: string, r: Record)
      ensures this.name == name && spec == r.spec && deleting == r.deleting
      ensures finalizers == r.finalizers && status == r.status
    {
      this.name, spec, deleting, finalizers, status := name, r.spec, r.deleting, r.finalizers, r.status;
    }

    method SetInstallStatus(phase: Phase, reason: string)
      modifies this`status
      ensures status == WithInstalled(old(status), phase, reason)
    {
      status := status.(installed := phase);
      match phase {
        case Pending | ValidationFailed | DeleteFailed | Failed => status := status.(reason := reason);
        case _ => status := status.(reason := "");
      }
    }

    /** The error is returned for a phase that prerequisites cannot have, with the prereqs phase cleared. */
    method SetPrereqAndInstallStatuses(phase: Phase, reason: string) returns (err: bool)
      modifies this`status
      ensures status == WithPrereqs(old(status), phase, reason)
      ensures err <==> phase !in {Pending, Failed, Succeeded}
    {
      err := false;
      match phase {
        case Pending =>
          status := status.(prereqs := Pending);
          SetInstallStatus(Pending, "");
        case Failed =>
          status := status.(prereqs := Failed);
          SetInstallStatus(Failed, reason);
        case Succeeded =>
          status := status.(prereqs := Succeeded);
          SetInstallStatus(Pending, "");
        case _ =>
          status := status.(prereqs := NoPhase);
          err := true;
      }
    }

    method SetStatusByLifecycleStep(step: LifecycleStep, phase: Phase, reason: string) returns (err: bool)
      modifies this`status
      ensures status == WithStep(old(status), step, phase, reason)
      ensures err <==> step == Prereqs && phase !in {Pending, Failed, Succeeded}
    {
      err := false;
      match step {
        case Prereqs =>
          err := SetPrereqAndInstallStatuses(phase, reason);
        case Install =>
          SetInstallStatus(phase, reason);
        case Delete =>
          if phase == Succeeded {
            SetInstallStatus(DeleteSucceeded, reason);
          } else if phase == Failed {
            SetInstallStatus(DeleteFailed, reason);
          } else {
            SetInstallStatus(phase, reason);
          }
        case Validate =>
      }
    }

    method ClearStatus()
      modifies this`status
      ensures status == Cleared(old(status))
    {
      status := status.(prereqs := NoPhase);
      status := status.(installed := NoPhase);
      status := status.(reason := "");
    }
  }
}

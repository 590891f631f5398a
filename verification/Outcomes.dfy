/** How the operations of the engine can end. */
module Outcomes {
  import opened Labels
  import opened PodStore
  import opened Status

  datatype Found<+T> = Found(value: T) | NotFound | LookupFailed | Multiple

  /** `ExecLost` is a failure that the caller takes for a success. */
  datatype ExecOutcome = ExecDone | AbbotMissing | ExecFailed | ExecLost

  datatype GuardOutcome = Allowed | Refused | GuardFailed

  datatype DeleteOutcome = Deleted | NoPause | LookupFault | NetworkFault | GuardRefused | GuardFault | RemoveFault

  /** Where an ensure command failed. */
  datatype Stage =
    | PodLookup | NoPauseFound | PrevPod(outcome: DeleteOutcome) | AbbotCheck | ImageStage | NewPodStage
    | PauseConfig | PauseCreate | PauseStart | PauseExit | NetworkSetup | PauseState
    | CtrCreate | CtrRun | CtrExit | StatusStage

  /** The moments between the phases of an ensure command, and the containers that it created. */
  datatype Phases = Phases(ready: History, created: History, ran: History, ctrs: seq<CtrRef>)

  datatype RunOutcome = RunDone(ctrs: seq<CtrRef>, status: PodStatus) | RunFailed(stage: Stage)

  datatype EnsureOutcome =
    | Ensured(pod: PodRef, pause: CtrRef, ctrs: seq<CtrRef>, status: PodStatus)
    | EnsureFailed(stage: Stage, undo: seq<DeleteOutcome>)

  /** The uid check of a container deletion: as the code has it, or as its comment describes it. */
  datatype UidCheck = AsWritten | AsIntended

  datatype CtrDeletion = CtrOk | CtrRefused | CtrFault

  datatype NamedOutcome = NamesDone | NamesFailed | NilDereferenced

  datatype DeletePodOutcome = PodDeleted | CtrsDeleted | PodNotDeleted | Panicked

  datatype ListStep = Listed(status: PodStatus) | Skipped | ListFault

  datatype Command =
    | Ensure(cmd: EnsureCmd)
    | Delete(uid: string, names: seq<string>, check: UidCheck)
    | List(all: bool, names: seq<string>)
    | Init

  datatype PauseOutcome = PauseReady(pod: PodRef, pause: CtrRef) | PauseFailed(stage: Stage, undo: seq<DeleteOutcome>)

  predicate Live(s: Store, p: PodRef) { p.id in s.pods && s.pods[p.id] == p.rec }

  predicate LiveCtr(s: Store, c: CtrRef) { c.id in s.ctrs && s.ctrs[c.id] == c.rec }

  /** Events that leave the store as it is. */
  predicate IsNote(e: Event) {
    !e.PodNew? && !e.CtrNew? && !e.CtrGone? && !e.PodEmptied? && !e.PodGone? && !e.NetUp? && !e.NetDown?
  }
}

/** The records the whole system works on: a job with its lifecycle state and
    resource request, and a worker with its capacity. Times are integers
    (nanoseconds), CPU counts are reals, byte and device counts are integers. */
module Records {
  import opened Options

  datatype State =
    | Queued
    | Scheduled
    | Running
    | Checkpointing
    | Succeeded
    | Failed
    | Retrying
    | CancelRequested
    | Cancelled
    | Preempted
    | Lost
  {
    /** No transition leaves such a state without a new user action. */
    predicate Terminal() { Succeeded? || Failed? || Cancelled? }

    /** The states whose jobs hold capacity on their workers. */
    predicate Holds() { Scheduled? || Running? || Checkpointing? }
  }

  datatype Resources = Resources(gpuCount: int, minGpuMemoryBytes: int, cpuCores: real, memoryBytes: int)
  {
    /** What submission validates of a request. */
    predicate Valid()
    {
      gpuCount >= 0 && minGpuMemoryBytes >= 0 && cpuCores >= 0.0 && memoryBytes >= 0
    }

    /** Asks for no more than `r` of anything. */
    predicate Within(r: Resources)
    {
      && gpuCount <= r.gpuCount
      && minGpuMemoryBytes <= r.minGpuMemoryBytes
      && cpuCores <= r.cpuCores
      && memoryBytes <= r.memoryBytes
    }
  }

  /** What a client submits and no modelled code reads. */
  datatype Payload = Payload(
    name: string, owner: string, image: string, command: seq<string>,
    timeoutSeconds: int, checkpointIntervalSeconds: int)

  datatype Job = Job(
    id: string,
    submissionId: string,
    payload: Payload,
    resources: Resources,
    priority: int,
    preemptible: bool,
    retryLimit: int,
    currentAttempt: int,
    state: State,
    assignedWorkerIds: seq<string>,
    failureReason: string,
    createdAt: int,
    startedAt: Option<int>,
    completedAt: Option<int>,
    failedAt: Option<int>)

  datatype Status = Active | LostWorker

  datatype Gpu = Gpu(totalMemoryBytes: int)

  datatype Worker = Worker(
    id: string, status: Status, cpuCapacity: real, memoryCapacityBytes: int, gpus: seq<Gpu>)

  function JobId(j: Job): string { j.id }

  function WorkerId(w: Worker): string { w.id }

  predicate IsQueued(j: Job) { j.state.Queued? }

  predicate IsActive(j: Job) { !j.state.Terminal() }
}

/** get_job_status: the backend reports a job's state as the numeric IPP enum of
    section 5.3.7 of RFC 8011 (`job-state`, values 3 to 9); the endpoint relabels it
    with a fixed vocabulary and echoes the job id and the backend's reasons. */
module JobStatus {
  import opened Wrappers

  /** status_map: backend code to label. Code 6 is labelled `stopped`, not after its
      IPP keyword `processing-stopped`. */
  const StatusMap: map<int, string> :=
    map[3 := "pending", 4 := "pending_held", 5 := "processing", 6 := "stopped",
        7 := "canceled", 8 := "aborted", 9 := "completed"]

  /** `status_map.get(state, 'unknown')`: a code in the map gets its label, every other
      value, and an absent `job-state`, gets `unknown`. */
  function StateLabel(state: Option<int>): (name: string)
    ensures name == "unknown" <==> !(state.Some? && 3 <= state.value <= 9)
    ensures name in StatusMap.Values || name == "unknown"
  {
    if state.Some? && state.value in StatusMap then StatusMap[state.value] else "unknown"
  }

  /** Distinct codes in 3..9 get distinct labels. */
  lemma StateLabelInjective(a: int, b: int)
    requires 3 <= a <= 9 && 3 <= b <= 9 && a != b
    ensures StateLabel(Some(a)) != StateLabel(Some(b))
  {
  }

  /** Every label in the map is the label of some known code; with `StateLabelInjective`,
      of exactly one. */
  lemma EveryLabelHasCode(name: string)
    requires name in StatusMap.Values
    ensures exists code :: 3 <= code <= 9 && StateLabel(Some(code)) == name
  {
    var code :| code in StatusMap && StatusMap[code] == name;
    assert StateLabel(Some(code)) == name;
  }

  /** The job states of section 5.3.7 of RFC 8011. */
  datatype IppJobState = Pending | PendingHeld | Processing | ProcessingStopped | Canceled | Aborted | Completed

  function IppJobStateOf(code: int): Option<IppJobState>
  {
    match code
    case 3 => Some(Pending)
    case 4 => Some(PendingHeld)
    case 5 => Some(Processing)
    case 6 => Some(ProcessingStopped)
    case 7 => Some(Canceled)
    case 8 => Some(Aborted)
    case 9 => Some(Completed)
    case _ => None
  }

  /** The keyword RFC 8011 gives each state. */
  function Keyword(s: IppJobState): string
  {
    match s
    case Pending => "pending"
    case PendingHeld => "pending-held"
    case Processing => "processing"
    case ProcessingStopped => "processing-stopped"
    case Canceled => "canceled"
    case Aborted => "aborted"
    case Completed => "completed"
  }

  /** A keyword with its hyphens written as underscores. */
  function Underscored(k: string): (r: string)
    ensures |r| == |k|
    ensures forall i :: 0 <= i < |k| ==> r[i] == if k[i] == '-' then '_' else k[i]
  {
    seq(|k|, i requires 0 <= i < |k| => if k[i] == '-' then '_' else k[i])
  }

  /** The labels are the RFC 8011 keywords with underscores for hyphens, except that
      `processing-stopped` is shortened to `stopped`. */
  lemma LabelsFollowKeywords(code: int)
    requires IppJobStateOf(code).Some?
    ensures var s := IppJobStateOf(code).value;
      StateLabel(Some(code)) == if s == ProcessingStopped then "stopped" else Underscored(Keyword(s))
  {
    var s := IppJobStateOf(code).value;
    if s == PendingHeld {
      assert Underscored("pending-held") == "pending_held";
    } else if s != ProcessingStopped {
      var k := Keyword(s);
      assert '-' !in k;
      assert Underscored(k) == k;
    }
  }

  /** The labels the web page treats as final (`completed`, `canceled`, `aborted`) are
      exactly those of the states RFC 8011 calls terminal. */
  lemma FinalLabelsAreTerminalStates(code: int)
    ensures StateLabel(Some(code)) in {"completed", "canceled", "aborted"} <==>
              IppJobStateOf(code) in {Some(Canceled), Some(Aborted), Some(Completed)}
  {
  }

  /** The job attributes the endpoint reads: `job-state` and `job-state-reasons`, each
      possibly absent. The reasons are passed on untouched, whatever their shape. */
  datatype JobAttributes<R> = JobAttributes(jobState: Option<int>, jobStateReasons: Option<R>)

  /** The endpoint's reply: the status object, or the error returned when the backend
      connection or the attribute lookup raised. */
  datatype StatusReply<R> = Status(jobId: int, state: string, reason: Option<R>) | LookupFailed

  /** get_job_status(job_id), given what the backend lookup produced (`None` when it raised). */
  function GetJobStatus<R>(jobId: int, lookup: Option<JobAttributes<R>>): (reply: StatusReply<R>)
    ensures reply.LookupFailed? <==> lookup.None?
    ensures reply.Status? ==> reply.jobId == jobId && reply.reason == lookup.value.jobStateReasons
    ensures reply.Status? ==> reply.state == StateLabel(lookup.value.jobState)
    ensures reply.Status? ==> (reply.state == "unknown" <==>
              !(lookup.value.jobState.Some? && 3 <= lookup.value.jobState.value <= 9))
  {
    match lookup
    case None => LookupFailed
    case Some(job) => Status(jobId, StateLabel(job.jobState), job.jobStateReasons)
  }

  /** The HTTP status that goes with a reply. */
  function HttpStatus<R>(reply: StatusReply<R>): (code: int)
    ensures code == 200 || code == 500
    ensures code == 200 <==> reply.Status?
  {
    if reply.Status? then 200 else 500
  }
}

/**
 * The quick "Add New Job" modal. The browser submits the form only when the three
 * `required` inputs (title, vehicle, date) are filled in; the submit handler then builds a
 * board task whose column follows the traffic-light status, hands it on, asks the dialog
 * to close, and resets the form.
 */
module AddJob {
  import opened Status

  /** The modal's four fields; `status` is a traffic light. */
  datatype JobForm = JobForm(title: string, vehicle: string, date: string, status: string)

  /** The task handed to `onAddJob`. */
  datatype Job = Job(id: string, title: string, vehicle: string, date: string, status: string, column: Column)

  /** What `handleSubmit` does: the job handed on, whether `onClose` was called, and the
      form after the reset. */
  datatype Submission = Submission(job: Job, closed: bool, form: JobForm)

  /** Pressing "Add Job": the browser's constraint validation blocks the submit, or the
      handler runs. */
  datatype Pressed = Blocked | Submitted(submission: Submission)

  /** `resetForm`: every field empty, the light back to red. */
  const RESET: JobForm := JobForm("", "", "", "red")

  /** The light that stands for a column. */
  function LightOf(c: Column): string {
    match c
    case Todo => "red"
    case InProgress => "yellow"
    case Done => "green"
  }

  /** The `required` attribute of the title, vehicle and date inputs: an empty value keeps
      the form from firing its submit event. */
  predicate PassesRequired(f: JobForm) {
    f.title != "" && f.vehicle != "" && f.date != ""
  }

  /** `handleSubmit`: `id` stands for `Date.now().toString()`. */
  function Submit(f: JobForm, id: string): (r: Submission)
    ensures r.form == RESET && r.closed
    ensures r.job.id == id && r.job.status == f.status
    ensures r.job.title == f.title && r.job.vehicle == f.vehicle && r.job.date == f.date
  {
    Submission(Job(id, f.title, f.vehicle, f.date, f.status, LightToColumn(f.status)), true, RESET)
  }

  /** Pressing the submit button with the form as it stands. */
  function PressAdd(f: JobForm, id: string): (r: Pressed)
    ensures r.Blocked? <==> !PassesRequired(f)
    ensures r.Submitted? ==> r.submission.job.title == f.title && r.submission.job.id == id
  {
    if PassesRequired(f) then Submitted(Submit(f, id)) else Blocked
  }

  // ---------------------------------------------------------------------------
  // Properties of the modal

  /** The three lights pick the three columns, and the light of the chosen column is the
      light submitted; any other value lands in "done". */
  lemma SubmitPlacesByLight(f: JobForm, id: string)
    ensures var job := Submit(f, id).job;
      && (f.status in {"red", "yellow", "green"} <==> LightOf(job.column) == f.status)
      && (f.status == "red" <==> job.column == Todo)
      && (f.status == "yellow" <==> job.column == InProgress)
      && (f.status !in {"red", "yellow"} <==> job.column == Done)
  {
    LightToColumnCases(f.status);
  }

  /** Lights and columns are in one-to-one correspondence. */
  lemma LightColumnRoundTrip(c: Column)
    ensures LightToColumn(LightOf(c)) == c
  {
  }

  /** Every job handed on has a title, a vehicle and a date. */
  lemma SubmittedJobsAreFilled(f: JobForm, id: string)
    ensures var p := PressAdd(f, id);
      p.Submitted? ==> p.submission.job.title != "" && p.submission.job.vehicle != "" && p.submission.job.date != ""
  {
  }

  /** After a submit the form is blank, so pressing the button again at once hands nothing
      on: the required fields block it. */
  lemma ResubmitIsBlocked(f: JobForm, id: string, id': string)
    ensures PressAdd(Submit(f, id).form, id') == Blocked
  {
  }
}

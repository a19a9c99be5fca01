/**
 * The pipeline coordinator: `processMeeting` runs transcription, analysis,
 * summary, tracking and planning in turn over one audio file and keeps a
 * job record per meeting. Each agent is an oracle here: what its call
 * resolves to or throws is a parameter, and the arguments the coordinator
 * hands it are the oracle's arguments.
 */
module Coordinator {
  import opened Wrappers
  import opened Dates
  import opened Sequences
  import opened Transcriber
  import opened Analyzer
  import opened Summarizer
  import Tracker
  import Planner

  /** What awaiting an agent gives: the reply it resolved to, or the message of what it threw. */
  datatype Call<+P> = Returned(reply: Reply<P>) | Threw(message: string)

  datatype Status = Processing | Completed | Failed

  /** The keys of `result.steps`. */
  datatype StageKey = TranscriptionStage | AnalysisStage | SummaryStage | TrackingStage | PlanningStage

  /** What a step records: `success`, the payload, `metadata.service` and `error`. */
  datatype StepRecord<+P> = StepRecord(success: bool, payload: Option<P>, service: Option<string>, error: Option<string>)

  /** One key of `result.steps` with its value. */
  datatype Entry =
    | TranscriptionEntry(transcription: StepRecord<Envelope>)
    | AnalysisEntry(analysis: StepRecord<Analysis>)
    | SummaryEntry(summary: StepRecord<Summary>)
    | TrackingEntry(tracking: StepRecord<Tracker.Tracking>)
    | PlanningEntry(planning: StepRecord<Planner.Plan>)

  /**
   * A job record. `steps` lists the keys of `result.steps` in insertion
   * order; it is `None` for the record of a missing audio file, which has
   * no `steps` field.
   */
  datatype JobRecord = JobRecord(meetingId: string, status: Status, timestamp: string, steps: Option<seq<Entry>>, error: Option<string>)

  /** The agents as oracles over the arguments the coordinator passes them. */
  datatype Agents = Agents(
    transcribe: Call<Envelope>,
    analyze: Envelope -> Call<Analysis>,
    summarize: (Envelope, Analysis) -> Call<Summary>,
    track: (Analysis, string) -> Call<Tracker.Tracking>,
    plan: (seq<Planner.Goal>, seq<Planner.PlanTask>, string) -> Call<Planner.Plan>)

  /** An agent call and the job record the results map holds while it is awaited. */
  datatype Snapshot = Snapshot(stage: StageKey, record: JobRecord)

  /** The results map; `order` is its insertion order, which `getAllMeetingResults` follows. */
  datatype State = State(results: map<string, JobRecord>, order: seq<string>, minted: nat)

  const MissingFilePrefix: string := "El archivo de audio no existe: "
  const TranscriptionFailedPrefix: string := "Falló la transcripción: "
  const TranscriptionThrewPrefix: string := "Excepción durante la transcripción: "
  const NoTextError: string := "No hay texto en la transcripción para analizar"
  const AnalysisFailedPrefix: string := "Falló el análisis: "
  const AnalysisFailed: string := "Falló el análisis"
  const NotFoundPrefix: string := "Resultado no encontrado para la reunión: "
  const ContingencyService: string := "error-fallback"
  const ContingencyDays: int := 30

  function KeyOf(e: Entry): StageKey {
    match e
    case TranscriptionEntry(_) => TranscriptionStage
    case AnalysisEntry(_) => AnalysisStage
    case SummaryEntry(_) => SummaryStage
    case TrackingEntry(_) => TrackingStage
    case PlanningEntry(_) => PlanningStage
  }

  /** The keys of `result.steps`, in insertion order. */
  function Keys(steps: seq<Entry>): (r: seq<StageKey>)
    ensures |r| == |steps| && forall i :: 0 <= i < |steps| ==> r[i] == KeyOf(steps[i])
  {
    if steps == [] then [] else [KeyOf(steps[0])] + Keys(steps[1..])
  }

  /** The stages in the order `processMeeting` calls them. */
  const Pipeline: seq<StageKey> := [TranscriptionStage, AnalysisStage, SummaryStage, TrackingStage, PlanningStage]

  /** A returned reply, stored as it came. */
  function Recorded<P>(r: Reply<P>): (s: StepRecord<P>)
    ensures s.success <==> r.Success?
    ensures r.Success? ==> s.payload == Some(r.payload) && s.service == r.service && s.error.None?
    ensures r.Failure? ==> s.payload.None? && s.error == Some(r.error)
  {
    match r
    case Success(p, service) => StepRecord(true, Some(p), service, None)
    case Failure(e) => StepRecord(false, None, None, Some(e))
  }

  /** The record left by a stage that threw, with no payload. */
  function ThrownStep<P>(message: string): StepRecord<P> {
    StepRecord(false, None, None, Some(message))
  }

  /** The plan stored when planning throws. */
  function Contingency(meetingId: string, today: int): (p: Planner.Plan)
    ensures p.objectives == [] && p.unassignedTasks == [] && p.gantt == Planner.Gantt([], [])
    ensures p.endDate - p.startDate == ContingencyDays
  {
    Planner.Plan("plan-error-" + meetingId, "Plan de Contingencia",
                 "Plan generado debido a un error en la planificación",
                 today, today + ContingencyDays, [], [], Planner.Gantt([], []))
  }

  /** A tracked objective as the planner reads it. */
  function GoalOf(o: Tracker.Objective): Planner.Goal {
    Planner.Goal(o.id, o.text, Some(o.relatedTasks))
  }

  /** A tracked task as the planner reads it. */
  function PlanTaskOf(t: Tracker.TrackedTask): Planner.PlanTask {
    Planner.PlanTask(t.id, t.text, t.status, Some(t.dueDate), t.assignee)
  }

  function Goals(os: seq<Tracker.Objective>): (r: seq<Planner.Goal>)
    ensures |r| == |os| && forall i :: 0 <= i < |os| ==> r[i] == GoalOf(os[i])
  {
    if os == [] then [] else [GoalOf(os[0])] + Goals(os[1..])
  }

  function PlanTasks(ts: seq<Tracker.TrackedTask>): (r: seq<Planner.PlanTask>)
    ensures |r| == |ts| && forall i :: 0 <= i < |ts| ==> r[i] == PlanTaskOf(ts[i])
  {
    if ts == [] then [] else [PlanTaskOf(ts[0])] + PlanTasks(ts[1..])
  }

  /** The objectives and tasks handed to the planner: the tracked ones when tracking succeeded, none otherwise. */
  function PlanningInput(tracking: StepRecord<Tracker.Tracking>): (r: (seq<Planner.Goal>, seq<Planner.PlanTask>))
    ensures !tracking.success || tracking.payload.None? ==> r == ([], [])
    ensures tracking.success && tracking.payload.Some? ==>
      r == (Goals(tracking.payload.value.objectives), PlanTasks(tracking.payload.value.tasks))
  {
    if tracking.success && tracking.payload.Some? then
      (Goals(tracking.payload.value.objectives), PlanTasks(tracking.payload.value.tasks))
    else ([], [])
  }

  /**
   * The planning step for a call with these objectives and tasks: the reply
   * as returned, or the contingency plan, tagged as such, when the planner throws.
   */
  function Planned(agents: Agents, goals: seq<Planner.Goal>, tasks: seq<Planner.PlanTask>, text: string,
                   meetingId: string, today: int): (s: StepRecord<Planner.Plan>)
    ensures agents.plan(goals, tasks, text).Threw? ==>
      !s.success && s.service == Some(ContingencyService) && s.payload == Some(Contingency(meetingId, today))
      && s.error == Some(agents.plan(goals, tasks, text).message)
    ensures agents.plan(goals, tasks, text).Returned? ==> s == Recorded(agents.plan(goals, tasks, text).reply)
  {
    match agents.plan(goals, tasks, text)
    case Returned(reply) => Recorded(reply)
    case Threw(m) => StepRecord(false, Some(Contingency(meetingId, today)), Some(ContingencyService), Some(m))
  }

  /** A failed record. */
  function Fail(r: JobRecord, steps: seq<Entry>, error: string): JobRecord {
    r.(status := Failed, steps := Some(steps), error := Some(error))
  }

  /** The summary step: the reply as returned, or the thrown message. */
  function SummaryStep(agents: Agents, env: Envelope, analysis: Analysis): (s: StepRecord<Summary>)
    ensures agents.summarize(env, analysis).Returned? ==> s == Recorded(agents.summarize(env, analysis).reply)
    ensures agents.summarize(env, analysis).Threw? ==> s == ThrownStep(agents.summarize(env, analysis).message)
  {
    match agents.summarize(env, analysis)
    case Returned(reply) => Recorded(reply)
    case Threw(m) => ThrownStep(m)
  }

  /** The tracking step: the reply as returned, or an unsuccessful step with no objectives and no tasks. */
  function TrackingStep(agents: Agents, analysis: Analysis, meetingId: string, timestamp: string): (s: StepRecord<Tracker.Tracking>)
    ensures agents.track(analysis, meetingId).Returned? ==> s == Recorded(agents.track(analysis, meetingId).reply)
    ensures agents.track(analysis, meetingId).Threw? ==>
      !s.success && s.payload.Some? && s.payload.value.objectives == [] && s.payload.value.tasks == []
      && s.error == Some(agents.track(analysis, meetingId).message)
  {
    match agents.track(analysis, meetingId)
    case Returned(reply) => Recorded(reply)
    case Threw(m) => StepRecord(false, Some(Tracker.Tracking(meetingId, timestamp, [], [])), None, Some(m))
  }

  /** What summary, tracking and planning record once analysis has succeeded. */
  function LaterSteps(agents: Agents, env: Envelope, analysis: Analysis, meetingId: string, timestamp: string,
                      today: int): (out: (StepRecord<Summary>, StepRecord<Tracker.Tracking>, StepRecord<Planner.Plan>))
  {
    var tracking := TrackingStep(agents, analysis, meetingId, timestamp);
    var input := PlanningInput(tracking);
    (SummaryStep(agents, env, analysis), tracking, Planned(agents, input.0, input.1, env.text, meetingId, today))
  }

  /**
   * The stages after a successful analysis, which cannot fail the job: the
   * record they leave and the snapshots of their calls.
   */
  function Finish(r: JobRecord, steps: seq<Entry>, summary: StepRecord<Summary>, tracking: StepRecord<Tracker.Tracking>,
                  planning: StepRecord<Planner.Plan>): (out: (JobRecord, seq<Snapshot>))
  {
    var s3 := steps + [SummaryEntry(summary)];
    var s4 := s3 + [TrackingEntry(tracking)];
    (r.(status := Completed, steps := Some(s4 + [PlanningEntry(planning)])),
     [Snapshot(SummaryStage, r.(steps := Some(steps))),
      Snapshot(TrackingStage, r.(steps := Some(s3))),
      Snapshot(PlanningStage, r.(steps := Some(s4)))])
  }

  /** The stages run over a stored `processing` record: the record they leave and the snapshots of the calls made. */
  function Run(r: JobRecord, agents: Agents, today: int): (out: (JobRecord, seq<Snapshot>)) {
    var first := Snapshot(TranscriptionStage, r);
    match agents.transcribe
    case Threw(m) =>
      (Fail(r, [TranscriptionEntry(ThrownStep(m))], TranscriptionThrewPrefix + m), [first])
    case Returned(Failure(e)) =>
      (Fail(r, [TranscriptionEntry(Recorded(Failure(e)))], TranscriptionFailedPrefix + e), [first])
    case Returned(Success(env, service)) =>
      var s1 := [TranscriptionEntry(Recorded(Success(env, service)))];
      if env.text == [] then
        (Fail(r, s1 + [AnalysisEntry(ThrownStep(NoTextError))], AnalysisFailedPrefix + NoTextError), [first])
      else
        var second := Snapshot(AnalysisStage, r.(steps := Some(s1)));
        match agents.analyze(env)
        case Threw(m) =>
          (Fail(r, s1 + [AnalysisEntry(ThrownStep(m))], AnalysisFailedPrefix + m), [first, second])
        case Returned(Failure(e)) =>
          (Fail(r, s1 + [AnalysisEntry(Recorded(Failure(e)))], AnalysisFailed), [first, second])
        case Returned(Success(a, aservice)) =>
          var later := LaterSteps(agents, env, a, r.meetingId, r.timestamp, today);
          var rest := Finish(r, s1 + [AnalysisEntry(Recorded(Success(a, aservice)))], later.0, later.1, later.2);
          (rest.0, [first, second] + rest.1)
  }

  /** `results.set(id, record)`: a new id goes to the end of the insertion order, a known one keeps its place. */
  function Store(st: State, id: string, record: JobRecord): (r: State)
    ensures r.results == st.results[id := record] && r.minted == st.minted
  {
    st.(results := st.results[id := record], order := if id in st.results then st.order else st.order + [id])
  }

  /**
   * `processMeeting(audioFilePath)`. `fileExists` is what `fs.existsSync` says,
   * `mint` stands for `uuidv4` (the `minted`-th id it hands out) and `clock`
   * for the moment of the call. Returns the new state, the record returned
   * and the snapshots of the agent calls, in call order.
   */
  function ProcessMeeting(st: State, path: string, fileExists: bool, agents: Agents, clock: Clock,
                          mint: nat -> string): (out: (State, JobRecord, seq<Snapshot>))
    ensures out.0.minted == st.minted + 1 && out.1.meetingId == mint(st.minted)
    ensures out.0 == Store(st.(minted := st.minted + 1), out.1.meetingId, out.1)
  {
    var id := mint(st.minted);
    var st' := st.(minted := st.minted + 1);
    if !fileExists then
      var record := JobRecord(id, Failed, clock.timestamp, None, Some(MissingFilePrefix + path));
      (Store(st', id, record), record, [])
    else
      var start := JobRecord(id, Processing, clock.timestamp, Some([]), None);
      var run := Run(start, agents, DayOf(clock.today));
      (Store(st', id, run.0), run.0, run.1)
  }

  /** `getMeetingResult(meetingId)` */
  function GetMeetingResult(st: State, meetingId: string): (r: Result<JobRecord>)
    ensures r.Ok? <==> meetingId in st.results
    ensures r.Ok? ==> r.value == st.results[meetingId]
    ensures r.Err? ==> r.message == NotFoundPrefix + meetingId
  {
    if meetingId in st.results then Ok(st.results[meetingId]) else Err(NotFoundPrefix + meetingId)
  }

  /** The insertion order lists every stored id exactly once. */
  predicate Indexed(st: State) {
    Distinct(st.order) && (forall i :: 0 <= i < |st.order| ==> st.order[i] in st.results)
    && forall id :: id in st.results ==> id in st.order
  }

  /** `getAllMeetingResults()`: the stored records in insertion order. */
  function AllMeetingResults(st: State): (r: seq<JobRecord>)
    requires Indexed(st)
    ensures |r| == |st.order|
    ensures forall i :: 0 <= i < |r| ==> r[i] == st.results[st.order[i]]
  {
    AllOf(st.results, st.order)
  }

  function AllOf(results: map<string, JobRecord>, ids: seq<string>): (r: seq<JobRecord>)
    requires forall i :: 0 <= i < |ids| ==> ids[i] in results
    ensures |r| == |ids| && forall i :: 0 <= i < |ids| ==> r[i] == results[ids[i]]
  {
    if ids == [] then [] else [results[ids[0]]] + AllOf(results, ids[1..])
  }

  // ---------------------------------------------------------------------------
  // Properties of `processMeeting`
  // ---------------------------------------------------------------------------

  /** Storing keeps the insertion order a list of exactly the stored ids. */
  lemma StoreKeepsIndexed(st: State, id: string, record: JobRecord)
    requires Indexed(st)
    ensures Indexed(Store(st, id, record))
    ensures |AllMeetingResults(Store(st, id, record))| == |st.order| + (if id in st.results then 0 else 1)
  {
    if id !in st.results {
      assert id !in st.order;
      DistinctAppend(st.order, id);
    }
  }

  /** After `processMeeting` the returned record is the one `getMeetingResult` reads back, and nothing else changed. */
  lemma ResultReadsBack(st: State, path: string, fileExists: bool, agents: Agents, clock: Clock, mint: nat -> string)
    ensures var out := ProcessMeeting(st, path, fileExists, agents, clock, mint);
      GetMeetingResult(out.0, out.1.meetingId) == Ok(out.1)
      && forall id :: id != out.1.meetingId ==> GetMeetingResult(out.0, id) == GetMeetingResult(st, id)
  {
  }

  /** A missing file leaves one failed record under a fresh id, without steps, and no agent is called. */
  lemma MissingFileFails(st: State, path: string, agents: Agents, clock: Clock, mint: nat -> string)
    ensures var out := ProcessMeeting(st, path, false, agents, clock, mint);
      out.1 == JobRecord(mint(st.minted), Failed, clock.timestamp, None, Some(MissingFilePrefix + path))
      && out.2 == []
  {
  }

  /** With the file present, the first agent called is the transcriber, while the map holds a fresh `processing` record with no steps. */
  lemma StartsProcessing(st: State, path: string, agents: Agents, clock: Clock, mint: nat -> string)
    ensures var out := ProcessMeeting(st, path, true, agents, clock, mint);
      |out.2| >= 1
      && out.2[0] == Snapshot(TranscriptionStage, JobRecord(mint(st.minted), Processing, clock.timestamp, Some([]), None))
  {
  }

  /** Whether transcription gave text and analysis then succeeded: the condition for a completed job. */
  predicate Proceeds(agents: Agents) {
    agents.transcribe.Returned? && agents.transcribe.reply.Success?
    && agents.transcribe.reply.payload.text != []
    && agents.analyze(agents.transcribe.reply.payload).Returned?
    && agents.analyze(agents.transcribe.reply.payload).reply.Success?
  }

  /**
   * The status is set once: every snapshot is `processing`, and the job ends
   * `completed`, without an error, exactly when transcription and analysis
   * succeed, and `failed` with an error otherwise.
   */
  lemma StatusSetOnce(r: JobRecord, agents: Agents, today: int)
    requires r.status == Processing && r.steps == Some([]) && r.error.None?
    ensures var out := Run(r, agents, today);
      (forall k :: 0 <= k < |out.1| ==> out.1[k].record.status == Processing)
      && (out.0.status == Completed <==> Proceeds(agents))
      && (out.0.status == Failed <==> !Proceeds(agents))
      && (out.0.error.None? <==> Proceeds(agents))
      && out.0.meetingId == r.meetingId && out.0.timestamp == r.timestamp && out.0.steps.Some?
  {
  }

  /** The stages called, in call order. */
  function Stages(snaps: seq<Snapshot>): (r: seq<StageKey>)
    ensures |r| == |snaps| && forall k :: 0 <= k < |snaps| ==> r[k] == snaps[k].stage
  {
    if snaps == [] then [] else [snaps[0].stage] + Stages(snaps[1..])
  }

  /** Each agent is called while the record holds exactly the steps of the agents called before it, in pipeline order. */
  predicate CalledInOrder(snaps: seq<Snapshot>) {
    |snaps| <= |Pipeline| && Stages(snaps) == Pipeline[..|snaps|]
    && forall k :: 0 <= k < |snaps| ==> snaps[k].record.steps.Some? && Keys(snaps[k].record.steps.value) == Pipeline[..k]
  }

  /** The agents are called in pipeline order, each while the record holds exactly the steps of the agents called before it. */
  lemma SnapshotsHoldEarlierSteps(r: JobRecord, agents: Agents, today: int)
    requires r.status == Processing && r.steps == Some([]) && r.error.None?
    ensures CalledInOrder(Run(r, agents, today).1)
  {
    if Proceeds(agents) {
      FullRunInOrder(r, agents, today);
    } else {
      ShortRunInOrder(r, agents, today);
    }
  }

  lemma ShortRunInOrder(r: JobRecord, agents: Agents, today: int)
    requires r.steps == Some([]) && !Proceeds(agents)
    ensures CalledInOrder(Run(r, agents, today).1)
  {
    var out := Run(r, agents, today);
    var first := Snapshot(TranscriptionStage, r);
    if agents.transcribe.Returned? && agents.transcribe.reply.Success? && agents.transcribe.reply.payload.text != [] {
      var s1 := [TranscriptionEntry(Recorded(agents.transcribe.reply))];
      assert Keys(s1) == Pipeline[..1];
      assert out.1 == [first, Snapshot(AnalysisStage, r.(steps := Some(s1)))];
    } else {
      assert out.1 == [first];
    }
  }

  lemma FullRunInOrder(r: JobRecord, agents: Agents, today: int)
    requires r.steps == Some([]) && Proceeds(agents)
    ensures CalledInOrder(Run(r, agents, today).1)
  {
    var env := agents.transcribe.reply.payload;
    var s1 := [TranscriptionEntry(Recorded(agents.transcribe.reply))];
    var a := agents.analyze(env).reply;
    var s2 := s1 + [AnalysisEntry(Recorded(a))];
    assert Keys(s1) == Pipeline[..1] && Keys(s2) == Pipeline[..2];
    var later := LaterSteps(agents, env, a.payload, r.meetingId, r.timestamp, today);
    var rest := Finish(r, s2, later.0, later.1, later.2);
    FinishKeys(r, s2, later.0, later.1, later.2);
    var first := Snapshot(TranscriptionStage, r);
    var second := Snapshot(AnalysisStage, r.(steps := Some(s1)));
    assert Run(r, agents, today).1 == [first, second] + rest.1;
    FiveSnapshots([first, second] + rest.1, first, second, rest.1);
  }

  lemma FiveSnapshots(snaps: seq<Snapshot>, first: Snapshot, second: Snapshot, rest: seq<Snapshot>)
    requires snaps == [first, second] + rest && |rest| == 3
    requires first.stage == TranscriptionStage && second.stage == AnalysisStage
    requires rest[0].stage == SummaryStage && rest[1].stage == TrackingStage && rest[2].stage == PlanningStage
    requires first.record.steps == Some([]) && second.record.steps.Some? && Keys(second.record.steps.value) == Pipeline[..1]
    requires rest[0].record.steps.Some? && Keys(rest[0].record.steps.value) == Pipeline[..2]
    requires rest[1].record.steps.Some? && Keys(rest[1].record.steps.value) == Pipeline[..3]
    requires rest[2].record.steps.Some? && Keys(rest[2].record.steps.value) == Pipeline[..4]
    ensures CalledInOrder(snaps)
  {
    assert |snaps| == 5;
    forall k | 0 <= k < 5 ensures snaps[k].record.steps.Some? && Keys(snaps[k].record.steps.value) == Pipeline[..k] {
      if k >= 2 {
        assert snaps[k] == rest[k - 2];
      } else if k == 0 {
        assert Keys([]) == [];
      }
    }
    var st := Stages(snaps);
    forall i | 0 <= i < 5 ensures st[i] == Pipeline[i] {
      if i >= 2 {
        assert snaps[i] == rest[i - 2];
      }
    }
    assert st == Pipeline[..5];
  }

  /** Summary, tracking and planning add their keys in that order, each after the previous call. */
  lemma FinishKeys(r: JobRecord, steps: seq<Entry>, summary: StepRecord<Summary>, tracking: StepRecord<Tracker.Tracking>,
                   planning: StepRecord<Planner.Plan>)
    requires Keys(steps) == Pipeline[..2]
    ensures var out := Finish(r, steps, summary, tracking, planning);
      out.0 == r.(status := Completed, steps := out.0.steps) && out.0.steps.Some?
      && |out.1| == 3 && out.1[0].stage == SummaryStage && out.1[1].stage == TrackingStage && out.1[2].stage == PlanningStage
      && out.1[0].record.steps == Some(steps)
      && out.1[1].record.steps.Some? && Keys(out.1[1].record.steps.value) == Pipeline[..3]
      && out.1[2].record.steps.Some? && Keys(out.1[2].record.steps.value) == Pipeline[..4]
      && Keys(out.0.steps.value) == Pipeline
  {
    var out := Finish(r, steps, summary, tracking, planning);
    var s3 := out.1[1].record.steps.value;
    var s4 := out.1[2].record.steps.value;
    var s5 := out.0.steps.value;
    assert s3 == steps + [s3[2]] && KeyOf(s3[2]) == SummaryStage;
    assert s4 == s3 + [s4[3]] && KeyOf(s4[3]) == TrackingStage;
    assert s5 == s4 + [s5[4]] && KeyOf(s5[4]) == PlanningStage;
    KeysGrow(steps, s3[2], 2);
    KeysGrow(s3, s4[3], 3);
    KeysGrow(s4, s5[4], 4);
  }

  /** Appending the entry of the next pipeline stage extends the pipeline prefix of keys by one. */
  lemma KeysGrow(steps: seq<Entry>, e: Entry, k: nat)
    requires k < |Pipeline| && Keys(steps) == Pipeline[..k] && KeyOf(e) == Pipeline[k]
    ensures Keys(steps + [e]) == Pipeline[..k + 1]
  {
    var s := steps + [e];
    assert |Keys(s)| == k + 1;
    forall i | 0 <= i < k + 1 ensures Keys(s)[i] == Pipeline[i] {
      if i < k {
        assert s[i] == steps[i];
        assert Keys(steps)[i] == Pipeline[..k][i];
      }
    }
  }

  /** A failed or throwing transcription fails the job with the prefixed error; only the transcriber was called. */
  lemma TranscriptionFailureStops(r: JobRecord, agents: Agents, today: int)
    requires agents.transcribe.Threw? || agents.transcribe.reply.Failure?
    ensures var out := Run(r, agents, today);
      out.0.status == Failed && Stages(out.1) == [TranscriptionStage]
      && out.0.steps.Some? && Keys(out.0.steps.value) == [TranscriptionStage]
      && !out.0.steps.value[0].transcription.success
      && out.0.error == Some(if agents.transcribe.Threw? then TranscriptionThrewPrefix + agents.transcribe.message
                             else TranscriptionFailedPrefix + agents.transcribe.reply.error)
  {
  }

  /**
   * A transcription without text, or an analysis that fails or throws,
   * fails the job with steps `transcription` and `analysis` only; summary,
   * tracking and planning are never called.
   */
  lemma AnalysisFailureStops(r: JobRecord, agents: Agents, today: int)
    requires agents.transcribe.Returned? && agents.transcribe.reply.Success? && !Proceeds(agents)
    ensures var out := Run(r, agents, today);
      var env := agents.transcribe.reply.payload;
      out.0.status == Failed
      && out.0.steps.Some? && Keys(out.0.steps.value) == [TranscriptionStage, AnalysisStage]
      && !out.0.steps.value[1].analysis.success
      && Stages(out.1) == (if env.text == [] then [TranscriptionStage] else [TranscriptionStage, AnalysisStage])
      && out.0.error == Some(
           if env.text == [] then AnalysisFailedPrefix + NoTextError
           else if agents.analyze(env).Threw? then AnalysisFailedPrefix + agents.analyze(env).message
           else AnalysisFailed)
  {
  }

  /** Once analysis succeeds the job completes with all five steps, whatever summary, tracking and planning do. */
  lemma CompletesAfterAnalysis(r: JobRecord, agents: Agents, today: int)
    requires Proceeds(agents)
    ensures var out := Run(r, agents, today);
      out.0.status == Completed && out.0.steps.Some? && Keys(out.0.steps.value) == Pipeline
      && |out.1| == |Pipeline|
  {
    var env := agents.transcribe.reply.payload;
    var a := agents.analyze(env).reply;
    var s1 := [TranscriptionEntry(Recorded(agents.transcribe.reply))];
    var s2 := s1 + [AnalysisEntry(Recorded(a))];
    assert Keys(s2) == Pipeline[..2];
    var later := LaterSteps(agents, env, a.payload, r.meetingId, r.timestamp, today);
    var rest := Finish(r, s2, later.0, later.1, later.2);
    FinishKeys(r, s2, later.0, later.1, later.2);
    var out := Run(r, agents, today);
    assert out == (rest.0, [Snapshot(TranscriptionStage, r), Snapshot(AnalysisStage, r.(steps := Some(s1)))] + rest.1);
  }

  /**
   * After a successful analysis: a thrown tracking error leaves an
   * unsuccessful tracking step with no objectives and no tasks, and the
   * planner gets the tracked objectives and tasks only if tracking
   * succeeded, no objectives and no tasks otherwise.
   */
  lemma StageFallbacks(r: JobRecord, agents: Agents, today: int)
    requires Proceeds(agents)
    ensures var out := Run(r, agents, today);
      var env := agents.transcribe.reply.payload;
      var tracked := agents.track(agents.analyze(env).reply.payload, r.meetingId);
      out.0.steps.Some? && |out.0.steps.value| == 5
      && out.0.steps.value[3].TrackingEntry? && out.0.steps.value[4].PlanningEntry?
      && (tracked.Threw? ==>
            var tracking := out.0.steps.value[3].tracking;
            !tracking.success && tracking.payload.Some?
            && tracking.payload.value.objectives == [] && tracking.payload.value.tasks == [])
      && (tracked.Returned? && tracked.reply.Success? ==>
            out.0.steps.value[4].planning
            == Planned(agents, Goals(tracked.reply.payload.objectives), PlanTasks(tracked.reply.payload.tasks), env.text, r.meetingId, today))
      && (!(tracked.Returned? && tracked.reply.Success?) ==>
            out.0.steps.value[4].planning == Planned(agents, [], [], env.text, r.meetingId, today))
  {
  }
}

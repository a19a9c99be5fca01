/**
 * The meeting model: a titled meeting holding the pipeline's products. Its
 * JSON form keeps the metadata and the summary but reduces the transcription
 * and the analysis to flags saying whether they exist, and the plan to its id.
 */
module Meetings {
  import opened Wrappers
  import opened Text
  import Transcriber
  import Analyzer
  import Summarizer
  import Tracker
  import Planner
  import TaskModel

  /** The constructor's argument: every key may be absent (`None`); an empty string is falsy too. */
  datatype MeetingData = MeetingData(id: Option<string>, title: Option<string>, date: Option<string>,
                                     participants: Option<seq<string>>, audioFile: Option<string>,
                                     transcription: Option<Transcriber.Envelope>,
                                     analysis: Option<Analyzer.Analysis>, summary: Option<Summarizer.Summary>,
                                     objectives: Option<seq<Tracker.Objective>>,
                                     tasks: Option<seq<TaskModel.Task>>, plan: Option<Planner.Plan>,
                                     createdAt: Option<string>, updatedAt: Option<string>)

  datatype Meeting = Meeting(id: Option<string>, title: string, date: string, participants: seq<string>,
                             audioFile: Option<string>, transcription: Option<Transcriber.Envelope>,
                             analysis: Option<Analyzer.Analysis>, summary: Option<Summarizer.Summary>,
                             objectives: seq<Tracker.Objective>, tasks: seq<TaskModel.Task>,
                             plan: Option<Planner.Plan>, createdAt: string, updatedAt: string)

  /** `toJSON()`: the transcription and analysis become flags, the plan becomes its id. */
  datatype MeetingJson = MeetingJson(id: Option<string>, title: string, date: string, participants: seq<string>,
                                     audioFile: Option<string>, transcription: bool, analysis: bool,
                                     summary: Option<Summarizer.Summary>, objectives: seq<Tracker.Objective>,
                                     tasks: seq<TaskModel.Task>, plan: Option<string>,
                                     createdAt: string, updatedAt: string)

  const Untitled: string := "Reunión sin título"

  /** `new Meeting(data)`: falsy strings take their defaults; a missing list is empty, a present one is kept. */
  function New(data: MeetingData, now: string): (m: Meeting)
    ensures m.title != "" && (Truthy(data.title) ==> m.title == data.title.value)
    ensures !Truthy(data.title) ==> m.title == Untitled
    ensures data.participants.None? ==> m.participants == []
    ensures data.objectives.None? ==> m.objectives == []
    ensures data.tasks.None? ==> m.tasks == []
    ensures data.participants.Some? ==> m.participants == data.participants.value
    ensures m.transcription == data.transcription && m.analysis == data.analysis && m.plan == data.plan
  {
    Meeting(OrNull(data.id), Or(data.title, Untitled), Or(data.date, now), data.participants.GetOr([]),
            OrNull(data.audioFile), data.transcription, data.analysis, data.summary,
            data.objectives.GetOr([]), data.tasks.GetOr([]), data.plan,
            Or(data.createdAt, now), Or(data.updatedAt, now))
  }

  /** `validate()`: only a blank title fails; `new Date(date)` never throws on a string. */
  function Validate(m: Meeting): (ok: bool)
    ensures ok <==> exists i :: 0 <= i < |m.title| && !IsSpace(m.title[i])
  {
    BlankIffAllSpace(m.title);
    !IsBlank(m.title)
  }

  /** A meeting built without a title is valid; one built with a title is valid exactly when that title is not blank. */
  lemma NewValidIffTitle(data: MeetingData, now: string)
    ensures Validate(New(data, now)) <==> !Truthy(data.title) || !IsBlank(data.title.value)
  {
    if !Truthy(data.title) {
      assert New(data, now).title == Untitled;
      NotBlankAt(Untitled, 0);
    }
  }

  function ToJson(m: Meeting): (j: MeetingJson)
    ensures j.transcription <==> m.transcription.Some?
    ensures j.analysis <==> m.analysis.Some?
    ensures j.plan.Some? <==> m.plan.Some?
    ensures m.plan.Some? ==> j.plan.value == m.plan.value.id
  {
    MeetingJson(m.id, m.title, m.date, m.participants, m.audioFile, m.transcription.Some?, m.analysis.Some?,
                m.summary, m.objectives, m.tasks, if m.plan.Some? then Some(m.plan.value.id) else None,
                m.createdAt, m.updatedAt)
  }

  /** Two meetings agree on everything the JSON form keeps. */
  predicate SameOutline(a: Meeting, b: Meeting) {
    && a.id == b.id && a.title == b.title && a.date == b.date && a.participants == b.participants
    && a.audioFile == b.audioFile && a.summary == b.summary && a.objectives == b.objectives
    && a.tasks == b.tasks && a.createdAt == b.createdAt && a.updatedAt == b.updatedAt
    && a.transcription.Some? == b.transcription.Some? && a.analysis.Some? == b.analysis.Some?
    && a.plan.Some? == b.plan.Some? && (a.plan.Some? ==> a.plan.value.id == b.plan.value.id)
  }

  /**
   * The JSON form forgets exactly the transcription and analysis contents and
   * everything about the plan but its id: two meetings have the same JSON
   * form if and only if they agree on everything else.
   */
  lemma ToJsonForgetsOnlyPayloads(a: Meeting, b: Meeting)
    ensures ToJson(a) == ToJson(b) <==> SameOutline(a, b)
  {
    if ToJson(a) == ToJson(b) {
      assert ToJson(a).plan == ToJson(b).plan;
    }
  }
}

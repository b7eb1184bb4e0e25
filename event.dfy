/**
 * `Event` (openmalaria-614): the summary of one clinical episode of one
 * individual, merged over the case-management memory window.
 */
module ClinicalEvent {
  import opened Wrappers

  /** `Diagnosis::INDIRECT_MALARIA_DEATH`, the fourth diagnosis value. */
  const INDIRECT_MALARIA_DEATH: int := 3

  /** The six recorded fields of an `Event`. */
  datatype EventData = EventData(time: int, surveyPeriod: int, ageGroup: int,
                                 diagnosis: int, outcome: int, recurrence: int)

  function Max(a: int, b: int): int { if a < b then b else a }

  /** An update starts a new episode on an indirect death or once the memory window has passed. */
  predicate StartsEpisode(e: EventData, now: int, diagnosis: int, memory: int)
  {
    diagnosis == INDIRECT_MALARIA_DEATH || now > e.time + memory
  }

  /**
   * The effect of `Event::update` on the fields, and the episode handed to
   * the summary, if any. `missingValue` marks "no episode recorded yet";
   * `surveyPeriod` is the current survey of the summary.
   */
  function Step(e: EventData, now: int, ageGroup: int, diagnosis: int, outcome: int,
                memory: int, missingValue: int, surveyPeriod: int): (EventData, Option<EventData>)
  {
    if StartsEpisode(e, now, diagnosis, memory) then
      (EventData(now, surveyPeriod, ageGroup, diagnosis, outcome, 1),
       if e.time != missingValue then Some(e) else None)
    else
      (e.(outcome := Max(outcome, e.outcome), diagnosis := Max(diagnosis, e.diagnosis),
          recurrence := e.recurrence + 1),
       None)
  }

  /** A new episode records exactly the reported bout, with recurrence 1, and reports the old one iff it existed. */
  lemma NewEpisode(e: EventData, now: int, ageGroup: int, diagnosis: int, outcome: int,
                   memory: int, missingValue: int, surveyPeriod: int)
    requires diagnosis == INDIRECT_MALARIA_DEATH || now > e.time + memory
    ensures var (n, rep) := Step(e, now, ageGroup, diagnosis, outcome, memory, missingValue, surveyPeriod);
      n.time == now && n.surveyPeriod == surveyPeriod && n.ageGroup == ageGroup &&
      n.diagnosis == diagnosis && n.outcome == outcome && n.recurrence == 1 &&
      (rep.Some? <==> e.time != missingValue) && (rep.Some? ==> rep.value == e)
  {
  }

  /** Within the window the episode keeps its start, becomes at least as severe and counts one more bout. */
  lemma SameEpisode(e: EventData, now: int, ageGroup: int, diagnosis: int, outcome: int,
                    memory: int, missingValue: int, surveyPeriod: int)
    requires diagnosis != INDIRECT_MALARIA_DEATH && now <= e.time + memory
    ensures var (n, rep) := Step(e, now, ageGroup, diagnosis, outcome, memory, missingValue, surveyPeriod);
      rep.None? && n.time == e.time && n.surveyPeriod == e.surveyPeriod && n.ageGroup == e.ageGroup &&
      n.recurrence == e.recurrence + 1 &&
      n.diagnosis >= diagnosis && n.diagnosis >= e.diagnosis && (n.diagnosis == diagnosis || n.diagnosis == e.diagnosis) &&
      n.outcome >= outcome && n.outcome >= e.outcome && (n.outcome == outcome || n.outcome == e.outcome)
  {
  }

  /** Something is reported only when a new episode starts over an existing one. */
  lemma ReportsOnlyOnNewEpisode(e: EventData, now: int, ageGroup: int, diagnosis: int, outcome: int,
                                memory: int, missingValue: int, surveyPeriod: int)
    ensures Step(e, now, ageGroup, diagnosis, outcome, memory, missingValue, surveyPeriod).1.Some? <==>
            StartsEpisode(e, now, diagnosis, memory) && e.time != missingValue
  {
  }

  /** The stream form of `operator<<`: the six fields in order, one number per line. */
  function Write(e: EventData): seq<int>
  {
    [e.time, e.surveyPeriod, e.ageGroup, e.diagnosis, e.outcome, e.recurrence]
  }

  /** `operator>>`: reads six numbers, or fails on a short stream; returns the rest. */
  function Read(s: seq<int>): Option<(EventData, seq<int>)>
  {
    if |s| < 6 then None
    else Some((EventData(s[0], s[1], s[2], s[3], s[4], s[5]), s[6..]))
  }

  /** The fields after `operator>>` from d: the first |s| of them, up to six, taken from s in order. */
  function ReadOver(d: EventData, s: seq<int>): EventData
  {
    EventData(if |s| > 0 then s[0] else d.time, if |s| > 1 then s[1] else d.surveyPeriod,
              if |s| > 2 then s[2] else d.ageGroup, if |s| > 3 then s[3] else d.diagnosis,
              if |s| > 4 then s[4] else d.outcome, if |s| > 5 then s[5] else d.recurrence)
  }

  /**
   * On a full stream the fields read over any event are the event Read
   * gives; on a short one they are, in write order, the numbers of the
   * stream followed by the old fields they did not reach.
   */
  lemma ReadOverFull(d: EventData, s: seq<int>)
    ensures |s| >= 6 ==> Read(s) == Some((ReadOver(d, s), s[6..]))
    ensures |s| < 6 ==> Read(s) == None && Write(ReadOver(d, s)) == s + Write(d)[|s|..]
  {
  }

  /** Writing then reading an event restores all six fields and leaves the rest of the stream. */
  lemma WriteReadRoundTrip(e: EventData, rest: seq<int>)
    ensures Read(Write(e) + rest) == Some((e, rest))
  {
    assert (Write(e) + rest)[6..] == rest;
  }

  /** The in-memory `Event` whose fields `update` overwrites or merges. */
  class Event {
    var time: int
    var surveyPeriod: int
    var ageGroup: int
    var diagnosis: int
    var outcome: int
    var recurrence: int

    function Data(): EventData
      reads this
    {
      EventData(time, surveyPeriod, ageGroup, diagnosis, outcome, recurrence)
    }

    constructor (missingValue: int)
      ensures Data() == EventData(missingValue, 0, 0, 0, 0, 0)
    {
      time, surveyPeriod, ageGroup, diagnosis, outcome, recurrence := missingValue, 0, 0, 0, 0, 0;
    }

    /** `Event::update`; `reported` is the episode handed to the summary. */
    method Update(now: int, newAgeGroup: int, newDiagnosis: int, newOutcome: int,
                  memory: int, missingValue: int, currentSurvey: int)
      returns (reported: Option<EventData>)
      modifies this
      ensures (Data(), reported) == Step(old(Data()), now, newAgeGroup, newDiagnosis, newOutcome,
                                         memory, missingValue, currentSurvey)
    {
      reported := None;
      if newDiagnosis == INDIRECT_MALARIA_DEATH || now > time + memory {
        if time != missingValue {
          reported := Some(Data());
        }
        time := now;
        surveyPeriod := currentSurvey;
        ageGroup := newAgeGroup;
        diagnosis := newDiagnosis;
        outcome := newOutcome;
        recurrence := 1;
      } else {
        outcome := Max(newOutcome, outcome);
        diagnosis := Max(newDiagnosis, diagnosis);
        recurrence := recurrence + 1;
      }
    }

    /**
     * `operator>>` into this event: each field in turn takes the next number
     * while there is one; on a short stream the fields already read keep
     * their new values, the others their old ones, and the stream is used up.
     */
    method ReadFrom(s: seq<int>) returns (rest: seq<int>, ok: bool)
      modifies this
      ensures ok <==> |s| >= 6
      ensures Data() == ReadOver(old(Data()), s)
      ensures rest == if ok then s[6..] else []
      ensures ok ==> Read(s) == Some((Data(), rest))
    {
      if |s| > 0 { time := s[0]; }
      if |s| > 1 { surveyPeriod := s[1]; }
      if |s| > 2 { ageGroup := s[2]; }
      if |s| > 3 { diagnosis := s[3]; }
      if |s| > 4 { outcome := s[4]; }
      if |s| > 5 { recurrence := s[5]; }
      ok := |s| >= 6;
      rest := if ok then s[6..] else [];
      ReadOverFull(old(Data()), s);
    }
  }
}

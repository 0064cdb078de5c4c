/** What a scan has done by the time it says it is saved, or says why it is not: `complete`
    in `plugin/server/scan.ts`, over every order of the callbacks. */
module ScanSaving {
  import opened ScanProperties
  import opened ScanState
  import opened Wrappers

  /** How an event moves run i from one piece of work to the next, and marks it saved. */
  ghost predicate Follows(r: Run, r': Run, e: Event, i: nat) {
    && (r'.saved <==> r.saved || (e.Resume? && e.i == i && r.work == Archiving))
    && (e.Resume? && e.i == i && r.work != Quiet && r.work != Over ==> r'.work != r.work)
    && (r'.work != r.work ==> Moves(r.work, r'.work, e, i))
  }

  predicate Moves(w: Work, w': Work, e: Event, i: nat) {
    match w'
    case Quiet => false
    case Reading => w == Quiet && e == StdoutEnd(i, true)
    case WritingGraph => w == Reading && e == Resume(i, true)
    case MovingVulns => w == WritingGraph && e == Resume(i, true)
    case MovingPaths => w == MovingVulns && e == Resume(i, true)
    case Archiving => w == MovingPaths && e == Resume(i, true)
    case Discarding(ok) => if ok then w in {MovingVulns, MovingPaths} && e == Resume(i, false)
                           else w == Quiet || (w in {Reading, WritingGraph} && e == Resume(i, false))
    case StopDiscarding => w == Quiet && e == Close(i)
    case Over => (w == Archiving || w.Discarding? || w == StopDiscarding) && e.Resume? && e.i == i
  }

  lemma SavingFollows(s: State, j: nat, ok: bool, i: nat)
    requires i < |s.runs| && j < |s.runs| && IsSaving(s.runs[j].work)
    ensures |OnSaving(s, j, ok).runs| == |s.runs|
    ensures Follows(s.runs[i], OnSaving(s, j, ok).runs[i], Resume(j, ok), i)
  {
    hide Finish;
  }

  lemma FinishedWork(s: State, j: nat, i: nat)
    requires i < |s.runs| && j < |s.runs|
    ensures |Finish(s, j).runs| == |s.runs| && Finish(s, j).runs[i].saved == s.runs[i].saved
    ensures Finish(s, j).runs[i].work == if i == j then Over else s.runs[i].work
  {
    hide Finish;
    FinishedRun(s, j, i);
  }

  lemma OverFollows(r: Run, r': Run, e: Event, i: nat)
    requires r.work == Archiving || r.work.Discarding? || r.work == StopDiscarding
    requires e.Resume? && e.i == i && r'.work == Over && r'.saved == (r.saved || r.work == Archiving)
    ensures Follows(r, r', e, i)
  {
  }

  lemma SameFollows(r: Run, r': Run, e: Event, i: nat)
    requires r'.work == r.work && r'.saved == r.saved && !(e.Resume? && e.i == i)
    ensures Follows(r, r', e, i)
  {
    hide Moves;
  }

  lemma ArchivingFollows(s: State, j: nat, ok: bool, i: nat)
    requires i < |s.runs| && j < |s.runs| && s.runs[j].work == Archiving
    ensures |OnLast(s, j).runs| == |s.runs|
    ensures Follows(s.runs[i], OnLast(s, j).runs[i], Resume(j, ok), i)
  {
    hide Finish, Follows;
    var saved := s.runs[j].(saved := true);
    var s1 := With(With(s, j, saved), j, saved.(ended := true));
    FinishedWork(s1, j, i);
    assert OnLast(s, j) == Finish(s1, j);
    if i == j {
      OverFollows(s.runs[i], OnLast(s, j).runs[i], Resume(j, ok), i);
    } else {
      SameFollows(s.runs[i], OnLast(s, j).runs[i], Resume(j, ok), i);
    }
  }

  lemma LastFollows(s: State, j: nat, ok: bool, i: nat)
    requires i < |s.runs| && j < |s.runs| && (s.runs[j].work.Discarding? || s.runs[j].work == StopDiscarding)
    ensures |OnLast(s, j).runs| == |s.runs|
    ensures Follows(s.runs[i], OnLast(s, j).runs[i], Resume(j, ok), i)
  {
    hide Finish, End, Follows;
    if s.runs[j].work.Discarding? {
      FinishedWork(s.(vulnsTemp := false, pathsTemp := false), j, i);
    }
    if i == j {
      OverFollows(s.runs[i], OnLast(s, j).runs[i], Resume(j, ok), i);
    } else {
      SameFollows(s.runs[i], OnLast(s, j).runs[i], Resume(j, ok), i);
    }
  }

  lemma ResumeFollows(s: State, j: nat, ok: bool, i: nat)
    requires Enabled(s, Resume(j, ok)) && i < |s.runs|
    ensures |OnResume(s, j, ok).runs| == |s.runs|
    ensures Follows(s.runs[i], OnResume(s, j, ok).runs[i], Resume(j, ok), i)
  {
    hide OnSaving, OnLast, Follows;
    if IsSaving(s.runs[j].work) {
      SavingFollows(s, j, ok, i);
    } else if s.runs[j].work == Archiving {
      ArchivingFollows(s, j, ok, i);
    } else {
      LastFollows(s, j, ok, i);
    }
  }

  /** One run changes as the event moves it, and no other does. */
  lemma OneFollows(s: State, j: nat, r: Run, e: Event, i: nat)
    requires i < |s.runs| && j < |s.runs| && !e.Resume? && Follows(s.runs[j], r, e, j)
    ensures |With(s, j, r).runs| == |s.runs| && Follows(s.runs[i], With(s, j, r).runs[i], e, i)
  {
  }

  lemma StdoutEndFollows(s: State, j: nat, parses: bool, i: nat)
    requires Inv(s) && Enabled(s, StdoutEnd(j, parses)) && i < |s.runs|
    ensures |OnStdoutEnd(s, j, parses).runs| == |s.runs|
    ensures Follows(s.runs[i], OnStdoutEnd(s, j, parses).runs[i], StdoutEnd(j, parses), i)
  {
    hide Inv, End, With;
    OneRun(s, j);
    var r, e := s.runs[j].(stdoutEnded := true), StdoutEnd(j, parses);
    if r.ended || r.timedOut || r.stopped || !r.hasOutput {
      OneFollows(s, j, r, e, i);
    } else if parses {
      OneFollows(s, j, r.(completion := true, work := Reading), e, i);
    } else {
      EndIs(s, j, r.(completion := true), false);
      OneFollows(s, j, r.(completion := true, ended := true, work := Discarding(false)), e, i);
    }
  }

  lemma CloseFollows(s: State, j: nat, i: nat)
    requires Inv(s) && Enabled(s, Close(j)) && i < |s.runs|
    ensures |OnClose(s, j).runs| == |s.runs| && Follows(s.runs[i], OnClose(s, j).runs[i], Close(j), i)
  {
    hide Inv, End, With;
    OneRun(s, j);
    var r, e := s.runs[j].(exited := true), Close(j);
    if r.completion {
      OneFollows(s, j, r.(closeWaits := true), e, i);
    } else if r.stopped && !r.ended {
      OneFollows(s, j, r.(ended := true, work := StopDiscarding), e, i);
    } else if r.ended {
      OneFollows(s, j, r, e, i);
    } else {
      EndIs(s, j, r, false);
      OneFollows(s, j, r.(ended := true, work := Discarding(false)), e, i);
    }
  }

  lemma ErrorFollows(s: State, j: nat, i: nat)
    requires Inv(s) && Enabled(s, ChildError(j)) && i < |s.runs|
    ensures |Step(s, ChildError(j)).runs| == |s.runs|
    ensures Follows(s.runs[i], Step(s, ChildError(j)).runs[i], ChildError(j), i)
  {
    hide Inv, End, With;
    OneRun(s, j);
    var r, e := s.runs[j].(failedToStart := true), ChildError(j);
    if r.ended {
      OneFollows(s, j, r, e, i);
    } else {
      EndIs(s, j, r, false);
      OneFollows(s, j, r.(ended := true, work := Discarding(false)), e, i);
    }
  }

  lemma OtherFollows(s: State, e: Event, i: nat)
    requires Enabled(s, e) && i < |s.runs| && !e.Resume? && !e.StdoutEnd? && !e.Close? && !e.ChildError?
    ensures i < |Step(s, e).runs| && Follows(s.runs[i], Step(s, e).runs[i], e, i)
  {
    hide OnResume, OnStdoutEnd, OnClose, OnSettled, Follows, Step;
    OtherSteps(s, e, i);
    SameFollows(s.runs[i], Step(s, e).runs[i], e, i);
  }

  /** Every step moves every run on as above; a run that begins has done nothing. */
  lemma StepFollows(s: State, e: Event, i: nat)
    requires Inv(s) && Enabled(s, e) && i < |Step(s, e).runs|
    ensures if i < |s.runs| then Follows(s.runs[i], Step(s, e).runs[i], e, i)
            else Step(s, e).runs[i].work == Quiet && !Step(s, e).runs[i].saved
  {
    hide Inv, Follows, OnResume, OnStdoutEnd, OnClose, OnSettled;
    if i < |s.runs| {
      match e
      case Resume(j, ok) => ResumeFollows(s, j, ok, i);
      case StdoutEnd(j, parses) => StdoutEndFollows(s, j, parses, i);
      case Close(j) => CloseFollows(s, j, i);
      case ChildError(j) => ErrorFollows(s, j, i);
      case _ => OtherFollows(s, e, i);
    } else {
      NoNewRun(s, e);
    }
  }

  lemma NoNewRun(s: State, e: Event)
    requires Inv(s) && Enabled(s, e) && |Step(s, e).runs| > |s.runs|
    ensures e.Start? && |Step(s, e).runs| == |s.runs| + 1
    ensures Step(s, e).runs[|s.runs|].work == Quiet && !Step(s, e).runs[|s.runs|].saved
  {
    hide Inv, Follows, OnResume, OnStdoutEnd, OnClose;
    match e
    case Resume(j, ok) => ResumeFollows(s, j, ok, j);
    case StdoutEnd(j, parses) => StdoutEndFollows(s, j, parses, j);
    case Close(j) => CloseFollows(s, j, j);
    case ChildError(j) => ErrorFollows(s, j, j);
    case _ =>
  }

  // ---- over whole histories ---------------------------------------------------------------

  /** Run i's file operation w was done, with this outcome, at step k. */
  ghost predicate DoneAt(states: seq<State>, events: seq<Event>, k: int, i: nat, w: Work, ok: bool) {
    && 0 <= k < |events| && k < |states| && i < |states[k].runs|
    && states[k].runs[i].work == w && events[k] == Resume(i, ok)
  }

  /** The step at which run i came to its present work. */
  lemma {:induction false} CameFrom(states: seq<State>, events: seq<Event>, m: nat, i: nat) returns (k: nat)
    requires IsHistory(states, events) && m < |states| && i < |states[m].runs| && states[m].runs[i].work != Quiet
    ensures k < m && k < |events| && i < |states[k].runs| && states[k].runs[i].work != states[m].runs[i].work
    ensures Moves(states[k].runs[i].work, states[m].runs[i].work, events[k], i)
  {
    hide Step, Inv, Enabled, Moves;
    EveryHistoryIsSafe(states, events, m - 1);
    StepFollows(states[m - 1], events[m - 1], i);
    if states[m - 1].runs[i].work != states[m].runs[i].work {
      k := m - 1;
    } else {
      k := CameFrom(states, events, m - 1, i);
    }
  }

  /** The step at which run i was marked saved. */
  lemma {:induction false} WasSaved(states: seq<State>, events: seq<Event>, m: nat, i: nat) returns (k: nat)
    requires IsHistory(states, events) && m < |states| && i < |states[m].runs| && states[m].runs[i].saved
    ensures k < m && k < |events| && i < |states[k].runs| && states[k].runs[i].work == Archiving
    ensures events[k].Resume? && events[k].i == i
  {
    hide Step, Inv, Enabled, Moves;
    EveryHistoryIsSafe(states, events, m - 1);
    StepFollows(states[m - 1], events[m - 1], i);
    if i < |states[m - 1].runs| && states[m - 1].runs[i].saved {
      k := WasSaved(states, events, m - 1, i);
    } else {
      k := m - 1;
    }
  }

  /** The old map was read, the graph written, and the two other files moved into place, each
      after the one before and each with success; then the archive was made. */
  ghost predicate SavedInOrder(states: seq<State>, events: seq<Event>, m: nat, i: nat) {
    exists r, g, v, p, a :: && r < g < v < p < a < m
                            && DoneAt(states, events, r, i, Reading, true)
                            && DoneAt(states, events, g, i, WritingGraph, true)
                            && DoneAt(states, events, v, i, MovingVulns, true)
                            && DoneAt(states, events, p, i, MovingPaths, true)
                            && (DoneAt(states, events, a, i, Archiving, true)
                                || DoneAt(states, events, a, i, Archiving, false))
  }

  /** A scan is saved only once it has written the graph, moved both files and made the
      archive, in that order; only the archive may have failed. */
  lemma SavedMeansWritten(states: seq<State>, events: seq<Event>, m: nat, i: nat)
    requires IsHistory(states, events) && m < |states| && i < |states[m].runs| && states[m].runs[i].saved
    ensures SavedInOrder(states, events, m, i)
  {
    hide IsHistory, Step, Enabled;
    var a := WasSaved(states, events, m, i);
    var p := CameFrom(states, events, a, i);
    var v := CameFrom(states, events, p, i);
    var g := CameFrom(states, events, v, i);
    var r := CameFrom(states, events, g, i);
    assert DoneAt(states, events, r, i, Reading, true) && DoneAt(states, events, g, i, WritingGraph, true);
    assert DoneAt(states, events, v, i, MovingVulns, true) && DoneAt(states, events, p, i, MovingPaths, true);
    assert DoneAt(states, events, a, i, Archiving, events[a].ok);
  }

  /** Work that comes only once the graph is written. */
  predicate IsAfterWriting(w: Work) {
    w in {MovingVulns, MovingPaths, Archiving, Discarding(true)}
  }

  /** Once the graph is written it stays so, until the scan is over. */
  lemma {:induction false} WrittenStays(states: seq<State>, events: seq<Event>, g: nat, m: nat, i: nat)
    requires IsHistory(states, events) && g < m < |states| && DoneAt(states, events, g, i, WritingGraph, true)
    ensures i < |states[m].runs| && (IsAfterWriting(states[m].runs[i].work) || states[m].runs[i].work == Over)
  {
    hide Step, Inv, Enabled;
    if m > g + 1 {
      WrittenStays(states, events, g, m - 1, i);
    }
    EveryHistoryIsSafe(states, events, m - 1);
    NeverFewerRuns(states, events, m - 1);
    StepFollows(states[m - 1], events[m - 1], i);
  }

  lemma NeverFewerRuns(states: seq<State>, events: seq<Event>, m: nat)
    requires IsHistory(states, events) && m < |events|
    ensures |states[m].runs| <= |states[m + 1].runs|
  {
    hide Step, Inv, Enabled;
    EveryHistoryIsSafe(states, events, m);
    if |states[m].runs| > 0 {
      NeverFreedLess(states[m], events[m], |states[m].runs| - 1);
    }
  }

  /** A scan that is cleaning up reports its graph as updated exactly when it was written. */
  lemma FailureSaysWhetherTheGraphWasWritten(states: seq<State>, events: seq<Event>, m: nat, i: nat)
    requires IsHistory(states, events) && m < |states| && i < |states[m].runs|
    requires states[m].runs[i].work.Discarding?
    ensures states[m].runs[i].work.ok <==> exists g :: g < m && DoneAt(states, events, g, i, WritingGraph, true)
  {
    hide IsHistory, Step, Enabled;
    if states[m].runs[i].work.ok {
      var v := CameFrom(states, events, m, i);
      if states[v].runs[i].work == MovingPaths {
        v := CameFrom(states, events, v, i);
      }
      var g := CameFrom(states, events, v, i);
      assert DoneAt(states, events, g, i, WritingGraph, true);
    } else if g :| g < m && DoneAt(states, events, g, i, WritingGraph, true) {
      WrittenStays(states, events, g, m, i);
    }
  }

  // ---- the temp files ---------------------------------------------------------------------

  /** The step moves the temp file into place, or removes it after a failure or a stop. */
  predicate Clears(s: State, e: Event, vulns: bool) {
    && e.Resume? && e.i < |s.runs|
    && (|| s.runs[e.i].work.Discarding? || s.runs[e.i].work == StopDiscarding
        || (e.ok && s.runs[e.i].work == if vulns then MovingVulns else MovingPaths))
  }

  predicate Writes(e: Event, vulns: bool) {
    e.TempsAppear? && if vulns then e.vulns else e.paths
  }

  predicate IsThere(s: State, vulns: bool) {
    if vulns then s.vulnsTemp else s.pathsTemp
  }

  lemma TempsStep(s: State, e: Event, vulns: bool)
    requires Enabled(s, e)
    ensures IsThere(Step(s, e), vulns) <==> !Clears(s, e, vulns) && (IsThere(s, vulns) || Writes(e, vulns))
  {
    hide Finish, OnStdoutEnd, OnClose, OnResume;
    match e
    case Resume(i, ok) => ResumeTemps(s, i, ok, vulns);
    case StdoutEnd(i, parses) => EndingKeepsTemps(s, i);
    case Close(i) => EndingKeepsTemps(s, i);
    case ChildError(i) => FinishKeepsTemps(s, i);
    case _ =>
  }

  lemma FinishKeepsTemps(s: State, i: nat)
    requires i < |s.runs|
    ensures Finish(s, i).vulnsTemp == s.vulnsTemp && Finish(s, i).pathsTemp == s.pathsTemp
  {
  }

  lemma EndingKeepsTemps(s: State, i: nat)
    requires i < |s.runs|
    ensures forall parses :: var s' := OnStdoutEnd(s, i, parses);
                             s'.vulnsTemp == s.vulnsTemp && s'.pathsTemp == s.pathsTemp
    ensures OnClose(s, i).vulnsTemp == s.vulnsTemp && OnClose(s, i).pathsTemp == s.pathsTemp
  {
    hide Finish;
  }

  lemma ResumeTemps(s: State, i: nat, ok: bool, vulns: bool)
    requires Enabled(s, Resume(i, ok))
    ensures IsThere(OnResume(s, i, ok), vulns) <==> !Clears(s, Resume(i, ok), vulns) && IsThere(s, vulns)
  {
    hide Finish;
    var cleared := s.(vulnsTemp := false, pathsTemp := false);
    FinishKeepsTemps(cleared, i);
    var saved := With(s, i, s.runs[i].(saved := true));
    FinishKeepsTemps(With(saved, i, saved.runs[i].(ended := true)), i);
  }

  /** The scanner wrote the temp file at step k, and it has not been cleared since. */
  ghost predicate IsLeft(states: seq<State>, events: seq<Event>, k: int, m: nat, vulns: bool) {
    && 0 <= k < m <= |events| && m <= |states| && Writes(events[k], vulns)
    && forall j | k < j < m :: !Clears(states[j], events[j], vulns)
  }

  lemma LeftStep(states: seq<State>, events: seq<Event>, m: nat, next: nat, vulns: bool)
    requires next == m + 1 && m < |events| && m < |states|
    requires Writes(events[m], vulns) ==> !Clears(states[m], events[m], vulns)
    ensures (exists k :: IsLeft(states, events, k, next, vulns))
            <==> || Writes(events[m], vulns)
                 || (!Clears(states[m], events[m], vulns) && exists k :: IsLeft(states, events, k, m, vulns))
  {
    hide Clears, Writes;
    if k :| IsLeft(states, events, k, next, vulns) {
      assert k < m ==> IsLeft(states, events, k, m, vulns);
    }
    if Writes(events[m], vulns) {
      assert IsLeft(states, events, m, next, vulns);
    } else if k :| IsLeft(states, events, k, m, vulns) && !Clears(states[m], events[m], vulns) {
      assert IsLeft(states, events, k, next, vulns);
    }
  }

  /** A temp file is there exactly when the scanner has written it since it was last moved into
      place or removed. */
  lemma {:induction false} TempsAreThereExactlyWhen(states: seq<State>, events: seq<Event>, m: nat, vulns: bool)
    requires IsHistory(states, events) && m < |states|
    ensures IsThere(states[m], vulns) <==> exists k :: IsLeft(states, events, k, m, vulns)
  {
    hide Step, Enabled;
    if m > 0 {
      TempsAreThereExactlyWhen(states, events, m - 1, vulns);
      TempsStep(states[m - 1], events[m - 1], vulns);
      LeftStep(states, events, m - 1, m, vulns);
    }
  }
}

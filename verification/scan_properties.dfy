/** The scan lock's promises, over every order of the callbacks. */
module ScanProperties {
  import opened ScanState
  import opened Wrappers

  /** A run whose scan holds the lock. */
  ghost predicate LiveRun(r: Run) {
    && r.releases == 0 && r.reports == 0 && r.stopsAnswered == 0
    && (r.work == Quiet <==> !r.ended && !r.completion) && r.work != Over
    && (r.work in {Reading, WritingGraph, MovingVulns, MovingPaths, Archiving} ==> !r.ended)
    && (r.work.Discarding? || r.work == StopDiscarding ==> r.ended)
    && (r.work == StopDiscarding ==> !r.completion && r.stopped)
  }

  /** A run whose scan has ended: freed once, and reported unless a stop ended it. */
  ghost predicate PastRun(r: Run) {
    && r.releases == 1 && r.work == Over && r.ended
    && (r.reports == 1 || (r.reports == 0 && r.stopped && !r.completion && r.stopsAnswered == 1))
    && (!r.completion && r.reports == 1 ==> r.stopsAnswered == 0)
    && (r.exited && !r.closeWaits && r.completion && r.stopped ==> r.stopsAnswered == 1)
  }

  /** What holds of any run. */
  ghost predicate AnyRun(r: Run) {
    && (r.completion ==> r.stdoutEnded && r.hasOutput && !r.failedToStart)
    && (r.failedToStart ==> r.ended && !r.hasOutput && !r.completion)
    && (r.ended && !r.completion && !r.failedToStart ==> r.exited)
    && (r.exited && !r.completion ==> r.ended)
    && (r.closeWaits ==> r.exited && r.completion)
    && (r.exited && r.completion && !r.closeWaits ==> r.work == Over)
    && r.stopsAnswered <= r.stopsAsked && r.stopsAsked == (if r.stopped then 1 else 0) && (r.manual ==> !r.stopped)
  }

  ghost predicate RunInv(r: Run, live: bool) {
    AnyRun(r) && if live then LiveRun(r) else PastRun(r)
  }

  /** The scan that holds the lock is the last one started. */
  ghost predicate IsLive(s: State, i: nat) {
    s.running && i == |s.runs| - 1
  }

  /** The temp files are the running scan's, and moved away by the time it archives. */
  ghost predicate TempsInv(s: State) {
    && (s.vulnsTemp || s.pathsTemp ==> s.running)
    && (s.running && |s.runs| > 0 && s.runs[|s.runs| - 1].work in {MovingPaths, Archiving} ==> !s.vulnsTemp)
    && (s.running && |s.runs| > 0 && s.runs[|s.runs| - 1].work == Archiving ==> !s.pathsTemp)
  }

  ghost predicate Inv(s: State) {
    && !(s.running && s.exclusive)
    && (s.running ==> |s.runs| > 0)
    && s.stopRunning == (if s.running then Some(|s.runs| - 1) else None)
    && s.onDone == s.stopRunning
    && TempsInv(s)
    && forall i: nat | i < |s.runs| :: RunInv(s.runs[i], IsLive(s, i))
  }

  lemma OneRun(s: State, i: nat)
    requires Inv(s) && i < |s.runs|
    ensures RunInv(s.runs[i], IsLive(s, i))
  {
  }

  /** A change to one run that frees nothing. */
  lemma ChangeKeepsInv(s: State, i: nat, r: Run)
    requires Inv(s) && i < |s.runs| && RunInv(r, IsLive(s, i))
    requires r.work in {MovingPaths, Archiving} ==> IsLive(s, i) ==> !s.vulnsTemp
    requires r.work == Archiving ==> IsLive(s, i) ==> !s.pathsTemp
    ensures Inv(With(s, i, r))
  {
    hide RunInv;
    forall k: nat | k < |s.runs| ensures RunInv(With(s, i, r).runs[k], IsLive(With(s, i, r), k)) {
      OneRun(s, k);
    }
  }

  /** The running scan frees the lock, its temp files gone. */
  lemma FreeKeepsInv(s: State, i: nat, r: Run, s': State)
    requires Inv(s) && i < |s.runs| && IsLive(s, i) && RunInv(r, false)
    requires s' == With(s, i, r).(running := false, stopRunning := None, onDone := None,
                                  vulnsTemp := false, pathsTemp := false)
    ensures Inv(s')
  {
    hide RunInv;
    forall k: nat | k < |s.runs| ensures RunInv(s'.runs[k], false) {
      OneRun(s, k);
    }
  }

  lemma StartKeepsInv(s: State, asked: bool)
    requires Inv(s)
    ensures Inv(Step(s, Start(asked)))
  {
    var s' := Step(s, Start(asked));
    if !(s.running || s.exclusive) {
      var first := FRESH.(manual := asked);
      assert RunInv(first, true);
      forall k: nat | k < |s'.runs| ensures RunInv(s'.runs[k], IsLive(s', k)) {
        if k < |s.runs| {
          OneRun(s, k);
        }
      }
    }
  }

  /** What can still write its temp files holds the lock. */
  lemma WriterIsLive(s: State, i: nat)
    requires Inv(s) && i < |s.runs|
    requires (!s.runs[i].stdoutEnded && !s.runs[i].exited && !s.runs[i].failedToStart)
             || (s.runs[i].work != Quiet && s.runs[i].work != Over)
    ensures IsLive(s, i)
  {
    OneRun(s, i);
  }

  lemma TempsKeepInv(s: State, i: nat, v: bool, p: bool)
    requires Inv(s) && Enabled(s, TempsAppear(i, v, p))
    ensures Inv(Step(s, TempsAppear(i, v, p)))
  {
    hide PastRun;
    WriterIsLive(s, i);
    OneRun(s, i);
    var s' := Step(s, TempsAppear(i, v, p));
    forall k: nat | k < |s.runs| ensures RunInv(s'.runs[k], IsLive(s', k)) {
      OneRun(s, k);
    }
  }

  lemma ChildKeepsInv(s: State, e: Event)
    requires Inv(s) && Enabled(s, e) && (e.Data? || e.Timeout?)
    ensures Inv(Step(s, e))
  {
    OneRun(s, e.i);
    var r := s.runs[e.i];
    ChangeKeepsInv(s, e.i, if e.Data? then r.(hasOutput := true) else r.(timedOut := true));
  }

  lemma EndIs(s: State, i: nat, r: Run, ok: bool)
    requires i < |s.runs|
    ensures End(With(s, i, r), i, ok, true) == With(s, i, r.(ended := true, work := Discarding(ok)))
  {
    hide Finish;
    var ending := r.(ended := true, work := Discarding(ok));
    assert s.runs[i := r][i := ending] == s.runs[i := ending];
  }

  /** A clean-up begins; it is the running scan's. */
  lemma EndKeepsInv(s: State, i: nat, r: Run, ok: bool)
    requires Inv(s) && i < |s.runs| && IsLive(s, i)
    requires RunInv(r.(ended := true, work := Discarding(ok)), true)
    ensures Inv(End(With(s, i, r), i, ok, true))
  {
    hide Inv, RunInv, End;
    EndIs(s, i, r, ok);
    ChangeKeepsInv(s, i, r.(ended := true, work := Discarding(ok)));
  }

  lemma StdoutEndKeepsInv(s: State, i: nat, parses: bool)
    requires Inv(s) && Enabled(s, StdoutEnd(i, parses))
    ensures Inv(Step(s, StdoutEnd(i, parses)))
  {
    hide Inv, End;
    OneRun(s, i);
    var r := s.runs[i].(stdoutEnded := true);
    if r.ended || r.timedOut || r.stopped || !r.hasOutput {
      QuietOrEnded(s, i);
      ChangeKeepsInv(s, i, r);
    } else if parses {
      ChangeKeepsInv(s, i, r.(completion := true, work := Reading));
    } else {
      EndKeepsInv(s, i, r.(completion := true), false);
    }
  }

  lemma QuietOrEnded(s: State, i: nat)
    requires Inv(s) && i < |s.runs| && !s.runs[i].stdoutEnded
    ensures s.runs[i].work !in {MovingPaths, Archiving}
  {
    OneRun(s, i);
  }

  lemma ChildErrorKeepsInv(s: State, i: nat)
    requires Inv(s) && Enabled(s, ChildError(i))
    ensures Inv(Step(s, ChildError(i)))
  {
    OneRun(s, i);
    EndKeepsInv(s, i, s.runs[i].(failedToStart := true), false);
  }

  /** What the close callback does to its own run. */
  lemma ClosingKeepsRun(before: Run, live: bool)
    requires RunInv(before, live) && !before.exited && (before.stdoutEnded || before.failedToStart)
    ensures var r := before.(exited := true);
            if r.completion then RunInv(r.(closeWaits := true), live)
            else if r.stopped && !r.ended then RunInv(r.(ended := true, work := StopDiscarding), live)
            else if r.ended then RunInv(r, live)
            else live && RunInv(r.(ended := true, work := Discarding(false)), true)
  {
  }

  lemma CloseKeepsInv(s: State, i: nat)
    requires Inv(s) && Enabled(s, Close(i))
    ensures Inv(Step(s, Close(i)))
  {
    hide Inv, RunInv, End;
    OneRun(s, i);
    var r := s.runs[i].(exited := true);
    CompletionTemps(s, i);
    ClosingKeepsRun(s.runs[i], IsLive(s, i));
    if r.completion {
      ChangeKeepsInv(s, i, r.(closeWaits := true));
    } else if r.stopped && !r.ended {
      ChangeKeepsInv(s, i, r.(ended := true, work := StopDiscarding));
    } else if r.ended {
      ChangeKeepsInv(s, i, r);
    } else {
      EndKeepsInv(s, i, r, false);
    }
  }

  lemma CompletionTemps(s: State, i: nat)
    requires Inv(s) && i < |s.runs|
    ensures s.runs[i].work in {MovingPaths, Archiving} ==> IsLive(s, i) ==> !s.vulnsTemp
    ensures s.runs[i].work == Archiving ==> IsLive(s, i) ==> !s.pathsTemp
  {
  }

  lemma StopKeepsInv(s: State)
    requires Inv(s) && Enabled(s, Stop)
    ensures Inv(Step(s, Stop))
  {
    if s.running && !s.runs[|s.runs| - 1].manual {
      var i := |s.runs| - 1;
      OneRun(s, i);
      CompletionTemps(s, i);
      ChangeKeepsInv(s, i, s.runs[i].(stopped := true, stopsAsked := s.runs[i].stopsAsked + 1));
    }
  }

  lemma SettledKeepsInv(s: State, i: nat, late: bool)
    requires Inv(s) && Enabled(s, CompletionSettles(i, late))
    ensures Inv(Step(s, CompletionSettles(i, late)))
  {
    OneRun(s, i);
    var r := s.runs[i].(closeWaits := false);
    ChangeKeepsInv(s, i, if r.stopped then r.(stopsAnswered := r.stopsAsked) else r);
  }

  /** Moving on within `complete`. */
  lemma MovesOnKeepsInv(s: State, i: nat)
    requires Inv(s) && i < |s.runs| && IsSaving(s.runs[i].work)
    ensures Inv(OnSaving(s, i, true))
  {
    WriterIsLive(s, i);
    OneRun(s, i);
    CompletionTemps(s, i);
    var r := s.runs[i].(work := After(s.runs[i].work));
    match s.runs[i].work
    case MovingVulns =>
      NoTemps(s, false);
      ChangeKeepsInv(s.(vulnsTemp := false), i, r);
    case MovingPaths =>
      NoTemps(s, true);
      ChangeKeepsInv(s.(pathsTemp := false), i, r);
    case _ => ChangeKeepsInv(s, i, r);
  }

  lemma NoTemps(s: State, paths: bool)
    requires Inv(s)
    ensures Inv(if paths then s.(pathsTemp := false) else s.(vulnsTemp := false))
  {
    hide RunInv;
    var s' := if paths then s.(pathsTemp := false) else s.(vulnsTemp := false);
    forall k: nat | k < |s.runs| ensures RunInv(s'.runs[k], IsLive(s', k)) {
      OneRun(s, k);
    }
  }

  lemma FailsKeepsInv(s: State, i: nat)
    requires Inv(s) && i < |s.runs| && IsSaving(s.runs[i].work)
    ensures Inv(OnSaving(s, i, false))
  {
    WriterIsLive(s, i);
    OneRun(s, i);
    var r := s.runs[i];
    EndKeepsInv(s, i, r, r.work == MovingVulns || r.work == MovingPaths);
    assert With(s, i, r) == s;
  }

  lemma FinishIs(s: State, i: nat)
    requires i < |s.runs| && s.onDone == Some(i)
    ensures Finish(s, i)
            == With(s, i, s.runs[i].(work := Over, releases := s.runs[i].releases + 1,
                                     reports := s.runs[i].reports + 1))
                 .(stopRunning := None, running := false, onDone := None)
  {
    var r := s.runs[i];
    var over := r.(work := Over, releases := r.releases + 1);
    assert s.runs[i := over][i := over.(reports := r.reports + 1)] == s.runs[i := over.(reports := r.reports + 1)];
  }

  lemma DiscardedKeepsInv(s: State, i: nat)
    requires Inv(s) && i < |s.runs| && s.runs[i].work.Discarding?
    ensures Inv(OnLast(s, i)) && !OnLast(s, i).running
  {
    hide Finish;
    WriterIsLive(s, i);
    OneRun(s, i);
    FinishIs(s.(vulnsTemp := false, pathsTemp := false), i);
    FreeKeepsInv(s, i, s.runs[i].(work := Over, releases := 1, reports := 1), OnLast(s, i));
  }

  lemma ArchivedKeepsInv(s: State, i: nat)
    requires Inv(s) && i < |s.runs| && s.runs[i].work == Archiving
    ensures Inv(OnLast(s, i)) && !OnLast(s, i).running
  {
    hide Finish;
    WriterIsLive(s, i);
    OneRun(s, i);
    CompletionTemps(s, i);
    var r := s.runs[i].(saved := true);
    var s1 := With(With(s, i, r), i, r.(ended := true));
    assert s.runs[i := r][i := r.(ended := true)] == s.runs[i := r.(ended := true)];
    FinishIs(s1, i);
    assert s.runs[i := r.(ended := true)][i := r.(ended := true, work := Over, releases := 1, reports := 1)]
      == s.runs[i := r.(ended := true, work := Over, releases := 1, reports := 1)];
    FreeKeepsInv(s, i, r.(ended := true, work := Over, releases := 1, reports := 1), OnLast(s, i));
  }

  lemma StoppedKeepsInv(s: State, i: nat)
    requires Inv(s) && i < |s.runs| && s.runs[i].work == StopDiscarding
    ensures Inv(OnLast(s, i)) && !OnLast(s, i).running
  {
    hide Inv;
    WriterIsLive(s, i);
    OneRun(s, i);
    FreeKeepsInv(s, i, s.runs[i].(work := Over, releases := 1, stopsAnswered := s.runs[i].stopsAsked), OnLast(s, i));
  }

  lemma TaskKeepsInv(s: State, e: Event)
    requires Inv(s) && Enabled(s, e) && (e.TaskStarts? || e.TaskEnds?)
    ensures Inv(Step(s, e))
  {
    hide RunInv;
    var s' := Step(s, e);
    forall k: nat | k < |s.runs| ensures RunInv(s'.runs[k], IsLive(s', k)) {
      OneRun(s, k);
    }
  }

  lemma StepKeepsInv(s: State, e: Event)
    requires Inv(s) && Enabled(s, e)
    ensures Inv(Step(s, e))
  {
    hide Inv;
    match e
    case Start(asked) => StartKeepsInv(s, asked);
    case TempsAppear(i, v, p) => TempsKeepInv(s, i, v, p);
    case Data(i) => ChildKeepsInv(s, e);
    case Timeout(i) => ChildKeepsInv(s, e);
    case StdoutEnd(i, parses) => StdoutEndKeepsInv(s, i, parses);
    case ChildError(i) => ChildErrorKeepsInv(s, i);
    case Close(i) => CloseKeepsInv(s, i);
    case Stop => StopKeepsInv(s);
    case CompletionSettles(i, late) => SettledKeepsInv(s, i, late);
    case Resume(i, ok) =>
      if IsSaving(s.runs[i].work) {
        if ok { MovesOnKeepsInv(s, i); } else { FailsKeepsInv(s, i); }
      } else if s.runs[i].work == Archiving {
        ArchivedKeepsInv(s, i);
      } else if s.runs[i].work == StopDiscarding {
        StoppedKeepsInv(s, i);
      } else {
        DiscardedKeepsInv(s, i);
      }
    case TaskStarts => TaskKeepsInv(s, e);
    case TaskEnds => TaskKeepsInv(s, e);
  }

  // ---- whole runs of the server ---------------------------------------------------------

  /** A history: each state is the step of the one before by an event that could happen. */
  ghost predicate IsHistory(states: seq<State>, events: seq<Event>) {
    && |states| == |events| + 1 && states[0] == IDLE
    && forall k | 0 <= k < |events| :: Enabled(states[k], events[k]) && states[k + 1] == Step(states[k], events[k])
  }

  lemma {:induction false} EveryHistoryIsSafe(states: seq<State>, events: seq<Event>, k: nat)
    requires IsHistory(states, events) && k < |states|
    ensures Inv(states[k])
  {
    hide Step, Enabled;
    if k == 0 {
      assert Inv(IDLE);
    } else {
      EveryHistoryIsSafe(states, events, k - 1);
      StepKeepsInv(states[k - 1], events[k - 1]);
    }
  }

  /** The scan is writing one of the files the map is read from. */
  predicate IsWriting(r: Run) {
    r.work in {WritingGraph, MovingVulns, MovingPaths}
  }

  /** A scan and an exclusive task never hold the lock together, and the files are
      written, and archived, only by the scan that holds it. */
  lemma FilesAreWrittenUnderTheLock(states: seq<State>, events: seq<Event>, k: nat, i: nat)
    requires IsHistory(states, events) && k < |states|
    ensures !(states[k].running && states[k].exclusive)
    ensures i < |states[k].runs| && (IsWriting(states[k].runs[i]) || states[k].runs[i].work == Archiving) ==>
              IsLive(states[k], i) && !states[k].exclusive
  {
    hide Step, Enabled;
    EveryHistoryIsSafe(states, events, k);
    if i < |states[k].runs| && states[k].runs[i].work !in {Quiet, Over} {
      WriterIsLive(states[k], i);
    }
  }

  // ---- what a step does to each run -----------------------------------------------------

  function WorkLeft(w: Work): nat {
    match w
    case Quiet => 5 case Reading => 5 case WritingGraph => 4 case MovingVulns => 3 case MovingPaths => 2
    case Archiving => 1 case Discarding(_) => 1 case StopDiscarding => 1 case Over => 0
  }

  /** How many of its own callbacks a run can still have. */
  function Left(r: Run): nat {
    WorkLeft(r.work) + (if r.stdoutEnded then 0 else 1) + if r.exited then 0 else 1
  }

  /** The run is freed no fewer times and has no more callbacks left. */
  ghost predicate MovesOn(before: Run, after: Run) {
    before.releases <= after.releases && Left(after) <= Left(before)
  }

  /** Run i moves on; when it is run j's step, with fewer callbacks left. */
  ghost predicate RunMoves(runs: seq<Run>, runs': seq<Run>, j: nat, i: nat) {
    && |runs'| == |runs| && i < |runs| && MovesOn(runs[i], runs'[i])
    && (i == j && runs[i].work !in {Quiet, Over} ==> Left(runs'[i]) < Left(runs[i]))
  }

  lemma FinishMoves(s: State, j: nat, i: nat)
    requires i < |s.runs| && j < |s.runs|
    ensures |Finish(s, j).runs| == |s.runs| && MovesOn(s.runs[i], Finish(s, j).runs[i])
    ensures i == j ==> Left(Finish(s, j).runs[i]) == Left(s.runs[i]) - WorkLeft(s.runs[i].work)
    ensures RunMoves(s.runs, Finish(s, j).runs, j, i)
  {
    hide Finish;
    FinishedRun(s, j, i);
  }

  lemma FinishedRun(s: State, j: nat, i: nat)
    requires i < |s.runs| && j < |s.runs|
    ensures |Finish(s, j).runs| == |s.runs|
    ensures var r := if i == j then Freed(s.runs[i]) else s.runs[i];
            Finish(s, j).runs[i] == if s.onDone == Some(i) then Told(r) else r
  {
    hide Freed, Told;
  }

  lemma EndMoves(s: State, j: nat, ok: bool, discard: bool, i: nat)
    requires i < |s.runs| && j < |s.runs|
    requires s.runs[j].work !in {Discarding(true), Discarding(false), StopDiscarding, Over}
    requires discard ==> s.runs[j].work != Archiving
    ensures |End(s, j, ok, discard).runs| == |s.runs| && MovesOn(s.runs[i], End(s, j, ok, discard).runs[i])
    ensures i == j ==> Left(End(s, j, ok, discard).runs[i]) < Left(s.runs[i])
    ensures RunMoves(s.runs, End(s, j, ok, discard).runs, j, i)
  {
    hide Finish;
    if !discard {
      FinishMoves(With(s, j, s.runs[j].(ended := true)), j, i);
    }
  }

  lemma WithMoves(s: State, j: nat, r: Run, i: nat)
    requires i < |s.runs| && j < |s.runs| && s.runs[j].releases <= r.releases && Left(r) < Left(s.runs[j])
    ensures RunMoves(s.runs, With(s, j, r).runs, j, i)
  {
  }

  lemma SavingMoves(s: State, j: nat, ok: bool, i: nat)
    requires i < |s.runs| && j < |s.runs| && IsSaving(s.runs[j].work)
    ensures RunMoves(s.runs, OnSaving(s, j, ok).runs, j, i)
  {
    hide End, RunMoves;
    var w := s.runs[j].work;
    if ok {
      WithMoves(s, j, s.runs[j].(work := After(w)), i);
    } else {
      EndMoves(s, j, w == MovingVulns || w == MovingPaths, true, i);
    }
  }

  lemma LastMoves(s: State, j: nat, i: nat)
    requires i < |s.runs| && j < |s.runs|
    ensures RunMoves(s.runs, OnLast(s, j).runs, j, i) || IsSaving(s.runs[j].work)
  {
    hide Finish, End, With, RunMoves, IsSaving;
    var r := s.runs[j];
    match r.work
    case Archiving => ArchivingMoves(s, j, i);
    case Discarding(_) => FinishMoves(s.(vulnsTemp := false, pathsTemp := false), j, i);
    case StopDiscarding => WithMoves(s, j, r.(work := Over, releases := r.releases + 1, stopsAnswered := r.stopsAsked),
                                     i);
    case Quiet => NothingMoves(s.runs, j, i);
    case Over => NothingMoves(s.runs, j, i);
    case _ => assert IsSaving(r.work) by { Saves(r.work); }
  }

  lemma Saves(w: Work)
    ensures w.Reading? || w.WritingGraph? || w.MovingVulns? || w.MovingPaths? ==> IsSaving(w)
  {
  }

  lemma ResumeMoves(s: State, j: nat, ok: bool, i: nat)
    requires i < |s.runs| && j < |s.runs|
    ensures RunMoves(s.runs, OnResume(s, j, ok).runs, j, i)
  {
    hide OnSaving, OnLast, RunMoves;
    if IsSaving(s.runs[j].work) {
      SavingMoves(s, j, ok, i);
    } else {
      LastMoves(s, j, i);
    }
  }

  lemma NothingMoves(runs: seq<Run>, j: nat, i: nat)
    requires i < |runs| && j < |runs| && runs[j].work in {Quiet, Over}
    ensures RunMoves(runs, runs, j, i)
  {
  }

  lemma ArchivingMoves(s: State, j: nat, i: nat)
    requires i < |s.runs| && j < |s.runs| && s.runs[j].work == Archiving
    ensures RunMoves(s.runs, End(With(s, j, s.runs[j].(saved := true)), j, true, false).runs, j, i)
  {
    hide Finish, End;
    EndMoves(With(s, j, s.runs[j].(saved := true)), j, true, false, i);
  }

  lemma StdoutEndMoves(s: State, j: nat, parses: bool, i: nat)
    requires i < |s.runs| && Inv(s) && Enabled(s, StdoutEnd(j, parses))
    ensures |OnStdoutEnd(s, j, parses).runs| == |s.runs| && MovesOn(s.runs[i], OnStdoutEnd(s, j, parses).runs[i])
    ensures i == j ==> Left(OnStdoutEnd(s, j, parses).runs[i]) < Left(s.runs[i])
  {
    OneRun(s, j);
    var r := s.runs[j].(stdoutEnded := true);
    if !(r.ended || r.timedOut || r.stopped || !r.hasOutput) && !parses {
      EndMoves(With(s, j, r.(completion := true)), j, false, true, i);
    }
  }

  lemma CloseMoves(s: State, j: nat, i: nat)
    requires i < |s.runs| && Inv(s) && Enabled(s, Close(j))
    ensures |OnClose(s, j).runs| == |s.runs| && MovesOn(s.runs[i], OnClose(s, j).runs[i])
    ensures i == j ==> Left(OnClose(s, j).runs[i]) < Left(s.runs[i])
  {
    OneRun(s, j);
    var r := s.runs[j].(exited := true);
    if !r.completion && !(r.stopped && !r.ended) && !r.ended {
      EndMoves(With(s, j, r), j, false, true, i);
    }
  }

  lemma ErrorMoves(s: State, j: nat, i: nat)
    requires i < |s.runs| && Inv(s) && Enabled(s, ChildError(j))
    ensures |Step(s, ChildError(j)).runs| == |s.runs| && MovesOn(s.runs[i], Step(s, ChildError(j)).runs[i])
  {
    hide End, Inv;
    OneRun(s, j);
    var r := s.runs[j].(failedToStart := true);
    if !r.ended {
      EndMoves(With(s, j, r), j, false, true, i);
    }
  }

  lemma FreeingStep(s: State, s': State, i: nat)
    requires Inv(s) && Inv(s') && i < |s.runs| && i < |s'.runs|
    requires s.running ==> |s'.runs| == |s.runs|
    requires s.runs[i].releases < s'.runs[i].releases
    ensures IsLive(s, i) && !s'.running && !s'.vulnsTemp && !s'.pathsTemp
    ensures (s'.runs[i].reports == 1 || s'.runs[i].stopped)
  {
    OneRun(s, i);
    OneRun(s', i);
  }

  /** A step frees the lock for a scan only once, and leaves no temp file behind. */
  lemma FreedOnceAndClean(states: seq<State>, events: seq<Event>, k: nat, i: nat)
    requires IsHistory(states, events) && k < |events| && i < |states[k].runs|
    ensures i < |states[k + 1].runs|
    ensures states[k].runs[i].releases <= states[k + 1].runs[i].releases <= 1
    ensures states[k].runs[i].releases < states[k + 1].runs[i].releases ==>
              && IsLive(states[k], i) && !states[k + 1].running && !states[k + 1].vulnsTemp && !states[k + 1].pathsTemp
              && (states[k + 1].runs[i].reports == 1 || states[k + 1].runs[i].stopped)
  {
    hide Step, Enabled, Inv;
    EveryHistoryIsSafe(states, events, k);
    EveryHistoryIsSafe(states, events, k + 1);
    NeverFreedLess(states[k], events[k], i);
    OneRun(states[k + 1], i);
    if states[k].runs[i].releases < states[k + 1].runs[i].releases {
      FreeingStep(states[k], states[k + 1], i);
    }
  }

  lemma NeverFreedLess(s: State, e: Event, i: nat)
    requires Inv(s) && Enabled(s, e) && i < |s.runs|
    ensures i < |Step(s, e).runs| && s.runs[i].releases <= Step(s, e).runs[i].releases
    ensures s.running ==> |Step(s, e).runs| == |s.runs|
  {
    hide Inv, Left, OnResume, OnStdoutEnd, OnClose, OnSettled, End, With;
    match e
    case Resume(j, ok) => ResumeMoves(s, j, ok, i);
    case StdoutEnd(j, parses) => StdoutEndMoves(s, j, parses, i);
    case Close(j) => CloseMoves(s, j, i);
    case ChildError(j) => ErrorMoves(s, j, i);
    case _ => OtherSteps(s, e, i);
  }

  /** As far as its work, its child's progress and its files go the run is as before. */
  ghost predicate SameWork(r: Run, r': Run) {
    && r'.work == r.work && r'.ended == r.ended && r'.releases == r.releases
    && r'.stdoutEnded == r.stdoutEnded && r'.exited == r.exited && r'.saved == r.saved
  }

  lemma OtherSteps(s: State, e: Event, i: nat)
    requires Enabled(s, e) && i < |s.runs| && !e.Resume? && !e.StdoutEnd? && !e.Close? && !e.ChildError?
    ensures i < |Step(s, e).runs| && SameWork(s.runs[i], Step(s, e).runs[i])
    ensures s.running ==> |Step(s, e).runs| == |s.runs|
    ensures s.runs[i].stopped && !e.CompletionSettles? ==> SameRequest(s.runs[i], Step(s, e).runs[i])
  {
    hide OnResume, OnStdoutEnd, OnClose, OnSettled, End, With;
    match e
    case CompletionSettles(j, late) => SettlingStep(s, j, late, i);
    case Data(j) => OneChanges(s, j, s.runs[j].(hasOutput := true), i);
    case Timeout(j) => OneChanges(s, j, s.runs[j].(timedOut := true), i);
    case Stop =>
      if s.running && s.stopRunning.Some? && s.stopRunning.value < |s.runs| {
        var j := s.stopRunning.value;
        OneChanges(s, j, s.runs[j].(stopped := true, stopsAsked := s.runs[j].stopsAsked + 1), i);
      }
    case _ =>
  }

  lemma OneChanges(s: State, j: nat, r: Run, i: nat)
    requires j < |s.runs| && i < |s.runs| && SameWork(s.runs[j], r)
    requires s.runs[j].stopped ==> SameRequest(s.runs[j], r)
    ensures |With(s, j, r).runs| == |s.runs| && SameWork(s.runs[i], With(s, j, r).runs[i])
    ensures s.runs[i].stopped ==> SameRequest(s.runs[i], With(s, j, r).runs[i])
  {
  }

  lemma SettlingStep(s: State, j: nat, late: bool, i: nat)
    requires j < |s.runs| && i < |s.runs|
    ensures |OnSettled(s, j, late).runs| == |s.runs| && SameWork(s.runs[i], OnSettled(s, j, late).runs[i])
  {
  }

  // ---- the lock is always freed ---------------------------------------------------------

  /** The callback of a run that is certain to come: its work resumes, its child's
      stdout ends, or the child closes. */
  predicate IsOwn(e: Event, i: nat) {
    (e.Resume? || e.StdoutEnd? || e.Close?) && e.i == i
  }

  /** As long as a scan holds the lock one of its own callbacks is due. */
  lemma ACallbackIsDue(s: State, i: nat)
    requires Inv(s) && i < |s.runs| && IsLive(s, i)
    ensures exists e :: Enabled(s, e) && IsOwn(e, i)
  {
    OneRun(s, i);
    var r := s.runs[i];
    if r.work != Quiet {
      assert Enabled(s, Resume(i, true)) && IsOwn(Resume(i, true), i);
    } else if !r.stdoutEnded {
      assert Enabled(s, StdoutEnd(i, true)) && IsOwn(StdoutEnd(i, true), i);
    } else {
      assert Enabled(s, Close(i)) && IsOwn(Close(i), i);
    }
  }

  /** Each of them leaves one fewer of at most seven, and nothing else adds any. */
  lemma EachCallbackLeavesFewer(s: State, e: Event, i: nat)
    requires Inv(s) && Enabled(s, e) && i < |s.runs| && IsLive(s, i)
    ensures i < |Step(s, e).runs| && Left(Step(s, e).runs[i]) <= Left(s.runs[i]) <= 7
    ensures IsOwn(e, i) ==> Left(Step(s, e).runs[i]) < Left(s.runs[i])
  {
    hide Inv, OnResume, OnStdoutEnd, OnClose, OnSettled, End, With, WorkLeft;
    OneRun(s, i);
    LeftAtMostSeven(s.runs[i]);
    match e
    case Resume(j, ok) => ResumeMoves(s, j, ok, i);
    case StdoutEnd(j, parses) => StdoutEndMoves(s, j, parses, i);
    case Close(j) => CloseMoves(s, j, i);
    case ChildError(j) => ErrorMoves(s, j, i);
    case _ => OtherSteps(s, e, i);
  }

  /** How many of these events are run i's own callbacks. */
  function OwnCallbacks(events: seq<Event>, i: nat): nat {
    if events == [] then 0
    else OwnCallbacks(events[..|events| - 1], i) + if IsOwn(events[|events| - 1], i) then 1 else 0
  }

  /** While a scan holds the lock it has a callback left. */
  lemma HolderHasOneLeft(s: State, i: nat)
    requires Inv(s) && i < |s.runs|
    ensures s.runs[i].releases == 1 || (s.runs[i].releases == 0 && IsLive(s, i) && Left(s.runs[i]) >= 1)
  {
    OneRun(s, i);
  }

  /** From a state in which a scan holds the lock, it is freed or its callbacks count down. */
  lemma {:induction false} CallbacksCountDown(states: seq<State>, events: seq<Event>, k: nat, m: nat, i: nat)
    requires IsHistory(states, events) && k <= m < |states| && i < |states[k].runs| && IsLive(states[k], i)
    ensures i < |states[m].runs|
    ensures states[m].runs[i].releases == 1 || OwnCallbacks(events[k..m], i) + Left(states[m].runs[i]) <= 7
    decreases m - k
  {
    hide Step, Enabled, Inv, Left;
    EveryHistoryIsSafe(states, events, k);
    if m == k {
      LeftAtMostSeven(states[k].runs[i]);
    } else {
      var before := states[m - 1];
      var e := events[m - 1];
      EveryHistoryIsSafe(states, events, m - 1);
      EveryHistoryIsSafe(states, events, m);
      CallbacksCountDown(states, events, k, m - 1, i);
      NeverFreedLess(before, e, i);
      HolderHasOneLeft(before, i);
      HolderHasOneLeft(states[m], i);
      if states[m].runs[i].releases == 0 {
        EachCallbackLeavesFewer(before, e, i);
        assert events[k..m][..m - k - 1] == events[k..m - 1];
      }
    }
  }

  lemma LeftAtMostSeven(r: Run)
    ensures Left(r) <= 7
  {
  }

  /** Over any history: seven of its own callbacks after a scan held the lock, it has freed it. */
  lemma SevenCallbacksFreeTheLock(states: seq<State>, events: seq<Event>, k: nat, m: nat, i: nat)
    requires IsHistory(states, events) && k <= m < |states| && i < |states[k].runs| && IsLive(states[k], i)
    requires OwnCallbacks(events[k..m], i) >= 7
    ensures i < |states[m].runs| && states[m].runs[i].releases == 1 && states[m].runs[i].work == Over
  {
    hide Step, Enabled, Inv, Left;
    CallbacksCountDown(states, events, k, m, i);
    EveryHistoryIsSafe(states, events, m);
    HolderHasOneLeft(states[m], i);
    OneRun(states[m], i);
  }

  // ---- what a callback leaves behind -------------------------------------------------------

  /** The lock is free after run i, which has freed it once and left no temp file; it is
      reported, or it was stopped and its stop is answered. */
  ghost predicate FreedBy(s: State, i: nat) {
    && !s.running && !s.vulnsTemp && !s.pathsTemp
    && i < |s.runs| && s.runs[i].releases == 1 && s.runs[i].work == Over
    && (s.runs[i].reports == 1 || (s.runs[i].stopped && s.runs[i].stopsAnswered == 1))
  }

  /** The last file operation of a scan frees the lock, and no other does. */
  lemma LastResumeFrees(s: State, i: nat, ok: bool)
    requires Inv(s) && Enabled(s, Resume(i, ok))
    ensures IsLive(s, i) && i < |OnResume(s, i, ok).runs|
    ensures if IsSaving(s.runs[i].work) then
              OnResume(s, i, ok).running && OnResume(s, i, ok).runs[i].releases == 0
            else FreedBy(OnResume(s, i, ok), i)
  {
    WriterIsLive(s, i);
    OneRun(s, i);
    if IsSaving(s.runs[i].work) {
      SavingHolds(s, i, ok);
    } else {
      StepKeepsInv(s, Resume(i, ok));
      LastFrees(s, i);
      TempsAreTheHolders(OnLast(s, i));
      OneRun(OnLast(s, i), i);
    }
  }

  lemma SavingHolds(s: State, i: nat, ok: bool)
    requires i < |s.runs| && s.running && s.runs[i].releases == 0 && IsSaving(s.runs[i].work)
    ensures OnSaving(s, i, ok).running && i < |OnSaving(s, i, ok).runs| && OnSaving(s, i, ok).runs[i].releases == 0
  {
  }

  lemma LastFrees(s: State, i: nat)
    requires i < |s.runs| && s.runs[i].work in {Archiving, Discarding(true), Discarding(false), StopDiscarding}
    ensures !OnLast(s, i).running && i < |OnLast(s, i).runs|
  {
    hide Freed, Told;
  }

  lemma TempsAreTheHolders(s: State)
    requires Inv(s) && !s.running
    ensures !s.vulnsTemp && !s.pathsTemp
  {
  }

  lemma ClosedIsBusy(s: State, i: nat)
    requires Inv(s) && Enabled(s, Close(i))
    ensures i < |s.runs| && Step(s, Close(i)) == OnClose(s, i) && Inv(OnClose(s, i))
    ensures i < |OnClose(s, i).runs| && OnClose(s, i).runs[i].exited && OnClose(s, i).runs[i].work != Quiet
    ensures OnClose(s, i).runs[i].closeWaits == OnClose(s, i).runs[i].completion
    ensures IsLive(OnClose(s, i), i) ==> OnClose(s, i).runs[i].work != Over
  {
    hide OnClose, Inv;
    CloseKeepsInv(s, i);
    OneRun(s, i);
    ClosedRun(s, i);
    OneRun(OnClose(s, i), i);
  }

  lemma ClosedRun(s: State, i: nat)
    requires i < |s.runs| && (s.runs[i].closeWaits ==> s.runs[i].completion)
    ensures i < |OnClose(s, i).runs| && OnClose(s, i).runs[i].exited
    ensures OnClose(s, i).runs[i].closeWaits == OnClose(s, i).runs[i].completion
  {
  }

  /** The scan a stop request would ask is the one that holds the lock. */
  lemma StopIsOfTheLast(s: State)
    requires Inv(s)
    ensures s.stopRunning == if s.running then Some(|s.runs| - 1) else None
    ensures s.running ==> |s.runs| > 0 && RunInv(s.runs[|s.runs| - 1], true)
  {
    hide RunInv, TempsInv;
    if s.running {
      OneRun(s, |s.runs| - 1);
    }
  }

  lemma StdoutEndTakesIn(s: State, i: nat, parses: bool)
    requires Inv(s) && Enabled(s, StdoutEnd(i, parses))
    ensures i < |s.runs| && Step(s, StdoutEnd(i, parses)) == OnStdoutEnd(s, i, parses)
    ensures Inv(OnStdoutEnd(s, i, parses)) && i < |OnStdoutEnd(s, i, parses).runs|
    ensures var r := OnStdoutEnd(s, i, parses).runs[i];
            && !IsWriting(r) && r.work != Archiving
            && (r.completion ==> !r.stopped && !r.timedOut && r.hasOutput)
  {
    hide Inv, RunInv, End, IsLive;
    StdoutEndKeepsInv(s, i, parses);
    OneRun(s, i);
    BeforeOutput(s.runs[i], IsLive(s, i));
    EndIs(s, i, s.runs[i].(stdoutEnded := true, completion := true), false);
  }

  lemma BeforeOutput(r: Run, live: bool)
    requires RunInv(r, live) && !r.stdoutEnded
    ensures !r.completion && !IsWriting(r) && r.work != Archiving
  {
  }

  lemma SettlingAnswers(s: State, i: nat, late: bool)
    requires Inv(s) && Enabled(s, CompletionSettles(i, late))
    ensures Inv(OnSettled(s, i, late)) && i < |OnSettled(s, i, late).runs|
    ensures var r := OnSettled(s, i, late).runs[i]; IsSettled(r) && (r.stopped ==> r.stopsAnswered == 1)
  {
    hide Inv;
    SettledKeepsInv(s, i, late);
    OneRun(s, i);
  }

  lemma LateRecords(s: State, i: nat, late: bool)
    requires Enabled(s, CompletionSettles(i, late))
    ensures i < |s.runs| && Step(s, CompletionSettles(i, late)) == OnSettled(s, i, late)
    ensures OnSettled(s, i, late)
            == OnSettled(s, i, false).(exclusive := s.exclusive || (s.runs[i].saved && late && !s.running))
    ensures i < |OnSettled(s, i, late).runs| && OnSettled(s, i, late).runs[i].saved == s.runs[i].saved
    ensures OnSettled(s, i, late).running == s.running
  {
  }

  /** While no scan holds the lock none writes. */
  lemma NobodyWrites(s: State)
    requires Inv(s) && !s.running
    ensures forall i: nat | i < |s.runs| :: !IsWriting(s.runs[i])
  {
    forall i: nat | i < |s.runs| ensures !IsWriting(s.runs[i]) {
      OneRun(s, i);
    }
  }

  // ---- stop requests -----------------------------------------------------------------------

  /** Nothing of the run is left to happen. */
  predicate IsSettled(r: Run) {
    r.work == Over && r.exited && !r.closeWaits
  }

  /** What stays true of a run from the moment it is asked to stop, given whether
      `complete` had been called by then and whether the scan had ended. */
  ghost predicate Asked(r: Run, promised: bool, ended: bool) {
    && r.stopped && r.completion == promised
    && (!promised ==>
          if ended || r.failedToStart then
            r.ended && r.stopsAnswered == 0 && (r.work.Discarding? || r.work == Over)
          else
            (r.work == Quiet && !r.ended) || r.work == StopDiscarding || (r.work == Over && r.stopsAnswered == 1))
  }

  /** As far as stop requests go the run is as before, up to its work. */
  ghost predicate SameRequest(r: Run, r': Run) {
    && r'.stopped == r.stopped && r'.completion == r.completion && r'.failedToStart == r.failedToStart
    && r'.stopsAnswered == r.stopsAnswered
  }

  lemma FinishRuns(s: State, j: nat, i: nat)
    requires i < |s.runs| && j < |s.runs|
    ensures i < |Finish(s, j).runs| && SameRequest(s.runs[i], Finish(s, j).runs[i])
    ensures Finish(s, j).runs[i].ended == s.runs[i].ended
    ensures Finish(s, j).runs[i].work == if i == j then Over else s.runs[i].work
  {
    hide Finish;
    FinishedRun(s, j, i);
  }

  lemma EndRuns(s: State, j: nat, ok: bool, discard: bool, i: nat)
    requires i < |s.runs| && j < |s.runs|
    ensures i < |End(s, j, ok, discard).runs| && SameRequest(s.runs[i], End(s, j, ok, discard).runs[i])
    ensures End(s, j, ok, discard).runs[i].ended == (i == j || s.runs[i].ended)
    ensures End(s, j, ok, discard).runs[i].work
            == if i != j then s.runs[i].work else if discard then Discarding(ok) else Over
  {
    hide Finish;
    if !discard {
      FinishRuns(With(s, j, s.runs[j].(ended := true)), j, i);
    }
  }

  /** A resumed file operation keeps what a stop request left behind. */
  lemma SavingKeepsAsked(s: State, j: nat, ok: bool, i: nat, promised: bool, ended: bool)
    requires i < |s.runs| && j < |s.runs| && IsSaving(s.runs[j].work) && Asked(s.runs[i], promised, ended)
    ensures i < |OnSaving(s, j, ok).runs| && Asked(OnSaving(s, j, ok).runs[i], promised, ended)
  {
    hide End, Asked;
    var w := s.runs[j].work;
    if !ok {
      EndRuns(s, j, w == MovingVulns || w == MovingPaths, true, i);
    }
    if i == j {
      SavingIsPromised(s.runs[i], promised, ended);
    }
    StillAsked(s.runs[i], OnSaving(s, j, ok).runs[i], promised, ended);
  }

  lemma SavingIsPromised(r: Run, promised: bool, ended: bool)
    requires IsSaving(r.work) && Asked(r, promised, ended)
    ensures promised
  {
  }

  lemma StillAsked(r: Run, r': Run, promised: bool, ended: bool)
    requires Asked(r, promised, ended) && SameRequest(r, r')
    requires promised || (r'.ended == r.ended && r'.work == r.work)
    ensures Asked(r', promised, ended)
  {
  }

  lemma ArchivedKeepsAsked(s: State, j: nat, i: nat, promised: bool, ended: bool)
    requires i < |s.runs| && j < |s.runs| && s.runs[j].work == Archiving && Asked(s.runs[i], promised, ended)
    ensures i < |OnLast(s, j).runs| && Asked(OnLast(s, j).runs[i], promised, ended)
  {
    hide End;
    EndRuns(With(s, j, s.runs[j].(saved := true)), j, true, false, i);
  }

  lemma DiscardedKeepsAsked(s: State, j: nat, i: nat, promised: bool, ended: bool)
    requires i < |s.runs| && j < |s.runs| && s.runs[j].work.Discarding? && Asked(s.runs[i], promised, ended)
    ensures i < |OnLast(s, j).runs| && Asked(OnLast(s, j).runs[i], promised, ended)
  {
    hide Finish;
    FinishRuns(s.(vulnsTemp := false, pathsTemp := false), j, i);
  }

  lemma ResumeKeepsAsked(s: State, j: nat, ok: bool, i: nat, promised: bool, ended: bool)
    requires Inv(s) && Enabled(s, Resume(j, ok)) && i < |s.runs| && Asked(s.runs[i], promised, ended)
    ensures i < |OnResume(s, j, ok).runs| && Asked(OnResume(s, j, ok).runs[i], promised, ended)
  {
    hide OnSaving, Asked, Inv, OnLast;
    if IsSaving(s.runs[j].work) {
      SavingKeepsAsked(s, j, ok, i, promised, ended);
    } else if s.runs[j].work == Archiving {
      ArchivedKeepsAsked(s, j, i, promised, ended);
    } else if s.runs[j].work.Discarding? {
      DiscardedKeepsAsked(s, j, i, promised, ended);
    } else {
      StoppedKeepsAsked(s, j, i, promised, ended);
    }
  }

  lemma StoppedKeepsAsked(s: State, j: nat, i: nat, promised: bool, ended: bool)
    requires Inv(s) && i < |s.runs| && j < |s.runs| && s.runs[j].work == StopDiscarding
    requires Asked(s.runs[i], promised, ended)
    ensures i < |OnLast(s, j).runs| && Asked(OnLast(s, j).runs[i], promised, ended)
  {
    OneRun(s, i);
  }

  lemma StdoutEndKeepsAsked(s: State, j: nat, parses: bool, i: nat, promised: bool, ended: bool)
    requires Inv(s) && Enabled(s, StdoutEnd(j, parses)) && i < |s.runs| && Asked(s.runs[i], promised, ended)
    ensures i < |OnStdoutEnd(s, j, parses).runs| && Asked(OnStdoutEnd(s, j, parses).runs[i], promised, ended)
  {
    hide Inv, End;
    OneRun(s, i);
    EndRuns(With(s, j, s.runs[j].(stdoutEnded := true, completion := true)), j, false, true, i);
  }

  lemma CloseKeepsAsked(s: State, j: nat, i: nat, promised: bool, ended: bool)
    requires Inv(s) && Enabled(s, Close(j)) && i < |s.runs| && Asked(s.runs[i], promised, ended)
    ensures i < |OnClose(s, j).runs| && Asked(OnClose(s, j).runs[i], promised, ended)
  {
    OneRun(s, i);
    EndRuns(With(s, j, s.runs[j].(exited := true)), j, false, true, i);
  }

  lemma ErrorKeepsAsked(s: State, j: nat, i: nat, promised: bool, ended: bool)
    requires Inv(s) && Enabled(s, ChildError(j)) && i < |s.runs| && Asked(s.runs[i], promised, ended)
    ensures i < |Step(s, ChildError(j)).runs| && Asked(Step(s, ChildError(j)).runs[i], promised, ended)
  {
    hide Inv, End;
    OneRun(s, i);
    EndRuns(With(s, j, s.runs[j].(failedToStart := true)), j, false, true, i);
  }

  lemma StepKeepsAsked(s: State, e: Event, i: nat, promised: bool, ended: bool)
    requires Inv(s) && Enabled(s, e) && i < |s.runs| && Asked(s.runs[i], promised, ended)
    ensures i < |Step(s, e).runs| && Asked(Step(s, e).runs[i], promised, ended)
  {
    hide Inv, OnResume, OnStdoutEnd, OnClose, OnSettled, End, With;
    match e
    case Resume(j, ok) => ResumeKeepsAsked(s, j, ok, i, promised, ended);
    case StdoutEnd(j, parses) => StdoutEndKeepsAsked(s, j, parses, i, promised, ended);
    case Close(j) => CloseKeepsAsked(s, j, i, promised, ended);
    case ChildError(j) => ErrorKeepsAsked(s, j, i, promised, ended);
    case CompletionSettles(j, late) => SettlingKeepsAsked(s, j, late, i, promised, ended);
    case _ =>
      OtherSteps(s, e, i);
      StillAsked(s.runs[i], Step(s, e).runs[i], promised, ended);
  }

  lemma SettlingKeepsAsked(s: State, j: nat, late: bool, i: nat, promised: bool, ended: bool)
    requires Inv(s) && Enabled(s, CompletionSettles(j, late)) && i < |s.runs| && Asked(s.runs[i], promised, ended)
    ensures i < |OnSettled(s, j, late).runs| && Asked(OnSettled(s, j, late).runs[i], promised, ended)
  {
    hide Inv;
    OneRun(s, i);
  }

  /** Only the scan that holds the lock is asked, and that is how its history goes on. */
  lemma StopAsks(s: State, i: nat)
    requires Inv(s) && Enabled(s, Stop) && i < |s.runs| && !s.runs[i].stopped && Step(s, Stop).runs[i].stopped
    ensures Asked(Step(s, Stop).runs[i], s.runs[i].completion, s.runs[i].ended)
  {
    OneRun(s, i);
  }

  lemma {:induction false} AskedFromThenOn(states: seq<State>, events: seq<Event>, k: nat, m: nat, i: nat,
                                           promised: bool, ended: bool)
    requires IsHistory(states, events) && k <= m < |states|
    requires i < |states[k].runs| && Asked(states[k].runs[i], promised, ended)
    ensures i < |states[m].runs| && Asked(states[m].runs[i], promised, ended)
    decreases m - k
  {
    hide Step, Enabled, Inv, Asked;
    if m > k {
      AskedFromThenOn(states, events, k, m - 1, i, promised, ended);
      EveryHistoryIsSafe(states, events, m - 1);
      StepKeepsAsked(states[m - 1], events[m - 1], i, promised, ended);
    }
  }

  /** A stop request is answered exactly when, at the time it is made, the output is
      already being taken in, or the scan has not ended and its child does not fail to
      start afterwards: one made while a failed scan cleans up is never answered. */
  lemma StopIsAnsweredExactlyWhen(states: seq<State>, events: seq<Event>, k: nat, m: nat, i: nat)
    requires IsHistory(states, events) && k < m < |states| && i < |states[k].runs| && events[k] == Stop
    requires !states[k].runs[i].stopped && i < |states[k + 1].runs| && states[k + 1].runs[i].stopped
    requires i < |states[m].runs| && IsSettled(states[m].runs[i])
    ensures states[m].runs[i].stopsAnswered == 1
            <==> states[k].runs[i].completion || (!states[k].runs[i].ended && !states[m].runs[i].failedToStart)
  {
    hide Step, Enabled, Inv;
    var r := states[k].runs[i];
    EveryHistoryIsSafe(states, events, k);
    StopAsks(states[k], i);
    AskedFromThenOn(states, events, k + 1, m, i, r.completion, r.ended);
    EveryHistoryIsSafe(states, events, m);
    OneRun(states[m], i);
  }

  /** The scanner exits without output, a manual scan asks for a stop while the temp
      files are being removed, and the request is never answered. */
  function LostEvent(k: nat): Event {
    match k
    case 0 => Start(false)
    case 1 => StdoutEnd(0, true)
    case 2 => Close(0)
    case 3 => Stop
    case _ => Resume(0, true)
  }

  function LostRun(k: nat): Run
    requires 1 <= k
  {
    match k
    case 1 => FRESH
    case 2 => FRESH.(stdoutEnded := true)
    case 3 => FRESH.(stdoutEnded := true, exited := true, ended := true, work := Discarding(false))
    case 4 => LostRun(3).(stopped := true, stopsAsked := 1)
    case _ => LostRun(4).(work := Over, releases := 1, reports := 1)
  }

  function LostState(k: nat): State {
    if k == 0 then IDLE
    else if k < 5 then State([LostRun(k)], true, false, Some(0), Some(0), false, false)
    else State([LostRun(k)], false, false, None, None, false, false)
  }

  lemma LostStep(k: nat)
    requires k < 5
    ensures Enabled(LostState(k), LostEvent(k)) && Step(LostState(k), LostEvent(k)) == LostState(k + 1)
  {
    hide Finish;
    if k == 4 {
      LastLostStep();
    }
  }

  lemma LastLostStep()
    ensures Enabled(LostState(4), LostEvent(4)) && Step(LostState(4), LostEvent(4)) == LostState(5)
  {
    hide Finish;
    FinishIs(LostState(4), 0);
    assert [LostRun(4)][0 := LostRun(5)] == [LostRun(5)];
  }

  lemma AStopCanBeLost()
    ensures exists states: seq<State>, events: seq<Event> ::
              && IsHistory(states, events) && |events| == 5 && |states[5].runs| == 1
              && var r := states[5].runs[0]; IsSettled(r) && r.stopped && r.stopsAnswered == 0
  {
    hide Step, Enabled;
    var states, events := seq(6, (k: nat) => LostState(k)), seq(5, (k: nat) => LostEvent(k));
    assert IsHistory(states, events) by {
      forall k: nat | k < 5 ensures Enabled(states[k], events[k]) && states[k + 1] == Step(states[k], events[k]) {
        LostStep(k);
      }
    }
  }
}

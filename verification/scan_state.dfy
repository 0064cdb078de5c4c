/** The scan lock's state and the callbacks that change it: `plugin/server/scan.ts`.
    Each Node callback, and each stretch of code between two awaits, is one step. */
module ScanState {
  import opened Wrappers

  /** What a scan waits for: nothing, a file operation of `complete`, or a clean-up. */
  datatype Work = Quiet | Reading | WritingGraph | MovingVulns | MovingPaths | Archiving
                | Discarding(ok: bool) | StopDiscarding | Over

  /** The variables one call of `startScan` closes over. `completion` says that the
      promise was made; `closeWaits` that the close callback is awaiting it. The
      counters are how often the lock was freed for this scan, onDone called, and a
      stop request made and answered. */
  datatype Run = Run(manual: bool, hasOutput: bool, stdoutEnded: bool, failedToStart: bool, timedOut: bool,
                     stopped: bool,
                     exited: bool, ended: bool, completion: bool, closeWaits: bool, saved: bool, work: Work,
                     releases: nat, reports: nat, stopsAsked: nat, stopsAnswered: nat)

  const FRESH := Run(false, false, false, false, false, false, false, false, false, false, false, Quiet, 0, 0, 0, 0)

  /** The module's variables, and the two temp files every scan names alike. */
  datatype State = State(runs: seq<Run>, running: bool, exclusive: bool, stopRunning: Option<nat>, onDone: Option<nat>,
                         vulnsTemp: bool, pathsTemp: bool)

  const IDLE := State([], false, false, None, None, false, false)

  datatype Event =
    | Start(asked: bool)
    | TempsAppear(i: nat, vulns: bool, paths: bool)
    | Data(i: nat)
    | StdoutEnd(i: nat, parses: bool)
    | ChildError(i: nat)
    | Timeout(i: nat)
    | Close(i: nat)
    | Stop
    | Resume(i: nat, ok: bool)
    | CompletionSettles(i: nat, lateRecords: bool)
    | TaskStarts
    | TaskEnds

  function With(s: State, i: nat, r: Run): State
    requires i < |s.runs|
  {
    s.(runs := s.runs[i := r])
  }

  function Freed(r: Run): Run {
    r.(work := Over, releases := r.releases + 1)
  }

  function Told(r: Run): Run {
    r.(reports := r.reports + 1)
  }

  /** `finish`: the lock is free, then onDone hears of it. */
  function Finish(s: State, i: nat): State
    requires i < |s.runs|
  {
    var freed := With(s, i, Freed(s.runs[i])).(stopRunning := None, running := false, onDone := None);
    if s.onDone.Some? && s.onDone.value < |s.runs| then
      With(freed, s.onDone.value, Told(freed.runs[s.onDone.value]))
    else freed
  }

  /** `end`: mark the scan ended and clean up, or finish at once. */
  function End(s: State, i: nat, ok: bool, discard: bool): State
    requires i < |s.runs|
  {
    var r := s.runs[i].(ended := true);
    if discard then With(s, i, r.(work := Discarding(ok))) else Finish(With(s, i, r), i)
  }

  /** When each step can happen. A child reports an error only before any output; its
      stdout ends once; close follows the end of stdout or an error; the timer runs
      until close or error; one stop request is outstanding at a time. */
  predicate Enabled(s: State, e: Event) {
    match e
    case Start(_) => true
    case TempsAppear(i, _, _) => i < |s.runs| && !s.runs[i].stdoutEnded && !s.runs[i].exited && !s.runs[i].failedToStart
    case Data(i) => i < |s.runs| && !s.runs[i].stdoutEnded && !s.runs[i].exited && !s.runs[i].failedToStart
    case StdoutEnd(i, _) => i < |s.runs| && !s.runs[i].stdoutEnded && !s.runs[i].exited
    case ChildError(i) => i < |s.runs| && !s.runs[i].hasOutput && !s.runs[i].exited && !s.runs[i].failedToStart
                          && !s.runs[i].stdoutEnded
    case Timeout(i) => i < |s.runs| && !s.runs[i].exited && !s.runs[i].failedToStart && !s.runs[i].timedOut
    case Close(i) => i < |s.runs| && !s.runs[i].exited && (s.runs[i].stdoutEnded || s.runs[i].failedToStart)
    case Stop => s.stopRunning.Some? && s.stopRunning.value < |s.runs| ==>
                   s.runs[s.stopRunning.value].stopsAsked == s.runs[s.stopRunning.value].stopsAnswered
    case Resume(i, _) => i < |s.runs| && s.runs[i].work != Quiet && s.runs[i].work != Over
    case CompletionSettles(i, _) => i < |s.runs| && s.runs[i].closeWaits && s.runs[i].work == Over
    case TaskStarts => true
    case TaskEnds => s.exclusive
  }

  function OnStdoutEnd(s: State, i: nat, parses: bool): State
    requires i < |s.runs|
  {
    var r := s.runs[i].(stdoutEnded := true);
    if r.ended || r.timedOut || r.stopped || !r.hasOutput then With(s, i, r)
    else
      var r' := r.(completion := true);
      if parses then With(s, i, r'.(work := Reading)) else End(With(s, i, r'), i, false, true)
  }

  function OnClose(s: State, i: nat): State
    requires i < |s.runs|
  {
    var r := s.runs[i].(exited := true);
    if r.completion then With(s, i, r.(closeWaits := true))
    else if r.stopped && !r.ended then With(s, i, r.(ended := true, work := StopDiscarding))
    else if r.ended then With(s, i, r)
    else End(With(s, i, r), i, false, true)
  }

  /** `complete` is reading the old graph or putting the new files in place. */
  predicate IsSaving(w: Work) {
    w == Reading || w == WritingGraph || w == MovingVulns || w == MovingPaths
  }

  /** What `complete` does next when that worked. */
  function After(w: Work): Work
    requires IsSaving(w)
  {
    match w
    case Reading => WritingGraph
    case WritingGraph => MovingVulns
    case MovingVulns => MovingPaths
    case MovingPaths => Archiving
  }

  /** The code after each await of `complete`: once the graph is saved, a failure only
      leaves the other two files stale. */
  function OnSaving(s: State, i: nat, ok: bool): State
    requires i < |s.runs| && IsSaving(s.runs[i].work)
  {
    var w := s.runs[i].work;
    if ok then
      With(s, i, s.runs[i].(work := After(w)))
        .(vulnsTemp := s.vulnsTemp && w != MovingVulns, pathsTemp := s.pathsTemp && w != MovingPaths)
    else End(s, i, w == MovingVulns || w == MovingPaths, true)
  }

  /** The last code of a scan, that frees the lock. */
  function OnLast(s: State, i: nat): State
    requires i < |s.runs|
  {
    var r := s.runs[i];
    match r.work
    case Archiving => End(With(s, i, r.(saved := true)), i, true, false)
    case Discarding(_) => Finish(s.(vulnsTemp := false, pathsTemp := false), i)
    case StopDiscarding =>
      With(s, i, r.(work := Over, releases := r.releases + 1, stopsAnswered := r.stopsAsked))
        .(vulnsTemp := false, pathsTemp := false, stopRunning := None, onDone := None, running := false)
    case _ => s
  }

  function OnResume(s: State, i: nat, ok: bool): State
    requires i < |s.runs|
  {
    if IsSaving(s.runs[i].work) then OnSaving(s, i, ok) else OnLast(s, i)
  }

  /** The close callback once completion has settled: a stop is answered, and records
      that arrived late are rescored if the lock is free. */
  function OnSettled(s: State, i: nat, lateRecords: bool): State
    requires i < |s.runs|
  {
    var r := s.runs[i].(closeWaits := false);
    var answered := if r.stopped then r.(stopsAnswered := r.stopsAsked) else r;
    var s' := With(s, i, answered);
    if r.saved && lateRecords && !s.running && !s.exclusive then s'.(exclusive := true) else s'
  }

  function Step(s: State, e: Event): State
    requires Enabled(s, e)
  {
    match e
    case Start(asked) =>
      if s.running || s.exclusive then s
      else s.(runs := s.runs + [FRESH.(manual := asked)], running := true, stopRunning := Some(|s.runs|),
              onDone := Some(|s.runs|))
    case TempsAppear(i, v, p) => s.(vulnsTemp := s.vulnsTemp || v, pathsTemp := s.pathsTemp || p)
    case Data(i) => With(s, i, s.runs[i].(hasOutput := true))
    case StdoutEnd(i, parses) => OnStdoutEnd(s, i, parses)
    case ChildError(i) =>
      var r := s.runs[i].(failedToStart := true);
      if r.ended then With(s, i, r) else End(With(s, i, r), i, false, true)
    case Timeout(i) => With(s, i, s.runs[i].(timedOut := true))
    case Close(i) => OnClose(s, i)
    case Stop =>
      if s.running && s.stopRunning.Some? && s.stopRunning.value < |s.runs| && !s.runs[s.stopRunning.value].manual then
        var i := s.stopRunning.value;
        With(s, i, s.runs[i].(stopped := true, stopsAsked := s.runs[i].stopsAsked + 1))
      else s
    case Resume(i, ok) => OnResume(s, i, ok)
    case CompletionSettles(i, late) => OnSettled(s, i, late)
    case TaskStarts => if s.running || s.exclusive then s else s.(exclusive := true)
    case TaskEnds => s.(exclusive := false)
  }
}

/** The module of `scan.ts` with its callbacks: its variables are the fields, one record
    for what each call of `startScan` closes over. Each callback is a step of the protocol
    in ScanState, keeps the lock's invariant, and says what it leaves behind. */
module ScanServer {
  import opened ScanProperties
  import opened ScanState
  import opened Wrappers

  class Server {
    var runs: seq<Run>
    var running: bool
    var exclusive: bool
    var stopRunning: Option<nat>
    var onDone: Option<nat>
    var vulnsTemp: bool
    var pathsTemp: bool

    ghost function View(): State
      reads this
    {
      State(runs, running, exclusive, stopRunning, onDone, vulnsTemp, pathsTemp)
    }

    constructor ()
      ensures View() == IDLE && Inv(View())
    {
      runs, running, exclusive, stopRunning, onDone, vulnsTemp, pathsTemp := [], false, false, None, None, false, false;
    }

    /** `startScan`: false when a scan or a task holds the lock; otherwise the new scan
        holds it, and the temp files it will name have no leftovers. */
    method StartScan(asked: bool) returns (started: bool)
      requires Inv(View())
      modifies this
      ensures View() == Step(old(View()), Start(asked)) && Inv(View())
      ensures started <==> !old(running) && !old(exclusive)
      ensures started ==> |runs| == |old(runs)| + 1 && IsLive(View(), |runs| - 1) && runs[|runs| - 1].manual == asked
      ensures started ==> !exclusive && !vulnsTemp && !pathsTemp
    {
      hide Inv;
      StepKeepsInv(View(), Start(asked));
      if !running {
        TempsAreTheHolders(View());
      }
      if running || exclusive {
        return false;
      }
      running := true;
      stopRunning, onDone := Some(|runs|), Some(|runs|);
      runs := runs + [FRESH.(manual := asked)];
      return true;
    }

    /** `runExclusive`: false when refused; a task that runs has the lock to itself. */
    method RunExclusive() returns (taken: bool)
      requires Inv(View())
      modifies `exclusive
      ensures View() == Step(old(View()), TaskStarts) && Inv(View())
      ensures taken <==> !old(running) && !old(exclusive)
      ensures taken ==> exclusive && !running
      ensures forall i | 0 <= i < |runs| :: taken ==> !IsWriting(runs[i])
    {
      hide Inv;
      StepKeepsInv(View(), TaskStarts);
      if !running {
        NobodyWrites(View());
      }
      if running || exclusive {
        return false;
      }
      exclusive := true;
      return true;
    }

    method TaskDone()
      requires Inv(View()) && exclusive
      modifies this
      ensures View() == Step(old(View()), TaskEnds) && Inv(View())
      ensures !running && !exclusive
    {
      hide RunInv, TempsInv, IsLive;
      StepKeepsInv(View(), TaskEnds);
      exclusive := false;
    }

    /** `stopBackgroundScan`: asks exactly the running scan, and never a manual one. */
    method StopBackgroundScan() returns (asked: bool)
      requires Inv(View()) && Enabled(View(), Stop)
      modifies this
      ensures View() == Step(old(View()), Stop) && Inv(View())
      ensures running == old(running) && |runs| == |old(runs)|
      ensures asked <==> running && |runs| > 0 && !old(runs)[|runs| - 1].manual
      ensures asked ==> Asked(runs[|runs| - 1], old(runs)[|runs| - 1].completion, old(runs)[|runs| - 1].ended)
    {
      hide Inv, TempsInv;
      StepKeepsInv(View(), Stop);
      StopIsOfTheLast(View());
      if !running || stopRunning.None? || runs[stopRunning.value].manual {
        return false;
      }
      var i := stopRunning.value;
      runs := runs[i := runs[i].(stopped := true, stopsAsked := runs[i].stopsAsked + 1)];
      return true;
    }

    method DataArrived(i: nat)
      requires Inv(View()) && Enabled(View(), Data(i))
      modifies this
      ensures View() == Step(old(View()), Data(i)) && Inv(View())
    {
      hide Inv;
      StepKeepsInv(View(), Data(i));
      runs := runs[i := runs[i].(hasOutput := true)];
    }

    method TimedOut(i: nat)
      requires Inv(View()) && Enabled(View(), Timeout(i))
      modifies this
      ensures View() == Step(old(View()), Timeout(i)) && Inv(View())
    {
      hide Inv;
      StepKeepsInv(View(), Timeout(i));
      runs := runs[i := runs[i].(timedOut := true)];
    }

    /** `finish`. */
    method FinishScan(i: nat)
      requires i < |runs|
      modifies this
      ensures View() == Finish(old(View()), i)
    {
      stopRunning, running := None, false;
      runs := runs[i := runs[i].(work := Over, releases := runs[i].releases + 1)];
      var done := onDone;
      onDone := None;
      if done.Some? && done.value < |runs| {
        runs := runs[done.value := runs[done.value].(reports := runs[done.value].reports + 1)];
      }
    }

    /** `end`, up to its await. */
    method EndScan(i: nat, ok: bool, discard: bool)
      requires i < |runs|
      modifies this
      ensures View() == End(old(View()), i, ok, discard)
    {
      hide Finish;
      var r := runs[i].(ended := true);
      if discard {
        runs := runs[i := r.(work := Discarding(ok))];
      } else {
        runs := runs[i := r];
        FinishScan(i);
      }
    }

    /** The output is complete: it is taken in unless the scan has ended, timed out or
        been stopped, and no file is written yet. */
    method StdoutEnded(i: nat, parses: bool)
      requires Inv(View()) && Enabled(View(), StdoutEnd(i, parses))
      modifies this
      ensures View() == Step(old(View()), StdoutEnd(i, parses)) && Inv(View())
      ensures i < |runs| && !IsWriting(runs[i]) && runs[i].work != Archiving
      ensures runs[i].completion ==> !runs[i].stopped && !runs[i].timedOut && runs[i].hasOutput
    {
      hide Inv, Step, Enabled, OnStdoutEnd, IsWriting;
      StdoutEndTakesIn(View(), i, parses);
      TakeIn(i, parses);
    }

    /** The output of a scan that goes on is parsed. */
    method TakeIn(i: nat, parses: bool)
      requires i < |runs|
      modifies this
      ensures View() == OnStdoutEnd(old(View()), i, parses)
    {
      hide End;
      var r := runs[i].(stdoutEnded := true);
      if r.ended || r.timedOut || r.stopped || !r.hasOutput {
        runs := runs[i := r];
        return;
      }
      r := r.(completion := true);
      if parses {
        runs := runs[i := r.(work := Reading)];
      } else {
        runs := runs[i := r];
        EndScan(i, false, true);
      }
    }

    /** The child could not be launched: no output is ever taken in. */
    method FailedToStart(i: nat)
      requires Inv(View()) && Enabled(View(), ChildError(i))
      modifies this
      ensures View() == Step(old(View()), ChildError(i)) && Inv(View())
      ensures i < |runs| && runs[i].ended && !runs[i].completion
    {
      hide Inv;
      StepKeepsInv(View(), ChildError(i));
      OneRun(View(), i);
      var r := runs[i].(failedToStart := true);
      runs := runs[i := r];
      if r.ended {
        return;
      }
      EndScan(i, false, true);
    }

    /** The child is gone: a scan that holds the lock has a file operation under way that
        will free it, and one asked to stop before any output came is being discarded. */
    method Closed(i: nat)
      requires Inv(View()) && Enabled(View(), Close(i))
      modifies this
      ensures View() == Step(old(View()), Close(i)) && Inv(View())
      ensures i < |runs| && runs[i].exited && runs[i].work != Quiet
      ensures IsLive(View(), i) ==> runs[i].work != Over
      ensures runs[i].closeWaits == runs[i].completion
    {
      hide Inv, Step, Enabled, OnClose;
      ClosedIsBusy(View(), i);
      AfterExit(i);
    }

    /** What is left to do once the child is gone. */
    method AfterExit(i: nat)
      requires i < |runs|
      modifies this
      ensures View() == OnClose(old(View()), i)
    {
      hide End;
      var r := runs[i].(exited := true);
      if r.completion {
        runs := runs[i := r.(closeWaits := true)];
      } else if r.stopped && !r.ended {
        runs := runs[i := r.(ended := true, work := StopDiscarding)];
      } else if r.ended {
        runs := runs[i := r];
      } else {
        runs := runs[i := r];
        EndScan(i, false, true);
      }
    }

    /** A file operation of `complete` has worked or failed. */
    method Saving(i: nat, ok: bool)
      requires i < |runs| && IsSaving(runs[i].work)
      modifies this
      ensures View() == OnSaving(old(View()), i, ok)
    {
      hide End;
      var w := runs[i].work;
      if ok {
        vulnsTemp, pathsTemp := vulnsTemp && w != MovingVulns, pathsTemp && w != MovingPaths;
        runs := runs[i := runs[i].(work := After(w))];
      } else {
        EndScan(i, w == MovingVulns || w == MovingPaths, true);
      }
    }

    /** The temp files are gone, or the scan is archived: the lock is freed. */
    method Last(i: nat)
      requires i < |runs|
      modifies this
      ensures View() == OnLast(old(View()), i)
    {
      hide End, Finish;
      var r := runs[i];
      match r.work {
        case Archiving =>
          runs := runs[i := r.(saved := true)];
          EndScan(i, true, false);
        case Discarding(_) =>
          vulnsTemp, pathsTemp := false, false;
          FinishScan(i);
        case StopDiscarding =>
          vulnsTemp, pathsTemp := false, false;
          stopRunning, onDone, running := None, None, false;
          runs := runs[i := r.(work := Over, releases := r.releases + 1, stopsAnswered := r.stopsAsked)];
        case _ =>
      }
    }

    /** A file operation has ended: the scan goes on holding the lock, or, when it was
        the last one, has freed it with nothing left behind. */
    method Resumed(i: nat, ok: bool)
      requires Inv(View()) && Enabled(View(), Resume(i, ok))
      modifies this
      ensures View() == Step(old(View()), Resume(i, ok)) && Inv(View())
      ensures if IsSaving(old(runs)[i].work) then running && i < |runs| && runs[i].releases == 0
              else FreedBy(View(), i)
    {
      hide Inv, FreedBy, OnSaving, OnLast;
      StepKeepsInv(View(), Resume(i, ok));
      LastResumeFrees(View(), i, ok);
      if IsSaving(runs[i].work) {
        Saving(i, ok);
      } else {
        Last(i);
      }
    }

    /** `refined`: the rescore runs only for a saved graph and under the free lock. */
    method Refined(i: nat, lateRecords: bool)
      requires Inv(View()) && i < |runs|
      modifies `exclusive
      ensures Inv(View())
      ensures exclusive <==> old(exclusive) || (runs[i].saved && lateRecords && !running)
    {
      if runs[i].saved && lateRecords {
        var rescoring := RunExclusive();
      }
    }

    /** The close callback after `await completion`: a stopped run is answered, and the
        late records are rescored if they can be. */
    method Settled(i: nat, lateRecords: bool)
      requires Inv(View()) && Enabled(View(), CompletionSettles(i, lateRecords))
      modifies this
      ensures View() == Step(old(View()), CompletionSettles(i, lateRecords)) && Inv(View())
      ensures i < |runs| && IsSettled(runs[i]) && (runs[i].stopped ==> runs[i].stopsAnswered == 1)
      ensures exclusive <==> old(exclusive) || (runs[i].saved && lateRecords && !running)
    {
      hide Inv, IsSettled, Step;
      SettlingAnswers(View(), i, false);
      LateRecords(View(), i, lateRecords);
      Answer(i);
      Refined(i, lateRecords);
    }

    method Answer(i: nat)
      requires i < |runs|
      modifies `runs
      ensures View() == OnSettled(old(View()), i, false)
    {
      var r := runs[i].(closeWaits := false);
      if r.stopped {
        r := r.(stopsAnswered := r.stopsAsked);
      }
      runs := runs[i := r];
    }
  }
}

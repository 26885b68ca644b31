/**
 * `BuildReportManager`: the in-memory history of saved build reports, at
 * most five, oldest first. The file it writes after every save is recorded
 * as the sequence of lists written; the file it reads on load is an input.
 */
module BuildReportManagers {
  import opened Wrappers
  import opened BuildReportTypes

  /** `SaveReport` drops the oldest entry once five are held. */
  const MaxSavedReports := 5

  function Min(a: int, b: int): int { if a <= b then a else b }

  /** The list after one `SaveReport`: the report is last, and before it
      stands the old list, less its oldest entry when five or more were held. */
  function Saved<R>(saved: seq<R>, report: R): (r: seq<R>)
    ensures |r| >= 1 && r[|r| - 1] == report
    ensures |saved| < MaxSavedReports ==> r[..|r| - 1] == saved
    ensures |saved| >= MaxSavedReports ==> |r| == |saved| && r[..|r| - 1] == saved[1..]
  {
    var kept := if |saved| >= MaxSavedReports then saved[1..] else saved;
    assert (kept + [report])[..|kept|] == kept;
    kept + [report]
  }

  /** At most five before a save means at most five after it. */
  lemma SavedBound<R>(saved: seq<R>, report: R)
    requires |saved| <= MaxSavedReports
    ensures |Saved(saved, report)| <= MaxSavedReports
    ensures |saved| < MaxSavedReports ==> |Saved(saved, report)| == |saved| + 1
  {
  }

  /** The list after saving `reports` one after another. */
  function SavedAll<R>(saved: seq<R>, reports: seq<R>): seq<R>
    decreases |reports|
  {
    if |reports| == 0 then saved
    else Saved(SavedAll(saved, reports[..|reports| - 1]), reports[|reports| - 1])
  }

  /** FIFO history: starting from at most five, a run of saves leaves the
      newest five of everything saved, in the order saved. */
  lemma {:induction false} SavedAllKeepsNewest<R>(saved: seq<R>, reports: seq<R>)
    requires |saved| <= MaxSavedReports
    ensures var all := saved + reports;
      SavedAll(saved, reports) == all[|all| - Min(MaxSavedReports, |all|)..]
    decreases |reports|
  {
    if |reports| > 0 {
      var p := reports[..|reports| - 1];
      SavedAllKeepsNewest(saved, p);
      assert SavedAll(saved, reports) == Saved(SavedAll(saved, p), reports[|reports| - 1]);
      assert saved + reports == (saved + p) + [reports[|reports| - 1]];
      NewestStep(saved + p, reports[|reports| - 1]);
    }
  }

  /** One save on the newest five of `all` gives the newest five of `all + [r]`. */
  lemma NewestStep<R>(all: seq<R>, r: R)
    ensures var all' := all + [r];
      Saved(all[|all| - Min(MaxSavedReports, |all|)..], r) == all'[|all'| - Min(MaxSavedReports, |all'|)..]
  {
    var all' := all + [r];
    var h := all[|all| - Min(MaxSavedReports, |all|)..];
    if |all| >= MaxSavedReports {
      assert h[1..] == all[|all| - 4..];
      assert all'[|all'| - 5..] == all[|all| - 4..] + [r];
    } else {
      assert h == all;
      assert all'[|all'| - |all'|..] == all';
    }
  }

  class BuildReportManager {
    /** `savedReports`. */
    var savedReports: seq<SerializableBuildReport>
    /** The lists written to the save file, one per `SaveReport`, in order. */
    var written: seq<seq<SerializableBuildReport>>

    constructor()
      ensures savedReports == [] && written == []
    {
      savedReports := [];
      written := [];
    }

    /** `SaveReport`: drop the oldest at five or more, append, then write the list. */
    method SaveReport(report: SerializableBuildReport)
      modifies this
      ensures savedReports == Saved(old(savedReports), report)
      ensures written == old(written) + [savedReports]
    {
      if |savedReports| >= MaxSavedReports {
        savedReports := savedReports[1..];
      }
      savedReports := savedReports + [report];
      written := written + [savedReports];
    }

    /** `LoadReports`: `file` is `None` when no save file exists, and
        `Some(None)` when it decodes to a null list. */
    method LoadReports(file: Option<Option<seq<SerializableBuildReport>>>) returns (reports: seq<SerializableBuildReport>)
      modifies this`savedReports
      ensures file.None? ==> savedReports == old(savedReports)
      ensures file.Some? && file.value.None? ==> savedReports == []
      ensures file.Some? && file.value.Some? ==> savedReports == file.value.value
      ensures reports == savedReports
    {
      if file.Some? {
        savedReports := file.value.GetOr([]);
      }
      reports := savedReports;
    }
  }
}

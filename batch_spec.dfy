/**
 * The loop of `process_all_images` as a pure fold over the outcomes of the
 * enumerated image files, and what it guarantees: the counters, the report
 * trigger, and the crash when a report fires with nothing processed.
 */
module BatchSpec {

  /** A report is due whenever the number of processed images is a multiple of this. */
  const REPORT_INTERVAL: nat := 1000

  /**
   * What happens to one image file inside the `try`. `imwrite` signals most
   * failures by returning False, which the loop does not look at, so that
   * case counts as processed; only an exception counts as an error.
   */
  datatype Outcome =
    | Written             // decoded, transformed and written
    | WriteReturnedFalse  // decoded and transformed; imwrite returned False
    | DecodeFailed        // imread gave None: the ValueError of preprocess_image
    | StageRaised         // an OpenCV stage raised
    | WriteRaised         // imwrite raised

  /** The outcome leaves the `try` through an exception. */
  predicate Raises(o: Outcome) {
    o.DecodeFailed? || o.StageRaised? || o.WriteRaised?
  }

  /** The counters one progress update prints. */
  datatype Report = Report(processed: nat, errors: nat)

  /**
   * The loop's state: the two counters, the progress updates printed so
   * far, and whether the run died on the ETA division.
   */
  datatype Progress = Progress(processed: nat, errors: nat, reports: seq<Report>, crashed: bool)

  const START: Progress := Progress(0, 0, [], false)

  predicate ReportDue(processed: nat) {
    processed % REPORT_INTERVAL == 0
  }

  /**
   * One iteration: count the item as processed or as an error, then check
   * the trigger. When it fires with nothing processed, the throughput is 0
   * and the ETA division raises outside the `try`, ending the run.
   */
  function Step(p: Progress, o: Outcome): (q: Progress)
    requires !p.crashed
    ensures q.processed + q.errors == p.processed + p.errors + 1
    ensures Raises(o) ==> q.processed == p.processed
    ensures !Raises(o) ==> q.errors == p.errors
    ensures q.crashed <==> q.processed == 0
    ensures p.reports <= q.reports
    ensures |q.reports| == |p.reports| + (if !q.crashed && ReportDue(q.processed) then 1 else 0)
    ensures |q.reports| > |p.reports| ==> q.reports[|p.reports|] == Report(q.processed, q.errors)
  {
    var counted := if Raises(o) then p.(errors := p.errors + 1) else p.(processed := p.processed + 1);
    if !ReportDue(counted.processed) then counted
    else if counted.processed == 0 then counted.(crashed := true)
    else counted.(reports := counted.reports + [Report(counted.processed, counted.errors)])
  }

  /** The state after the loop has handled `items`, in order, stopping at a crash. */
  function Run(items: seq<Outcome>): (p: Progress)
    ensures p.processed + p.errors <= |items|
    ensures !p.crashed ==> p.processed + p.errors == |items|
    ensures items != [] && !p.crashed ==> p.processed > 0
  {
    if items == [] then START
    else
      var before := Run(items[..|items| - 1]);
      if before.crashed then before else Step(before, items[|items| - 1])
  }

  /** The number of items that leave the `try` normally. */
  function Successes(items: seq<Outcome>): (n: nat)
    ensures n <= |items|
  {
    if items == [] then 0
    else Successes(items[..|items| - 1]) + (if Raises(items[|items| - 1]) then 0 else 1)
  }

  /** Appending one more item to a run that has not crashed performs exactly one more step. */
  lemma RunAppend(items: seq<Outcome>, o: Outcome)
    requires !Run(items).crashed
    ensures Run(items + [o]) == Step(Run(items), o)
  {
    assert (items + [o])[..|items|] == items;
  }

  /**
   * The trigger is checked after every item, success or error: one more
   * item adds a report exactly when the new processed count is a positive
   * multiple of the interval, and crashes exactly when it is zero.
   */
  lemma TriggerAfterEveryItem(items: seq<Outcome>, o: Outcome)
    requires !Run(items).crashed
    ensures var q := Run(items + [o]);
      && (|q.reports| == |Run(items).reports| + 1 <==> q.processed > 0 && q.processed % REPORT_INTERVAL == 0)
      && (|q.reports| == |Run(items).reports| || |q.reports| == |Run(items).reports| + 1)
      && (q.crashed <==> q.processed == 0)
  {
    RunAppend(items, o);
  }

  /** Once the run has crashed, later items are never attempted. */
  lemma {:induction false} CrashIsFinal(items: seq<Outcome>, i: nat)
    requires i <= |items| && Run(items[..i]).crashed
    ensures Run(items) == Run(items[..i])
    decreases |items|
  {
    if i < |items| {
      var prefix := items[..|items| - 1];
      assert prefix[..i] == items[..i];
      CrashIsFinal(prefix, i);
    } else {
      assert items[..i] == items;
    }
  }

  /**
   * The run crashes exactly when the first item raises: the error leaves
   * processed at 0, which fires the trigger and the division by zero. It
   * then ends with one error and no report.
   */
  lemma {:induction false} CrashesIffFirstItemRaises(items: seq<Outcome>)
    ensures Run(items).crashed <==> |items| > 0 && Raises(items[0])
    ensures Run(items).crashed ==> Run(items) == Progress(0, 1, [], true)
    decreases |items|
  {
    if items != [] {
      var prefix := items[..|items| - 1];
      if prefix == [] {
        assert Run(items) == Step(START, items[0]);
      } else {
        assert prefix[0] == items[0];
        CrashesIffFirstItemRaises(prefix);
      }
    }
  }

  /** Without a crash, processed counts the items that did not raise and errors the ones that did. */
  lemma {:induction false} CountersMatchOutcomes(items: seq<Outcome>)
    requires !Run(items).crashed
    ensures Run(items).processed == Successes(items)
    ensures Run(items).errors == |items| - Successes(items)
    decreases |items|
  {
    if items != [] {
      CountersMatchOutcomes(items[..|items| - 1]);
    }
  }

  /**
   * Fault isolation: when the first item goes through, no later failure
   * stops the loop; every item is attempted and counted once.
   */
  lemma FaultIsolation(items: seq<Outcome>)
    requires |items| > 0 && !Raises(items[0])
    ensures !Run(items).crashed
    ensures Run(items).processed + Run(items).errors == |items|
    ensures Run(items).processed == Successes(items)
    ensures Run(items).errors == |items| - Successes(items)
  {
    CrashesIffFirstItemRaises(items);
    CountersMatchOutcomes(items);
  }

  /** Both counters and the list of reports only grow as the loop advances. */
  lemma {:induction false} ProgressIsMonotone(items: seq<Outcome>, i: nat)
    requires i <= |items|
    ensures Run(items[..i]).processed <= Run(items).processed
    ensures Run(items[..i]).errors <= Run(items).errors
    ensures Run(items[..i]).reports <= Run(items).reports
    decreases |items|
  {
    if i < |items| {
      var prefix := items[..|items| - 1];
      assert prefix[..i] == items[..i];
      ProgressIsMonotone(prefix, i);
    } else {
      assert items[..i] == items;
    }
  }

  /**
   * Every report shows a positive multiple of the interval, and the reports
   * come from distinct items in order: the number of items handled when a
   * report fired strictly increases from one report to the next.
   */
  lemma {:induction false} ReportsAreOrderedSnapshots(items: seq<Outcome>)
    ensures forall k :: 0 <= k < |Run(items).reports| ==>
      Run(items).reports[k].processed > 0 && Run(items).reports[k].processed % REPORT_INTERVAL == 0
    ensures forall k :: 0 <= k < |Run(items).reports| ==>
      Run(items).reports[k].processed + Run(items).reports[k].errors <= |items|
    ensures forall k :: 0 <= k < |Run(items).reports| ==>
      Run(items).reports[k].processed <= Run(items).processed
    ensures forall j, k :: 0 <= j < k < |Run(items).reports| ==>
      Run(items).reports[j].processed <= Run(items).reports[k].processed &&
      Run(items).reports[j].processed + Run(items).reports[j].errors <
      Run(items).reports[k].processed + Run(items).reports[k].errors
    decreases |items|
  {
    if items != [] {
      var prefix := items[..|items| - 1];
      ReportsAreOrderedSnapshots(prefix);
      var p := Run(prefix);
      if !p.crashed {
        var q := Step(p, items[|items| - 1]);
        assert Run(items) == q;
        forall j, k | 0 <= j < k < |q.reports|
          ensures q.reports[j].processed <= q.reports[k].processed
          ensures q.reports[j].processed + q.reports[j].errors < q.reports[k].processed + q.reports[k].errors
        {
          assert q.reports[j] == p.reports[j];
          if k < |p.reports| {
            assert q.reports[k] == p.reports[k];
          } else {
            assert q.reports[k] == Report(q.processed, q.errors);
          }
        }
      }
    }
  }

  /**
   * In a run where every item goes through, reports fire at 1000, 2000, ...
   * processed images, that is |items| / 1000 times, all with no errors.
   */
  lemma {:induction false} AllWrittenReports(items: seq<Outcome>)
    requires forall i :: 0 <= i < |items| ==> !Raises(items[i])
    ensures !Run(items).crashed && Run(items).processed == |items| && Run(items).errors == 0
    ensures |Run(items).reports| == |items| / REPORT_INTERVAL
    ensures forall k :: 0 <= k < |Run(items).reports| ==>
      Run(items).reports[k] == Report(REPORT_INTERVAL * (k + 1), 0)
    decreases |items|
  {
    if items != [] {
      var n := |items|;
      var prefix := items[..n - 1];
      AllWrittenReports(prefix);
      if n % REPORT_INTERVAL == 0 {
        assert n / REPORT_INTERVAL == (n - 1) / REPORT_INTERVAL + 1;
        assert REPORT_INTERVAL * ((n - 1) / REPORT_INTERVAL + 1) == n;
      } else {
        assert n / REPORT_INTERVAL == (n - 1) / REPORT_INTERVAL;
      }
    }
  }

  /**
   * An error while processed sits on a positive multiple of the interval
   * fires the trigger again, with the same processed count.
   */
  lemma ErrorRetriggers(items: seq<Outcome>, o: Outcome)
    requires !Run(items).crashed && Raises(o)
    requires Run(items).processed > 0 && ReportDue(Run(items).processed)
    ensures Run(items + [o]).reports ==
      Run(items).reports + [Report(Run(items).processed, Run(items).errors + 1)]
  {
    RunAppend(items, o);
    var p := Run(items);
    var counted := p.(errors := p.errors + 1);
    assert Step(p, o) == counted.(reports := counted.reports + [Report(counted.processed, counted.errors)]);
  }

  /**
   * So the processed counts of successive reports need not increase:
   * 1000 written images and then one failure give two reports at 1000.
   */
  lemma RepeatedReport()
    ensures Run(seq(1000, _ => Written) + [DecodeFailed]).reports == [Report(1000, 0), Report(1000, 1)]
  {
    var written := seq(1000, _ => Written);
    AllWrittenReports(written);
    ErrorRetriggers(written, DecodeFailed);
  }

  /** How `process_all_images` ends. */
  datatype Ending =
    | Completed         // the loop ran to the end and the summary was printed
    | Crashed           // the ETA division raised during a progress update
    | LabelsUnreadable  // reading the labels CSV failed; the function returned early

  /** What a run leaves behind: how it ended, the enumerated count, and the loop's state. */
  datatype RunSummary = RunSummary(ending: Ending, totalImages: nat, progress: Progress)

  /**
   * `process_all_images` as a function of whether the labels CSV could be
   * read and of the outcomes of the enumerated image files.
   */
  function ExpectedSummary(labelsReadable: bool, imageFiles: seq<Outcome>): RunSummary {
    if !labelsReadable then RunSummary(LabelsUnreadable, 0, START)
    else
      var p := Run(imageFiles);
      RunSummary(if p.crashed then Crashed else Completed, |imageFiles|, p)
  }

  /**
   * The scenario of two readable images and one empty file: the run
   * completes with two processed and one error when a readable image comes
   * first, and crashes at once when the empty file comes first.
   */
  lemma OneBadFileAmongThree()
    ensures ExpectedSummary(true, [Written, DecodeFailed, Written]) ==
      RunSummary(Completed, 3, Progress(2, 1, [], false))
    ensures ExpectedSummary(true, [DecodeFailed, Written, Written]) ==
      RunSummary(Crashed, 3, Progress(0, 1, [], true))
  {
    assert [Written, DecodeFailed, Written][..2] == [Written, DecodeFailed];
    assert [Written, DecodeFailed][..1] == [Written];
    assert [DecodeFailed, Written, Written][..2] == [DecodeFailed, Written];
    assert [DecodeFailed, Written][..1] == [DecodeFailed];
    CrashesIffFirstItemRaises([DecodeFailed, Written, Written]);
  }
}

/**
 * `process_all_images` as the imperative code it is: counters that the
 * loop body updates one image at a time, and a loop over the enumerated
 * files proved against the fold in BatchSpec.
 */
module Batch {
  import opened BatchSpec

  /**
   * The run's mutable state. `totalImages` is fixed from the enumerated
   * list before the loop starts and cannot change afterwards.
   */
  class BatchRun {
    const totalImages: nat
    var processed: nat
    var errors: nat
    var reports: seq<Report>
    var crashed: bool

    /** The state as the specification sees it. */
    function Snapshot(): Progress
      reads this
    {
      Progress(processed, errors, reports, crashed)
    }

    constructor (totalImages: nat)
      ensures this.totalImages == totalImages
      ensures Snapshot() == START
    {
      this.totalImages := totalImages;
      processed, errors, reports, crashed := 0, 0, [], false;
    }

    /**
     * One pass of the loop body: the `try`/`except` around the pipeline and
     * the write, then the progress-update check, which runs after errors as
     * well. A check that fires with nothing processed dies on the ETA
     * division, which sits outside the `try`.
     */
    method ProcessItem(o: Outcome)
      requires !crashed
      modifies this
      ensures Snapshot() == Step(old(Snapshot()), o)
      ensures processed >= old(processed) && errors >= old(errors)
    {
      if Raises(o) {
        errors := errors + 1;
      } else {
        processed := processed + 1;
      }
      if processed % REPORT_INTERVAL == 0 {
        if processed == 0 {
          crashed := true;
        } else {
          reports := reports + [Report(processed, errors)];
        }
      }
    }
  }

  /**
   * `process_all_images`: give up when the labels cannot be read, otherwise
   * run the loop over every enumerated file, in order, until it ends or the
   * progress update raises.
   */
  method ProcessAllImages(labelsReadable: bool, imageFiles: seq<Outcome>) returns (s: RunSummary)
    ensures s == ExpectedSummary(labelsReadable, imageFiles)
    ensures !labelsReadable ==> s.ending == LabelsUnreadable && s.progress == START
    ensures labelsReadable ==> s.totalImages == |imageFiles|
    ensures s.ending == Completed ==> s.progress.processed + s.progress.errors == |imageFiles|
    ensures s.ending == Crashed <==> labelsReadable && |imageFiles| > 0 && Raises(imageFiles[0])
  {
    if !labelsReadable {
      return RunSummary(LabelsUnreadable, 0, START);
    }
    var run := new BatchRun(|imageFiles|);
    CrashesIffFirstItemRaises(imageFiles);
    for i := 0 to |imageFiles|
      invariant run.totalImages == |imageFiles|
      invariant run.Snapshot() == Run(imageFiles[..i])
      invariant !run.crashed
    {
      assert imageFiles[..i + 1][..i] == imageFiles[..i];
      run.ProcessItem(imageFiles[i]);
      if run.crashed {
        CrashIsFinal(imageFiles, i + 1);
        return RunSummary(Crashed, run.totalImages, run.Snapshot());
      }
    }
    assert imageFiles[..|imageFiles|] == imageFiles;
    s := RunSummary(Completed, run.totalImages, run.Snapshot());
  }
}

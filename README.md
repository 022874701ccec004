# Fundus-image preprocessing: batch loop, pipeline shape and label rules

This project models the sequential logic in `src/preprocessing.py` of a
diabetic-retinopathy preprocessing script, and proves properties about it.
It covers three parts:

- **`process_all_images`**: the batch loop. For each enumerated `.jpeg`
  file it runs the preprocessing pipeline and the write inside a
  `try`/`except`. It then adds one to either `processed` or `errors`, and
  prints a progress update whenever `processed % 1000 == 0`.
- **`ImagePreprocessor.preprocess_image`**: decode the file, raise
  `ValueError` when the decode gives `None`, otherwise resize, normalize
  the color and reduce noise, in that order.
- **`load_labels`**: after the CSV has been read, it adds a `filename`
  column (`image + ".jpeg"`) only when no image entry matches the regular
  expression `.jpeg`. It also maps `level` through the fixed five-grade
  severity table.

Modules:

- `Wrappers` holds `Option` and `Result`.
- `Labels` holds the label rules as functions over rows.
- `Pipeline` composes the per-image stages. The OpenCV calls are passed in
  as an `OpenCv` record of functions.
- `BatchSpec` is the loop as a pure fold (`Step`, `Run`), with lemmas about
  the counters, the report trigger and the crash.
- `Batch` holds the imperative model. Class `BatchRun` has the counters as
  fields and a `ProcessItem` method for the loop body. Method
  `ProcessAllImages` runs the loop, and its invariants tie it to
  `BatchSpec.Run`.

The batch input is the sequence of per-file outcomes, in enumeration order.
An outcome is one of:

- written;
- `imwrite` returned False;
- decode failed;
- a stage raised;
- `imwrite` raised.

Some behaviours of the code are reproduced as written:

- **The trigger runs after every item, errors included.** An error while
  `processed` sits on a positive multiple of 1000 prints another update
  with the same count (`BatchSpec.ErrorRetriggers`,
  `BatchSpec.RepeatedReport`).
- **A trigger with `processed == 0` crashes the run.** The throughput is
  then 0, and the ETA division at line 102 is outside the `try`, so the
  `ZeroDivisionError` ends the run. This happens exactly when the first
  file raises (`BatchSpec.CrashesIffFirstItemRaises`). The run then stops
  with one error and no completed report, and no final summary is printed.
- **`imwrite`'s return value is never checked.** A write that returns
  False still counts as processed. Only exceptions count as errors.
- **The `.` in `.jpeg` is a regex wildcard.** It matches any character
  except a newline. So a name ending in `jpeg` without a dot already counts
  as having the extension. One matching row is enough to suppress the
  column for every row.
- **A level outside 0..4 gets no severity** (NaN). It is not an error.
- **A labels CSV that cannot be read ends the run before anything else.**
  `process_all_images` returns before any image is enumerated or handled.
  It reads the CSV only to print its length. It never calls `load_labels`.

How the loop's outcomes relate to the per-image model: `DecodeFailed` is
the loop's view of `Pipeline.PreprocessImage` returning
`Failure(CouldNotRead(path))`, the `ValueError` of line 49. `StageRaised`
stands for an exception raised inside `cv2.resize`, `cvtColor`, CLAHE or
`GaussianBlur` while `preprocess_image` runs (lines 51-53). `WriteRaised`
stands for an exception from `cv2.imwrite` (line 88). These three are
exactly the outcomes for which `BatchSpec.Raises` holds, and together they
cover every exception the `try` at lines 85-93 can catch. `Written` and
`WriteReturnedFalse` are the two ways the `try` body can finish normally.

## Model

| member | source | states |
|---|---|---|
| `Labels.SeverityOf` | src/preprocessing.py:17-25 | a level has a severity exactly when it is 0..4, and the severity is one of the five grade names; any other level gives no value (NaN), not an error |
| `Labels.SeverityInjective` | src/preprocessing.py:17-23 | distinct grades have distinct names, so a severity name determines its level |
| `Labels.Search` | src/preprocessing.py:14 | the regex search finds the first position at or after `from` where "any non-newline character, then `jpeg`" matches, or reports that none exists |
| `Labels.StrContains` | src/preprocessing.py:14 | `str.contains('.jpeg')` on one entry is true exactly when the regex matches somewhere in it |
| `Labels.AnyContains` | src/preprocessing.py:14 | `.any()` over the image column is true exactly when some entry matches; it is false on an empty column |
| `Labels.LoadLabels` | src/preprocessing.py:9-26 | image and level columns are kept row by row; each severity is the lookup of its level; the filename column exists exactly when no image entry matches, and then it holds image + ".jpeg" for each row |
| `Labels.AppendedNameMatches` | src/preprocessing.py:14-15 | every name the rule produces matches the pattern |
| `Labels.FilenameRuleSettles` | src/preprocessing.py:14-15 | loading a table whose images are the generated filenames adds no second filename column |
| `Labels.DotIsWildcard` | src/preprocessing.py:14-15 | "10_leftjpeg", which lacks the dot, matches the pattern, so no filename column is added |
| `Labels.OneMatchSuppressesColumn` | src/preprocessing.py:14-15 | one row with an extension suppresses the column, even for a row without one |
| `Labels.NewlineIsNotMatched` | src/preprocessing.py:14 | the wildcard does not match a newline |
| `Pipeline.PreprocessImage` | src/preprocessing.py:46-54 | the call fails exactly when the decoder gives None, and then with the "could not read" error for that path |
| `Pipeline.PreprocessImageRunsStageOrder` | src/preprocessing.py:46-54 | on a decoded image the result is reduce_noise(normalize_color(resize(image, target size))), i.e. the ordered stage list applied left to right, for any OpenCV behaviour |
| `Pipeline.DefaultPreprocessorResizesTo512` | src/preprocessing.py:29-33 | a preprocessor built with no arguments (as at line 82) resizes every decoded image to 512x512 and then normalizes the color and reduces noise |
| `Pipeline.ApplyAllAppend` | src/preprocessing.py:51-53 | running stage lists one after the other equals running their concatenation |
| `Pipeline.TracingRecordsStages` | src/preprocessing.py:51-53 | with stages that record their own names, running stages yields exactly that list of stages |
| `Pipeline.StageOrderIsObservable` | src/preprocessing.py:51-53 | any stage order other than resize, normalize, denoise gives a different output for some OpenCV behaviour |
| `BatchSpec.Step` | src/preprocessing.py:85-102 | one iteration adds one to exactly one counter (errors iff the item raised); the report list only grows, by one report carrying the new counts exactly when the new processed count is a positive multiple of 1000; the run crashes exactly when that count is 0 |
| `BatchSpec.Run` | src/preprocessing.py:84-102 | after the loop, processed + errors never exceeds the number of files and equals it when there was no crash; a non-empty run that did not crash has processed > 0 |
| `BatchSpec.RunAppend` | src/preprocessing.py:84-102 | one more file after a run that has not crashed is one more loop iteration |
| `BatchSpec.TriggerAfterEveryItem` | src/preprocessing.py:95-102 | after every file, success or error, a report is added exactly when processed is a positive multiple of 1000, at most one per file, and the run crashes exactly when processed is 0 |
| `BatchSpec.CrashIsFinal` | src/preprocessing.py:95-102 | once the ETA division has raised, no later file is attempted |
| `BatchSpec.CrashesIffFirstItemRaises` | src/preprocessing.py:85-102 | the run crashes exactly when the first file raises, leaving processed 0, errors 1 and no report |
| `BatchSpec.CountersMatchOutcomes` | src/preprocessing.py:85-93 | without a crash, processed counts the files whose handling did not raise and errors counts those that did |
| `BatchSpec.FaultIsolation` | src/preprocessing.py:85-93 | when the first file goes through, no later failure stops the loop: every file is attempted and processed + errors equals the number of files |
| `BatchSpec.ProgressIsMonotone` | src/preprocessing.py:78-95 | both counters and the list of reports only grow as the loop advances |
| `BatchSpec.ReportsAreOrderedSnapshots` | src/preprocessing.py:95-100 | each report shows a positive multiple of 1000 processed, no more than the final count; reports come from distinct files in loop order |
| `BatchSpec.AllWrittenReports` | src/preprocessing.py:84-100 | in a run where every file goes through, reports fire at 1000, 2000, ..., i.e. floor(N/1000) times, all with zero errors |
| `BatchSpec.ErrorRetriggers` | src/preprocessing.py:91-100 | an error while processed is a positive multiple of 1000 adds another report with the same processed count |
| `BatchSpec.RepeatedReport` | src/preprocessing.py:84-100 | 1000 written files then one failure give the two reports (1000, 0) and (1000, 1) |
| `BatchSpec.OneBadFileAmongThree` | src/preprocessing.py:84-102 | two good files and one bad one end with 2 processed and 1 error when a good one comes first, and crash at once when the bad one comes first |
| `Batch.BatchRun.constructor` | src/preprocessing.py:75-79 | a new run has the enumerated total, zero counters, no reports and no crash |
| `Batch.BatchRun.ProcessItem` | src/preprocessing.py:85-102 | the loop body moves the counters, reports and crash flag exactly as `BatchSpec.Step` does, and neither counter decreases |
| `Batch.ProcessAllImages` | src/preprocessing.py:56-109 | the run ends as `BatchSpec.ExpectedSummary` says. An unreadable labels CSV attempts no file. The total is the number of enumerated files. A completed run has processed + errors equal to that total. The run crashes exactly when the first file raises |

## Left out

- Pipeline.PreprocessImage: the OpenCV stages are modelled as functions that never raise, so its only failure is the decode failure. An exception inside a stage appears only in the loop model, as the outcome `BatchSpec.StageRaised`.
- OpenCV (`imread`, `resize`, `cvtColor`, CLAHE, `GaussianBlur`, `imwrite`) is foreign code. The stages are opaque functions in `Pipeline.OpenCv`, and each file's fate in the loop is an input `Outcome`. So pixel values are not modelled, and neither are the clip limit or the tile grid. The target size passed to `resize` is modelled; that the output then has that size is not.
- Reading the CSV with pandas is a parameter: parsed rows for `load_labels`, and a readable/unreadable flag for `process_all_images`. Missing (NaN) image entries and non-integer levels are not modelled.
- The regex engine is not modelled. The fixed pattern `.jpeg` is written out as "any character except newline, then `jpeg`", searched anywhere in the string.
- `glob` enumeration and `mkdir` are file-system I/O. The list of files is the input sequence. A failing `mkdir`, which would raise before anything else, is not modelled.
- `tqdm` and all printed text are output formatting. A progress update is recorded as the (processed, errors) pair it prints.
- Wall-clock time and the float throughput, ETA and average speed are not modelled. The model keeps only when a report fires and the zero-throughput division that ends the run. A zero elapsed time, which would also divide by zero, is not modelled.
- The `__main__` entry point is not part of this model.

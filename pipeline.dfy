/**
 * The per-image pipeline of `ImagePreprocessor.preprocess_image`: decode the
 * file, fail when decoding gives nothing, otherwise resize, normalize the
 * color and reduce noise, in that order. The decoder and the three OpenCV
 * stages are opaque: they are passed in as functions.
 */
module Pipeline {
  import opened Wrappers

  /** Width and height in pixels, as `cv2.resize` takes them. */
  datatype Size = Size(width: nat, height: nat)

  const DEFAULT_TARGET_SIZE: Size := Size(512, 512)

  /** An `ImagePreprocessor`: it holds only the resize target. */
  datatype Preprocessor = Preprocessor(targetSize: Size)

  /** `ImagePreprocessor()` with its default argument. */
  const DEFAULT_PREPROCESSOR: Preprocessor := Preprocessor(DEFAULT_TARGET_SIZE)

  /**
   * The OpenCV calls the stages are built from: `imread` (None when the file
   * cannot be decoded), `resize` to a target size, the CLAHE-on-luminance
   * color normalization, and the 3x3 Gaussian blur.
   */
  datatype OpenCv<!Img> = OpenCv(
    imread: string -> Option<Img>,
    resize: (Img, Size) -> Img,
    normalizeColor: Img -> Img,
    reduceNoise: Img -> Img)

  /** The `ValueError` raised when an image cannot be read. */
  datatype PreprocessError = CouldNotRead(path: string)

  datatype Stage = Resize | NormalizeColor | ReduceNoise

  /** The order in which `preprocess_image` applies its stages. */
  const STAGE_ORDER: seq<Stage> := [Resize, NormalizeColor, ReduceNoise]

  /** One stage as the preprocessor applies it. */
  function Apply<Img>(p: Preprocessor, cv: OpenCv<Img>, stage: Stage, image: Img): Img {
    match stage
    case Resize => cv.resize(image, p.targetSize)
    case NormalizeColor => cv.normalizeColor(image)
    case ReduceNoise => cv.reduceNoise(image)
  }

  /** Stages applied left to right, each to the output of the one before. */
  function ApplyAll<Img>(p: Preprocessor, cv: OpenCv<Img>, stages: seq<Stage>, image: Img): Img
    decreases |stages|
  {
    if stages == [] then image else ApplyAll(p, cv, stages[1..], Apply(p, cv, stages[0], image))
  }

  /** `preprocess_image(image_path)`, written as the straight-line code it is. */
  function PreprocessImage<Img>(p: Preprocessor, cv: OpenCv<Img>, path: string): (r: Result<Img, PreprocessError>)
    ensures r.Failure? <==> cv.imread(path).None?
    ensures r.Failure? ==> r.error == CouldNotRead(path)
  {
    var decoded := cv.imread(path);
    if decoded.None? then Failure(CouldNotRead(path))
    else
      var image := cv.resize(decoded.value, p.targetSize);
      var image := cv.normalizeColor(image);
      var image := cv.reduceNoise(image);
      Success(image)
  }

  /** Running a sequence of stages after another is running their concatenation. */
  lemma {:induction false} ApplyAllAppend<Img>(p: Preprocessor, cv: OpenCv<Img>, first: seq<Stage>, second: seq<Stage>, image: Img)
    ensures ApplyAll(p, cv, first + second, image) == ApplyAll(p, cv, second, ApplyAll(p, cv, first, image))
    decreases |first|
  {
    if first == [] {
      assert first + second == second;
    } else {
      assert (first + second)[0] == first[0];
      assert (first + second)[1..] == first[1..] + second;
      ApplyAllAppend(p, cv, first[1..], second, Apply(p, cv, first[0], image));
    }
  }

  /**
   * On a decoded image, `preprocess_image` is exactly the three stages in
   * the order resize, normalize color, reduce noise, for every choice of
   * OpenCV behaviour and target size.
   */
  lemma PreprocessImageRunsStageOrder<Img>(p: Preprocessor, cv: OpenCv<Img>, path: string)
    requires cv.imread(path).Some?
    ensures PreprocessImage(p, cv, path) == Success(ApplyAll(p, cv, STAGE_ORDER, cv.imread(path).value))
    ensures PreprocessImage(p, cv, path) ==
      Success(cv.reduceNoise(cv.normalizeColor(cv.resize(cv.imread(path).value, p.targetSize))))
  {
    var x := cv.imread(path).value;
    var resized := ApplyAll(p, cv, [Resize], x);
    var normalized := ApplyAll(p, cv, [NormalizeColor], resized);
    assert resized == cv.resize(x, p.targetSize) by { assert [Resize][1..] == []; }
    assert normalized == cv.normalizeColor(resized) by { assert [NormalizeColor][1..] == []; }
    assert ApplyAll(p, cv, [ReduceNoise], normalized) == cv.reduceNoise(normalized) by {
      assert [ReduceNoise][1..] == [];
    }
    assert STAGE_ORDER == [Resize] + ([NormalizeColor] + [ReduceNoise]);
    ApplyAllAppend(p, cv, [Resize], [NormalizeColor] + [ReduceNoise], x);
    ApplyAllAppend(p, cv, [NormalizeColor], [ReduceNoise], resized);
  }

  /**
   * A preprocessor built with no arguments, as `process_all_images` builds
   * it, resizes every decoded image to 512 by 512 before the other stages.
   */
  lemma DefaultPreprocessorResizesTo512<Img>(cv: OpenCv<Img>, path: string)
    requires cv.imread(path).Some?
    ensures PreprocessImage(DEFAULT_PREPROCESSOR, cv, path) ==
      Success(cv.reduceNoise(cv.normalizeColor(cv.resize(cv.imread(path).value, Size(512, 512)))))
  {
    PreprocessImageRunsStageOrder(DEFAULT_PREPROCESSOR, cv, path);
  }

  /**
   * An instance of the OpenCV calls in which every stage appends its own
   * name to the image: it makes the order in which stages ran visible.
   */
  const TRACING: OpenCv<seq<Stage>> := OpenCv(
    (path: string) => if path == "" then None else Some([]),
    (image: seq<Stage>, size: Size) => image + [Resize],
    (image: seq<Stage>) => image + [NormalizeColor],
    (image: seq<Stage>) => image + [ReduceNoise])

  /** With the tracing stages, running stages records exactly that sequence of stages. */
  lemma {:induction false} TracingRecordsStages(p: Preprocessor, stages: seq<Stage>, image: seq<Stage>)
    ensures ApplyAll(p, TRACING, stages, image) == image + stages
    decreases |stages|
  {
    if stages != [] {
      var next := Apply(p, TRACING, stages[0], image);
      assert next == image + [stages[0]];
      TracingRecordsStages(p, stages[1..], next);
      assert image + [stages[0]] + stages[1..] == image + stages;
    }
  }

  /**
   * The stage order is observable: two different orders give different
   * outputs on some OpenCV behaviour, so swapping color normalization and
   * noise reduction is a change of behaviour.
   */
  lemma StageOrderIsObservable(p: Preprocessor, order: seq<Stage>)
    requires order != STAGE_ORDER
    ensures ApplyAll(p, TRACING, order, []) != ApplyAll(p, TRACING, STAGE_ORDER, [])
  {
    TracingRecordsStages(p, order, []);
    TracingRecordsStages(p, STAGE_ORDER, []);
    assert [] + order == order;
    assert [] + STAGE_ORDER == STAGE_ORDER;
  }
}

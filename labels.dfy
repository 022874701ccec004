/**
 * The label post-processing of `load_labels`: after the CSV has been parsed
 * into rows of (image, level), an optional `filename` column and a
 * `severity` column are derived from them.
 */
module Labels {
  import opened Wrappers

  /** One parsed row of the labels CSV. */
  datatype LabelRow = LabelRow(image: string, level: int)

  /**
   * The data frame that `load_labels` returns, column by column. `filename`
   * is None when the column was not added; a severity of None stands for
   * pandas' NaN.
   */
  datatype LabelTable = LabelTable(
    image: seq<string>,
    level: seq<int>,
    filename: Option<seq<string>>,
    severity: seq<Option<string>>)

  const EXTENSION: string := ".jpeg"

  /** The fixed severity lookup of the five diabetic-retinopathy grades. */
  const SEVERITY_MAP: map<int, string> := map[
    0 := "No DR",
    1 := "Mild",
    2 := "Moderate",
    3 := "Severe",
    4 := "Proliferative DR"]

  /** `Series.map(severity_map)` on one level: a level outside the map gives NaN, not an error. */
  function SeverityOf(level: int): (r: Option<string>)
    ensures r.Some? <==> 0 <= level <= 4
    ensures r.Some? ==> r.value in SEVERITY_MAP.Values
  {
    if level in SEVERITY_MAP then Some(SEVERITY_MAP[level]) else None
  }

  /** Distinct grades carry distinct names, so a severity name determines its level. */
  lemma SeverityInjective(a: int, b: int)
    requires SeverityOf(a).Some? && SeverityOf(a) == SeverityOf(b)
    ensures a == b
  {
    assert 0 <= a <= 4 && 0 <= b <= 4;
  }

  /**
   * The pattern `.jpeg`, read as a regular expression (pandas' default for
   * `str.contains`), matches `s` at position `i`: any character other than
   * a newline, followed by the four letters "jpeg".
   */
  predicate MatchesAt(s: string, i: nat) {
    i + 5 <= |s| && s[i] != '\n' && s[i + 1..i + 5] == "jpeg"
  }

  /** The pattern matches somewhere in `s`. */
  ghost predicate ContainsPattern(s: string) {
    exists i: nat :: MatchesAt(s, i)
  }

  /** A left-to-right search for the first position at or after `from` where the pattern matches. */
  function Search(s: string, from: nat): (r: Option<nat>)
    ensures r.Some? ==> from <= r.value && MatchesAt(s, r.value)
    ensures r.Some? ==> forall j :: from <= j < r.value ==> !MatchesAt(s, j)
    ensures r.None? ==> forall j: nat :: from <= j ==> !MatchesAt(s, j)
    decreases |s| - from
  {
    if |s| < from + 5 then None
    else if MatchesAt(s, from) then Some(from)
    else Search(s, from + 1)
  }

  /** `str.contains('.jpeg')` on one entry. */
  function StrContains(s: string): (b: bool)
    ensures b <==> ContainsPattern(s)
  {
    Search(s, 0).Some?
  }

  /** `labels_df['image'].str.contains('.jpeg').any()`; false on an empty column. */
  function AnyContains(images: seq<string>): (b: bool)
    ensures b <==> exists i :: 0 <= i < |images| && ContainsPattern(images[i])
  {
    if images == [] then false
    else StrContains(images[0]) || AnyContains(images[1..])
  }

  /**
   * `load_labels` after the CSV has been read: the filename column is added
   * (as image + ".jpeg") only when no image entry matches the pattern, and
   * the severity column is the lookup of each level.
   */
  function LoadLabels(rows: seq<LabelRow>): (t: LabelTable)
    ensures |t.image| == |t.level| == |t.severity| == |rows|
    ensures forall i :: 0 <= i < |rows| ==>
      t.image[i] == rows[i].image && t.level[i] == rows[i].level && t.severity[i] == SeverityOf(rows[i].level)
    ensures t.filename.Some? <==> forall i :: 0 <= i < |rows| ==> !ContainsPattern(rows[i].image)
    ensures t.filename.Some? ==>
      |t.filename.value| == |rows| &&
      forall i :: 0 <= i < |rows| ==> t.filename.value[i] == rows[i].image + EXTENSION
  {
    var images := seq(|rows|, i requires 0 <= i < |rows| => rows[i].image);
    var levels := seq(|rows|, i requires 0 <= i < |rows| => rows[i].level);
    var filename :=
      if !AnyContains(images) then Some(seq(|rows|, i requires 0 <= i < |rows| => images[i] + EXTENSION))
      else None;
    LabelTable(images, levels, filename, seq(|rows|, i requires 0 <= i < |rows| => SeverityOf(levels[i])))
  }

  /** Every name the rule produces matches the pattern: the '.' of ".jpeg" is the wildcard's character. */
  lemma AppendedNameMatches(image: string)
    ensures ContainsPattern(image + EXTENSION)
  {
    var s := image + EXTENSION;
    assert s[|image| + 1..|image| + 5] == "jpeg";
    assert MatchesAt(s, |image|);
  }

  /**
   * The rule settles: loading a table whose images are the filenames the
   * rule produced adds no further filename column.
   */
  lemma FilenameRuleSettles(rows: seq<LabelRow>)
    requires LoadLabels(rows).filename.Some? && rows != []
    ensures var names := LoadLabels(rows).filename.value;
      LoadLabels(seq(|rows|, i requires 0 <= i < |rows| => LabelRow(names[i], rows[i].level))).filename.None?
  {
    var names := LoadLabels(rows).filename.value;
    var renamed := seq(|rows|, i requires 0 <= i < |rows| => LabelRow(names[i], rows[i].level));
    AppendedNameMatches(rows[0].image);
    assert renamed[0].image == rows[0].image + EXTENSION;
  }

  /**
   * Because '.' is a wildcard, a name that merely ends in "jpeg" without
   * the dot counts as already having the extension, and no column is added.
   */
  lemma DotIsWildcard()
    ensures ContainsPattern("10_leftjpeg")
    ensures LoadLabels([LabelRow("10_leftjpeg", 0)]).filename.None?
  {
    assert MatchesAt("10_leftjpeg", 6);
  }

  /** One matching entry is enough to suppress the column for every row, including rows without an extension. */
  lemma OneMatchSuppressesColumn()
    ensures LoadLabels([LabelRow("10_left.jpeg", 0), LabelRow("13_right", 2)]).filename.None?
  {
    assert MatchesAt("10_left.jpeg", 7);
  }

  /** A newline is the one character the wildcard does not match. */
  lemma NewlineIsNotMatched()
    ensures !ContainsPattern("\njpeg")
  {
    assert Search("\njpeg", 0).None?;
  }
}

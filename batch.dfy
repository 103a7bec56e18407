/**
 * `WatermarkTool.process_directory` and the parts of `add_watermark` that are
 * not image work: which directory entries are processed, the text, output
 * name and anchor each gets, and the processed-file count.
 */
module Batch {
  import opened Wrappers
  import opened Naming
  import opened Strings
  import Exif
  import Placement

  /**
   * One entry of the input directory, in enumeration order: its name, whether
   * it is a regular file, its EXIF tags (None when they cannot be read) and the
   * width and height of the image when the image library can open, draw on
   * and save it (None when any of that fails).
   */
  datatype FileEntry = FileEntry(
    name: string,
    isFile: bool,
    metadata: Option<map<string, string>>,
    image: Option<(int, int)>)

  /**
   * One call of `add_watermark`: the input file, the output file name inside
   * the output directory, the text, and the anchor at which the text was drawn
   * into the saved output (None when nothing was written).
   */
  datatype Job = Job(source: string, target: string, text: string, written: Option<(int, int)>)

  /** A completed run: where the outputs go, every call made, the count reported. */
  datatype Run = Run(outputDir: DirPath, jobs: seq<Job>, processedCount: nat)

  const DATE_PREFIX := "拍摄于 "
  const UNKNOWN_TEXT := "拍摄时间未知"

  /**
   * The watermark text for the result of `get_exif_date`: the date behind a
   * fixed prefix when there is one (a non-empty string, as Python tests it),
   * otherwise the unknown-date sentinel; the date can be read back from it.
   */
  function WatermarkText(dateText: Option<string>): (t: string)
    ensures t == UNKNOWN_TEXT <==> !(dateText.Some? && dateText.value != "")
    ensures t != UNKNOWN_TEXT ==>
              |DATE_PREFIX| <= |t| && t[..|DATE_PREFIX|] == DATE_PREFIX && t[|DATE_PREFIX|..] == dateText.value
  {
    if dateText.Some? && dateText.value != "" then
      var t := DATE_PREFIX + dateText.value;
      assert t[2] != UNKNOWN_TEXT[2];
      t
    else UNKNOWN_TEXT
  }

  /** The outcome of `add_watermark`: the anchor it drew at in an image it could save. */
  function DrawnAt(image: Option<(int, int)>, fontSize: int, placement: string): (r: Option<(int, int)>)
    ensures r.Some? <==> image.Some?
  {
    match image
    case None => None
    case Some((width, height)) => Some(Placement.Position(width, height, placement, fontSize))
  }

  /** `file_path.is_file() and file_path.suffix.lower() in self.supported_formats`. */
  predicate IsCandidate(e: FileEntry) {
    e.isFile && IsSupported(e.name)
  }

  /**
   * An entry is processed exactly when it is a regular file whose name ends,
   * ignoring ASCII case, with a supported suffix after at least one character.
   */
  lemma CandidateIff(e: FileEntry)
    ensures IsCandidate(e) <==>
            e.isFile && exists ext :: ext in SUPPORTED_FORMATS && |ext| < |e.name| && Lower(e.name[|e.name| - |ext|..]) == ext
  {
    SupportedIff(e.name);
  }

  /** The entries the loop processes, in enumeration order. */
  function Candidates(entries: seq<FileEntry>): (r: seq<FileEntry>)
    ensures |r| <= |entries|
  {
    if entries == [] then []
    else (if IsCandidate(entries[0]) then [entries[0]] else []) + Candidates(entries[1..])
  }

  /** The candidates are exactly the entries that are candidates. */
  lemma {:induction false} CandidatesExactly(entries: seq<FileEntry>)
    ensures forall e :: e in Candidates(entries) <==> e in entries && IsCandidate(e)
  {
    if entries != [] {
      CandidatesExactly(entries[1..]);
      assert entries == [entries[0]] + entries[1..];
    }
  }

  /** Appending an entry appends it to the candidates exactly when it is one. */
  lemma {:induction false} CandidatesAppend(entries: seq<FileEntry>, e: FileEntry)
    ensures Candidates(entries + [e]) == Candidates(entries) + if IsCandidate(e) then [e] else []
  {
    if entries != [] {
      assert (entries + [e])[1..] == entries[1..] + [e];
      CandidatesAppend(entries[1..], e);
    }
  }

  /** Extending a prefix of the entries by one extends its candidates by that entry, if it is one. */
  lemma CandidatesOfPrefix(entries: seq<FileEntry>, i: nat)
    requires i < |entries|
    ensures Candidates(entries[..i + 1])
            == Candidates(entries[..i]) + if IsCandidate(entries[i]) then [entries[i]] else []
  {
    assert entries[..i + 1] == entries[..i] + [entries[i]];
    CandidatesAppend(entries[..i], entries[i]);
  }

  /** The `add_watermark` call made for a processed entry. */
  function PlanJob(e: FileEntry, fontSize: int, placement: string): (j: Job)
    ensures j.source == e.name
    ensures IsSupported(e.name) ==> j.target != j.source && IsSupported(j.target)
    ensures j.text == UNKNOWN_TEXT <==> !(Exif.CaptureDateText(e.metadata).Some? && Exif.CaptureDateText(e.metadata).value != "")
    ensures j.written.Some? <==> e.image.Some?
  {
    var j := Job(e.name, OutputFileName(e.name), WatermarkText(Exif.CaptureDateText(e.metadata)),
                 DrawnAt(e.image, fontSize, placement));
    SupportedHasSuffix(e.name);
    if IsSupported(e.name) then OutputFileNameParts(e.name); j else j
  }

  /** The calls made for the processed entries, one each, in order. */
  function Plan(candidates: seq<FileEntry>, fontSize: int, placement: string): (r: seq<Job>)
    ensures |r| == |candidates|
    ensures forall k :: 0 <= k < |r| ==> r[k] == PlanJob(candidates[k], fontSize, placement)
  {
    seq(|candidates|, k requires 0 <= k < |candidates| => PlanJob(candidates[k], fontSize, placement))
  }

  /** The plan for one more processed entry ends with that entry's call. */
  lemma PlanAppend(candidates: seq<FileEntry>, e: FileEntry, fontSize: int, placement: string)
    ensures Plan(candidates + [e], fontSize, placement)
            == Plan(candidates, fontSize, placement) + [PlanJob(e, fontSize, placement)]
  {
  }

  /** One more entry of the directory: its call, if any, is appended to the plan so far. */
  lemma PlanStep(entries: seq<FileEntry>, i: nat, fontSize: int, placement: string, jobs: seq<Job>)
    requires i < |entries| && jobs == Plan(Candidates(entries[..i]), fontSize, placement)
    ensures IsCandidate(entries[i]) ==>
              jobs + [PlanJob(entries[i], fontSize, placement)] == Plan(Candidates(entries[..i + 1]), fontSize, placement)
    ensures !IsCandidate(entries[i]) ==> jobs == Plan(Candidates(entries[..i + 1]), fontSize, placement)
  {
    CandidatesOfPrefix(entries, i);
    PlanAppend(Candidates(entries[..i]), entries[i], fontSize, placement);
  }

  /**
   * The work for one processed entry: read its capture date, choose the text
   * and output name, and hand them to `add_watermark`.
   */
  method WatermarkFile(entry: FileEntry, fontSize: int, placement: string) returns (job: Job)
    ensures job == PlanJob(entry, fontSize, placement)
  {
    var dateText := Exif.GetExifDate(entry.metadata);
    var text := WatermarkText(dateText);
    var target := OutputFileName(entry.name);
    job := Job(entry.name, target, text, DrawnAt(entry.image, fontSize, placement));
  }

  /**
   * The directory loop. A missing input directory ends the run before anything
   * is created. Otherwise every regular file with a supported suffix gets one
   * `add_watermark` call, in enumeration order, and is counted whether or not
   * that call manages to write an output.
   */
  method ProcessDirectory(input: DirPath, inputExists: bool, entries: seq<FileEntry>, fontSize: int, placement: string)
    returns (run: Option<Run>)
    ensures !inputExists <==> run.None?
    ensures run.Some? ==> run.value.outputDir == OutputDir(input)
    ensures run.Some? ==> run.value.processedCount == |Candidates(entries)| == |run.value.jobs|
    ensures run.Some? ==> run.value.jobs == Plan(Candidates(entries), fontSize, placement)
    ensures run.Some? ==> forall k :: 0 <= k < |run.value.jobs| ==>
              run.value.jobs[k] == PlanJob(Candidates(entries)[k], fontSize, placement)
  {
    if !inputExists {
      return None;
    }
    var outputDir := OutputDir(input);
    var processedCount := 0;
    var jobs: seq<Job> := [];
    for i := 0 to |entries|
      invariant jobs == Plan(Candidates(entries[..i]), fontSize, placement)
      invariant processedCount == |jobs|
    {
      var entry := entries[i];
      PlanStep(entries, i, fontSize, placement, jobs);
      if IsCandidate(entry) {
        var job := WatermarkFile(entry, fontSize, placement);
        jobs := jobs + [job];
        processedCount := processedCount + 1;
      }
    }
    assert entries[..|entries|] == entries;
    return Some(Run(outputDir, jobs, processedCount));
  }

  /**
   * The count depends only on names and file kinds: tags and whether the
   * image work succeeds never change it.
   */
  lemma {:induction false} CountIgnoresOutcomes(a: seq<FileEntry>, b: seq<FileEntry>)
    requires |a| == |b|
    requires forall i :: 0 <= i < |a| ==> a[i].name == b[i].name && a[i].isFile == b[i].isFile
    ensures |Candidates(a)| == |Candidates(b)|
  {
    if a != [] {
      CountIgnoresOutcomes(a[1..], b[1..]);
    }
  }

  /** The text of a processed file is the prefixed date when it has one and the sentinel when not. */
  lemma TextOfCaptureDate(metadata: Option<map<string, string>>)
    ensures var date := Exif.CaptureDateText(metadata);
            WatermarkText(date) == if date.Some? then DATE_PREFIX + date.value else UNKNOWN_TEXT
  {
  }
}

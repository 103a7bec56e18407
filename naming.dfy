/**
 * The names `process_directory` works with: pathlib's `suffix` and `stem` of
 * a file name, the case-insensitive filter on supported suffixes, the output
 * file name and the output directory.
 */
module Naming {
  import opened Strings

  /** `self.supported_formats`, set once by the constructor and never changed. */
  const SUPPORTED_FORMATS: set<string> := {".jpg", ".jpeg", ".png", ".tiff", ".tif"}

  const WATERMARK_TAG := "_watermark"

  /** `name.rfind('.')`: the index of the last '.', or -1 when there is none. */
  function LastDot(name: string): (i: int)
    ensures -1 <= i < |name|
    ensures i >= 0 ==> name[i] == '.'
    ensures forall j :: i < j < |name| ==> name[j] != '.'
  {
    if name == [] then -1
    else if name[|name| - 1] == '.' then |name| - 1
    else LastDot(name[..|name| - 1])
  }

  /** pathlib counts a last '.' as starting a suffix unless it is the first or the last character. */
  predicate HasSuffix(name: string) {
    0 < LastDot(name) < |name| - 1
  }

  /** `PurePath.suffix` of a file name. */
  function Suffix(name: string): string {
    if HasSuffix(name) then name[LastDot(name)..] else ""
  }

  /** `PurePath.stem` of a file name. */
  function Stem(name: string): string {
    if HasSuffix(name) then name[..LastDot(name)] else name
  }

  /**
   * A name is its stem followed by its suffix; a non-empty suffix is a '.'
   * followed by at least one character and no further '.', after a non-empty stem.
   */
  lemma StemAndSuffix(name: string)
    ensures Stem(name) + Suffix(name) == name
    ensures Suffix(name) == [] || (Stem(name) != [] && IsExtension(Suffix(name)))
    ensures Suffix(name) != [] <==> HasSuffix(name)
  {
  }

  /** '.' followed by at least one character, none of them a '.'. */
  predicate IsExtension(e: string) {
    |e| >= 2 && e[0] == '.' && forall j :: 1 <= j < |e| ==> e[j] != '.'
  }

  /** `file_path.suffix.lower() in self.supported_formats`. */
  predicate IsSupported(name: string) {
    Lower(Suffix(name)) in SUPPORTED_FORMATS
  }

  /** Only a name with a suffix is supported: the empty suffix is not among the supported ones. */
  lemma SupportedHasSuffix(name: string)
    ensures IsSupported(name) ==> HasSuffix(name)
  {
  }

  lemma SupportedAreExtensions()
    ensures forall e :: e in SUPPORTED_FORMATS ==> IsExtension(e) && Lower(e) == e
  {
  }

  /** When some ending of name is an extension, the last '.' is where it starts. */
  lemma LastDotOfEnding(name: string, k: nat)
    requires k < |name| && IsExtension(name[k..])
    ensures LastDot(name) == k
  {
    var i := LastDot(name);
    assert name[k] == '.';
  }

  /**
   * A name is supported exactly when it ends, ignoring ASCII case, with one of
   * the supported suffixes and has at least one character before it.
   */
  lemma SupportedIff(name: string)
    ensures IsSupported(name) <==>
            exists e :: e in SUPPORTED_FORMATS && |e| < |name| && Lower(name[|name| - |e|..]) == e
  {
    SupportedAreExtensions();
    if IsSupported(name) {
      var e := Lower(Suffix(name));
      assert Suffix(name) == name[|name| - |e|..];
    }
    if exists e :: e in SUPPORTED_FORMATS && |e| < |name| && Lower(name[|name| - |e|..]) == e {
      var e :| e in SUPPORTED_FORMATS && |e| < |name| && Lower(name[|name| - |e|..]) == e;
      var k := |name| - |e|;
      var ending := name[k..];
      assert ending[0] == '.' by {
        assert LowerChar(ending[0]) == e[0];
      }
      forall j | 1 <= j < |ending|
        ensures ending[j] != '.'
      {
        assert LowerChar(ending[j]) == e[j];
      }
      LastDotOfEnding(name, k);
      assert Suffix(name) == ending;
    }
  }

  /** `f"{file_path.stem}_watermark{file_path.suffix}"`. */
  function OutputFileName(name: string): (r: string)
    ensures |r| == |name| + |WATERMARK_TAG|
  {
    StemAndSuffix(name);
    Stem(name) + WATERMARK_TAG + Suffix(name)
  }

  /**
   * The output name of a name with a suffix keeps that suffix and has the
   * input's stem followed by "_watermark" as its stem; so it is supported
   * exactly when the input is, and it never equals the input.
   */
  lemma OutputFileNameParts(name: string)
    requires HasSuffix(name)
    ensures Suffix(OutputFileName(name)) == Suffix(name)
    ensures Stem(OutputFileName(name)) == Stem(name) + WATERMARK_TAG
    ensures IsSupported(OutputFileName(name)) == IsSupported(name)
    ensures OutputFileName(name) != name
  {
    var out := OutputFileName(name);
    var stem, suffix := Stem(name), Suffix(name);
    var k := |stem| + |WATERMARK_TAG|;
    StemAndSuffix(name);
    assert out[k..] == suffix;
    LastDotOfEnding(out, k);
  }

  /** A directory path: the anchor (such as "/" or "") and its name components. */
  datatype DirPath = DirPath(anchor: string, parts: seq<string>)

  /** `PurePath.name`: the last component, or "" for a bare anchor. */
  function Name(p: DirPath): string {
    if p.parts == [] then "" else p.parts[|p.parts| - 1]
  }

  /** `PurePath.parent`: the path without its last component; a bare anchor is its own parent. */
  function Parent(p: DirPath): DirPath {
    if p.parts == [] then p else DirPath(p.anchor, p.parts[..|p.parts| - 1])
  }

  /** `p / name`. */
  function Child(p: DirPath, name: string): DirPath {
    DirPath(p.anchor, p.parts + [name])
  }

  /** `input_path.parent / f"{input_path.name}_watermark"`. */
  function OutputDir(input: DirPath): (r: DirPath)
    ensures r.anchor == input.anchor
    ensures Name(r) == Name(input) + WATERMARK_TAG
  {
    Child(Parent(input), Name(input) + WATERMARK_TAG)
  }

  /**
   * The output directory is never the input directory; it is named after it
   * with "_watermark" appended, and sits beside it, or inside it when the
   * input is a bare anchor such as "/" or ".".
   */
  lemma OutputDirPlacement(input: DirPath)
    ensures OutputDir(input) != input
    ensures Name(OutputDir(input)) == Name(input) + WATERMARK_TAG
    ensures input.parts != [] ==> Parent(OutputDir(input)) == Parent(input)
    ensures input.parts == [] ==> Parent(OutputDir(input)) == input
  {
    var out := OutputDir(input).parts;
    assert out[..|out| - 1] == Parent(input).parts;
    if input.parts != [] {
      assert |out[|out| - 1]| != |input.parts[|input.parts| - 1]|;
    }
  }
}

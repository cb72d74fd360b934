/**
  The output file name of the converter's command line: an explicit second
  operand, or else the input name with its last extension replaced by
  `.nrrd` (when the program's own name mentions `nrrd`) or `.npz`.
 */
module OutputNaming {
  import opened Wrappers

  /** `s.rfind(c)`: the last index holding `c`, or -1. */
  function LastIndexOf(s: string, c: char): (r: int)
    ensures -1 <= r < |s|
    ensures r >= 0 ==> s[r] == c
    ensures forall j :: r < j < |s| ==> s[j] != c
  {
    if s == [] then -1
    else if s[|s| - 1] == c then |s| - 1
    else LastIndexOf(s[..|s| - 1], c)
  }

  predicate OccursAt(s: string, sub: string, i: int) {
    0 <= i && i + |sub| <= |s| && s[i..i + |sub|] == sub
  }

  /** `sub in s` on strings. */
  predicate Contains(s: string, sub: string) {
    exists i | 0 <= i <= |s| - |sub| :: OccursAt(s, sub, i)
  }

  predicate EndsWith(s: string, suffix: string) {
    |suffix| <= |s| && s[|s| - |suffix|..] == suffix
  }

  /** The extension chosen by the program's name: a dot and no other, and
      NRRD exactly when the program's name mentions it. */
  function Extension(program: string): (r: string)
    ensures |r| > 1 && r[0] == '.' && '.' !in r[1..]
    ensures EndsWith(r, "nrrd") <==> Contains(program, "nrrd")
  {
    if Contains(program, "nrrd") then
      assert ".nrrd"[1..] == "nrrd";
      ".nrrd"
    else
      assert ".npz"[1..] == "npz";
      assert ".npz"[0] != 'n';
      ".npz"
  }

  /** The input name without its last extension; a name whose only dot is
      its first character keeps it. */
  function Stem(name: string): (r: string)
    ensures r <= name
    ensures r == name <==> forall j :: 0 < j < |name| ==> name[j] != '.'
    ensures r != name ==> 0 < |r| && name[|r|] == '.' && forall j :: |r| < j < |name| ==> name[j] != '.'
  {
    var idx := LastIndexOf(name, '.');
    if idx > 0 then name[..idx] else name
  }

  datatype UsageFailure = NeedInput

  /** The output name for `argv`; fewer than two operands raise. */
  function OutputName(argv: seq<string>): (r: Result<string, UsageFailure>)
    ensures r.Failure? <==> |argv| < 2
    ensures |argv| > 2 ==> r == Success(argv[2])
    ensures |argv| == 2 ==>
      && (EndsWith(r.value, ".nrrd") <==> Contains(argv[0], "nrrd"))
      && (EndsWith(r.value, ".npz") <==> !Contains(argv[0], "nrrd"))
      && Stem(argv[1]) <= r.value
      && |r.value| == |Stem(argv[1])| + |Extension(argv[0])|
  {
    if |argv| < 2 then Failure(NeedInput)
    else if |argv| > 2 then Success(argv[2])
    else
      var ext := Extension(argv[0]);
      var name := Stem(argv[1]) + ext;
      assert name[|name| - |ext|..] == ext;
      assert name[|name| - 1] == ext[|ext| - 1];
      Success(name)
  }

  /** A stem followed by one extension has that extension as its last. */
  lemma LastDotOfDerived(stem: string, ext: string)
    requires ext != [] && ext[0] == '.' && '.' !in ext[1..]
    ensures LastIndexOf(stem + ext, '.') == |stem|
  {
    var s := stem + ext;
    var r := LastIndexOf(s, '.');
    assert s[|stem|] == '.';
  }

  /** Deriving a name from a derived name removes just the added extension:
      the stem is what it was. */
  lemma DerivedNameKeepsStem(program: string, input: string)
    requires input != ""
    ensures Stem(Stem(input) + Extension(program)) == Stem(input)
  {
    var stem := Stem(input);
    LastDotOfDerived(stem, Extension(program));
    assert (stem + Extension(program))[..|stem|] == stem;
  }

  /** Running the converter's naming on its own output names the same file. */
  lemma OutputNameIdempotent(program: string, input: string)
    requires input != ""
    ensures OutputName([program, OutputName([program, input]).value]) == OutputName([program, input])
  {
  }

  /** A dot in a directory name is taken for the extension when the file name
      itself has none: `run.1/scan` loses `.1/scan`. */
  lemma StemCrossesDirectory()
    ensures Stem("run.1/scan") == "run"
  {
    var name := "run.1/scan";
    var r := Stem(name);
    assert name[3] == '.';
    assert r != name;
    assert |r| == 3;
  }

  /** The input name without the extension of its last path component: only
      a dot after the last `/`, and not first in the file name, starts an
      extension. */
  function StemOfFile(name: string): (r: string)
    ensures r <= name
    ensures forall j :: |r| <= j < |name| ==> name[j] != '/'
    ensures r == name <==> forall j :: LastIndexOf(name, '/') + 1 < j < |name| ==> name[j] != '.'
    ensures r != name ==> name[|r|] == '.' && forall j :: |r| < j < |name| ==> name[j] != '.'
  {
    var idx := LastIndexOf(name, '.');
    if idx > LastIndexOf(name, '/') + 1 then name[..idx] else name
  }

  /** Without directories the two stems agree. */
  lemma StemOfFileWithoutDirectories(name: string)
    requires '/' !in name
    ensures StemOfFile(name) == Stem(name)
  {
  }

  /** With the directory taken into account, `run.1/scan` keeps its name. */
  lemma StemOfFileKeepsDirectory()
    ensures StemOfFile("run.1/scan") == "run.1/scan"
  {
    var name := "run.1/scan";
    assert name[5] == '/';
    assert LastIndexOf(name, '/') == 5;
  }
}

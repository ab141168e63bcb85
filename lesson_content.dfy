/**
 * The lesson-content route (app/api/lesson-content/route.ts): the guards
 * on the `file` query parameter, the choice of course folder, and the path
 * the lesson is read from. The file system is a map from normalised paths
 * (lists of segments) to contents.
 */
module LessonContent {
  import opened Wrappers
  import opened JsString

  datatype Response =
    | Content(content: string)
    | Error(status: int, message: string)

  const LessonSuffix := "_lesson.md"
  const MathsMarker := "_maths_"

  /** `file.includes('_maths_') ? 'maths' : 'computerscience'`. */
  function CourseFolder(file: string): (folder: string)
    ensures folder == "maths" <==> Includes(file, MathsMarker)
    ensures folder != "maths" ==> folder == "computerscience"
  {
    if Includes(file, MathsMarker) then "maths" else "computerscience"
  }

  /** A path segment that normalisation keeps as it is. */
  predicate IsPlainSegment(s: string) {
    s != "" && s != "." && s != ".." && '/' !in s
  }

  /** The segments of a relative path: empty and "." segments vanish. */
  function Segments(path: string): (segs: seq<string>)
    ensures forall i :: 0 <= i < |segs| ==> segs[i] != "" && segs[i] != "." && '/' !in segs[i]
  {
    DropEmpty(Split(path, '/'))
  }

  function DropEmpty(parts: seq<string>): (segs: seq<string>)
    requires forall i :: 0 <= i < |parts| ==> '/' !in parts[i]
    ensures |segs| <= |parts|
    ensures forall i :: 0 <= i < |segs| ==> segs[i] != "" && segs[i] != "." && '/' !in segs[i]
    ensures (forall i :: 0 <= i < |parts| ==> parts[i] != "" && parts[i] != ".") ==> segs == parts
  {
    if parts == [] then []
    else
      var rest := DropEmpty(parts[1..]);
      if parts[0] == "" || parts[0] == "." then rest else [parts[0]] + rest
  }

  /**
   * `path.join`'s normalisation applied to `segs` below the absolute
   * directory `dir`: ".." removes the last segment (and stays at the root
   * when there is none), anything else is appended.
   */
  function Resolve(dir: seq<string>, segs: seq<string>): (r: seq<string>)
    ensures (forall i :: 0 <= i < |segs| ==> IsPlainSegment(segs[i])) ==> r == dir + segs
    decreases |segs|
  {
    if segs == [] then
      assert dir + segs == dir;
      dir
    else
      var next := if segs[0] == ".." then (if dir == [] then [] else dir[..|dir| - 1]) else dir + [segs[0]];
      assert segs[0] != ".." ==> dir + segs == next + segs[1..];
      Resolve(next, segs[1..])
  }

  /** The instructions directory of a course folder, below the working directory `cwd`. */
  function InstructionsDir(cwd: seq<string>, folder: string): seq<string> {
    cwd + ["public", "data", folder, "instructions"]
  }

  /** `join(process.cwd(), 'public', 'data', courseFolder, 'instructions', file)`. */
  function ReadPath(cwd: seq<string>, file: string): seq<string> {
    Resolve(InstructionsDir(cwd, CourseFolder(file)), Segments(file))
  }

  /**
   * `GET /api/lesson-content?file=…`. `file` is `None` when the parameter
   * is absent; `files` stands for the disk.
   */
  function Get(file: Option<string>, cwd: seq<string>, files: map<seq<string>, string>): (r: Response)
    ensures (file.None? || file.value == "") ==> r == Error(400, "File parameter required")
    ensures file.Some? && file.value != "" && !Includes(file.value, LessonSuffix) ==> r == Error(400, "Invalid file")
    ensures r.Content? <==>
      file.Some? && Includes(file.value, LessonSuffix) && ReadPath(cwd, file.value) in files
    ensures r.Content? ==> r.content == files[ReadPath(cwd, file.value)]
    ensures file.Some? && Includes(file.value, LessonSuffix) && ReadPath(cwd, file.value) !in files ==>
      r == Error(404, "Content not found")
  {
    if file.None? || file.value == "" then Error(400, "File parameter required")
    else if !Includes(file.value, LessonSuffix) then Error(400, "Invalid file")
    else
      var path := ReadPath(cwd, file.value);
      if path in files then Content(files[path]) else Error(404, "Content not found")
  }

  /** A plain lesson file name is read from its course's instructions directory. */
  lemma PlainNameStaysInInstructions(cwd: seq<string>, name: string)
    requires IsPlainSegment(name)
    ensures ReadPath(cwd, name) == InstructionsDir(cwd, CourseFolder(name)) + [name]
  {
    assert Split(name, '/') == [name] by {
      assert Join([name], '/') == name;
      JoinSplit([name], '/');
    }
  }

  /** "../../name" splits into two parent steps and the name. */
  lemma TraversalSegments(name: string)
    requires IsPlainSegment(name)
    ensures Segments("../../" + name) == ["..", "..", name]
  {
    var file := "../../" + name;
    assert Join([name], '/') == name;
    assert Join(["..", name], '/') == ".." + "/" + name;
    assert Join(["..", "..", name], '/') == ".." + "/" + (".." + "/" + name);
    assert Join(["..", "..", name], '/') == file;
    JoinSplit(["..", "..", name], '/');
  }

  /** Putting "../../" in front keeps the lesson suffix in the name. */
  lemma PrefixKeepsSuffix(name: string)
    requires Includes(name, LessonSuffix)
    ensures Includes("../../" + name, LessonSuffix)
  {
    var file := "../../" + name;
    var k :| 0 <= k <= |name| && IsPrefix(LessonSuffix, name[k..]);
    assert file[6 + k..] == name[k..];
    IncludesAt(file, LessonSuffix, 6 + k);
  }

  /** Two parent steps climb out of the last two directories. */
  lemma ClimbTwo(dir: seq<string>, a: string, b: string, name: string)
    requires IsPlainSegment(name)
    ensures Resolve(dir + [a, b], ["..", "..", name]) == dir + [name]
  {
    var d := dir + [a, b];
    assert d[..|d| - 1] == dir + [a];
    assert (dir + [a])[..|dir|] == dir;
    assert ["..", "..", name][1..] == ["..", name];
    assert ["..", name][1..] == [name];
  }

  /**
   * The only guard on the name is the substring test, so "../../" in
   * front of a lesson name passes it and the read leaves the
   * instructions directory for `public/data` itself.
   */
  lemma TraversalIsAccepted(cwd: seq<string>, name: string, files: map<seq<string>, string>)
    requires IsPlainSegment(name) && Includes(name, LessonSuffix)
    requires cwd + ["public", "data", name] in files
    ensures Get(Some("../../" + name), cwd, files) == Content(files[cwd + ["public", "data", name]])
  {
    var file := "../../" + name;
    PrefixKeepsSuffix(name);
    TraversalSegments(name);
    var folder := CourseFolder(file);
    assert InstructionsDir(cwd, folder) == (cwd + ["public", "data"]) + [folder, "instructions"];
    ClimbTwo(cwd + ["public", "data"], folder, "instructions", name);
    assert (cwd + ["public", "data"]) + [name] == cwd + ["public", "data", name];
  }
}

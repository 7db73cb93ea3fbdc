/** Filesystem paths as the build script handles them through `std::path`. */
module Paths {
  import opened Wrappers

  /** One path component as `Path::components` yields it: a directory or file
      name without separators. */
  type Component = string

  /** A path is the sequence of its components. `Path::join` with a relative
      path is concatenation, and `Path` equality (component-wise) is sequence
      equality. */
  type Path = seq<Component>

  /** `Path::file_name`: the last component, except that a path ending in
      `..` (or the empty path) has none. */
  function FileName(p: Path): (r: Option<Component>)
    ensures r.Some? <==> p != [] && p[|p| - 1] != ".."
    ensures r.Some? ==> r.value == p[|p| - 1]
  {
    if p == [] || p[|p| - 1] == ".." then None else Some(p[|p| - 1])
  }

  /** The index of the last occurrence of `c` in `s`, if there is one. */
  function LastIndexOf(s: string, c: char): (r: Option<nat>)
    ensures r.Some? ==> r.value < |s| && s[r.value] == c
    ensures r.Some? ==> forall j :: r.value < j < |s| ==> s[j] != c
    ensures r.None? ==> forall j :: 0 <= j < |s| ==> s[j] != c
  {
    if s == [] then None
    else if s[|s| - 1] == c then Some(|s| - 1)
    else LastIndexOf(s[..|s| - 1], c)
  }

  /** The standard library's split of a file name at its last dot into the
      part before and the part after. `..`, and a name whose only dot is its
      first character, have no "after" part; a name without any dot has no
      "before" part. */
  function SplitAtDot(name: Component): (Option<string>, Option<string>)
  {
    if name == ".." then (Some(name), None)
    else match LastIndexOf(name, '.')
      case None => (None, Some(name))
      case Some(i) => if i == 0 then (Some(name), None) else (Some(name[..i]), Some(name[i + 1..]))
  }

  /** `Path::file_stem`: the file name without its extension. */
  function FileStem(p: Path): Option<string>
  {
    match FileName(p)
    case None => None
    case Some(name) =>
      var (before, after) := SplitAtDot(name);
      if before.Some? then before else after
  }

  /** `Path::extension`: what follows the last dot of the file name. */
  function Extension(p: Path): Option<string>
  {
    match FileName(p)
    case None => None
    case Some(name) =>
      var (before, after) := SplitAtDot(name);
      if before.Some? then after else None
  }

  /** `str::starts_with`. */
  predicate StartsWith(s: string, prefix: string)
  {
    |prefix| <= |s| && s[..|prefix|] == prefix
  }

  /** Stem and extension are the two halves of the file name around its last
      dot: neither is empty-stemmed, and the extension holds no dot. */
  lemma {:induction false} StemDotExtension(p: Path, ext: string)
    requires Extension(p) == Some(ext)
    ensures FileStem(p).Some? && FileStem(p).value != []
    ensures FileName(p) == Some(FileStem(p).value + "." + ext)
    ensures forall j :: 0 <= j < |ext| ==> ext[j] != '.'
  {
    var name := FileName(p).value;
    var i := LastIndexOf(name, '.').value;
    assert name == name[..i] + "." + name[i + 1..];
  }

  /** A file named `<stem>.h` with a non-empty stem has that stem and the
      extension `h`, wherever it lies. */
  lemma {:induction false} HeaderFileParts(dir: Path, stem: string)
    requires stem != []
    ensures FileStem(dir + [stem + ".h"]) == Some(stem)
    ensures Extension(dir + [stem + ".h"]) == Some("h")
  {
    var name := stem + ".h";
    assert name[|name| - 1] == 'h' && name[|name| - 2] == '.';
    assert name[..|name| - 1][|name| - 2] == '.';
    assert LastIndexOf(name, '.') == Some(|stem|);
    assert name[..|stem|] == stem;
    assert name[|stem| + 1..] == "h";
  }

  /** Joining a non-empty relative path onto a base leaves the file name, and
      so the stem and the extension, those of the relative path. */
  lemma FileNameOfJoin(base: Path, rel: Path)
    requires rel != []
    ensures FileName(base + rel) == FileName(rel)
    ensures FileStem(base + rel) == FileStem(rel)
    ensures Extension(base + rel) == Extension(rel)
  {
  }

  /** A file name that does not start with a dot keeps its first character
      in its stem. */
  lemma StemKeepsFirstChar(p: Path)
    requires FileName(p).Some? && FileName(p).value != [] && FileName(p).value[0] != '.'
    ensures FileStem(p).Some? && FileStem(p).value != []
    ensures FileStem(p).value[0] == FileName(p).value[0]
  {
  }

  /** Every file whose name starts with `io` has a stem starting with `io`. */
  lemma IoNameIoStem(p: Path)
    requires FileName(p).Some? && StartsWith(FileName(p).value, "io")
    ensures FileStem(p).Some? && StartsWith(FileStem(p).value, "io")
  {
  }
}

/** The two `pathlib.PurePath` properties the code reads: `name` (the last
    component) and `suffix` (its extension), with `/` as the separator. */
module Paths {
  import opened Base
  import opened Text

  /** `Path(p).name`: everything after the last `/`. */
  function Basename(p: string): (r: string)
    ensures '/' !in r
    ensures |r| <= |p| && p[|p| - |r|..] == r
    ensures '/' !in p ==> r == p
    ensures '/' in p ==> |r| < |p| && p[|p| - |r| - 1] == '/'
  {
    match LastIndexOf(p, '/')
    case None => p
    case Some(i) => p[i + 1..]
  }

  /** The name of `dir/name` is `name`, whatever the directory. */
  lemma BasenameOfJoin(dir: string, name: string)
    requires '/' !in name
    ensures Basename(dir + "/" + name) == name
  {
    var p := dir + "/" + name;
    var r := Basename(p);
    assert p[|dir|] == '/';
    assert forall j :: |dir| < j < |p| ==> p[j] == name[j - |dir| - 1];
    assert p[|dir| + 1..] == name;
  }

  /** `Path(p).suffix` for a file name: from the last `.` on, but only when
      that dot is neither the first nor the last character of the name. */
  function Suffix(name: string): (r: string)
    ensures r == "" || (r[0] == '.' && 1 < |r| < |name| && name[|name| - |r|..] == r)
    ensures r != "" ==> '.' !in r[1..]
    ensures r == "" <==> (LastIndexOf(name, '.').None? || !(0 < LastIndexOf(name, '.').value < |name| - 1))
  {
    match LastIndexOf(name, '.')
    case None => ""
    case Some(i) =>
      if 0 < i < |name| - 1 then name[i..] else ""
  }

  /** A name with a non-empty stem and a non-empty, dot-free extension has
      that extension as its suffix. */
  lemma SuffixOfDotted(stem: string, ext: string)
    requires stem != "" && ext != "" && '.' !in ext
    ensures Suffix(stem + "." + ext) == "." + ext
  {
    var name := stem + "." + ext;
    assert name[|stem|] == '.';
    assert forall j :: |stem| < j < |name| ==> name[j] == ext[j - |stem| - 1];
    var i := LastIndexOf(name, '.').value;
    assert i == |stem|;
    assert name[|stem|..] == "." + ext;
  }

  /** `file_path.suffix.lower()`, the key every extension table is read with. */
  function Extension(p: string): string
  {
    Lower(Suffix(Basename(p)))
  }
}

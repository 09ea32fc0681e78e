/** File-system paths as sequences of components. `PathBuf::join` with a
    relative argument appends components. Every joined argument here is one
    relative, non-empty component without separators; an absolute argument
    (which would replace the base), an argument holding `/` (which would add
    several components) and an empty one are not modelled. */
module Paths {

  import opened Wrappers

  type Path = seq<string>

  /** `base.join(name)` for one relative component. */
  function Join(base: Path, name: string): (p: Path)
    ensures |p| == |base| + 1 && p[..|base|] == base && p[|base|] == name
  {
    base + [name]
  }

  /** `base.join(rel)` for a relative path of several components. */
  function JoinPath(base: Path, rel: Path): (p: Path)
    ensures |p| == |base| + |rel| && p[..|base|] == base && p[|base|..] == rel
  {
    base + rel
  }

  predicate IsPrefix(p: Path, q: Path) {
    |p| <= |q| && q[..|p|] == p
  }

  /** `Path::parent`: the path without its last component; none for the empty path. */
  function Parent(p: Path): (r: Option<Path>)
    ensures r.Some? <==> p != []
    ensures r.Some? ==> Join(r.value, p[|p| - 1]) == p
  {
    if p == [] then None else Some(p[..|p| - 1])
  }

  /** `path.display()`: the components joined with '/'. */
  function Display(p: Path): string {
    if p == [] then ""
    else if |p| == 1 then p[0]
    else p[0] + "/" + Display(p[1..])
  }

  /** `<root>/workloads/<language>/<name>`, the place of one workload below a
      repository or an experiment directory. */
  function WorkloadDir(root: Path, language: string, name: string): (p: Path)
    ensures |p| == |root| + 3 && IsPrefix(root, p)
    ensures p[|root|..] == ["workloads", language, name]
  {
    Join(Join(Join(root, "workloads"), language), name)
  }
}

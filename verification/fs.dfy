/**
 * An abstract filesystem: a directory maps entry names to nodes. Roots such
 * as the destination of `add`, the base path of `init` and the active and
 * deactivated skill roots are directory contents, `map<string, Node>`.
 */
module Fs {
  import opened Wrappers

  datatype Node = File(content: string) | Dir(children: map<string, Node>)

  /** The manifest every skill directory carries. */
  const ManifestName: string := "SKILL.md"

  /** The node reached by joining `path` onto `n`, if there is one. */
  function Resolve(n: Node, path: seq<string>): (r: Option<Node>)
    ensures path == [] ==> r == Some(n)
    ensures path != [] && !(n.Dir? && path[0] in n.children) ==> r == None
  {
    if path == [] then Some(n)
    else if n.Dir? && path[0] in n.children then Resolve(n.children[path[0]], path[1..])
    else None
  }

  /** `exists(join(dir, "SKILL.md"))`: true for a manifest file, and for a directory of that name too. */
  predicate HasManifest(n: Node) {
    n.Dir? && ManifestName in n.children
  }
}

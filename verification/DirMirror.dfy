/**
 The directory mirror of the plugin installer
 (integrations/alga-openclaw-plugin/install.js).  A tree is a value; the methods
 return the destination as they leave it.  Directory listings come in no
 particular order.
 */
module DirMirror {

  import opened Common

  type Bytes = seq<int>

  datatype Node = File(bytes: Bytes) | Dir(entries: map<string, Node>)

  /** The destination and the "changed" flag, or the exception of a file system
      call: a directory where a file is expected, or the other way round. */
  datatype Outcome = Done(node: Node, changed: bool) | Thrown

  /** A file of one tree lies where the other has a directory. */
  predicate Clash(src: Node, dst: Node)
    decreases src
  {
    match (src, dst)
    case (File(_), File(_)) => false
    case (Dir(s), Dir(d)) => exists k :: k in s && k in d && Clash(s[k], d[k])
    case _ => true
  }

  /** isFileEqual; both paths exist and are files. */
  predicate FileEqual(a: Bytes, b: Bytes) { |a| == |b| && a == b }

  /** copyIfChanged */
  method CopyIfChanged(src: Bytes, dst: Option<Node>) returns (r: Outcome)
    ensures r == if dst.Some? && dst.value.Dir? then Thrown else Done(File(src), dst != Some(File(src)))
  {
    match dst {
      case None => return Done(File(src), true);
      case Some(File(bytes)) =>
        if FileEqual(src, bytes) {
          return Done(File(bytes), false);
        }
        return Done(File(src), true);
      case Some(Dir(_)) => return Thrown;
    }
  }

  /** copyDirRecursive into a directory that was just made. */
  method CopyDirRecursive(tree: Node) returns (dst: map<string, Node>)
    requires tree.Dir?
    ensures dst == tree.entries
    decreases tree
  {
    var src := tree.entries;
    dst := map[];
    var left := src.Keys;
    while left != {}
      invariant left <= src.Keys
      invariant dst.Keys == src.Keys - left
      invariant forall k :: k in dst ==> dst[k] == src[k]
      decreases left
    {
      var name :| name in left;
      match src[name] {
        case Dir(_) =>
          var copy := CopyDirRecursive(src[name]);
          dst := dst[name := Dir(copy)];
        case File(bytes) =>
          dst := dst[name := File(bytes)];
      }
      left := left - {name};
    }
  }

  /** copyDirIfChanged; `dst` is `None` when nothing exists at the destination. */
  method CopyDirIfChanged(tree: Node, dst: Option<Node>) returns (r: Outcome)
    requires tree.Dir?
    ensures r == Mirrored(tree, dst)
    decreases tree
  {
    var src := tree.entries;
    if dst.None? {
      var made := CopyDirRecursive(tree);
      return Done(Dir(made), true);
    }
    if dst.value.File? {
      return Thrown;
    }
    var d := dst.value.entries;
    var out, changed := d, false;
    var left := src.Keys;
    while left != {}
      invariant left <= src.Keys
      invariant out.Keys == d.Keys + (src.Keys - left)
      invariant forall k :: k in src && k !in left ==> out[k] == src[k] && !(k in d && Clash(src[k], d[k]))
      invariant forall k :: k in out && (k in left || k !in src) ==> k in d && out[k] == d[k]
      invariant changed <==> exists k :: k in src && k !in left && !(k in d && d[k] == src[k])
      decreases left
    {
      var name :| name in left;
      var there := if name in d then Some(d[name]) else None;
      var step;
      match src[name] {
        case Dir(_) => step := CopyDirIfChanged(src[name], there);
        case File(bytes) => step := CopyIfChanged(bytes, there);
      }
      if step.Thrown? {
        assert name in d && Clash(src[name], d[name]);
        return Thrown;
      }
      out := out[name := step.node];
      if step.changed {
        changed := true;
      }
      left := left - {name};
    }
    var kept, removed := RemoveExtra(src, d, out);
    r := Done(Dir(kept), changed || removed);
  }

  /** The loop that removes what the source does not have. */
  method RemoveExtra(src: map<string, Node>, d: map<string, Node>, mixed: map<string, Node>)
    returns (out: map<string, Node>, removed: bool)
    requires mixed.Keys == d.Keys + src.Keys
    requires forall k :: k in src ==> mixed[k] == src[k]
    ensures out == src
    ensures removed <==> exists k :: k in d && k !in src
  {
    out, removed := mixed, false;
    var extra := d.Keys;
    while extra != {}
      invariant extra <= d.Keys
      invariant src.Keys <= out.Keys <= src.Keys + extra
      invariant forall k :: k in out && k in src ==> out[k] == src[k]
      invariant removed <==> exists k :: k in d && k !in extra && k !in src
      decreases extra
    {
      var name :| name in extra;
      if name !in src {
        out := out - {name};
        removed := true;
      }
      extra := extra - {name};
    }
  }

  /** What the mirror is for: the destination becomes the source, the flag tells
      whether it had to change, and a clash is an error. */
  function Mirrored(src: Node, dst: Option<Node>): Outcome {
    if dst.None? then Done(src, true)
    else if Clash(src, dst.value) then Thrown
    else Done(src, dst.value != src)
  }

  /** What lies at a path of a tree. */
  function At(n: Node, path: seq<string>): Option<Node>
    decreases |path|
  {
    if path == [] then Some(n)
    else if n.Dir? && path[0] in n.entries then At(n.entries[path[0]], path[1..])
    else None
  }

  /** At this path one tree has a file and the other a directory. */
  predicate Meets(src: Node, dst: Node, path: seq<string>) {
    && At(src, path).Some? && At(dst, path).Some?
    && At(src, path).value.File? != At(dst, path).value.File?
  }

  lemma {:induction false} MeetsBelow(s: map<string, Node>, d: map<string, Node>, k: string, path: seq<string>)
    requires k in s && k in d
    ensures Meets(Dir(s), Dir(d), [k] + path) <==> Meets(s[k], d[k], path)
  {
    assert ([k] + path)[1..] == path;
  }

  lemma {:induction false} ClashHasPath(src: Node, dst: Node) returns (path: seq<string>)
    requires Clash(src, dst)
    ensures Meets(src, dst, path)
    decreases src
  {
    if src.Dir? && dst.Dir? {
      var k :| k in src.entries && k in dst.entries && Clash(src.entries[k], dst.entries[k]);
      path := ClashHasPath(src.entries[k], dst.entries[k]);
      MeetsBelow(src.entries, dst.entries, k, path);
      path := [k] + path;
    } else {
      path := [];
    }
  }

  lemma {:induction false} PathIsClash(src: Node, dst: Node, path: seq<string>)
    requires Meets(src, dst, path)
    ensures Clash(src, dst)
    decreases |path|
  {
    if path != [] {
      var k, rest := path[0], path[1..];
      assert path == [k] + rest;
      MeetsBelow(src.entries, dst.entries, k, rest);
      PathIsClash(src.entries[k], dst.entries[k], rest);
    }
  }

  /** The mirror throws if and only if at some path a file meets a directory;
      otherwise the destination is the source, and the flag tells whether it was
      not there or differed. */
  lemma {:induction false} MirrorExactly(src: Node, dst: Option<Node>)
    ensures Mirrored(src, dst).Thrown? <==> dst.Some? && exists path :: Meets(src, dst.value, path)
    ensures Mirrored(src, dst).Done? ==>
              Mirrored(src, dst).node == src && (Mirrored(src, dst).changed <==> dst != Some(src))
  {
    if dst.Some? {
      if Clash(src, dst.value) { var path := ClashHasPath(src, dst.value); }
      forall path | Meets(src, dst.value, path) ensures Clash(src, dst.value) { PathIsClash(src, dst.value, path); }
    }
  }

  lemma {:induction false} NoSelfClash(n: Node)
    ensures !Clash(n, n)
    decreases n
  {
    if n.Dir? {
      forall k | k in n.entries ensures !Clash(n.entries[k], n.entries[k]) {
        NoSelfClash(n.entries[k]);
      }
    }
  }

  /** The second run finds nothing to do. */
  lemma {:induction false} MirrorIdempotent(src: Node, dst: Option<Node>)
    requires Mirrored(src, dst).Done?
    ensures Mirrored(src, Some(Mirrored(src, dst).node)) == Done(src, false)
  {
    NoSelfClash(src);
  }
}

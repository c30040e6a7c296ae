/**
 * The docker build context (scripts/prepare_docker_context.py): the repository's top-level entries
 * are copied into a freshly emptied destination, except the excluded names and the destination
 * itself; directories are copied without caches, compiled files and build or test folders at any
 * depth. A tree is a map from a path (its components below the root) to what sits there.
 */
module DockerContext {
  import opened Strs

  type Path = seq<string>

  datatype Node = FileNode(content: nat) | DirNode

  type Tree = map<Path, Node>

  const ExcludeDirs: set<string> :=
    {"testes", "tests", "build", "dist", "__pycache__", ".git", ".venv", "venv", "tmp_uploads", "client"}

  const ExcludeFiles: set<string> := {"requirements.txt"}

  /**
   * `should_exclude(path, root)` for a path whose components below the root are `parts` and whose
   * name is `name`: its first component is an excluded directory, or its name an excluded file.
   */
  predicate ShouldExclude(parts: Path, name: string)
  {
    (|parts| > 0 && parts[0] in ExcludeDirs) || name in ExcludeFiles
  }

  /** For a top-level entry the rule is a single name test, against both sets. */
  lemma ShouldExcludeTopLevel(name: string)
    ensures ShouldExclude([name], name) <==> name in ExcludeDirs + ExcludeFiles
    ensures ShouldExclude([name], name) ==> name != "src" && name != "dv_admin_automator"
    ensures ShouldExclude(["tests"], "tests") && ShouldExclude(["requirements.txt"], "requirements.txt")
  {
  }

  /** `shutil.ignore_patterns('__pycache__', '*.pyc', 'testes', 'tests', 'build', 'dist')` on one name. */
  predicate Ignored(name: string)
  {
    name in {"__pycache__", "testes", "tests", "build", "dist"} || IsSuffix(".pyc", name)
  }

  /** A top-level entry that `copy_context` copies: not excluded and not named like the destination. */
  predicate Selected(name: string, destName: string)
  {
    !ShouldExclude([name], name) && name != destName
  }

  /**
   * Whether `p` lands in the context when its top-level entry is copied: a top-level file only as
   * itself, a directory with every component below it kept by the ignore patterns.
   */
  predicate Kept(src: Tree, p: Path)
  {
    |p| >= 1 && [p[0]] in src
    && (if src[[p[0]]].DirNode? then forall k :: 1 <= k < |p| ==> !Ignored(p[k]) else |p| == 1)
  }

  /** The part of the context that one top-level entry contributes. */
  function Copied(src: Tree, name: string): (t: Tree)
    ensures forall p :: p in t <==> p in src && Kept(src, p) && p[0] == name
    ensures forall p :: p in t ==> t[p] == src[p]
  {
    map p | p in src && Kept(src, p) && p[0] == name :: src[p]
  }

  /** The context built from the top-level entries `names`. */
  function ContextFrom(src: Tree, names: seq<string>, destName: string): Tree
  {
    map p | p in src && Kept(src, p) && p[0] in names && Selected(p[0], destName) :: src[p]
  }

  /** The whole context: every top-level entry considered. */
  function Context(src: Tree, destName: string): Tree
  {
    map p | p in src && Kept(src, p) && Selected(p[0], destName) :: src[p]
  }

  /** One more top-level entry adds what it contributes, when it is selected. */
  lemma ContextFromStep(src: Tree, names: seq<string>, n: string, destName: string)
    ensures ContextFrom(src, names + [n], destName)
            == if Selected(n, destName) then ContextFrom(src, names, destName) + Copied(src, n)
               else ContextFrom(src, names, destName)
  {
    assert forall x :: x in names + [n] <==> x in names || x == n;
  }

  /**
   * What the context holds: exactly the selected paths, each with its source content; nothing under
   * an excluded top-level name or the destination's name, nothing with an ignored name below a
   * copied directory, every selected top-level file and directory itself.
   */
  lemma ContextRule(src: Tree, destName: string)
    ensures var c := Context(src, destName);
            (forall p :: p in c ==> (p in src && c[p] == src[p] && |p| >= 1
                                   && p[0] !in ExcludeDirs && p[0] !in ExcludeFiles && p[0] != destName))
            && (forall p :: p in c && |p| >= 2 ==> src[[p[0]]].DirNode? && forall k :: 1 <= k < |p| ==> !Ignored(p[k]))
            && (forall n :: [n] in src && Selected(n, destName) ==> [n] in c)
  {
  }

  /** No path of the context passes through a `__pycache__` or `tests` directory, at any depth. */
  lemma ContextHasNoCaches(src: Tree, destName: string, p: Path, k: nat)
    requires p in Context(src, destName) && k < |p|
    ensures p[k] != "__pycache__" && p[k] != "tests" && p[k] != "testes"
  {
  }

  /**
   * The exclusion of `requirements.txt` and the `*.pyc` pattern each apply at one level only: a
   * `requirements.txt` inside a copied directory is copied, and so is a compiled file at the top.
   */
  lemma OneLevelRules(src: Tree, destName: string)
    requires ["backend"] in src && src[["backend"]] == DirNode && destName != "backend"
    requires ["backend", "requirements.txt"] in src && ["x.pyc"] in src && destName != "x.pyc"
    ensures ["backend", "requirements.txt"] in Context(src, destName)
    ensures ["x.pyc"] in Context(src, destName)
    ensures ["backend", "x.pyc"] !in Context(src, destName)
  {
    var p: Path := ["backend", "requirements.txt"];
    assert !Ignored(p[1]);
    var q: Path := ["x.pyc"];
    assert Kept(src, q);
    var r: Path := ["backend", "x.pyc"];
    assert Ignored(r[1]);
  }

  /** The destination directory, rebuilt by `copy_context`. */
  class Destination {
    var tree: Tree
    var exists_: bool

    constructor (tree0: Tree, exists0: bool)
      ensures tree == tree0 && exists_ == exists0
    {
      tree := tree0;
      exists_ := exists0;
    }

    /**
     * `copy_context`: an existing destination is removed and recreated empty, then the listed
     * top-level entries of the source are copied one by one. `names` is the listing of the source,
     * in the order the directory yields it.
     */
    method CopyContext(src: Tree, names: seq<string>, destName: string)
      requires forall n :: [n] in src <==> n in names
      modifies this
      ensures exists_ && tree == Context(src, destName)
    {
      // Removing an existing destination and creating it again both leave it empty.
      tree := map[];
      exists_ := true;
      for i := 0 to |names|
        invariant exists_
        invariant tree == ContextFrom(src, names[..i], destName)
      {
        var n := names[i];
        assert names[..i + 1] == names[..i] + [n];
        ContextFromStep(src, names[..i], n, destName);
        if ShouldExclude([n], n) {
          continue;
        }
        if n == destName {
          continue;
        }
        tree := tree + Copied(src, n);
      }
      assert names[..|names|] == names;
      assert forall p :: p in src && Kept(src, p) ==> p[0] in names;
    }

    /** `main`: a missing source leaves everything as it was; otherwise the context is rebuilt. */
    method Prepare(srcExists: bool, src: Tree, names: seq<string>, destName: string)
      requires forall n :: [n] in src <==> n in names
      modifies this
      ensures !srcExists ==> tree == old(tree) && exists_ == old(exists_)
      ensures srcExists ==> exists_ && tree == Context(src, destName)
    {
      if !srcExists {
        return;
      }
      CopyContext(src, names, destName);
    }
  }

  /** Rebuilding is idempotent: the context of a context, copied under the same rules, is itself. */
  lemma ContextIdempotent(src: Tree, destName: string)
    requires forall p :: p in src && |p| >= 2 ==> [p[0]] in src
    ensures Context(Context(src, destName), destName) == Context(src, destName)
  {
    var c := Context(src, destName);
    forall p | p in c
      ensures p in Context(c, destName)
    {
      assert [p[0]] in src;
      assert [p[0]] in c by {
        var q: Path := [p[0]];
        assert q[0] == p[0];
        assert Kept(src, q);
      }
    }
  }
}

/**
 * The computation of a directory's containing package, as one invocation of a
 * restartable computation over a read-only environment.
 *
 * One invocation asks the environment for the package lookup of `dir`; when
 * `dir` holds no package it asks for the containing package of the parent
 * directory. Whenever a requested value is absent it gives up ("missing"), and
 * the evaluator re-invokes it once the value is there.
 */
module ContainingPackageLookup {
  import opened Wrappers

  /** A directory as its path segments; the workspace root is the empty path. */
  type Path = seq<string>

  /** The parent drops the last segment; the root has no parent (a Java null). */
  function ParentDirectory(dir: Path): (r: Option<Path>)
    ensures r.None? <==> dir == []
    ensures r.Some? ==> r.value < dir && |r.value| + 1 == |dir|
  {
    if dir == [] then None else Some(dir[..|dir| - 1])
  }

  /** The two kinds of key this computation requests. */
  datatype Key =
    | PackageLookupKey(dir: Path)
    | ContainingPackageLookupKey(dir: Path)

  /**
   * The values the environment already holds: whether a package exists at a
   * directory, and the containing package name (None for "no containing
   * package") of a directory. A directory absent from a map has no value yet.
   */
  datatype Env = Env(packageExists: map<Path, bool>, containing: map<Path, Option<Path>>)

  /** True when the environment holds a value for `k`. */
  predicate Has(env: Env, k: Key) {
    match k
    case PackageLookupKey(d) => d in env.packageExists
    case ContainingPackageLookupKey(d) => d in env.containing
  }

  /** `Missing` is the `null` that asks to be re-invoked. */
  datatype Outcome = Missing | Done(containingPackage: Option<Path>)

  /** The outcome of one invocation together with the keys it requested, in order. */
  datatype Invocation = Invocation(outcome: Outcome, requested: seq<Key>)

  /** One invocation of the computation for the key of `dir`. */
  function Compute(dir: Path, env: Env): (r: Invocation)
    // at most two requests: the package lookup of dir, then perhaps the parent's containing lookup
    ensures 1 <= |r.requested| <= 2 && r.requested[0] == PackageLookupKey(dir)
    ensures |r.requested| == 2 ==>
              dir != [] && r.requested[1] == ContainingPackageLookupKey(dir[..|dir| - 1])
    // the parent is requested exactly when dir is known to hold no package and has a parent
    ensures |r.requested| == 2 <==>
              dir in env.packageExists && !env.packageExists[dir] && dir != []
    // the invocation is missing exactly when its last request found no value,
    // and every earlier request found one
    ensures r.outcome.Missing? <==> !Has(env, r.requested[|r.requested| - 1])
    ensures forall i :: 0 <= i < |r.requested| - 1 ==> Has(env, r.requested[i])
    // a package at dir names dir itself
    ensures dir in env.packageExists && env.packageExists[dir] ==> r.outcome == Done(Some(dir))
  {
    if dir !in env.packageExists then
      Invocation(Missing, [PackageLookupKey(dir)])
    else if env.packageExists[dir] then
      Invocation(Done(Some(dir)), [PackageLookupKey(dir)])
    else
      match ParentDirectory(dir)
      case None => Invocation(Done(None), [PackageLookupKey(dir)])
      case Some(parent) =>
        var requested := [PackageLookupKey(dir), ContainingPackageLookupKey(parent)];
        if parent !in env.containing then Invocation(Missing, requested)
        else Invocation(Done(env.containing[parent]), requested)
  }

  /**
   * Reference definition: the containing package of `dir` in a workspace whose
   * package directories are `pkgs` -- `dir` itself when it is a package,
   * otherwise its parent's containing package, and none above the root.
   */
  function Nearest(dir: Path, pkgs: set<Path>): Option<Path>
    decreases |dir|
  {
    if dir in pkgs then Some(dir)
    else if dir == [] then None
    else Nearest(dir[..|dir| - 1], pkgs)
  }

  /** The reference definition yields the deepest ancestor-or-self of `dir` that is a package. */
  lemma {:induction false} NearestIsDeepestPackage(dir: Path, pkgs: set<Path>)
    ensures Nearest(dir, pkgs).Some? ==>
              var p := Nearest(dir, pkgs).value;
              p <= dir && p in pkgs && forall q :: q <= dir && q in pkgs ==> |q| <= |p|
    ensures Nearest(dir, pkgs).None? ==> forall q :: q <= dir ==> q !in pkgs
    decreases |dir|
  {
    if dir in pkgs {
    } else if dir == [] {
    } else {
      var parent := dir[..|dir| - 1];
      NearestIsDeepestPackage(parent, pkgs);
      forall q | q <= dir && q in pkgs
        ensures q <= parent
      {
        assert q != dir;
        assert |q| < |dir|;
      }
    }
  }

  /** The environment agrees with the workspace whose package directories are `pkgs`. */
  ghost predicate Consistent(env: Env, pkgs: set<Path>) {
    && (forall d :: d in env.packageExists ==> env.packageExists[d] == (d in pkgs))
    && (forall d :: d in env.containing ==> env.containing[d] == Nearest(d, pkgs))
  }

  /** An invocation that completes over a consistent environment gives the reference answer. */
  lemma ComputeIsSound(dir: Path, env: Env, pkgs: set<Path>)
    requires Consistent(env, pkgs)
    ensures Compute(dir, env).outcome.Done? ==>
              Compute(dir, env).outcome.containingPackage == Nearest(dir, pkgs)
  {
  }

  /** The number of values `Compute(dir, env)` could still find absent. */
  function Unfilled(dir: Path, env: Env): nat {
    (if dir in env.packageExists then 0 else 1) +
    (if dir != [] && dir[..|dir| - 1] !in env.containing then 1 else 0)
  }

  /**
   * The evaluator's restart loop for one key: invoke, and on a missing value
   * evaluate that value (recursively for the parent's key), add it to the
   * environment, and invoke again. It terminates, and it converges to the
   * deepest package ancestor of `dir`, whatever consistent values the
   * environment started with.
   */
  function Evaluate(dir: Path, pkgs: set<Path>, env: Env): (r: Option<Path>)
    requires Consistent(env, pkgs)
    ensures r == Nearest(dir, pkgs)
    decreases |dir|, Unfilled(dir, env)
  {
    var invocation := Compute(dir, env);
    match invocation.outcome
    case Done(p) =>
      ComputeIsSound(dir, env, pkgs);
      p
    case Missing =>
      match invocation.requested[|invocation.requested| - 1]
      case PackageLookupKey(d) =>
        Evaluate(dir, pkgs, env.(packageExists := env.packageExists[d := d in pkgs]))
      case ContainingPackageLookupKey(parent) =>
        var v := Evaluate(parent, pkgs, env);
        Evaluate(dir, pkgs, env.(containing := env.containing[parent := v]))
  }
}

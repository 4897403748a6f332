/** Paths as match keys, the boundary-safe prefix test, and the upward walk to a repository root. */
module PathPrefix {
  import opened Text

  function Slashed(path: string): (s: string)
    ensures |s| == |path| && forall i | 0 <= i < |s| :: s[i] != '\\'
  {
    seq(|path|, i requires 0 <= i < |path| => if path[i] == '\\' then '/' else path[i])
  }

  /** `_match_key` where paths are case-sensitive. */
  function MatchKey(path: string): (key: string)
    ensures |key| <= |path|
    ensures key != "" ==> key[|key| - 1] != '/'
  {
    DropTrailing(Slashed(path), '/')
  }

  predicate HasPrefix(path: string, root: string) {
    root != "" && (path == root || root + "/" <= path)
  }

  predicate IsKey(key: string) {
    (key != "" ==> key[|key| - 1] != '/') && forall i | 0 <= i < |key| :: key[i] != '\\'
  }

  lemma {:induction false} KeysAreKeys(path: string)
    ensures IsKey(MatchKey(path))
    ensures IsKey(path) ==> MatchKey(path) == path
  {
  }

  /** The boundary: a root owns itself and what is under a slash below it, never a sibling that merely starts alike. */
  lemma {:induction false} PrefixIsBoundarySafe(root: string, more: string)
    requires root != "" && more != ""
    ensures HasPrefix(root + more, root) <==> more[0] == '/'
  {
    if more[0] == '/' {
      assert root + more == root + "/" + more[1..];
    } else {
      assert (root + more)[|root|] == more[0];
    }
  }

  /** Two roots over one path are nested. */
  lemma {:induction false} PrefixesNest(path: string, a: string, b: string)
    requires HasPrefix(path, a) && HasPrefix(path, b) && |a| <= |b|
    ensures HasPrefix(b, a) && (|a| == |b| ==> a == b)
  {
    assert a == path[..|a|] && b == path[..|b|];
    if |a| < |b| {
      assert (a + "/")[|a|] == '/' && path[|a|] == '/';
      assert b[..|a| + 1] == path[..|a| + 1] == a + "/";
    }
  }

  // The walk up.

  /** What the file system answers: a resolved cwd, the `.git` entries, the home directory and the throwaway roots. */
  datatype Fs = Fs(normalise: string -> Option<string>, git: string -> bool, home: string, ephemeralRoots: seq<string>)

  predicate Rooted(path: string) {
    path != "" && path[0] == '/' && path[|path| - 1] != '/' && forall i | 0 < i < |path| :: path[i] == '/' ==> path[i - 1] != '/'
  }

  /** `realpath` answers with absolute paths without empty components, and the trailing slash is cut off. */
  ghost predicate Resolves(fs: Fs) {
    forall cwd :: fs.normalise(cwd).Some? ==> Rooted(fs.normalise(cwd).value)
  }

  function LastSlash(path: string): (i: int)
    ensures -1 <= i < |path|
    ensures i >= 0 ==> path[i] == '/'
    ensures forall j | i < j < |path| :: path[j] != '/'
  {
    if path == "" then -1
    else if path[|path| - 1] == '/' then |path| - 1
    else LastSlash(path[..|path| - 1])
  }

  predicate AllSlashes(s: string) {
    forall i | 0 <= i < |s| :: s[i] == '/'
  }

  /** `os.path.dirname`. */
  function Dirname(path: string): (d: string)
    ensures |d| <= |path|
  {
    var head := path[..LastSlash(path) + 1];
    if AllSlashes(head) then head else DropTrailing(head, '/')
  }

  const MAX_WALK_LEVELS := 40

  predicate StopsAt(fs: Fs, current: string) {
    fs.home != "" && current == fs.home
  }

  predicate AtTop(current: string) {
    Dirname(current) == current || Dirname(current) == "" || Dirname(current) == "/"
  }

  function Walk(fs: Fs, current: string, levels: nat): Option<string>
    decreases levels
  {
    if levels == 0 then None
    else if fs.git(current) then Some(current)
    else if StopsAt(fs, current) || AtTop(current) then None
    else Walk(fs, Dirname(current), levels - 1)
  }

  /** `find_repo_root`. */
  method FindRepoRoot(fs: Fs, cwd: string) returns (r: Option<string>)
    ensures r == RepoRoot(fs, cwd)
  {
    if fs.normalise(cwd).None? {
      return None;
    }
    var current := fs.normalise(cwd).value;
    for i := 0 to MAX_WALK_LEVELS
      invariant Walk(fs, current, MAX_WALK_LEVELS - i) == RepoRoot(fs, cwd)
    {
      if fs.git(current) {
        return Some(current);
      }
      if fs.home != "" && current == fs.home {
        return None;
      }
      var parent := Dirname(current);
      if parent == current || parent == "" || parent == "/" {
        return None;
      }
      current := parent;
    }
    return None;
  }

  function RepoRoot(fs: Fs, cwd: string): Option<string> {
    match fs.normalise(cwd)
    case None => None
    case Some(path) => Walk(fs, path, MAX_WALK_LEVELS)
  }

  /** `a` is `path` or a directory above it, other than the file system root. */
  predicate Above(path: string, a: string) {
    a != "" && a[|a| - 1] != '/' && HasPrefix(path, a)
  }

  /** Below the top, the parent is the path up to its last slash. */
  lemma {:induction false} DirnameOf(path: string)
    requires Rooted(path)
    ensures AtTop(path) <==> LastSlash(path) == 0
    ensures !AtTop(path) ==> Dirname(path) == path[..LastSlash(path)] && Rooted(Dirname(path)) && Above(path, Dirname(path))
  {
    var i := LastSlash(path);
    var head := path[..i + 1];
    assert path[0] == '/';
    if i == 0 {
      assert head == "/" && AllSlashes(head);
    } else {
      assert path[i - 1] != '/';
      assert !AllSlashes(head) by {
        assert head[i - 1] != '/';
      }
      assert head[..|head| - 1] == path[..i];
      assert DropTrailing(path[..i], '/') == path[..i];
      var d := Dirname(path);
      assert d == path[..i];
      assert path[..i + 1] == d + "/";
      assert d[0] == path[0];
    }
  }

  /** The parent keeps every proper ancestor. */
  lemma {:induction false} DirnameKeepsAncestors(path: string, a: string)
    requires Above(path, a) && a != path && Rooted(path)
    ensures !AtTop(path) && Above(Dirname(path), a)
  {
    DirnameOf(path);
    var i := LastSlash(path);
    assert path[|a|] == (a + "/")[|a|] == '/';
    assert a == path[..|a|];
    assert i >= |a| > 0;
    var d := Dirname(path);
    if i > |a| {
      assert d[..|a| + 1] == path[..|a| + 1] == a + "/";
    }
  }

  /** How many steps up an ancestor is. */
  ghost function Steps(path: string, a: string): nat
    requires Rooted(path) && Above(path, a)
    decreases |path|
  {
    if a == path then 0
    else
      DirnameKeepsAncestors(path, a);
      DirnameOf(path);
      1 + Steps(Dirname(path), a)
  }

  /** An ancestor the walk looks at: near enough, and not above the home directory. */
  ghost predicate Examined(fs: Fs, path: string, levels: nat, a: string)
    requires Rooted(path)
  {
    && Above(path, a)
    && Steps(path, a) < levels
    && !(StopsBelow(fs, path, a))
  }

  ghost predicate StopsBelow(fs: Fs, path: string, a: string) {
    fs.home != "" && Above(path, fs.home) && Above(fs.home, a) && fs.home != a
  }

  /** The walk finds the deepest examined ancestor that holds a `.git`, and nothing only when none does. */
  lemma {:induction false} WalkIsDeepest(fs: Fs, path: string, levels: nat)
    requires Rooted(path)
    ensures match Walk(fs, path, levels)
      case Some(r) =>
        && Examined(fs, path, levels, r) && fs.git(r)
        && forall a | Examined(fs, path, levels, a) && fs.git(a) :: |a| <= |r|
      case None => forall a | Examined(fs, path, levels, a) :: !fs.git(a)
  {
    if levels == 0 {
    } else if fs.git(path) {
    } else {
      forall a | Above(path, a) && a != path
        ensures !AtTop(path) && Above(Dirname(path), a)
      {
        DirnameKeepsAncestors(path, a);
      }
      if !StopsAt(fs, path) && !AtTop(path) {
        DirnameOf(path);
        var up := Dirname(path);
        WalkIsDeepest(fs, up, levels - 1);
        forall a | Above(up, a)
          ensures Above(path, a) && a != path && Steps(path, a) == Steps(up, a) + 1
          ensures StopsBelow(fs, path, a) == StopsBelow(fs, up, a)
        {
          AncestorsClimb(path, a);
          if fs.home != "" && Above(path, fs.home) && fs.home != path {
            DirnameKeepsAncestors(path, fs.home);
          }
          if fs.home != "" && Above(up, fs.home) {
            AncestorsClimb(path, fs.home);
          }
        }
      }
    }
  }

  lemma {:induction false} AncestorsClimb(path: string, a: string)
    requires Rooted(path) && !AtTop(path) && Above(Dirname(path), a)
    ensures Above(path, a) && a != path
  {
    DirnameOf(path);
    var d := Dirname(path);
    assert |d| < |path|;
    if a == d {
    } else {
      assert a + "/" <= d <= path;
    }
  }
}

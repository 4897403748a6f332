/** Resolving a session's directory to a project, discovering one when a root allows it, and the probe that predicts it. */
module CwdResolver {
  import opened Text
  import opened PathPrefix
  import opened ProjectMatch

  datatype Root = Root(id: int, path: string, enabled: bool)

  predicate RootBefore(p: Root, q: Root) {
    |p.path| > |q.path| || (|p.path| == |q.path| && p.id < q.id)
  }

  function InsertRoot(r: Root, rows: seq<Root>): seq<Root> {
    if rows == [] || RootBefore(r, rows[0]) then [r] + rows else [rows[0]] + InsertRoot(r, rows[1..])
  }

  /** `WHERE enabled = 1 ORDER BY LENGTH(path) DESC, id ASC`. */
  function EnabledRoots(roots: seq<Root>): seq<Root> {
    if roots == [] then []
    else
      var rest, last := EnabledRoots(roots[..|roots| - 1]), roots[|roots| - 1];
      if last.enabled then InsertRoot(last, rest) else rest
  }

  function FirstRoot(ordered: seq<Root>, needle: string): Option<string> {
    if ordered == [] then None
    else if HasPrefix(needle, MatchKey(ordered[0].path)) then Some(DropTrailing(ordered[0].path, '/'))
    else FirstRoot(ordered[1..], needle)
  }

  /** `_enabled_root_for`. */
  function EnabledRootFor(roots: seq<Root>, path: string): Option<string> {
    FirstRoot(EnabledRoots(roots), MatchKey(path))
  }

  /** Discovery is allowed exactly under some enabled root. */
  ghost predicate UnderEnabledRoot(roots: seq<Root>, path: string) {
    exists r :: r in roots && r.enabled && HasPrefix(MatchKey(path), MatchKey(r.path))
  }

  lemma {:induction false} InsertRootMembers(r: Root, rows: seq<Root>)
    ensures forall q :: q in InsertRoot(r, rows) <==> q == r || q in rows
  {
    if rows != [] && !RootBefore(r, rows[0]) {
      InsertRootMembers(r, rows[1..]);
      assert rows == [rows[0]] + rows[1..];
    }
  }

  lemma {:induction false} EnabledRootsMembers(roots: seq<Root>)
    ensures forall q :: q in EnabledRoots(roots) <==> q in roots && q.enabled
  {
    if roots != [] {
      var rest, last := roots[..|roots| - 1], roots[|roots| - 1];
      assert roots == rest + [last];
      EnabledRootsMembers(rest);
      InsertRootMembers(last, EnabledRoots(rest));
    }
  }

  lemma {:induction false} FirstRootFinds(ordered: seq<Root>, needle: string)
    ensures FirstRoot(ordered, needle).Some? <==> exists r :: r in ordered && HasPrefix(needle, MatchKey(r.path))
  {
    if ordered != [] {
      FirstRootFinds(ordered[1..], needle);
      assert ordered == [ordered[0]] + ordered[1..];
      if HasPrefix(needle, MatchKey(ordered[0].path)) {
        assert ordered[0] in ordered;
      } else if r :| r in ordered && HasPrefix(needle, MatchKey(r.path)) {
        assert r in ordered[1..];
      }
    }
  }

  lemma {:induction false} EnabledRootIff(roots: seq<Root>, path: string)
    ensures EnabledRootFor(roots, path).Some? <==> UnderEnabledRoot(roots, path)
  {
    EnabledRootsMembers(roots);
    FirstRootFinds(EnabledRoots(roots), MatchKey(path));
    if UnderEnabledRoot(roots, path) {
      var r :| r in roots && r.enabled && HasPrefix(MatchKey(path), MatchKey(r.path));
      assert r in EnabledRoots(roots);
    }
  }

  predicate IsEphemeral(fs: Fs, path: string) {
    exists r | r in fs.ephemeralRoots :: HasPrefix(MatchKey(path), MatchKey(r))
  }

  datatype Kind = ProjectWork | Ephemeral

  /** `CwdResolution` without the branch. */
  datatype Resolution = Resolution(project: Option<int>, repo: Option<string>, kind: Option<Kind>)

  const UNRESOLVED := Resolution(None, None, None)

  function IdOf(p: Option<Project>): Option<int> {
    match p case None => None case Some(row) => Some(row.id)
  }

  /** `would_discover`. */
  function WouldDiscover(fs: Fs, rows: seq<Project>, roots: seq<Root>, cwd: string): bool {
    match fs.normalise(cwd)
    case None => false
    case Some(path) =>
      !IsEphemeral(fs, path) &&
      match RepoRoot(fs, path)
      case None => false
      case Some(repo) => OwnerOf(rows, repo).None? && EnabledRootFor(roots, repo).Some?
  }

  /** What a resolution that inserts nothing answers. */
  function Answer(fs: Fs, rows: seq<Project>, cwd: string): Resolution {
    match fs.normalise(cwd)
    case None => UNRESOLVED
    case Some(path) =>
      var repo := RepoRoot(fs, path);
      if IsEphemeral(fs, path) then Resolution(None, repo, Some(Ephemeral))
      else Resolution(IdOf(OwnerOf(rows, if repo.Some? then repo.value else path)), repo, Some(ProjectWork))
  }

  /** The table once a resolution with discovery has run, `id` being the next free one. */
  function Discovered(fs: Fs, rows: seq<Project>, roots: seq<Root>, cwd: string, id: int): seq<Project> {
    var repo := Answer(fs, rows, cwd).repo;
    if WouldDiscover(fs, rows, roots, cwd) then rows + [Project(id, repo, repo)] else rows
  }

  /** And what it answers. */
  function Resolved(fs: Fs, rows: seq<Project>, roots: seq<Root>, cwd: string, id: int): Resolution {
    var answer := Answer(fs, rows, cwd);
    if WouldDiscover(fs, rows, roots, cwd) then answer.(project := Some(id)) else answer
  }

  class Projects {
    var rows: seq<Project>
    var roots: seq<Root>
    var nextId: int

    /** The id sequence is ahead of every row. */
    ghost predicate Valid()
      reads this
    {
      UniqueIds(rows) && forall p | p in rows :: p.id < nextId
    }

    constructor (roots: seq<Root>)
      ensures Valid() && rows == [] && this.roots == roots
    {
      rows, nextId := [], 1;
      this.roots := roots;
    }

    /** `_create_discovered_project`: the unique index on `root_path` turns a lost race into the winner's row. */
    method CreateDiscovered(repo: string) returns (id: int)
      requires Valid()
      modifies this`rows, this`nextId
      ensures Valid()
      ensures if exists p :: p in old(rows) && p.rootPath == Some(repo)
              then rows == old(rows) && exists p :: p in rows && p.rootPath == Some(repo) && p.id == id
              else rows == old(rows) + [Project(old(nextId), Some(repo), Some(repo))] && id == old(nextId)
    {
      for i := 0 to |rows|
        invariant forall p | p in rows[..i] :: p.rootPath != Some(repo)
      {
        if rows[i].rootPath == Some(repo) {
          return rows[i].id;
        }
      }
      assert rows[..|rows|] == rows;
      rows := rows + [Project(nextId, Some(repo), Some(repo))];
      id := nextId;
      nextId := nextId + 1;
    }

    /** `resolve`. */
    method Resolve(fs: Fs, cwd: string, allowDiscovery: bool) returns (r: Resolution)
      requires Valid() && Resolves(fs)
      modifies this`rows, this`nextId
      ensures Valid()
      ensures rows == if allowDiscovery then Discovered(fs, old(rows), roots, cwd, old(nextId)) else old(rows)
      ensures r == if allowDiscovery then Resolved(fs, old(rows), roots, cwd, old(nextId)) else Answer(fs, old(rows), cwd)
    {
      if fs.normalise(cwd).None? {
        return UNRESOLVED;
      }
      var path := fs.normalise(cwd).value;
      var repo := FindRepoRoot(fs, path);
      if IsEphemeral(fs, path) {
        return Resolution(None, repo, Some(Ephemeral));
      }
      var target := if repo.Some? then repo.value else path;
      var matched := MatchProject(rows, target);
      if matched.Some? || repo.None? || !allowDiscovery || EnabledRootFor(roots, repo.value).None? {
        return Resolution(matched, repo, Some(ProjectWork));
      }
      UnownedIsUnclaimed(fs, rows, roots, path, repo.value);
      var id := CreateDiscovered(repo.value);
      r := Resolution(Some(id), repo, Some(ProjectWork));
    }

    /** Resolving the same directory again finds the same project and inserts nothing. */
    method ResolveTwice(fs: Fs, cwd: string) returns (first: Resolution, second: Resolution)
      requires Valid() && Resolves(fs)
      modifies this`rows, this`nextId
      ensures Valid()
      ensures first == second == Resolved(fs, old(rows), roots, cwd, old(nextId))
      ensures rows == Discovered(fs, old(rows), roots, cwd, old(nextId))
    {
      DiscoverySettles(fs, rows, roots, cwd, nextId);
      first := Resolve(fs, cwd, true);
      second := Resolve(fs, cwd, true);
    }
  }

  lemma {:induction false} RepoIsRooted(fs: Fs, path: string)
    requires Resolves(fs) && RepoRoot(fs, path).Some?
    ensures var repo := RepoRoot(fs, path).value; repo != "" && repo[0] == '/'
  {
    var start := fs.normalise(path).value;
    WalkIsDeepest(fs, start, MAX_WALK_LEVELS);
  }

  /** A repository under an enabled root has a usable key. */
  lemma {:induction false} KeyUnderRootIsUsable(repo: string, roots: seq<Root>)
    requires repo != "" && repo[0] == '/' && EnabledRootFor(roots, repo).Some?
    ensures MatchKey(repo) != "" && MatchKey(repo) != "." && HasPrefix(MatchKey(repo), MatchKey(repo))
  {
    EnabledRootIff(roots, repo);
    var key := MatchKey(repo);
    assert key != "" && key <= Slashed(repo);
    assert key[0] == Slashed(repo)[0] == '/';
  }

  /** A repository no row owns is not the stored root of any row, so the insert meets no conflict. */
  lemma {:induction false} UnownedIsUnclaimed(fs: Fs, rows: seq<Project>, roots: seq<Root>, path: string, repo: string)
    requires Resolves(fs) && RepoRoot(fs, path) == Some(repo)
    requires OwnerOf(rows, repo).None? && EnabledRootFor(roots, repo).Some?
    ensures forall p | p in rows :: p.rootPath != Some(repo)
  {
    RepoIsRooted(fs, path);
    KeyUnderRootIsUsable(repo, roots);
    assert forall p: Project | p.rootPath == Some(repo) :: Owns(p, MatchKey(repo));
    OwnerIsFirst(rows, repo);
  }

  /** Once discovered, the new row is the repository's owner: nothing else was, and its own key is the repository's. */
  lemma {:induction false} DiscoveredRowOwns(fs: Fs, rows: seq<Project>, roots: seq<Root>, cwd: string, id: int, repo: string)
    requires Resolves(fs) && WouldDiscover(fs, rows, roots, cwd)
    requires RepoRoot(fs, fs.normalise(cwd).value) == Some(repo)
    ensures var row := Project(id, Some(repo), Some(repo));
      OwnerOf(rows + [row], repo) == Some(row) && !WouldDiscover(fs, rows + [row], roots, cwd)
  {
    var row := Project(id, Some(repo), Some(repo));
    var rows' := rows + [row];
    RepoIsRooted(fs, fs.normalise(cwd).value);
    KeyUnderRootIsUsable(repo, roots);
    OwnerIsFirst(rows, repo);
    OwnerIsFirst(rows', repo);
    assert row in rows' && Owns(row, MatchKey(repo));
    assert forall p | p in rows' :: p in rows || p == row;
  }

  /** So the next resolution of the same directory gives the same answer and would discover nothing. */
  lemma {:induction false} DiscoverySettles(fs: Fs, rows: seq<Project>, roots: seq<Root>, cwd: string, id: int)
    requires Resolves(fs)
    ensures var after := Discovered(fs, rows, roots, cwd, id);
      && !WouldDiscover(fs, after, roots, cwd)
      && Answer(fs, after, cwd) == Resolved(fs, rows, roots, cwd, id)
  {
    if WouldDiscover(fs, rows, roots, cwd) {
      DiscoveredRowOwns(fs, rows, roots, cwd, id, Answer(fs, rows, cwd).repo.value);
    }
  }

  /** A directory is throwaway exactly when it is a throwaway root or lies below one. */
  lemma {:induction false} EphemeralIff(fs: Fs, path: string)
    ensures IsEphemeral(fs, path) <==>
            exists r | r in fs.ephemeralRoots ::
              MatchKey(r) != "" && (MatchKey(path) == MatchKey(r) || MatchKey(r) + "/" <= MatchKey(path))
  {
  }

  /** What a resolution without discovery says: nothing of an unusable directory; no project of a throwaway one; else the owner of
      the repository, or of the directory itself where there is none, and only an owner. */
  lemma {:induction false} AnswerMeans(fs: Fs, rows: seq<Project>, cwd: string)
    ensures var path, answer := fs.normalise(cwd), Answer(fs, rows, cwd);
      && (path.None? ==> answer.project == None && answer.repo == None && answer.kind == None)
      && (path.Some? ==>
            && answer.repo == RepoRoot(fs, path.value)
            && (answer.kind == Some(Ephemeral) <==> IsEphemeral(fs, path.value))
            && (answer.kind == Some(ProjectWork) <==> !IsEphemeral(fs, path.value))
            && (IsEphemeral(fs, path.value) ==> answer.project == None)
            && (!IsEphemeral(fs, path.value) ==>
                  var target := if answer.repo.Some? then answer.repo.value else path.value;
                  && (answer.project.Some? <==> exists p :: p in rows && Owns(p, MatchKey(target)))
                  && (answer.project.Some? ==>
                        exists p :: p in rows && Owns(p, MatchKey(target)) && answer.project == Some(p.id))))
  {
    if fs.normalise(cwd).Some? {
      var repo := RepoRoot(fs, fs.normalise(cwd).value);
      OwnerIsFirst(rows, if repo.Some? then repo.value else fs.normalise(cwd).value);
    }
  }

  /** A project is discovered exactly in a repository nobody owns, under an enabled root, and outside every throwaway directory. */
  lemma {:induction false} DiscoversIff(fs: Fs, rows: seq<Project>, roots: seq<Root>, cwd: string)
    ensures WouldDiscover(fs, rows, roots, cwd) <==>
            && fs.normalise(cwd).Some? && !IsEphemeral(fs, fs.normalise(cwd).value)
            && var repo := RepoRoot(fs, fs.normalise(cwd).value);
               && repo.Some? && UnderEnabledRoot(roots, repo.value)
               && forall p | p in rows :: !Owns(p, MatchKey(repo.value))
  {
    if fs.normalise(cwd).Some? && RepoRoot(fs, fs.normalise(cwd).value).Some? {
      var repo := RepoRoot(fs, fs.normalise(cwd).value).value;
      EnabledRootIff(roots, repo);
      OwnerIsFirst(rows, repo);
    }
  }
}

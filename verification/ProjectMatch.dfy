/** Which project owns a path: the stored roots from the longest spelling to the shortest, first boundary-safe hit. */
module ProjectMatch {
  import opened Text
  import opened PathPrefix

  datatype Project = Project(id: int, rootPath: Option<string>, path: Option<string>)

  /** `COALESCE(NULLIF(root_path, ''), NULLIF(path, ''))`; the empty string where SQL has NULL. */
  function Stored(p: Project): string {
    if p.rootPath.Some? && p.rootPath.value != "" then p.rootPath.value
    else if p.path.Some? then p.path.value
    else ""
  }

  function KeyOf(p: Project): string {
    MatchKey(Stored(p))
  }

  /** `ORDER BY LENGTH(stored) DESC, id ASC`. */
  predicate Before(p: Project, q: Project) {
    |Stored(p)| > |Stored(q)| || (|Stored(p)| == |Stored(q)| && p.id < q.id)
  }

  function InsertSorted(p: Project, rows: seq<Project>): seq<Project> {
    if rows == [] || Before(p, rows[0]) then [p] + rows else [rows[0]] + InsertSorted(p, rows[1..])
  }

  function Ordered(rows: seq<Project>): seq<Project> {
    if rows == [] then []
    else
      var rest, last := Ordered(rows[..|rows| - 1]), rows[|rows| - 1];
      if Stored(last) == "" then rest else InsertSorted(last, rest)
  }

  ghost predicate InOrder(rows: seq<Project>) {
    forall i, j | 0 <= i < j < |rows| :: !Before(rows[j], rows[i])
  }

  lemma {:induction false} InsertMembers(p: Project, rows: seq<Project>)
    ensures forall q :: q in InsertSorted(p, rows) <==> q == p || q in rows
  {
    if rows != [] && !Before(p, rows[0]) {
      InsertMembers(p, rows[1..]);
      assert rows == [rows[0]] + rows[1..];
    }
  }

  lemma {:induction false} ConsKeepsOrder(p: Project, rows: seq<Project>)
    requires InOrder(rows) && forall q | q in rows :: !Before(q, p)
    ensures InOrder([p] + rows)
  {
  }

  lemma {:induction false} InsertKeepsOrder(p: Project, rows: seq<Project>)
    requires InOrder(rows)
    ensures InOrder(InsertSorted(p, rows))
  {
    if rows != [] && !Before(p, rows[0]) {
      var rest := rows[1..];
      assert forall i | 0 <= i < |rest| :: rest[i] == rows[i + 1];
      InsertKeepsOrder(p, rest);
      InsertMembers(p, rest);
      assert forall q | q in rest :: !Before(q, rows[0]);
      ConsKeepsOrder(rows[0], InsertSorted(p, rest));
    } else {
      if rows != [] {
        assert forall q | q in rows :: q == rows[0] || !Before(q, rows[0]);
      }
      ConsKeepsOrder(p, rows);
    }
  }

  lemma {:induction false} OrderedIsInOrder(rows: seq<Project>)
    ensures InOrder(Ordered(rows))
    ensures forall p :: p in Ordered(rows) <==> p in rows && Stored(p) != ""
  {
    if rows != [] {
      var rest, last := rows[..|rows| - 1], rows[|rows| - 1];
      assert rows == rest + [last];
      OrderedIsInOrder(rest);
      InsertKeepsOrder(last, Ordered(rest));
      InsertMembers(last, Ordered(rest));
    }
  }

  /** A row owns a path when its usable key is a boundary-safe prefix. */
  predicate Owns(p: Project, needle: string) {
    KeyOf(p) != "" && KeyOf(p) != "." && HasPrefix(needle, KeyOf(p))
  }

  function FirstOwner(ordered: seq<Project>, needle: string): Option<Project> {
    if ordered == [] then None
    else if Owns(ordered[0], needle) then Some(ordered[0])
    else FirstOwner(ordered[1..], needle)
  }

  /** The row `match_project` answers with. */
  function OwnerOf(rows: seq<Project>, path: string): Option<Project> {
    FirstOwner(Ordered(rows), MatchKey(path))
  }

  method MatchProject(rows: seq<Project>, path: string) returns (id: Option<int>)
    ensures id == match OwnerOf(rows, path) case None => None case Some(p) => Some(p.id)
  {
    var needle := MatchKey(path);
    var ordered := Ordered(rows);
    for i := 0 to |ordered|
      invariant FirstOwner(ordered[i..], needle) == OwnerOf(rows, path)
    {
      assert ordered[i..][1..] == ordered[i + 1..];
      var stored := MatchKey(Stored(ordered[i]));
      if stored == "" || stored == "." {
        continue;
      }
      if HasPrefix(needle, stored) {
        return Some(ordered[i].id);
      }
    }
    return None;
  }

  lemma {:induction false} FirstOwnerIsFirst(ordered: seq<Project>, needle: string)
    requires InOrder(ordered)
    ensures match FirstOwner(ordered, needle)
      case None => forall p | p in ordered :: !Owns(p, needle)
      case Some(o) => o in ordered && Owns(o, needle) && forall p | p in ordered && Owns(p, needle) :: !Before(p, o)
  {
    if ordered != [] {
      if Owns(ordered[0], needle) {
        forall p | p in ordered && Owns(p, needle)
          ensures !Before(p, ordered[0])
        {
          var i :| 0 <= i < |ordered| && ordered[i] == p;
          if i > 0 {
            assert !Before(ordered[i], ordered[0]);
          }
        }
      } else {
        assert forall i, j | 0 <= i < j < |ordered[1..]| :: ordered[1..][i] == ordered[i + 1] && ordered[1..][j] == ordered[j + 1];
        FirstOwnerIsFirst(ordered[1..], needle);
        assert ordered == [ordered[0]] + ordered[1..];
      }
    }
  }

  /** Some row answers exactly when some row owns the path, and no owner sorts before the answer. */
  lemma {:induction false} OwnerIsFirst(rows: seq<Project>, path: string)
    ensures match OwnerOf(rows, path)
      case None => forall p | p in rows :: !Owns(p, MatchKey(path))
      case Some(o) => o in rows && Owns(o, MatchKey(path)) && forall p | p in rows && Owns(p, MatchKey(path)) :: !Before(p, o)
  {
    OrderedIsInOrder(rows);
    FirstOwnerIsFirst(Ordered(rows), MatchKey(path));
    forall p | p in rows && Owns(p, MatchKey(path))
      ensures p in Ordered(rows)
    {
      assert Stored(p) != "";
    }
  }

  /** The answer has the longest key among the owners. */
  ghost predicate MostSpecific(rows: seq<Project>, path: string) {
    forall o | OwnerOf(rows, path) == Some(o) :: forall p | p in rows && Owns(p, MatchKey(path)) :: |KeyOf(p)| <= |KeyOf(o)|
  }

  predicate Usable(p: Project) {
    KeyOf(p) != "" && KeyOf(p) != "."
  }

  /** A usable key strictly under another. */
  predicate Inside(inner: Project, outer: Project) {
    Usable(inner) && Usable(outer) && KeyOf(inner) != KeyOf(outer) && HasPrefix(KeyOf(inner), KeyOf(outer))
  }

  /** The primary key. */
  ghost predicate UniqueIds(rows: seq<Project>) {
    forall p, q | p in rows && q in rows && p.id == q.id :: p == q
  }

  /** Every nested root has a spelling that sorts before the root around it. */
  ghost predicate NestedFirst(rows: seq<Project>) {
    forall outer, inner | outer in rows && inner in rows && Inside(inner, outer) ::
      exists p :: p in rows && KeyOf(p) == KeyOf(inner) && Before(p, outer)
  }

  /** The most specific root answers for every path exactly when nested roots come first. */
  lemma {:induction false} MostSpecificIff(rows: seq<Project>)
    requires UniqueIds(rows)
    ensures (forall path :: MostSpecific(rows, path)) <==> NestedFirst(rows)
  {
    if NestedFirst(rows) {
      forall path
        ensures MostSpecific(rows, path)
      {
        NestedFirstSuffices(rows, path);
      }
    }
    if forall path :: MostSpecific(rows, path) {
      forall outer, inner | outer in rows && inner in rows && Inside(inner, outer)
        ensures exists p :: p in rows && KeyOf(p) == KeyOf(inner) && Before(p, outer)
      {
        var path := KeyOf(inner);
        KeysAreKeys(Stored(inner));
        KeysAreKeys(path);
        assert MostSpecific(rows, path);
        OwnerIsFirst(rows, path);
        assert Owns(inner, MatchKey(path)) && Owns(outer, MatchKey(path));
        var o := OwnerOf(rows, path).value;
        assert o in rows && KeyOf(o) == KeyOf(inner) && Before(o, outer);
      }
    }
  }

  lemma {:induction false} LongerKeySortsEarlier(rows: seq<Project>, needle: string, o: Project, p: Project)
    requires NestedFirst(rows) && o in rows && p in rows
    requires Owns(o, needle) && Owns(p, needle) && |KeyOf(p)| > |KeyOf(o)|
    ensures exists q :: q in rows && Owns(q, needle) && Before(q, o)
  {
    PrefixesNest(needle, KeyOf(o), KeyOf(p));
    assert Inside(p, o);
    var q :| q in rows && KeyOf(q) == KeyOf(p) && Before(q, o);
    assert Owns(q, needle);
  }

  lemma {:induction false} NestedFirstSuffices(rows: seq<Project>, path: string)
    requires NestedFirst(rows)
    ensures MostSpecific(rows, path)
  {
    var needle := MatchKey(path);
    OwnerIsFirst(rows, path);
    forall o, p | OwnerOf(rows, path) == Some(o) && p in rows && Owns(p, needle)
      ensures |KeyOf(p)| <= |KeyOf(o)|
    {
      if |KeyOf(p)| > |KeyOf(o)| {
        LongerKeySortsEarlier(rows, needle, o, p);
      }
    }
  }

  /** Roots stored without a trailing slash always come in that order. */
  lemma {:induction false} TidyRootsAreNestedFirst(rows: seq<Project>)
    requires forall p | p in rows :: |KeyOf(p)| == |Stored(p)|
    ensures NestedFirst(rows)
  {
  }

  const OUTER := Project(1, None, Some("/a///"))
  const INNER := Project(2, Some("/a/b"), None)

  lemma {:induction false} OuterKey()
    ensures KeyOf(OUTER) == "/a"
  {
    assert Slashed("/a///") == "/a///";
    assert "/a///"[..4] == "/a//" && "/a//"[..3] == "/a/" && "/a/"[..2] == "/a";
    assert DropTrailing("/a//", '/') == DropTrailing("/a/", '/') == DropTrailing("/a", '/') == "/a";
  }

  lemma {:induction false} InnerKey()
    ensures KeyOf(INNER) == MatchKey("/a/b") == "/a/b"
  {
  }

  lemma {:induction false} OuterSortsFirst()
    ensures Ordered([OUTER, INNER]) == [OUTER, INNER]
  {
    assert |Stored(OUTER)| == 5 && |Stored(INNER)| == 4;
    assert [OUTER, INNER][..1] == [OUTER] && [OUTER][..0] == [];
    assert Ordered([OUTER]) == [OUTER];
    assert InsertSorted(INNER, [OUTER]) == [OUTER, INNER];
  }

  /** Three trailing slashes are enough for an outer root to win over a project inside it. */
  lemma {:induction false} TrailingSlashesHideNestedProject()
    ensures OwnerOf([OUTER, INNER], "/a/b") == Some(OUTER)
    ensures Owns(INNER, MatchKey("/a/b")) && |KeyOf(INNER)| > |KeyOf(OUTER)|
  {
    OuterKey();
    InnerKey();
    OuterSortsFirst();
    assert "/a" + "/" == "/a/b"[..3];
    assert Owns(OUTER, "/a/b");
  }

  /** A row's root is its resolved root path, or the path given for it where that is missing; it owns that directory and what is
      below it. */
  lemma {:induction false} OwnsMeans(p: Project, path: string)
    ensures Owns(p, MatchKey(path)) <==>
            var root := if p.rootPath.Some? && p.rootPath.value != "" then p.rootPath
                        else if p.path.Some? && p.path.value != "" then p.path else None;
            root.Some? && MatchKey(root.value) !in {"", "."}
            && (MatchKey(path) == MatchKey(root.value) || MatchKey(root.value) + "/" <= MatchKey(path))
  {
  }

  /** The answer's root is the longest as stored among the owners', and the oldest row's among equals. */
  lemma {:induction false} OwnerIsLongestStored(rows: seq<Project>, path: string, o: Project, p: Project)
    requires OwnerOf(rows, path) == Some(o) && p in rows && Owns(p, MatchKey(path))
    ensures |Stored(p)| <= |Stored(o)| && (|Stored(p)| == |Stored(o)| ==> o.id <= p.id)
  {
    OwnerIsFirst(rows, path);
  }
}

/** Rebuilding the workspace `.claude/` beside itself and swapping it in with two renames. */
module WorkspaceSwap {
  import opened Text

  datatype Node = Dir | Entry(content: string)

  /** A directory tree: relative path to what is there. */
  type Tree = map<string, Node>

  /** The three sibling directories `.claude`, `.claude.next` and `.claude.prev`. */
  datatype Slots = Slots(claude: Option<Tree>, next: Option<Tree>, prev: Option<Tree>)

  /** One entry to stage; a missing or unrewritable source stages nothing. */
  datatype Item = Item(path: string, content: Option<string>)

  const BUCKETS := ["agents", "skills", "commands"]
  const SKILL_DIR := "skills/projects"
  const SKILL_FILE := "skills/projects/SKILL.md"

  predicate IsBucket(path: string) {
    path in BUCKETS
  }

  function WithBuckets(t: Tree, n: nat): Tree
    requires n <= 3
  {
    if n == 0 then t else WithBuckets(t, n - 1)[BUCKETS[n - 1] := Dir]
  }

  function Stage(t: Tree, items: seq<Item>): Tree {
    if items == [] then t
    else
      var before, last := Stage(t, items[..|items| - 1]), items[|items| - 1];
      if last.content.Some? then before[last.path := Entry(last.content.value)] else before
  }

  /** The complete tree a regeneration is after. */
  function DesiredTree(skill: string, items: seq<Item>): Tree {
    Stage(WithBuckets(map[], 3)[SKILL_DIR := Dir][SKILL_FILE := Entry(skill)], items)
  }

  /** `now` is `was` with at most some of the empty bucket directories added. */
  ghost predicate Grown(was: Tree, now: Tree) {
    && (forall p | p in was :: p in now && now[p] == was[p])
    && (forall p | p in now && p !in was :: IsBucket(p) && now[p] == Dir)
  }

  /** Bucket directories and nothing else. */
  ghost predicate IsSkeleton(t: Tree) {
    Grown(map[], t)
  }

  /** All a reader can find at `.claude`: the tree it held, nothing, an empty skeleton, or the whole new tree. */
  ghost predicate ClaudeIsWhole(was: Option<Tree>, now: Option<Tree>, desired: Tree) {
    || now.None?
    || IsSkeleton(now.value)
    || (was.Some? && Grown(was.value, now.value))
    || now.value == desired
  }

  /** A tree that is still to be had: in place, or set aside by the swap. */
  ghost predicate Holds(s: Slots, tree: Tree) {
    || (s.claude.Some? && Grown(tree, s.claude.value))
    || (s.prev.Some? && Grown(tree, s.prev.value))
  }

  ghost predicate HoldsNew(s: Slots, desired: Tree) {
    s.next == Some(desired) || s.claude == Some(desired)
  }

  /** What each state of a run owes to the state the run began in. */
  ghost predicate StepIsSafe(start: Slots, s: Slots, desired: Tree) {
    && ClaudeIsWhole(start.claude, s.claude, desired)
    && forall tree | Holds(start, tree) :: Holds(s, tree) || HoldsNew(s, desired)
  }

  class Workspace {
    var claude: Option<Tree>
    var next: Option<Tree>
    var prev: Option<Tree>
    ghost var history: seq<Slots>

    function Now(): Slots
      reads this
    {
      Slots(claude, next, prev)
    }

    ghost predicate SafeSince(n: nat, start: Slots, desired: Tree)
      reads this
    {
      n <= |history| && forall k | n <= k < |history| :: StepIsSafe(start, history[k], desired)
    }

    /** Record that a crash here would find this state. */
    ghost method Reach()
      modifies this`history
      ensures history == old(history) + [Now()]
    {
      history := history + [Now()];
    }

    /** `_ensure_workspace_dirs`: `.claude` and its buckets exist. */
    method EnsureDirs(ghost desired: Tree) returns (ok: bool)
      modifies this`claude, this`history
      ensures old(history) <= history && SafeSince(|old(history)|, old(Now()), desired)
      ensures claude == old(claude) || (claude.Some? && Grown(if old(claude).Some? then old(claude).value else map[], claude.value))
      ensures ok ==> claude.Some?
    {
      ghost var start := Now();
      ok := *;
      if !ok {
        return;
      }
      if claude.None? {
        claude := Some(map[]);
        Reach();
      }
      ghost var base := if start.claude.Some? then start.claude.value else map[];
      var i := 0;
      while i < 3
        invariant 0 <= i <= 3
        invariant claude.Some? && Grown(base, claude.value)
        invariant old(history) <= history && SafeSince(|old(history)|, start, desired)
      {
        ok := *;
        if !ok {
          return;
        }
        if BUCKETS[i] !in claude.value {
          claude := Some(claude.value[BUCKETS[i] := Dir]);
          Reach();
        }
        i := i + 1;
      }
    }

    /** `rmtree` of the staging directory: entry by entry, in any order. */
    method WipeNext(ghost start: Slots, ghost desired: Tree) returns (ok: bool)
      requires ClaudeIsWhole(start.claude, claude, desired) && forall tree | Holds(start, tree) :: Holds(Now(), tree)
      modifies this`next, this`history
      ensures old(history) <= history && SafeSince(|old(history)|, start, desired)
      ensures ok ==> next == None
    {
      while next.Some? && next.value != map[]
        invariant old(history) <= history && SafeSince(|old(history)|, start, desired)
        decreases if next.Some? then |next.value| else 0
      {
        ok := *;
        if !ok {
          return;
        }
        var path :| path in next.value;
        next := Some(next.value - {path});
        Reach();
      }
      ok := *;
      if ok && next.Some? {
        next := None;
        Reach();
      }
    }

    /** `rmtree` of the tree set aside, allowed only once the new tree is whole. */
    method WipePrev(ghost start: Slots, ghost desired: Tree) returns (ok: bool)
      requires ClaudeIsWhole(start.claude, claude, desired) && HoldsNew(Now(), desired)
      modifies this`prev, this`history
      ensures old(history) <= history && SafeSince(|old(history)|, start, desired)
      ensures ok ==> prev == None
    {
      while prev.Some? && prev.value != map[]
        invariant old(history) <= history && SafeSince(|old(history)|, start, desired)
        decreases if prev.Some? then |prev.value| else 0
      {
        ok := *;
        if !ok {
          return;
        }
        var path :| path in prev.value;
        prev := Some(prev.value - {path});
        Reach();
      }
      ok := *;
      if ok && prev.Some? {
        prev := None;
        Reach();
      }
    }

    /** One entry written into the staging directory. */
    method Put(path: string, node: Node, ghost start: Slots, ghost desired: Tree) returns (ok: bool)
      requires next.Some?
      requires ClaudeIsWhole(start.claude, claude, desired) && forall tree | Holds(start, tree) :: Holds(Now(), tree)
      modifies this`next, this`history
      ensures old(history) <= history && SafeSince(|old(history)|, start, desired)
      ensures next.Some? && (ok ==> next.value == old(next).value[path := node])
    {
      ok := *;
      if ok {
        next := Some(next.value[path := node]);
        Reach();
      }
    }

    /** Staging: buckets, the built-in skill, then every desired entry that can be had. */
    method Build(skill: string, items: seq<Item>, ghost start: Slots) returns (ok: bool)
      requires next == None
      requires var desired := DesiredTree(skill, items);
        ClaudeIsWhole(start.claude, claude, desired) && forall tree | Holds(start, tree) :: Holds(Now(), tree)
      modifies this`next, this`history
      ensures old(history) <= history && SafeSince(|old(history)|, start, DesiredTree(skill, items))
      ensures ok ==> next == Some(DesiredTree(skill, items))
    {
      ghost var desired := DesiredTree(skill, items);
      next := Some(map[]);
      Reach();
      var i := 0;
      while i < 3
        invariant 0 <= i <= 3
        invariant next == Some(WithBuckets(map[], i))
        invariant old(history) <= history && SafeSince(|old(history)|, start, desired)
      {
        ok := Put(BUCKETS[i], Dir, start, desired);
        if !ok {
          return;
        }
        i := i + 1;
      }
      ok := Put(SKILL_DIR, Dir, start, desired);
      if !ok {
        return;
      }
      ok := Put(SKILL_FILE, Entry(skill), start, desired);
      if !ok {
        return;
      }
      ghost var bare := next.value;
      i := 0;
      while i < |items|
        invariant 0 <= i <= |items|
        invariant next == Some(Stage(bare, items[..i]))
        invariant old(history) <= history && SafeSince(|old(history)|, start, desired)
      {
        assert items[..i + 1][..i] == items[..i];
        if items[i].content.Some? {
          ok := Put(items[i].path, Entry(items[i].content.value), start, desired);
          if !ok {
            return;
          }
        }
        i := i + 1;
      }
      assert items[..i] == items;
      ok := true;
    }

    /** The swap: set the old tree aside, move the new one in, drop the old one. */
    method Swap(ghost start: Slots, ghost desired: Tree) returns (ok: bool)
      requires next == Some(desired) && claude.Some?
      requires ClaudeIsWhole(start.claude, claude, desired)
      modifies this
      ensures old(history) <= history && SafeSince(|old(history)|, start, desired)
      ensures ok ==> Now() == Slots(Some(desired), None, None)
    {
      ok := WipePrev(start, desired);
      if !ok {
        return;
      }
      ok := *;
      if !ok {
        return;
      }
      prev, claude := claude, None;
      Reach();
      ok := *;
      if !ok {
        return;
      }
      claude, next := next, None;
      Reach();
      ok := WipePrev(start, desired);
    }

    /** `regenerate_workspace_links`, on disk. It promises the same from every state a crash may have left. */
    method Regenerate(skill: string, items: seq<Item>) returns (ok: bool)
      modifies this
      ensures old(history) <= history && SafeSince(|old(history)|, old(Now()), DesiredTree(skill, items))
      ensures ok ==> Now() == Slots(Some(DesiredTree(skill, items)), None, None)
    {
      ghost var start := Now();
      ghost var desired := DesiredTree(skill, items);
      ok := EnsureDirs(desired);
      if !ok {
        return;
      }
      ok := WipeNext(start, desired);
      if !ok {
        return;
      }
      ok := Build(skill, items, start);
      if !ok {
        return;
      }
      ok := Swap(start, desired);
    }
  }

  // Any number of runs, each begun in whatever state a crash of the one before left behind.

  /** A run: the tree it is after, and the states it went through. */
  datatype Run = Run(desired: Tree, states: seq<Slots>)

  ghost predicate RunIsSafe(start: Slots, run: Run) {
    forall s | s in run.states :: StepIsSafe(start, s, run.desired)
  }

  /** A tree some run was after, or the first run found. */
  ghost predicate IsKnown(first: Option<Tree>, runs: seq<Run>, t: Tree) {
    || IsSkeleton(t)
    || (first.Some? && Grown(first.value, t))
    || exists run | run in runs :: Grown(run.desired, t)
  }

  /** However many runs crash, wherever they crash, a reader never finds half a tree at `.claude`. */
  lemma {:induction false} CrashesNeverShowHalfATree(start: Slots, runs: seq<Run>, last: Run, s: Slots, stops: seq<Slots>)
    requires |stops| == |runs| + 1 && stops[0] == start
    requires forall i | 0 <= i < |runs| :: RunIsSafe(stops[i], runs[i]) && (stops[i + 1] in runs[i].states || stops[i + 1] == stops[i])
    requires RunIsSafe(stops[|runs|], last) && s in last.states
    ensures s.claude.Some? ==> IsKnown(start.claude, runs + [last], s.claude.value)
  {
    StopsAreKnown(start, runs, stops, |runs|);
    var from := stops[|runs|].claude;
    if s.claude.Some? && from.Some? && Grown(from.value, s.claude.value) {
      GrownKnown(start.claude, runs, from.value, s.claude.value);
    }
    assert last in runs + [last];
    assert forall run | run in runs :: run in runs + [last];
  }

  lemma {:induction false} GrownKnown(first: Option<Tree>, runs: seq<Run>, t: Tree, t': Tree)
    requires IsKnown(first, runs, t) && Grown(t, t')
    ensures IsKnown(first, runs, t')
  {
  }

  lemma {:induction false} StopsAreKnown(start: Slots, runs: seq<Run>, stops: seq<Slots>, k: nat)
    requires |stops| == |runs| + 1 && stops[0] == start && k <= |runs|
    requires forall i | 0 <= i < |runs| :: RunIsSafe(stops[i], runs[i]) && (stops[i + 1] in runs[i].states || stops[i + 1] == stops[i])
    ensures stops[k].claude.Some? ==> IsKnown(start.claude, runs, stops[k].claude.value)
  {
    if k > 0 {
      StopsAreKnown(start, runs, stops, k - 1);
      var from, to := stops[k - 1].claude, stops[k].claude;
      if stops[k] != stops[k - 1] && to.Some? {
        assert StepIsSafe(stops[k - 1], stops[k], runs[k - 1].desired);
        if from.Some? && Grown(from.value, to.value) {
          GrownKnown(start.claude, runs, from.value, to.value);
        }
        assert runs[k - 1] in runs;
      }
    }
  }

  // What is in the tree.

  /** An item that can be had is there with its own content, unless a later one takes its path. */
  lemma {:induction false} ItemIsStaged(t: Tree, items: seq<Item>, i: nat)
    requires i < |items| && items[i].content.Some?
    requires forall j | i < j < |items| && items[j].content.Some? :: items[j].path != items[i].path
    ensures items[i].path in Stage(t, items) && Stage(t, items)[items[i].path] == Entry(items[i].content.value)
  {
    if i < |items| - 1 {
      ItemIsStaged(t, items[..|items| - 1], i);
    }
  }

  /** And nothing else is: a path no item with content has is as it was. */
  lemma {:induction false} OnlyItemsAreStaged(t: Tree, items: seq<Item>, path: string)
    requires forall i | 0 <= i < |items| && items[i].content.Some? :: items[i].path != path
    ensures path in Stage(t, items) <==> path in t
    ensures path in t ==> Stage(t, items)[path] == t[path]
  {
    if items != [] {
      OnlyItemsAreStaged(t, items[..|items| - 1], path);
    }
  }

  /** The tree a regeneration is after holds every item that can be had. */
  lemma {:induction false} DesiredTreeHolds(skill: string, items: seq<Item>, i: nat)
    requires i < |items| && items[i].content.Some?
    requires forall j | i < j < |items| && items[j].content.Some? :: items[j].path != items[i].path
    ensures items[i].path in DesiredTree(skill, items)
    ensures DesiredTree(skill, items)[items[i].path] == Entry(items[i].content.value)
  {
    ItemIsStaged(WithBuckets(map[], 3)[SKILL_DIR := Dir][SKILL_FILE := Entry(skill)], items, i);
  }

  /** Beside them it holds the three buckets and the built-in skill, and nothing else; a missing source leaves no entry. */
  lemma {:induction false} DesiredTreeHoldsOnly(skill: string, items: seq<Item>, path: string)
    requires forall i | 0 <= i < |items| && items[i].content.Some? :: items[i].path != path
    ensures path in DesiredTree(skill, items) <==>
            path in ["agents", "skills", "commands", "skills/projects", "skills/projects/SKILL.md"]
    ensures path in ["agents", "skills", "commands", "skills/projects"] ==> DesiredTree(skill, items)[path] == Dir
    ensures path == "skills/projects/SKILL.md" ==> DesiredTree(skill, items)[path] == Entry(skill)
  {
    OnlyItemsAreStaged(WithBuckets(map[], 3)[SKILL_DIR := Dir][SKILL_FILE := Entry(skill)], items, path);
    BareTreeIs(skill, path);
  }

  lemma {:induction false} BareTreeIs(skill: string, path: string)
    ensures var bare := WithBuckets(map[], 3)[SKILL_DIR := Dir][SKILL_FILE := Entry(skill)];
      && (path in bare <==> path in ["agents", "skills", "commands", "skills/projects", "skills/projects/SKILL.md"])
      && (path in ["agents", "skills", "commands", "skills/projects"] ==> bare[path] == Dir)
      && (path == "skills/projects/SKILL.md" ==> bare[path] == Entry(skill))
  {
    assert WithBuckets(map[], 1) == map[]["agents" := Dir];
    assert WithBuckets(map[], 2) == WithBuckets(map[], 1)["skills" := Dir];
    assert WithBuckets(map[], 3) == WithBuckets(map[], 2)["commands" := Dir];
    assert |SKILL_FILE| > |SKILL_DIR| > 8;
  }
}

/** Slugs, safe names and the `--` seam between them. */
module AliasSeam {
  import opened Text

  /** The parts of Python's Unicode tables the sanitisers consult. */
  datatype Unicode = Unicode(lower: string -> string, isAlnum: char -> bool) {
    predicate Sane() {
      !isAlnum('-') && !isAlnum('/') && !isAlnum('\\') && !isAlnum('.')
    }
  }

  predicate DoubleAt(s: string, i: nat) {
    i + 1 < |s| && s[i] == '-' && s[i + 1] == '-'
  }

  predicate HasDouble(s: string) {
    exists i: nat | i < |s| :: DoubleAt(s, i)
  }

  /** A half of an alias: nonempty, no dash at either edge, no two dashes in a row. */
  predicate Clean(s: string) {
    s != "" && s[0] != '-' && s[|s| - 1] != '-' && !HasDouble(s)
  }

  /** Every run of dashes becomes one dash. */
  function Collapse(s: string): (r: string)
    ensures |r| <= |s|
    ensures r == "" <==> s == ""
    ensures s != "" ==> r[0] == s[0] && r[|r| - 1] == s[|s| - 1]
  {
    if |s| < 2 then s
    else if s[0] == '-' && s[1] == '-' then Collapse(s[1..])
    else [s[0]] + Collapse(s[1..])
  }

  lemma {:induction false} CollapseHasNoDouble(s: string)
    ensures !HasDouble(Collapse(s))
  {
    if |s| >= 2 {
      CollapseHasNoDouble(s[1..]);
      var rest := Collapse(s[1..]);
      if !(s[0] == '-' && s[1] == '-') {
        forall i: nat
          ensures !DoubleAt([s[0]] + rest, i)
        {
          if i > 0 {
            assert DoubleAt([s[0]] + rest, i) ==> DoubleAt(rest, i - 1);
          }
        }
      }
    }
  }

  lemma {:induction false} CollapseIsIdle(s: string)
    requires !HasDouble(s)
    ensures Collapse(s) == s
  {
    if |s| >= 2 {
      assert !DoubleAt(s, 0);
      forall i: nat
        ensures !DoubleAt(s[1..], i)
      {
        assert DoubleAt(s[1..], i) ==> DoubleAt(s, i + 1);
      }
      CollapseIsIdle(s[1..]);
    }
  }

  /** `s.replace("--", "-")`: left to right, each pair once. */
  function ReplaceDouble(s: string): (r: string)
    ensures |r| <= |s|
    ensures HasDouble(s) ==> |r| < |s|
    ensures s != "" ==> r != "" && r[0] == s[0]
  {
    if |s| < 2 then s
    else if DoubleAt(s, 0) then "-" + ReplaceDouble(s[2..])
    else
      assert forall i: nat :: DoubleAt(s, i) ==> i > 0 && DoubleAt(s[1..], i - 1);
      [s[0]] + ReplaceDouble(s[1..])
  }

  /** One pass of the replacement moves toward the collapsed string, never past it. */
  lemma {:induction false} ReplaceKeepsCollapse(s: string)
    ensures Collapse(ReplaceDouble(s)) == Collapse(s)
    ensures Collapse("-" + ReplaceDouble(s)) == Collapse("-" + s)
    decreases |s|
  {
    if |s| < 2 {
    } else if DoubleAt(s, 0) {
      var rest := s[2..];
      ReplaceKeepsCollapse(rest);
      assert s == "-" + ("-" + rest) && s[1..] == "-" + rest;
      assert ReplaceDouble(s) == "-" + ReplaceDouble(rest);
      assert Collapse(s) == Collapse("-" + rest);
      assert ("-" + s)[1..] == s && ("-" + ReplaceDouble(s))[1..] == ReplaceDouble(s);
    } else {
      var rest := s[1..];
      ReplaceKeepsCollapse(rest);
      var r := ReplaceDouble(rest);
      assert ReplaceDouble(s) == [s[0]] + r;
      assert ([s[0]] + r)[1..] == r && s == [s[0]] + rest;
      assert ("-" + s)[1..] == s && ("-" + ReplaceDouble(s))[1..] == ReplaceDouble(s);
    }
  }

  function StripDashes(s: string): string {
    DropTrailing(DropLeading(s, '-'), '-')
  }

  lemma {:induction false} SliceHasNoDouble(s: string, lo: nat, hi: nat)
    requires !HasDouble(s) && lo <= hi <= |s|
    ensures !HasDouble(s[lo..hi])
  {
    forall i: nat
      ensures !DoubleAt(s[lo..hi], i)
    {
      assert DoubleAt(s[lo..hi], i) ==> DoubleAt(s, lo + i);
    }
  }

  lemma {:induction false} LeadingIsCut(s: string) returns (lo: nat)
    ensures lo <= |s| && DropLeading(s, '-') == s[lo..] && (lo < |s| ==> s[lo] != '-')
  {
    lo := |s| - |DropLeading(s, '-')|;
  }

  lemma {:induction false} TrailingIsCut(s: string) returns (hi: nat)
    ensures hi <= |s| && DropTrailing(s, '-') == s[..hi] && (hi > 0 ==> s[hi - 1] != '-')
  {
    hi := |DropTrailing(s, '-')|;
  }

  lemma {:induction false} SliceOfSlice(s: string, mid: string, cut: string, lo: nat, n: nat)
    requires lo <= |s| && mid == s[lo..] && n <= |mid| && cut == mid[..n]
    ensures cut == s[lo..lo + n]
    ensures n > 0 ==> mid[n - 1] == s[lo + n - 1]
  {
  }

  /** Stripping cuts a slice whose ends are not dashes. */
  lemma {:induction false} StripIsSlice(s: string) returns (lo: nat, hi: nat)
    ensures lo <= hi <= |s| && StripDashes(s) == s[lo..hi]
    ensures lo < hi ==> s[lo] != '-' && s[hi - 1] != '-'
  {
    var mid := DropLeading(s, '-');
    lo := LeadingIsCut(s);
    var n := TrailingIsCut(mid);
    hi := lo + n;
    SliceOfSlice(s, mid, DropTrailing(mid, '-'), lo, n);
  }

  lemma {:induction false} StripKeepsSingle(s: string)
    requires !HasDouble(s)
    ensures var r := StripDashes(s); !HasDouble(r) && (r != "" ==> Clean(r))
  {
    var lo, hi := StripIsSlice(s);
    SliceHasNoDouble(s, lo, hi);
  }

  /** Anything that is not a letter or digit becomes a dash. */
  function Mask(u: Unicode, s: string): string {
    seq(|s|, i requires 0 <= i < |s| => if u.isAlnum(s[i]) then s[i] else '-')
  }

  function Slug(u: Unicode, s: string, fallback: string): string {
    var out := Collapse(StripDashes(Mask(u, u.lower(s))));
    if out == "" then fallback else out
  }

  /** `slugify`: the loop collapses pairs until none is left. */
  method Slugify(u: Unicode, s: string, fallback: string) returns (r: string)
    ensures r == Slug(u, s, fallback)
  {
    var out := StripDashes(Mask(u, u.lower(s)));
    ghost var stripped := out;
    while HasDouble(out)
      invariant Collapse(out) == Collapse(stripped)
      decreases |out|
    {
      ReplaceKeepsCollapse(out);
      out := ReplaceDouble(out);
    }
    CollapseIsIdle(out);
    r := if out == "" then fallback else out;
  }

  const PROJECT := "project"

  function ProjectSlug(u: Unicode, projectName: string): string {
    Slug(u, projectName, PROJECT)
  }

  lemma {:induction false} FallbackIsClean()
    ensures Clean(PROJECT)
  {
  }

  lemma {:induction false} ProjectSlugIsClean(u: Unicode, projectName: string)
    ensures Clean(ProjectSlug(u, projectName))
  {
    var masked := Mask(u, u.lower(projectName));
    var lo, hi := StripIsSlice(masked);
    CollapseHasNoDouble(StripDashes(masked));
    FallbackIsClean();
  }

  predicate IsSeparator(c: char) {
    c == '/' || c == '\\' || c == '.'
  }

  function Subst(name: string): string {
    seq(|name|, i requires 0 <= i < |name| => if IsSeparator(name[i]) then '-' else name[i])
  }

  /** `_safe_agent_name`. */
  function SafeName(name: string): string {
    var sanitized := StripDashes(Collapse(Subst(name)));
    if sanitized == "" then "unknown" else sanitized
  }

  lemma {:induction false} SafeNameIsClean(name: string)
    ensures Clean(SafeName(name))
  {
    CollapseHasNoDouble(Subst(name));
    StripKeepsSingle(Collapse(Subst(name)));
    assert forall i: nat :: !DoubleAt("unknown", i);
  }

  const SEPARATOR := "--"

  function AliasName(slug: string, safe: string): string {
    slug + SEPARATOR + safe
  }

  /** The alias of a row whose first alias is taken: the row id goes last. */
  function AliasWithId(slug: string, safe: string, id: nat): string {
    AliasName(slug, safe) + "-" + Decimal(id)
  }

  /** The index of the first `--`, or the length when there is none. */
  function FirstSeam(s: string): (i: nat)
    ensures i <= |s|
    ensures forall k: nat | k < i :: !DoubleAt(s, k)
    ensures i < |s| ==> DoubleAt(s, i)
  {
    if s == "" then 0
    else if DoubleAt(s, 0) then 0
    else
      var rest := FirstSeam(s[1..]);
      assert forall k: nat :: k > 0 && DoubleAt(s, k) ==> DoubleAt(s[1..], k - 1);
      assert rest < |s| - 1 ==> DoubleAt(s[1..], rest) && DoubleAt(s, rest + 1);
      rest + 1
  }

  /** `s.split("--", 1)` of a string that has a seam. */
  function SplitAtSeam(s: string): (string, string)
    requires HasDouble(s)
  {
    var i := FirstSeam(s);
    assert i < |s|;
    (s[..i], s[i + 2..])
  }

  /** The seam is where it was put: both halves come back. */
  lemma {:induction false} SplitInvertsAlias(slug: string, safe: string)
    requires Clean(slug)
    requires safe != "" && safe[0] != '-'
    ensures HasDouble(AliasName(slug, safe))
    ensures SplitAtSeam(AliasName(slug, safe)) == (slug, safe)
  {
    var s := AliasName(slug, safe);
    assert DoubleAt(s, |slug|);
    forall k: nat | k < |slug|
      ensures !DoubleAt(s, k)
    {
      assert DoubleAt(s, k) ==> k + 1 < |slug| && DoubleAt(slug, k);
    }
    assert FirstSeam(s) == |slug|;
    assert s[..|slug|] == slug && s[|slug| + 2..] == safe;
  }

  lemma {:induction false} AliasIsInjective(slug: string, safe: string, slug': string, safe': string)
    requires Clean(slug) && Clean(safe) && Clean(slug') && Clean(safe')
    requires AliasName(slug, safe) == AliasName(slug', safe')
    ensures slug == slug' && safe == safe'
  {
    SplitInvertsAlias(slug, safe);
    SplitInvertsAlias(slug', safe');
  }

  // No alias is the name it was made from.

  lemma {:induction false} CollapseAppend(a: string, b: string)
    requires b != "" && b[0] != '-' && Collapse(b) == b
    ensures Collapse(a + b) == Collapse(a) + b
  {
    var s := a + b;
    if a == "" {
      assert s == b;
    } else if |a| == 1 {
      assert s[1..] == b && s[1] == b[0];
    } else {
      var rest := a[1..];
      assert s[1..] == rest + b && s[1] == a[1];
      CollapseAppend(rest, b);
    }
  }

  lemma {:induction false} DropLeadingAppend(a: string, i: nat, b: string)
    requires i < |a| && a[i] != '-'
    ensures DropLeading(a + b, '-') == DropLeading(a, '-') + b
    ensures DropLeading(a, '-') != ""
  {
    if a[0] == '-' {
      assert (a + b)[1..] == a[1..] + b;
      DropLeadingAppend(a[1..], i - 1, b);
    } else {
      assert (a + b)[0] == a[0];
    }
  }

  lemma {:induction false} CollapseKeepsSolid(s: string, i: nat) returns (k: nat)
    requires i < |s| && s[i] != '-'
    ensures k < |Collapse(s)| && Collapse(s)[k] != '-'
  {
    if i == 0 {
      k := 0;
    } else {
      k := CollapseKeepsSolid(s[1..], i - 1);
      if !(s[0] == '-' && s[1] == '-') {
        assert Collapse(s)[k + 1] == Collapse(s[1..])[k];
        k := k + 1;
      }
    }
  }

  lemma {:induction false} DropTrailingIdle(s: string)
    requires s != "" && s[|s| - 1] != '-'
    ensures DropTrailing(s, '-') == s
  {
  }

  lemma {:induction false} StripAppend(c: string, k: nat, tail: string) returns (lead: string)
    requires k < |c| && c[k] != '-'
    requires tail != "" && tail[|tail| - 1] != '-'
    ensures lead != "" && StripDashes(c + tail) == lead + tail
  {
    DropLeadingAppend(c, k, tail);
    lead := DropLeading(c, '-');
    DropTrailingIdle(lead + tail);
  }

  lemma {:induction false} CollapsedTail(front: string, i: nat, tail: string) returns (lead: string)
    requires i < |front| && front[i] != '-'
    requires Clean(tail)
    ensures lead != "" && StripDashes(Collapse(front + tail)) == lead + tail
  {
    CollapseIsIdle(tail);
    CollapseAppend(front, tail);
    var k := CollapseKeepsSolid(front, i);
    lead := StripAppend(Collapse(front), k, tail);
  }

  /** A name that carries something solid before a clean tail has a safe name longer than the tail. */
  lemma {:induction false} SafeNameOutgrowsTail(front: string, tail: string)
    requires front != "" && front[0] != '-' && !IsSeparator(front[0])
    requires Clean(tail) && forall i | 0 <= i < |tail| :: !IsSeparator(tail[i])
    ensures |SafeName(front + tail)| > |tail|
  {
    assert Subst(front + tail) == Subst(front) + tail;
    var lead := CollapsedTail(Subst(front), 0, tail);
  }

  lemma {:induction false} CollapseKeepsAlphabet(s: string)
    requires forall i | 0 <= i < |s| :: !IsSeparator(s[i])
    ensures forall i | 0 <= i < |Collapse(s)| :: !IsSeparator(Collapse(s)[i])
  {
    if |s| >= 2 {
      CollapseKeepsAlphabet(s[1..]);
    }
  }

  lemma {:induction false} SafeNameHasNoSeparator(name: string)
    ensures forall i | 0 <= i < |SafeName(name)| :: !IsSeparator(SafeName(name)[i])
  {
    CollapseKeepsAlphabet(Subst(name));
  }

  lemma {:induction false} ProjectSlugIsSolid(u: Unicode, projectName: string)
    requires u.Sane()
    ensures var slug := ProjectSlug(u, projectName); slug[0] != '-' && !IsSeparator(slug[0])
  {
  }

  /** No alias, with or without the row id, equals the declared name it was made from. */
  lemma {:induction false} AliasIsNeverTheDeclaredName(u: Unicode, projectName: string, name: string, id: nat)
    requires u.Sane()
    ensures var slug, safe := ProjectSlug(u, projectName), SafeName(name);
      name != AliasName(slug, safe) && name != AliasWithId(slug, safe, id)
  {
    ProjectSlugIsClean(u, projectName);
    ProjectSlugIsSolid(u, projectName);
    SafeNameIsClean(name);
    SafeNameHasNoSeparator(name);
    TailWithIdIsClean(SafeName(name), id);
    LongerTailIsNotTheName(ProjectSlug(u, projectName), SafeName(name), name);
    LongerTailIsNotTheName(ProjectSlug(u, projectName), SafeName(name) + "-" + Decimal(id), name);
    AliasWithIdIsAlias(ProjectSlug(u, projectName), SafeName(name), id);
  }

  lemma {:induction false} LongerTailIsNotTheName(slug: string, tail: string, name: string)
    requires slug != "" && slug[0] != '-' && !IsSeparator(slug[0])
    requires Clean(tail) && forall i | 0 <= i < |tail| :: !IsSeparator(tail[i])
    requires |tail| >= |SafeName(name)|
    ensures name != AliasName(slug, tail)
  {
    assert (slug + SEPARATOR)[0] == slug[0];
    SafeNameOutgrowsTail(slug + SEPARATOR, tail);
  }

  lemma {:induction false} AliasWithIdIsAlias(slug: string, safe: string, id: nat)
    ensures AliasWithId(slug, safe, id) == AliasName(slug, safe + "-" + Decimal(id))
  {
  }

  lemma {:induction false} TailWithIdIsClean(safe: string, id: nat)
    requires Clean(safe) && forall i | 0 <= i < |safe| :: !IsSeparator(safe[i])
    ensures var tail := safe + "-" + Decimal(id);
      Clean(tail) && |tail| > |safe| && forall i | 0 <= i < |tail| :: !IsSeparator(tail[i])
  {
    var digits := Decimal(id);
    var tail := safe + "-" + digits;
    forall i: nat
      ensures !DoubleAt(tail, i)
    {
      assert DoubleAt(tail, i) && i + 1 < |safe| ==> DoubleAt(safe, i);
      if |safe| <= i + 1 < |tail| {
        assert i == |safe| ==> tail[i + 1] == digits[0] && digits[0] in digits;
        assert i + 1 == |safe| ==> tail[i] == safe[|safe| - 1];
        assert i > |safe| ==> tail[i] == digits[i - |safe| - 1] && tail[i] in digits;
      }
    }
    assert tail[|tail| - 1] == digits[|digits| - 1] && digits[|digits| - 1] in digits;
    assert forall i | 0 <= i < |digits| :: digits[i] in digits;
  }

  // What a slug and a safe name are for ordinary input.

  lemma {:induction false} DropNothing(s: string)
    requires s != "" && s[0] != '-' && s[|s| - 1] != '-'
    ensures StripDashes(s) == s
  {
    assert DropLeading(s, '-') == s;
  }

  /** Words of letters and digits are kept, whatever stands between them becomes one dash, and nothing at all the fallback. */
  lemma {:induction false} SlugJoinsWords(u: Unicode, project: string, a: string, c: char, b: string)
    requires u.Sane() && a != "" && b != "" && (forall x | x in a + b :: u.isAlnum(x)) && !u.isAlnum(c)
    ensures u.lower(project) == a ==> ProjectSlug(u, project) == a
    ensures u.lower(project) == a + [c] + b ==> ProjectSlug(u, project) == a + "-" + b
    ensures u.lower(project) == "" ==> ProjectSlug(u, project) == "project"
  {
    assert forall i | 0 <= i < |a| :: a[i] in a + b;
    assert forall i | 0 <= i < |b| :: b[i] in a + b;
    if u.lower(project) == a {
      assert Mask(u, a) == a;
      DropNothing(a);
      CollapseIsIdle(a);
    } else if u.lower(project) == a + [c] + b {
      var s := a + "-" + b;
      assert Mask(u, a + [c] + b) == s;
      assert s[0] == a[0] && s[|s| - 1] == b[|b| - 1];
      DropNothing(s);
      forall i: nat
        ensures !DoubleAt(s, i)
      {
      }
      CollapseIsIdle(s);
    }
  }

  lemma {:induction false} JoinIsClean(a: string, b: string)
    requires Clean(a) && Clean(b)
    ensures Clean(a + "-" + b)
  {
    var s := a + "-" + b;
    forall i: nat
      ensures !DoubleAt(s, i)
    {
      assert DoubleAt(s, i) && i + 1 < |a| ==> DoubleAt(a, i);
      assert DoubleAt(s, i) && i > |a| ==> DoubleAt(b, i - |a| - 1);
      assert s[|a| - 1] == a[|a| - 1] && s[|a| + 1] == b[0];
    }
    assert s[0] == a[0] && s[|s| - 1] == b[|b| - 1];
  }

  /** A separator between two clean parts becomes one dash, and no name at all becomes `unknown`. */
  lemma {:induction false} SafeNameKeepsNames(a: string, c: char, b: string)
    requires Clean(a) && Clean(b) && (forall x | x in a + b :: !IsSeparator(x)) && IsSeparator(c)
    ensures SafeName(a + [c] + b) == a + "-" + b && SafeName("") == "unknown"
  {
    SubstJoins(a, c, b);
    JoinIsClean(a, b);
    CollapseIsIdle(a + "-" + b);
    DropNothing(a + "-" + b);
    assert Subst("") == "";
  }

  lemma {:induction false} SubstJoins(a: string, c: char, b: string)
    requires (forall x | x in a + b :: !IsSeparator(x)) && IsSeparator(c)
    ensures Subst(a + [c] + b) == a + "-" + b
  {
    assert forall i | 0 <= i < |a| :: a[i] in a + b;
    assert forall i | 0 <= i < |b| :: b[i] in a + b;
  }
}

/** Timestamps as the database compares them: strings, character by character. */
module Timestamps {

  predicate Below(s: string, t: string) {
    if t == "" then false
    else if s == "" then true
    else if s[0] == t[0] then Below(s[1..], t[1..])
    else s[0] < t[0]
  }

  predicate AtLeast(s: string, t: string) {
    !Below(s, t)
  }

  lemma {:induction false} BelowIsTotal(s: string, t: string)
    ensures s == t || Below(s, t) || Below(t, s)
    ensures !(Below(s, t) && Below(t, s))
  {
    if s != "" && t != "" && s[0] == t[0] {
      BelowIsTotal(s[1..], t[1..]);
      assert s == [s[0]] + s[1..] && t == [t[0]] + t[1..];
    }
  }

  /** A shared prefix decides nothing. */
  lemma {:induction false} BelowAfterPrefix(p: string, s: string, t: string)
    ensures Below(p + s, p + t) <==> Below(s, t)
  {
    if p == "" {
      assert p + s == s && p + t == t;
    } else {
      BelowAfterPrefix(p[1..], s, t);
      assert (p + s)[1..] == p[1..] + s && (p + t)[1..] == p[1..] + t;
    }
  }

  /** Equally long prefixes that differ decide everything. */
  lemma {:induction false} BelowByPrefix(p: string, q: string, s: string, t: string)
    requires |p| == |q| && p != q
    ensures Below(p + s, q + t) <==> Below(p, q)
  {
    if p[0] == q[0] {
      assert p == [p[0]] + p[1..] && q == [q[0]] + q[1..];
      BelowByPrefix(p[1..], q[1..], s, t);
      assert (p + s)[1..] == p[1..] + s && (q + t)[1..] == q[1..] + t;
    }
  }

  /** `replace(column, 'T', ' ')`. */
  function Spaced(s: string): (r: string)
    ensures |r| == |s|
  {
    seq(|s|, i requires 0 <= i < |s| => if s[i] == 'T' then ' ' else s[i])
  }

  /** Both spellings of one moment become the same string. */
  lemma {:induction false} SpacedAgree(date: string, time: string)
    requires 'T' !in date && 'T' !in time
    ensures Spaced(date + "T" + time) == Spaced(date + " " + time) == date + " " + time
  {
  }

  /** Compared raw, the two spellings of one moment differ: the letter sorts above the space. */
  lemma {:induction false} RawSpellingsDiffer(date: string, time: string)
    ensures Below(date + " " + time, date + "T" + time)
  {
    assert date + " " + time == date + (" " + time) && date + "T" + time == date + ("T" + time);
    BelowAfterPrefix(date, " " + time, "T" + time);
  }
}

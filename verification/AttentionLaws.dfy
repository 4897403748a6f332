/** What each operation on the attention queue keeps, and what a refresh achieves. */
module AttentionLaws {
  import opened Text
  import opened AttentionQueue

  /** The partial unique index: at most one live row per key. */
  ghost predicate UniqueLive(rows: seq<Item>) {
    forall i, j | 0 <= i < j < |rows| :: rows[i].Live() && rows[j].Live() ==> rows[i].key != rows[j].key
  }

  /** A dedup key determines its kind. */
  ghost predicate Keyed(rows: seq<Item>, kindOf: string -> Kind) {
    forall i | 0 <= i < |rows| :: kindOf(rows[i].key) == rows[i].kind
  }

  ghost predicate KeyedCandidates(cs: seq<Candidate>, kindOf: string -> Kind) {
    forall c | c in cs :: kindOf(c.key) == c.kind
  }

  /** What a row may become: a resolved row never changes again, and no row is re-stamped, re-keyed or un-seen. */
  ghost predicate Follows(was: Item, now: Item) {
    && now.kind == was.kind && now.key == was.key && now.subject == was.subject && now.firstSeen == was.firstSeen
    && was.seenCount <= now.seenCount
    && (was.state == Resolved ==> now == was)
  }

  ghost predicate Evolves(rows: seq<Item>, rows': seq<Item>) {
    |rows| <= |rows'| && forall i | 0 <= i < |rows| :: Follows(rows[i], rows'[i])
  }

  lemma {:induction false} EvolvesTransitive(a: seq<Item>, b: seq<Item>, c: seq<Item>)
    requires Evolves(a, b) && Evolves(b, c)
    ensures Evolves(a, c)
  {
  }

  lemma {:induction false} LiveIndexIs(rows: seq<Item>, i: nat)
    requires UniqueLive(rows) && i < |rows| && rows[i].Live()
    ensures LiveIndex(rows, rows[i].key) == Some(i)
  {
  }

  lemma {:induction false} UpsertKeeps(rows: seq<Item>, c: Candidate, t: Moment, kindOf: string -> Kind)
    requires UniqueLive(rows)
    ensures UniqueLive(Upsert(rows, c, t)) && Evolves(rows, Upsert(rows, c, t))
    ensures Keyed(rows, kindOf) && kindOf(c.key) == c.kind ==> Keyed(Upsert(rows, c, t), kindOf)
  {
    var found, rows' := LiveIndex(rows, c.key), Upsert(rows, c, t);
    if found.Some? {
      assert forall i | 0 <= i < |rows| :: rows'[i].key == rows[i].key && rows'[i].Live() == rows[i].Live();
    } else {
      assert forall i | 0 <= i < |rows| :: rows'[i] == rows[i] && !(rows[i].Live() && rows[i].key == c.key);
    }
  }

  lemma {:induction false} UpsertAllKeeps(rows: seq<Item>, cs: seq<Candidate>, t: Moment, kindOf: string -> Kind)
    requires UniqueLive(rows)
    ensures UniqueLive(UpsertAll(rows, cs, t)) && Evolves(rows, UpsertAll(rows, cs, t))
    ensures Keyed(rows, kindOf) && KeyedCandidates(cs, kindOf) ==> Keyed(UpsertAll(rows, cs, t), kindOf)
  {
    if cs != [] {
      var front := cs[..|cs| - 1];
      UpsertAllKeeps(rows, front, t, kindOf);
      UpsertKeeps(UpsertAll(rows, front, t), cs[|cs| - 1], t, kindOf);
      EvolvesTransitive(rows, UpsertAll(rows, front, t), UpsertAll(rows, cs, t));
    }
  }

  /** The pass left alone, or moved as a statement may: same length, one row at a time. */
  lemma {:induction false} BeforeKeeps(rows: seq<Item>, t: Moment, kindOf: string -> Kind)
    requires UniqueLive(rows)
    ensures UniqueLive(Before(rows, t)) && Evolves(rows, Before(rows, t)) && |Before(rows, t)| == |rows|
    ensures Keyed(rows, kindOf) ==> Keyed(Before(rows, t), kindOf)
  {
  }

  lemma {:induction false} SweepAllIs(rows: seq<Item>, kinds: seq<Kind>, cs: seq<Candidate>, t: Moment)
    ensures var rows' := SweepAll(rows, kinds, cs, t);
      && |rows'| == |rows|
      && forall i | 0 <= i < |rows| :: rows'[i] == if rows[i].kind in kinds then Swept(rows[i], rows[i].kind, KeysOf(cs, rows[i].kind), t) else rows[i]
  {
    if kinds != [] {
      var front, kind := kinds[..|kinds| - 1], kinds[|kinds| - 1];
      assert kinds == front + [kind];
      SweepAllIs(rows, front, cs, t);
      var mid, rows' := SweepAll(rows, front, cs, t), SweepAll(rows, kinds, cs, t);
      forall i | 0 <= i < |rows|
        ensures rows'[i] == if rows[i].kind in kinds then Swept(rows[i], rows[i].kind, KeysOf(cs, rows[i].kind), t) else rows[i]
      {
        assert rows'[i] == Swept(mid[i], kind, KeysOf(cs, kind), t);
      }
    }
  }

  /** The sweep of the derived kinds, row by row. */
  function SweptIfDerived(r: Item, cs: seq<Candidate>, t: Moment): Item {
    if IsDerived(r.kind) then Swept(r, r.kind, KeysOf(cs, r.kind), t) else r
  }

  lemma {:induction false} DerivedKindsAreListed(kind: Kind)
    ensures kind in DERIVED_KINDS <==> IsDerived(kind)
  {
  }

  lemma {:induction false} RefreshIs(rows: seq<Item>, cs: seq<Candidate>, t: Moment)
    ensures var upserted := UpsertAll(Before(rows, t), cs, t);
      && |Refresh(rows, cs, t)| == |upserted|
      && forall i | 0 <= i < |upserted| :: Refresh(rows, cs, t)[i] == SweptIfDerived(upserted[i], cs, t)
  {
    var upserted := UpsertAll(Before(rows, t), cs, t);
    SweepAllIs(upserted, DERIVED_KINDS, cs, t);
    forall i | 0 <= i < |upserted|
      ensures Refresh(rows, cs, t)[i] == SweptIfDerived(upserted[i], cs, t)
    {
      DerivedKindsAreListed(upserted[i].kind);
    }
  }

  /** A refresh keeps the index and the keys, and changes rows only as rows may change. */
  lemma {:induction false} RefreshKeeps(rows: seq<Item>, cs: seq<Candidate>, t: Moment, kindOf: string -> Kind)
    requires UniqueLive(rows)
    ensures UniqueLive(Refresh(rows, cs, t)) && Evolves(rows, Refresh(rows, cs, t))
    ensures Keyed(rows, kindOf) && KeyedCandidates(cs, kindOf) ==> Keyed(Refresh(rows, cs, t), kindOf)
  {
    var before := Before(rows, t);
    var upserted := UpsertAll(before, cs, t);
    BeforeKeeps(rows, t, kindOf);
    UpsertAllKeeps(before, cs, t, kindOf);
    SweepKeeps(rows, cs, t, kindOf);
    EvolvesTransitive(rows, before, upserted);
    EvolvesTransitive(rows, upserted, Refresh(rows, cs, t));
  }

  lemma {:induction false} SweepKeeps(rows: seq<Item>, cs: seq<Candidate>, t: Moment, kindOf: string -> Kind)
    requires UniqueLive(UpsertAll(Before(rows, t), cs, t))
    ensures var upserted := UpsertAll(Before(rows, t), cs, t);
      && UniqueLive(Refresh(rows, cs, t)) && Evolves(upserted, Refresh(rows, cs, t))
      && (Keyed(upserted, kindOf) ==> Keyed(Refresh(rows, cs, t), kindOf))
  {
    RefreshIs(rows, cs, t);
    var upserted, swept := UpsertAll(Before(rows, t), cs, t), Refresh(rows, cs, t);
    forall i | 0 <= i < |upserted|
      ensures swept[i].key == upserted[i].key && swept[i].kind == upserted[i].kind && Follows(upserted[i], swept[i])
      ensures swept[i].Live() ==> upserted[i].Live()
    {
    }
  }

  lemma {:induction false} RespondKeeps(rows: seq<Item>, id: nat, resolution: Resolution, response: Option<string>,
          t: Moment, kindOf: string -> Kind)
    requires UniqueLive(rows)
    ensures var rows' := Respond(rows, id, resolution, response, t);
      UniqueLive(rows') && Evolves(rows, rows') && (Keyed(rows, kindOf) ==> Keyed(rows', kindOf))
  {
  }

  // What the upserts of one pass do to a row.

  function Occurrences(cs: seq<Candidate>, key: string): nat {
    if cs == [] then 0 else Occurrences(cs[..|cs| - 1], key) + if cs[|cs| - 1].key == key then 1 else 0
  }

  /** The row after every candidate with its key has bumped it. */
  function BumpedAll(r: Item, cs: seq<Candidate>, t: Moment): Item {
    if cs == [] then r
    else
      var b := BumpedAll(r, cs[..|cs| - 1], t);
      if cs[|cs| - 1].key == r.key then Bumped(b, cs[|cs| - 1], t) else b
  }

  lemma {:induction false} BumpedAllFacts(r: Item, cs: seq<Candidate>, t: Moment)
    ensures var b := BumpedAll(r, cs, t);
      && b.key == r.key && b.state == r.state && b.kind == r.kind && b.mutedUntil == r.mutedUntil
      && b.seenCount == r.seenCount + Occurrences(cs, r.key)
      && (Occurrences(cs, r.key) == 0 ==> b == r)
  {
    if cs != [] {
      BumpedAllFacts(r, cs[..|cs| - 1], t);
    }
  }

  lemma {:induction false} OccursIff(cs: seq<Candidate>, key: string)
    ensures Occurrences(cs, key) > 0 <==> exists c | c in cs :: c.key == key
  {
    if cs != [] {
      assert cs == cs[..|cs| - 1] + [cs[|cs| - 1]];
      OccursIff(cs[..|cs| - 1], key);
    }
  }

  /** Rows already there are bumped once per candidate with their key; a resolved row never is. */
  lemma {:induction false} UpsertAllOldRows(rows: seq<Item>, cs: seq<Candidate>, t: Moment)
    requires UniqueLive(rows)
    ensures var rows' := UpsertAll(rows, cs, t);
      && |rows| <= |rows'|
      && forall i | 0 <= i < |rows| :: rows'[i] == if rows[i].Live() then BumpedAll(rows[i], cs, t) else rows[i]
  {
    if cs != [] {
      var front, c := cs[..|cs| - 1], cs[|cs| - 1];
      var mid := UpsertAll(rows, front, t);
      UpsertAllOldRows(rows, front, t);
      UpsertAllKeeps(rows, front, t, key => SessionStalled);
      forall i | 0 <= i < |rows|
        ensures UpsertAll(rows, cs, t)[i] == if rows[i].Live() then BumpedAll(rows[i], cs, t) else rows[i]
      {
        if rows[i].Live() {
          BumpedAllFacts(rows[i], front, t);
          if rows[i].key == c.key {
            LiveIndexIs(mid, i);
          }
        }
      }
    }
  }

  /** A row the pass minted: open, stamped now, produced by a candidate, its key not live before. */
  ghost predicate IsMintedBy(r: Item, rows: seq<Item>, cs: seq<Candidate>, t: Moment) {
    && r.state == Open && r.firstSeen == t && r.mutedUntil == None
    && r.seenCount == Occurrences(cs, r.key)
    && (exists c | c in cs :: c.key == r.key)
    && forall k | 0 <= k < |rows| && rows[k].Live() :: rows[k].key != r.key
  }

  ghost predicate AllMinted(rows': seq<Item>, rows: seq<Item>, cs: seq<Candidate>, t: Moment) {
    forall i | |rows| <= i < |rows'| :: IsMintedBy(rows'[i], rows, cs, t)
  }

  lemma {:induction false} StillMinted(r: Item, rows: seq<Item>, front: seq<Candidate>, c: Candidate, t: Moment)
    requires IsMintedBy(r, rows, front, t)
    ensures r.key != c.key ==> IsMintedBy(r, rows, front + [c], t)
    ensures r.key == c.key ==> IsMintedBy(Bumped(r, c, t), rows, front + [c], t)
  {
  }

  lemma {:induction false} UpsertAllNewRows(rows: seq<Item>, cs: seq<Candidate>, t: Moment)
    requires UniqueLive(rows)
    ensures AllMinted(UpsertAll(rows, cs, t), rows, cs, t)
  {
    if cs != [] {
      var front, c := cs[..|cs| - 1], cs[|cs| - 1];
      var mid, rows' := UpsertAll(rows, front, t), UpsertAll(rows, cs, t);
      assert cs == front + [c];
      UpsertAllNewRows(rows, front, t);
      UpsertAllKeeps(rows, front, t, key => SessionStalled);
      forall i | |rows| <= i < |rows'|
        ensures IsMintedBy(rows'[i], rows, cs, t)
      {
        if i < |mid| {
          StillMinted(mid[i], rows, front, c, t);
          if mid[i].key == c.key {
            LiveIndexIs(mid, i);
          }
        } else {
          FreshIsMinted(rows, front, c, t);
        }
      }
    }
  }

  lemma {:induction false} FreshIsMinted(rows: seq<Item>, front: seq<Candidate>, c: Candidate, t: Moment)
    requires UniqueLive(rows) && LiveIndex(UpsertAll(rows, front, t), c.key).None?
    ensures IsMintedBy(Minted(c, t), rows, front + [c], t)
  {
    assert (front + [c])[..|front|] == front;
    KeysStayLive(rows, front, t);
    OccursIff(front, c.key);
    UpsertAllOldRows(rows, front, t);
    forall k | 0 <= k < |rows| && rows[k].Live()
      ensures rows[k].key != c.key
    {
      BumpedAllFacts(rows[k], front, t);
      assert UpsertAll(rows, front, t)[k].Live();
    }
    assert c in front + [c];
  }

  /** Every candidate's key is live after its pass. */
  lemma {:induction false} KeysStayLive(rows: seq<Item>, cs: seq<Candidate>, t: Moment)
    requires UniqueLive(rows)
    ensures forall c | c in cs :: LiveIndex(UpsertAll(rows, cs, t), c.key).Some?
  {
    if cs != [] {
      var front, last := cs[..|cs| - 1], cs[|cs| - 1];
      var mid, rows' := UpsertAll(rows, front, t), UpsertAll(rows, cs, t);
      assert cs == front + [last];
      KeysStayLive(rows, front, t);
      UpsertAllKeeps(rows, cs, t, key => SessionStalled);
      forall c | c in cs
        ensures LiveIndex(rows', c.key).Some?
      {
        if c.key == last.key {
          var at := LiveIndex(mid, last.key);
          LiveIndexIs(rows', if at.Some? then at.value else |mid|);
        } else {
          assert c in front;
          var i := LiveIndex(mid, c.key).value;
          assert rows'[i] == mid[i];
          LiveIndexIs(rows', i);
        }
      }
    }
  }

  // What a refresh achieves.

  ghost predicate IsDerivedPass(cs: seq<Candidate>) {
    forall c | c in cs :: IsDerived(c.kind) && c.expiresAt == None
  }

  /** The keys of the live rows of one kind. */
  ghost function LiveKeys(rows: seq<Item>, kind: Kind): set<string> {
    set i | 0 <= i < |rows| && rows[i].Live() && rows[i].kind == kind :: rows[i].key
  }

  lemma {:induction false} SweepIsExact(upserted: seq<Item>, swept: seq<Item>, cs: seq<Candidate>, t: Moment,
          kindOf: string -> Kind, kind: Kind)
    requires |swept| == |upserted| && forall i | 0 <= i < |upserted| :: swept[i] == SweptIfDerived(upserted[i], cs, t)
    requires Keyed(upserted, kindOf) && KeyedCandidates(cs, kindOf) && IsDerived(kind)
    requires forall c | c in cs :: LiveIndex(upserted, c.key).Some?
    ensures LiveKeys(swept, kind) == KeysOf(cs, kind)
  {
  }

  /** After a refresh the live keys of each derived kind are exactly the keys just produced. */
  lemma {:induction false} RefreshIsExact(rows: seq<Item>, cs: seq<Candidate>, t: Moment, kindOf: string -> Kind, kind: Kind)
    requires UniqueLive(rows) && Keyed(rows, kindOf) && KeyedCandidates(cs, kindOf) && IsDerived(kind)
    ensures LiveKeys(Refresh(rows, cs, t), kind) == KeysOf(cs, kind)
  {
    var before := Before(rows, t);
    BeforeKeeps(rows, t, kindOf);
    UpsertAllKeeps(before, cs, t, kindOf);
    RefreshIs(rows, cs, t);
    KeysStayLive(before, cs, t);
    SweepIsExact(UpsertAll(before, cs, t), Refresh(rows, cs, t), cs, t, kindOf, kind);
  }

  /** Rows that came from a hook change in a refresh only by their own mute or expiry running out. */
  lemma {:induction false} RefreshLeavesHookRows(rows: seq<Item>, cs: seq<Candidate>, t: Moment, kindOf: string -> Kind, i: nat)
    requires UniqueLive(rows) && Keyed(rows, kindOf) && KeyedCandidates(cs, kindOf) && IsDerivedPass(cs)
    requires i < |rows| && !IsDerived(rows[i].kind)
    ensures i < |Refresh(rows, cs, t)| && Refresh(rows, cs, t)[i] == Aged(Unmuted(rows[i], t), t)
  {
    var before := Before(rows, t);
    BeforeKeeps(rows, t, kindOf);
    UpsertAllOldRows(before, cs, t);
    RefreshIs(rows, cs, t);
    NoBumpForHookKey(cs, rows[i].key, rows[i].kind, kindOf);
    BumpedAllFacts(before[i], cs, t);
  }

  lemma {:induction false} NoBumpForHookKey(cs: seq<Candidate>, key: string, kind: Kind, kindOf: string -> Kind)
    requires KeyedCandidates(cs, kindOf) && IsDerivedPass(cs) && kindOf(key) == kind && !IsDerived(kind)
    ensures Occurrences(cs, key) == 0
  {
    OccursIff(cs, key);
  }

  // A second refresh at the same moment.

  /** The last candidate with a key, when there is one. */
  function LastOf(cs: seq<Candidate>, key: string): (last: Option<Candidate>)
    ensures last.Some? <==> Occurrences(cs, key) > 0
  {
    if cs == [] then None
    else if cs[|cs| - 1].key == key then Some(cs[|cs| - 1]) else LastOf(cs[..|cs| - 1], key)
  }

  /** The row says what the last candidate with its key said, at this moment. */
  predicate Reflects(r: Item, cs: seq<Candidate>, t: Moment) {
    var last := LastOf(cs, r.key);
    && last.Some?
    && r.severity == last.value.severity && r.title == last.value.title && r.detail == last.value.detail
    && r.expiresAt == last.value.expiresAt && r.lastSeen == t
  }

  ghost predicate AllReflect(rows: seq<Item>, cs: seq<Candidate>, t: Moment) {
    forall i | 0 <= i < |rows| && rows[i].Live() && Occurrences(cs, rows[i].key) > 0 :: Reflects(rows[i], cs, t)
  }

  lemma {:induction false} BumpingAgain(r: Item, cs: seq<Candidate>, t: Moment)
    ensures var b := BumpedAll(r, cs, t);
      b == if Occurrences(cs, r.key) == 0 then r
           else var last := LastOf(cs, r.key).value;
             r.(seenCount := b.seenCount, lastSeen := t, severity := last.severity, title := last.title,
                detail := last.detail, expiresAt := last.expiresAt)
  {
    if cs != [] {
      BumpingAgain(r, cs[..|cs| - 1], t);
      BumpedAllFacts(r, cs[..|cs| - 1], t);
    }
  }

  /** Every row the pass leaves live for one of its keys reflects the pass. */
  lemma {:induction false} UpsertAllReflects(rows: seq<Item>, cs: seq<Candidate>, t: Moment)
    requires UniqueLive(rows)
    ensures AllReflect(UpsertAll(rows, cs, t), cs, t)
  {
    if cs != [] {
      var front, c := cs[..|cs| - 1], cs[|cs| - 1];
      var mid, rows' := UpsertAll(rows, front, t), UpsertAll(rows, cs, t);
      UpsertAllReflects(rows, front, t);
      UpsertAllKeeps(rows, front, t, key => SessionStalled);
      forall i | 0 <= i < |rows'| && rows'[i].Live() && Occurrences(cs, rows'[i].key) > 0
        ensures Reflects(rows'[i], cs, t)
      {
        if rows'[i].key == c.key {
          if i < |mid| {
            LiveIndexIs(mid, i);
            assert rows'[i] == Bumped(mid[i], c, t);
          }
          assert LastOf(cs, c.key) == Some(c);
        } else {
          assert rows'[i] == mid[i] && LastOf(cs, rows'[i].key) == LastOf(front, rows'[i].key);
        }
      }
    }
  }

  /** Nothing in the table is due at this moment. */
  ghost predicate NothingDue(rows: seq<Item>, t: Moment) {
    forall i | 0 <= i < |rows| ::
      !(rows[i].state == Muted && Due(rows[i].mutedUntil, t)) && !(rows[i].Live() && Due(rows[i].expiresAt, t))
  }

  lemma {:induction false} NothingDueMeansStill(rows: seq<Item>, t: Moment)
    requires NothingDue(rows, t)
    ensures Before(rows, t) == rows
  {
  }

  lemma {:induction false} LastIsDerived(cs: seq<Candidate>, key: string)
    requires IsDerivedPass(cs)
    ensures LastOf(cs, key).Some? ==> LastOf(cs, key).value.expiresAt == None
  {
    if cs != [] {
      assert cs[|cs| - 1] in cs;
      LastIsDerived(cs[..|cs| - 1], key);
    }
  }

  lemma {:induction false} BeforeLeavesNothingDue(rows: seq<Item>, t: Moment)
    ensures NothingDue(Before(rows, t), t)
  {
  }

  lemma {:induction false} UpsertAllLeavesNothingDue(before: seq<Item>, cs: seq<Candidate>, t: Moment)
    requires UniqueLive(before) && NothingDue(before, t) && IsDerivedPass(cs)
    ensures NothingDue(UpsertAll(before, cs, t), t)
  {
    var upserted := UpsertAll(before, cs, t);
    UpsertAllOldRows(before, cs, t);
    UpsertAllNewRows(before, cs, t);
    UpsertAllReflects(before, cs, t);
    forall i | 0 <= i < |upserted|
      ensures !(upserted[i].state == Muted && Due(upserted[i].mutedUntil, t))
      ensures !(upserted[i].Live() && Due(upserted[i].expiresAt, t))
    {
      LastIsDerived(cs, upserted[i].key);
      OccursIff(cs, upserted[i].key);
      if i < |before| {
        BumpedAllFacts(before[i], cs, t);
      }
    }
  }

  lemma {:induction false} RefreshLeavesNothingDue(rows: seq<Item>, cs: seq<Candidate>, t: Moment)
    requires UniqueLive(rows) && IsDerivedPass(cs)
    ensures NothingDue(Refresh(rows, cs, t), t)
  {
    BeforeKeeps(rows, t, key => SessionStalled);
    BeforeLeavesNothingDue(rows, t);
    UpsertAllLeavesNothingDue(Before(rows, t), cs, t);
    RefreshIs(rows, cs, t);
  }

  lemma {:induction false} NoNewRowsForLiveKeys(rows: seq<Item>, cs: seq<Candidate>, t: Moment)
    requires UniqueLive(rows) && forall c | c in cs :: LiveIndex(rows, c.key).Some?
    ensures |UpsertAll(rows, cs, t)| == |rows|
  {
    if cs != [] {
      var front, c := cs[..|cs| - 1], cs[|cs| - 1];
      assert cs == front + [c];
      NoNewRowsForLiveKeys(rows, front, t);
      UpsertAllOldRows(rows, front, t);
      var i := LiveIndex(rows, c.key).value;
      BumpedAllFacts(rows[i], front, t);
      assert UpsertAll(rows, front, t)[i].Live() && UpsertAll(rows, front, t)[i].key == c.key;
    }
  }

  lemma {:induction false} ProducedKeysAreLive(rows: seq<Item>, cs: seq<Candidate>, t: Moment, kindOf: string -> Kind)
    requires UniqueLive(rows) && Keyed(rows, kindOf) && KeyedCandidates(cs, kindOf) && IsDerivedPass(cs)
    ensures forall c | c in cs :: LiveIndex(Refresh(rows, cs, t), c.key).Some?
  {
    forall c | c in cs
      ensures LiveIndex(Refresh(rows, cs, t), c.key).Some?
    {
      RefreshIsExact(rows, cs, t, kindOf, c.kind);
      assert c.key in KeysOf(cs, c.kind);
    }
  }

  /** Every live row a refresh leaves for one of its keys says what the pass said. */
  lemma {:induction false} RefreshReflects(rows: seq<Item>, cs: seq<Candidate>, t: Moment)
    requires UniqueLive(rows)
    ensures AllReflect(Refresh(rows, cs, t), cs, t)
  {
    var before := Before(rows, t);
    BeforeKeeps(rows, t, key => SessionStalled);
    UpsertAllReflects(before, cs, t);
    RefreshIs(rows, cs, t);
    var upserted, once := UpsertAll(before, cs, t), Refresh(rows, cs, t);
    forall i | 0 <= i < |once| && once[i].Live() && Occurrences(cs, once[i].key) > 0
      ensures Reflects(once[i], cs, t)
    {
      assert once[i] == upserted[i];
    }
  }

  /** Over rows that already reflect the pass, with nothing due and every key live, a refresh only counts. */
  lemma {:induction false} SecondPassCounts(once: seq<Item>, cs: seq<Candidate>, t: Moment)
    requires UniqueLive(once) && AllReflect(once, cs, t) && NothingDue(once, t)
    requires forall c | c in cs :: LiveIndex(once, c.key).Some?
    requires forall i | 0 <= i < |once| :: once[i] == SweptIfDerived(once[i], cs, t)
    ensures var twice := Refresh(once, cs, t);
      && |twice| == |once|
      && forall i | 0 <= i < |once| ::
           twice[i] == if once[i].Live() then once[i].(seenCount := once[i].seenCount + Occurrences(cs, once[i].key)) else once[i]
  {
    NothingDueMeansStill(once, t);
    RefreshIs(once, cs, t);
    UpsertAllOldRows(once, cs, t);
    NoNewRowsForLiveKeys(once, cs, t);
    forall i | 0 <= i < |once|
      ensures Refresh(once, cs, t)[i] == if once[i].Live() then once[i].(seenCount := once[i].seenCount + Occurrences(cs, once[i].key)) else once[i]
    {
      if once[i].Live() {
        BumpingAgain(once[i], cs, t);
        BumpedAllFacts(once[i], cs, t);
      }
    }
  }

  /** Refreshing again at the same moment mints nothing, resolves nothing, and changes nothing but `seen_count`. */
  lemma {:induction false} RefreshIsIdempotent(rows: seq<Item>, cs: seq<Candidate>, t: Moment, kindOf: string -> Kind)
    requires UniqueLive(rows) && Keyed(rows, kindOf) && KeyedCandidates(cs, kindOf) && IsDerivedPass(cs)
    ensures var once := Refresh(rows, cs, t);
      var twice := Refresh(once, cs, t);
      && |twice| == |once|
      && forall i | 0 <= i < |once| ::
           twice[i] == if once[i].Live() then once[i].(seenCount := once[i].seenCount + Occurrences(cs, once[i].key)) else once[i]
  {
    RefreshIs(rows, cs, t);
    RefreshKeeps(rows, cs, t, kindOf);
    RefreshReflects(rows, cs, t);
    RefreshLeavesNothingDue(rows, cs, t);
    ProducedKeysAreLive(rows, cs, t, kindOf);
    SecondPassCounts(Refresh(rows, cs, t), cs, t);
  }

  // When a mute, an expiry or a condition ends.

  /** No row stays muted past its date, and none is opened before it: a mute not yet due ends only with the row. */
  lemma {:induction false} MutesEndOnTime(rows: seq<Item>, cs: seq<Candidate>, t: Moment, i: nat)
    requires UniqueLive(rows) && i < |rows| && rows[i].state == Muted
    ensures var r := Refresh(rows, cs, t);
      && i < |r|
      && (Due(rows[i].mutedUntil, t) ==> r[i].state != Muted)
      && (!Due(rows[i].mutedUntil, t) ==> r[i].state == Resolved || (r[i].state == Muted && r[i].mutedUntil == rows[i].mutedUntil))
  {
    var before := Before(rows, t);
    BeforeKeeps(rows, t, key => SessionStalled);
    UpsertAllOldRows(before, cs, t);
    RefreshIs(rows, cs, t);
    BumpedAllFacts(before[i], cs, t);
  }

  /** A refresh never mutes a row. */
  lemma {:induction false} RefreshMutesNothing(rows: seq<Item>, cs: seq<Candidate>, t: Moment, i: nat)
    requires UniqueLive(rows) && i < |Refresh(rows, cs, t)| && Refresh(rows, cs, t)[i].state == Muted
    ensures i < |rows| && rows[i].state == Muted
  {
    var before := Before(rows, t);
    BeforeKeeps(rows, t, key => SessionStalled);
    UpsertAllOldRows(before, cs, t);
    UpsertAllNewRows(before, cs, t);
    RefreshIs(rows, cs, t);
    if i < |rows| {
      BumpedAllFacts(before[i], cs, t);
    }
  }

  /** What becomes of a live hook row, said outright: past its expiry it is closed as expired at this moment, past its mute it is
      open again, otherwise it is as it was. */
  lemma {:induction false} HookRowOutcome(rows: seq<Item>, cs: seq<Candidate>, t: Moment, kindOf: string -> Kind, i: nat)
    requires UniqueLive(rows) && Keyed(rows, kindOf) && KeyedCandidates(cs, kindOf) && IsDerivedPass(cs)
    requires i < |rows| && !IsDerived(rows[i].kind) && rows[i].Live()
    ensures var was, r := rows[i], Refresh(rows, cs, t);
      && i < |r|
      && if was.expiresAt.Some? && was.expiresAt.value <= t then
           r[i].state == Resolved && r[i].resolution == Some(Expired) && r[i].resolvedAt == Some(t) && r[i].response == was.response
         else if was.state == Muted && was.mutedUntil.Some? && was.mutedUntil.value <= t then
           r[i] == was.(state := Open, mutedUntil := None)
         else r[i] == was
  {
    RefreshLeavesHookRows(rows, cs, t, kindOf, i);
  }

  /** A live derived row whose condition was not met again is closed as cleared at this moment, unless its expiry closed it. */
  lemma {:induction false} ClearedRowIsClosed(rows: seq<Item>, cs: seq<Candidate>, t: Moment, i: nat)
    requires UniqueLive(rows) && i < |rows| && rows[i].Live() && IsDerived(rows[i].kind)
    requires forall c | c in cs :: c.key != rows[i].key
    ensures var r := Refresh(rows, cs, t);
      && i < |r| && r[i].state == Resolved && r[i].resolvedAt == Some(t) && r[i].seenCount == rows[i].seenCount
      && r[i].resolution == Some(if rows[i].expiresAt.Some? && rows[i].expiresAt.value <= t then Expired else ConditionCleared)
  {
    var before := Before(rows, t);
    BeforeKeeps(rows, t, key => SessionStalled);
    UpsertAllOldRows(before, cs, t);
    RefreshIs(rows, cs, t);
    OccursIff(cs, rows[i].key);
    BumpedAllFacts(before[i], cs, t);
  }

  /** After an upsert the live row of the key says what the candidate says; a row already there keeps what it is about, when it was
      first seen, and its mute, and a new one takes them from the candidate and this moment. */
  lemma {:induction false} UpsertShows(rows: seq<Item>, c: Candidate, t: Moment)
    requires UniqueLive(rows)
    ensures var was, now := LiveIndex(rows, c.key), LiveIndex(Upsert(rows, c, t), c.key);
      && now.Some?
      && var r := Upsert(rows, c, t)[now.value];
         && r.severity == c.severity && r.title == c.title && r.detail == c.detail && r.expiresAt == c.expiresAt && r.lastSeen == t
         && match was
            case Some(i) =>
              && now == was && r.seenCount == rows[i].seenCount + 1 && r.firstSeen == rows[i].firstSeen
              && r.subject == rows[i].subject && r.kind == rows[i].kind && r.state == rows[i].state && r.mutedUntil == rows[i].mutedUntil
            case None =>
              && now.value == |rows| && r.seenCount == 1 && r.firstSeen == t
              && r.subject == c.subject && r.kind == c.kind && r.state == Open && r.mutedUntil == None && r.resolution == None
  {
    UpsertKeeps(rows, c, t, key => SessionStalled);
    var at := LiveIndex(rows, c.key);
    LiveIndexIs(Upsert(rows, c, t), if at.Some? then at.value else |rows|);
  }

  /** A human's answer closes the one live row it is for, records what was answered and how, and says when. */
  lemma {:induction false} AnswerIsRecorded(rows: seq<Item>, id: nat, resolution: Resolution, response: Option<string>, t: Moment)
    requires id < |rows| && rows[id].Live()
    ensures var after := Respond(rows, id, resolution, response, t);
      && |after| == |rows| && (forall k | 0 <= k < |rows| && k != id :: after[k] == rows[k])
      && after[id].state == Resolved && after[id].resolution == Some(resolution) && after[id].response == response
      && after[id].resolvedAt == Some(t) && after[id].respondedAt == Some(t)
      && after[id].key == rows[id].key && after[id].subject == rows[id].subject && after[id].seenCount == rows[id].seenCount
  {
  }
}

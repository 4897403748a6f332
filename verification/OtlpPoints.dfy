/** OTLP JSON on the wire: attributes, instruments, session ids and point values, and what one data point is judged to be. */
module OtlpPoints {
  import opened Json
  import opened Text

  /** The first of two spellings that is present. */
  function Pick(d: Dict, name: string, other: string): Json {
    if name in d.entries then d.entries[name]
    else if other in d.entries then d.entries[other]
    else Null
  }

  predicate Has(d: Dict, name: string, other: string) {
    name in d.entries || other in d.entries
  }

  function AsList(value: Json): seq<Json> {
    if value.Arr? then value.items else []
  }

  /** How Python reads numbers out of strings, which integers fit a float, which strings have a UTF-8 encoding, and the digest
      of a counter's dimensions; none of their internals matter. */
  datatype Runtime = Runtime(
    parseInt: string -> Option<int>,
    parseFloat: string -> Option<Number>,
    fits: int -> bool,
    encodes: string -> bool,
    digest: (string, map<string, Scalar>) -> string)

  datatype Scalar = Text(s: string) | Whole(i: int) | Fraction(n: Number) | Flag(b: bool)

  type Attrs = map<string, Scalar>

  /** `float()` of this JSON number raises `OverflowError`. */
  predicate Overflows(rt: Runtime, value: Json) {
    value.Num? && value.n.Int? && !rt.fits(value.n.i)
  }

  /** Python's `float()` of a JSON number, when it does not raise. */
  function AsFloat(n: Number): Number {
    if n.Int? then Finite(n.i as real) else n
  }

  function IntValue(rt: Runtime, value: Json): Option<Scalar> {
    match value
    case Num(Int(i)) => Some(Whole(i))
    case Str(s) => (match rt.parseInt(s) case Some(i) => Some(Whole(i)) case None => None)
    case _ => None
  }

  /** A scalar, or nothing for lists, maps, bytes and wrongly typed values. The first field present decides. */
  function AttrValue(rt: Runtime, raw: Json): Option<Scalar> {
    if !raw.Obj? then None
    else if Has(raw.dict, "stringValue", "string_value") then
      var v := Pick(raw.dict, "stringValue", "string_value");
      if v.Str? then Some(Text(v.s)) else None
    else if Has(raw.dict, "boolValue", "bool_value") then
      var v := Pick(raw.dict, "boolValue", "bool_value");
      if v.Bool? then Some(Flag(v.b)) else None
    else if Has(raw.dict, "intValue", "int_value") then
      IntValue(rt, Pick(raw.dict, "intValue", "int_value"))
    else if Has(raw.dict, "doubleValue", "double_value") then
      var v := Pick(raw.dict, "doubleValue", "double_value");
      if v.Num? then Some(Fraction(AsFloat(v.n))) else None
    else None
  }

  /** Reading the value raises: an integer under `doubleValue`, reached because no other field is there, that no float holds. */
  predicate ValueRaises(rt: Runtime, raw: Json) {
    && raw.Obj?
    && !Has(raw.dict, "stringValue", "string_value") && !Has(raw.dict, "boolValue", "bool_value")
    && !Has(raw.dict, "intValue", "int_value")
    && Overflows(rt, Pick(raw.dict, "doubleValue", "double_value"))
  }

  predicate EntryRaises(rt: Runtime, entry: Json) {
    entry.Obj? && entry.dict.Get("key").Str? && entry.dict.Get("key").s != "" && ValueRaises(rt, entry.dict.Get("value"))
  }

  predicate AttributesRaise(rt: Runtime, entries: seq<Json>) {
    exists i | 0 <= i < |entries| :: EntryRaises(rt, entries[i])
  }

  /** What one `KeyValue` entry adds; unreadable entries are skipped. */
  function AddAttribute(rt: Runtime, out: Attrs, entry: Json): Attrs {
    if !entry.Obj? then out
    else
      var key, value := entry.dict.Get("key"), AttrValue(rt, entry.dict.Get("value"));
      if key.Str? && key.s != "" && value.Some? then out[key.s := value.value] else out
  }

  function AttributesOf(rt: Runtime, entries: seq<Json>): Attrs {
    if entries == [] then map[] else AddAttribute(rt, AttributesOf(rt, entries[..|entries| - 1]), entries[|entries| - 1])
  }

  /** `_attributes`. */
  method Attributes(rt: Runtime, raw: Json) returns (raised: bool, out: Attrs)
    ensures raised <==> AttributesRaise(rt, AsList(raw))
    ensures !raised ==> out == AttributesOf(rt, AsList(raw))
  {
    raised, out := false, map[];
    var entries := AsList(raw);
    for i := 0 to |entries|
      invariant forall j | 0 <= j < i :: !EntryRaises(rt, entries[j])
      invariant out == AttributesOf(rt, entries[..i])
    {
      assert entries[..i + 1][..i] == entries[..i];
      if EntryRaises(rt, entries[i]) {
        return true, out;
      }
      out := AddAttribute(rt, out, entries[i]);
    }
    assert entries[..|entries|] == entries;
  }

  ghost predicate Readable(rt: Runtime, entry: Json, key: string, value: Scalar) {
    entry.Obj? && key != "" && entry.dict.Get("key") == Str(key) && AttrValue(rt, entry.dict.Get("value")) == Some(value)
  }

  ghost predicate Spells(rt: Runtime, entry: Json, key: string) {
    exists value :: Readable(rt, entry, key, value)
  }

  lemma {:induction false} OneEntry(rt: Runtime, out: Attrs, entry: Json, key: string)
    ensures var after := AddAttribute(rt, out, entry);
      if Spells(rt, entry, key) then key in after && Readable(rt, entry, key, after[key])
      else (key in after <==> key in out) && (key in out ==> after[key] == out[key])
  {
    if entry.Obj? && entry.dict.Get("key") == Str(key) && key != "" && AttrValue(rt, entry.dict.Get("value")).Some? {
      assert Readable(rt, entry, key, AttrValue(rt, entry.dict.Get("value")).value);
    }
  }

  /** An attribute is there exactly when some entry under its key is readable. */
  lemma {:induction false} AttributePresentIff(rt: Runtime, entries: seq<Json>, key: string)
    ensures key in AttributesOf(rt, entries) <==> exists i :: 0 <= i < |entries| && Spells(rt, entries[i], key)
  {
    if entries != [] {
      var n := |entries| - 1;
      AttributePresentIff(rt, entries[..n], key);
      OneEntry(rt, AttributesOf(rt, entries[..n]), entries[n], key);
      if i :| 0 <= i < n && Spells(rt, entries[..n][i], key) {
        assert Spells(rt, entries[i], key);
      }
    }
  }

  /** Its value is the last readable entry's: a malformed entry neither sets nor clears anything. */
  lemma {:induction false} LastReadableWins(rt: Runtime, entries: seq<Json>, key: string) returns (i: nat)
    requires key in AttributesOf(rt, entries)
    ensures i < |entries| && Readable(rt, entries[i], key, AttributesOf(rt, entries)[key])
    ensures forall j | i < j < |entries| :: !Spells(rt, entries[j], key)
  {
    var n := |entries| - 1;
    OneEntry(rt, AttributesOf(rt, entries[..n]), entries[n], key);
    i := n;
    if !Spells(rt, entries[n], key) {
      i := LastReadableWins(rt, entries[..n], key);
    }
  }

  datatype Reason =
    | NoSessionId | MalformedSessionId | UnknownSession | UnknownInstrument | DroppedInstrument | UnsupportedShape
    | UnknownTokenType | BadValue | ValueOutOfRange | PointCap | SeriesCap

  datatype MetricKey = CostUsd | TokensInput | TokensOutput | TokensCacheRead | TokensCacheCreation

  datatype Temporality = Delta | Cumulative

  /** A value, a counted refusal, or an exception that no one below the router catches. */
  datatype Outcome<+T> = Ok(value: T) | Refused(reason: Reason) | Raised {
    predicate IsFailure() {
      !Ok?
    }

    function PropagateFailure<U>(): Outcome<U>
      requires IsFailure()
    {
      if Raised? then Raised else Refused(reason)
    }

    function Extract(): T
      requires !IsFailure()
    {
      value
    }
  }

  const COST := "claude_code.cost.usage"
  const TOKENS := "claude_code.token.usage"
  const DROPPED := {
    "claude_code.session.count", "claude_code.lines_of_code.count", "claude_code.pull_request.count",
    "claude_code.commit.count", "claude_code.code_edit_tool.decision", "claude_code.active_time.total"
  }

  const SESSION_ID := "session.id"
  const IDENTITY := {
    SESSION_ID, "ccr.session.id", "user.id", "identity.source", "user.groups", "user.email", "user.account_uuid",
    "user.account_id", "organization.id", "app.version", "app.entrypoint", "terminal.type", "service.name",
    "service.version", "os.type", "os.version", "host.arch"
  }

  predicate IsStored(instrument: string) {
    instrument == COST || instrument == TOKENS
  }

  function TokenKey(name: string): Outcome<MetricKey> {
    if name == "input" then Ok(TokensInput)
    else if name == "output" then Ok(TokensOutput)
    else if name == "cacheRead" then Ok(TokensCacheRead)
    else if name == "cacheCreation" then Ok(TokensCacheCreation)
    else Refused(UnknownTokenType)
  }

  function MetricKeyOf(instrument: string, attrs: Attrs): Outcome<MetricKey> {
    if instrument == COST then Ok(CostUsd)
    else if instrument == TOKENS then
      if "type" in attrs && attrs["type"].Text? then TokenKey(attrs["type"].s) else Refused(UnknownTokenType)
    else if instrument in DROPPED then Refused(DroppedInstrument)
    else Refused(UnknownInstrument)
  }

  /** The data point's own id first, then the scope's, then the resource's; the first one present decides, even when malformed. */
  function SessionIdOf(point: Attrs, scope: Attrs, resource: Attrs): Outcome<string> {
    if SESSION_ID in point then ReadSessionId(point[SESSION_ID])
    else if SESSION_ID in scope then ReadSessionId(scope[SESSION_ID])
    else if SESSION_ID in resource then ReadSessionId(resource[SESSION_ID])
    else Refused(NoSessionId)
  }

  function ReadSessionId(found: Scalar): Outcome<string> {
    if !found.Text? then Refused(MalformedSessionId)
    else
      var id := Strip(found.s);
      if id == "" || |id| > 128 then Refused(MalformedSessionId) else Ok(id)
  }

  function FloatOf(rt: Runtime, n: Number): Outcome<real> {
    match n
    case Int(i) => if rt.fits(i) then Ok(i as real) else Raised
    case Finite(r) => Ok(r)
    case NonFinite => Refused(BadValue)
  }

  /** The point's value, from `asDouble` before `asInt`. Booleans, NaN, infinities and unreadable strings are bad values; an
      integer no float holds raises, unless it was spelled in a string under `asDouble`, which reads as infinite. */
  function PointNumber(rt: Runtime, point: Dict): Outcome<real> {
    if Has(point, "asDouble", "as_double") then
      match Pick(point, "asDouble", "as_double")
      case Num(n) => FloatOf(rt, n)
      case Str(s) => (match rt.parseFloat(s) case Some(Finite(r)) => Ok(r) case _ => Refused(BadValue))
      case _ => Refused(BadValue)
    else if Has(point, "asInt", "as_int") then
      match IntValue(rt, Pick(point, "asInt", "as_int"))
      case Some(Whole(i)) => FloatOf(rt, Int(i))
      case _ => Refused(BadValue)
    else Refused(BadValue)
  }

  const MAX_COST_USD_PER_POINT := 10000.0
  const MAX_TOKENS_PER_POINT := 1000000000000.0

  predicate InRange(key: MetricKey, value: real) {
    0.0 <= value <= if key == CostUsd then MAX_COST_USD_PER_POINT else MAX_TOKENS_PER_POINT
  }

  datatype Observation = Observation(session: string, key: MetricKey, series: string, model: Option<string>,
                                     source: Option<string>, temporality: Temporality, value: real)

  /** A non-empty text attribute cut to its column's width. */
  function Label(attrs: Attrs, name: string, width: nat): Option<string> {
    if name in attrs && attrs[name].Text? && attrs[name].s != "" then
      Some(if |attrs[name].s| > width then attrs[name].s[..width] else attrs[name].s)
    else None
  }

  /** The attributes a series is told apart by: everything that is not constant for the session. */
  function Dimensions(attrs: Attrs): Attrs {
    attrs - IDENTITY
  }

  function Observed(rt: Runtime, instrument: string, attrs: Attrs, session: string, key: MetricKey,
          temporality: Temporality, value: real): Observation {
    var dims := Dimensions(attrs);
    Observation(session, key, rt.digest(instrument, dims), Label(dims, "model", 128),
                Label(dims, if "query_source" in dims then "query_source" else "query.source", 64), temporality, value)
  }

  /** A data point on its way in, with the attributes of the levels above it. */
  datatype Point = Point(instrument: string, temporality: Temporality, body: Dict, scope: Attrs, resource: Attrs)

  function PointEntries(p: Point): seq<Json> {
    AsList(p.body.Get("attributes"))
  }

  /** The digest encodes every dimension's name and text. */
  predicate Digestible(rt: Runtime, attrs: Attrs) {
    var dims := Dimensions(attrs);
    forall name | name in dims :: rt.encodes(name) && (dims[name].Text? ==> rt.encodes(dims[name].s))
  }

  /** What a point within the cap becomes: the checks run in this order and the first that fails names the reason. */
  function Judge(rt: Runtime, p: Point): (o: Outcome<Observation>)
    ensures o.Refused? ==> o.reason !in {UnknownSession, UnsupportedShape, PointCap, SeriesCap}
    ensures o.Ok? ==> InRange(o.value.key, o.value.value) && 0 < |o.value.session| <= 128 && IsStored(p.instrument)
  {
    if AttributesRaise(rt, PointEntries(p)) then Raised
    else
      var attrs := AttributesOf(rt, PointEntries(p));
      var key :- MetricKeyOf(p.instrument, attrs);
      var session :- SessionIdOf(attrs, p.scope, p.resource);
      var value :- PointNumber(rt, p.body);
      if !InRange(key, value) then Refused(ValueOutOfRange)
      else if !Digestible(rt, attrs) then Raised
      else Ok(Observed(rt, p.instrument, attrs, session, key, p.temporality, value))
  }

  /** A session id that never arrived is told apart from one that arrived wrong, and the closest level that carries one decides. */
  lemma {:induction false} ClosestLevelDecides(point: Attrs, scope: Attrs, resource: Attrs)
    ensures SessionIdOf(point, scope, resource) == Refused(NoSessionId) <==>
            SESSION_ID !in point && SESSION_ID !in scope && SESSION_ID !in resource
    ensures SESSION_ID in point ==> SessionIdOf(point, scope, resource) == SessionIdOf(point, map[], map[])
    ensures SESSION_ID !in point && SESSION_ID in scope ==> SessionIdOf(point, scope, resource) == SessionIdOf(scope, map[], map[])
  {
  }

  predicate Usable(found: Scalar) {
    found.Text? && 0 < |Strip(found.s)| <= 128
  }

  /** The point's number is an integer no float holds. */
  predicate TooLarge(rt: Runtime, point: Dict) {
    if Has(point, "asDouble", "as_double") then Overflows(rt, Pick(point, "asDouble", "as_double"))
    else
      var whole := IntValue(rt, Pick(point, "asInt", "as_int"));
      whole.Some? && whole.value.Whole? && !rt.fits(whole.value.i)
  }

  /** Each reason has exactly its cause: an earlier check that fails always names the refusal. */
  lemma {:induction false} JudgeIff(rt: Runtime, p: Point)
    requires !AttributesRaise(rt, PointEntries(p))
    ensures var attrs := AttributesOf(rt, PointEntries(p));
      var keyed, known := MetricKeyOf(p.instrument, attrs).Ok?, SessionIdOf(attrs, p.scope, p.resource).Ok?;
      var number, verdict := PointNumber(rt, p.body), Judge(rt, p);
      && (verdict == Refused(UnknownInstrument) <==> !IsStored(p.instrument) && p.instrument !in DROPPED)
      && (verdict == Refused(DroppedInstrument) <==> !IsStored(p.instrument) && p.instrument in DROPPED)
      && (verdict == Refused(UnknownTokenType) <==> IsStored(p.instrument) && !keyed)
      && (verdict == Refused(NoSessionId) <==> keyed && SESSION_ID !in attrs && SESSION_ID !in p.scope && SESSION_ID !in p.resource)
      && (verdict == Refused(MalformedSessionId) <==>
            keyed && if SESSION_ID in attrs then !Usable(attrs[SESSION_ID])
                     else if SESSION_ID in p.scope then !Usable(p.scope[SESSION_ID])
                     else SESSION_ID in p.resource && !Usable(p.resource[SESSION_ID]))
      && (verdict == Refused(BadValue) <==> keyed && known && number.Refused?)
      && (verdict == Refused(ValueOutOfRange) <==>
            keyed && known && number.Ok? && !InRange(MetricKeyOf(p.instrument, attrs).value, number.value))
  {
    ClosestLevelDecides(AttributesOf(rt, PointEntries(p)), p.scope, p.resource);
  }

  /** A point takes the whole export down exactly for one of three causes: an attribute whose number overflows; a stored
      instrument of a usable session whose own number overflows; or an acceptable point with a dimension that cannot be encoded. */
  lemma {:induction false} JudgeRaisesIff(rt: Runtime, p: Point)
    ensures var attrs := AttributesOf(rt, PointEntries(p));
      var key, number := MetricKeyOf(p.instrument, attrs), PointNumber(rt, p.body);
      Judge(rt, p).Raised? <==>
      || AttributesRaise(rt, PointEntries(p))
      || (&& key.Ok? && SessionIdOf(attrs, p.scope, p.resource).Ok?
          && (TooLarge(rt, p.body) || (number.Ok? && InRange(key.value, number.value) && !Digestible(rt, attrs))))
  {
    assert PointNumber(rt, p.body).Raised? <==> TooLarge(rt, p.body);
  }

  /** One such input: a cost point whose `asInt` spells an integer beyond every float, in a session known from its resource. */
  lemma {:induction false} OversizedPointRaises(rt: Runtime, digits: string, i: int, session: string)
    requires rt.parseInt(digits) == Some(i) && !rt.fits(i)
    requires 0 < |Strip(session)| <= 128
    ensures Judge(rt, Point(COST, Cumulative, Dict(["asInt"], map["asInt" := Str(digits)]), map[], map[SESSION_ID := Text(session)])).Raised?
  {
    var body := Dict(["asInt"], map["asInt" := Str(digits)]);
    assert |"asInt"| != |"asDouble"| && |"asInt"| != |"as_double"| && |"asInt"| != |"attributes"|;
    assert PointNumber(rt, body) == Raised;
  }

  /** Attributes that are constant for a session never split a series. */
  lemma {:induction false} SeriesIgnoresIdentity(rt: Runtime, instrument: string, a: Attrs, b: Attrs,
          session: string, key: MetricKey, temporality: Temporality, value: real)
    requires forall name | name !in IDENTITY :: (name in a <==> name in b) && (name in a ==> a[name] == b[name])
    ensures Observed(rt, instrument, a, session, key, temporality, value) == Observed(rt, instrument, b, session, key, temporality, value)
  {
    var da, db := Dimensions(a), Dimensions(b);
    assert da.Keys == db.Keys;
    assert forall name | name in da.Keys :: da[name] == db[name];
    assert da == db;
  }

  // What an accepted point says.

  /** Each token type has its own metric, and no other spelling has one. */
  lemma {:induction false} TokenTypesAre(name: string)
    ensures TokenKey(name) ==
            if name == "input" then Ok(TokensInput) else if name == "output" then Ok(TokensOutput)
            else if name == "cacheRead" then Ok(TokensCacheRead) else if name == "cacheCreation" then Ok(TokensCacheCreation)
            else Refused(UnknownTokenType)
  {
  }

  /** A cost point may be ten thousand dollars, a token point a million million tokens, and neither less than nothing. */
  lemma {:induction false} CeilingsAre(key: MetricKey, value: real)
    ensures InRange(key, value) <==> 0.0 <= value && (key == CostUsd ==> value <= 10000.0) && (key != CostUsd ==> value <= 1000000000000.0)
  {
  }

  /** The session id of an accepted point is the trimmed text of the closest level that carries one. */
  ghost predicate NamesSession(attrs: Attrs, scope: Attrs, resource: Attrs, session: string) {
    var found := if SESSION_ID in attrs then Some(attrs[SESSION_ID])
                 else if SESSION_ID in scope then Some(scope[SESSION_ID])
                 else if SESSION_ID in resource then Some(resource[SESSION_ID]) else None;
    found.Some? && found.value.Text? && session == Strip(found.value.s)
  }

  /** The list under `attributes`. */
  function AttributesUnder(d: Dict): seq<Json> {
    if "attributes" in d.entries && d.entries["attributes"].Arr? then d.entries["attributes"].items else []
  }

  /** A text attribute, kept up to a width. */
  ghost predicate Labels(attrs: Attrs, name: string, width: nat, cut: Option<string>) {
    if name in attrs && attrs[name].Text? && attrs[name].s != "" then
      cut == Some(if |attrs[name].s| <= width then attrs[name].s else attrs[name].s[..width])
    else cut == None
  }

  /** An accepted point is stored under its own session and metric, with its own number and temporality, its labels cut to their
      columns, and a series told by every attribute that is not the session's identity. */
  lemma {:induction false} AcceptedMeans(rt: Runtime, p: Point)
    requires Judge(rt, p).Ok?
    ensures var attrs, o := AttributesOf(rt, AttributesUnder(p.body)), Judge(rt, p).value;
      && NamesSession(attrs, p.scope, p.resource, o.session)
      && (p.instrument == COST ==> o.key == CostUsd)
      && (p.instrument != COST ==> p.instrument == TOKENS && "type" in attrs && attrs["type"].Text? && TokenKey(attrs["type"].s) == Ok(o.key))
      && PointNumber(rt, p.body) == Ok(o.value) && o.temporality == p.temporality
      && o.series == rt.digest(p.instrument, attrs - IDENTITY)
      && Labels(attrs, "model", 128, o.model)
      && Labels(attrs, if "query_source" in attrs then "query_source" else "query.source", 64, o.source)
  {
    assert PointEntries(p) == AttributesUnder(p.body);
    LabelsAreDimensions();
  }

  /** The two ways an attribute takes the export down: a whole number under `doubleValue` that no float holds, in an entry with a
      key; and a dimension whose name or text has no encoding. */
  lemma {:induction false} DimensionsRaiseIff(rt: Runtime, attrs: Attrs)
    ensures Digestible(rt, attrs) <==>
            forall name | name in attrs && name !in IDENTITY ::
              rt.encodes(name) && (attrs[name].Text? ==> rt.encodes(attrs[name].s))
  {
    var dims := Dimensions(attrs);
    assert forall name :: name in dims <==> name in attrs && name !in IDENTITY;
    assert forall name | name in dims :: dims[name] == attrs[name];
  }

  lemma {:induction false} DoubleOverflows(rt: Runtime, key: string, i: int)
    ensures var entry := Obj(Dict(["key", "value"], map["key" := Str(key),
                                                         "value" := Obj(Dict(["doubleValue"], map["doubleValue" := Num(Int(i))]))]));
      AttributesRaise(rt, [entry]) <==> key != "" && !rt.fits(i)
  {
    var value := Obj(Dict(["doubleValue"], map["doubleValue" := Num(Int(i))]));
    var entry := Obj(Dict(["key", "value"], map["key" := Str(key), "value" := value]));
    assert |"key"| != |"value"| && entry.dict.Get("key") == Str(key) && entry.dict.Get("value") == value;
    FieldNamesDiffer("doubleValue");
    FieldsAreOthers();
    assert ValueRaises(rt, value) <==> !rt.fits(i);
    assert [entry][0] == entry && (AttributesRaise(rt, [entry]) <==> EntryRaises(rt, [entry][0]));
  }

  lemma {:induction false} FieldsAreOthers()
    ensures "doubleValue" !in {"stringValue", "string_value", "boolValue", "bool_value", "intValue", "int_value"}
  {
    assert "doubleValue"[0] == 'd' && "stringValue"[0] == 's';
  }

  lemma {:induction false} LabelsAreDimensions()
    ensures "model" !in IDENTITY && "query_source" !in IDENTITY && "query.source" !in IDENTITY
  {
  }

  /** The number of a point: `asDouble` before `asInt`, either spelled as a number or in a string. */
  lemma {:induction false} NumberIs(rt: Runtime, point: Dict, i: int, r: real, s: string)
    ensures point.Get("asDouble") == Num(Finite(r)) ==> PointNumber(rt, point) == Ok(r)
    ensures point.Get("asDouble") == Num(Int(i)) && rt.fits(i) ==> PointNumber(rt, point) == Ok(i as real)
    ensures point.Get("asDouble") == Str(s) && rt.parseFloat(s) == Some(Finite(r)) ==> PointNumber(rt, point) == Ok(r)
    ensures !Has(point, "asDouble", "as_double") && rt.fits(i) ==>
              && (point.Get("asInt") == Num(Int(i)) ==> PointNumber(rt, point) == Ok(i as real))
              && (point.Get("asInt") == Str(s) && rt.parseInt(s) == Some(i) ==> PointNumber(rt, point) == Ok(i as real))
  {
  }

  /** The scalars of an attribute, each under its own field; a list or a map is none. */
  lemma {:induction false} ScalarIs(rt: Runtime, key: string, value: Json, i: int, s: string)
    requires key in {"stringValue", "boolValue", "intValue", "doubleValue", "arrayValue", "kvlistValue"}
    ensures var read := AttrValue(rt, Obj(Dict([key], map[key := value])));
      && (key == "stringValue" && value.Str? ==> read == Some(Text(value.s)))
      && (key == "boolValue" && value.Bool? ==> read == Some(Flag(value.b)))
      && (key == "intValue" && value == Num(Int(i)) ==> read == Some(Whole(i)))
      && (key == "intValue" && value == Str(s) && rt.parseInt(s) == Some(i) ==> read == Some(Whole(i)))
      && (key == "doubleValue" && value.Num? && !value.n.Int? ==> read == Some(Fraction(value.n)))
      && (key in {"arrayValue", "kvlistValue"} ==> read == None)
  {
    FieldNamesDiffer(key);
  }

  lemma {:induction false} FieldNamesDiffer(key: string)
    requires key in {"stringValue", "boolValue", "intValue", "doubleValue", "arrayValue", "kvlistValue"}
    ensures key !in {"string_value", "bool_value", "int_value", "double_value"}
  {
    assert |"arrayValue"| == |"bool_value"| && "arrayValue"[0] != "bool_value"[0];
    assert |"boolValue"| == |"int_value"| && "boolValue"[0] != "int_value"[0];
  }
}

/** JSON, the frozen context values it stands for, and records of named fields. */
module JsonValues {
  import opened Wrappers
  import Text

  datatype Json =
    | JNull
    | JBool(b: bool)
    | JNumber(n: int)
    | JReal(r: real)
    | JString(s: string)
    | JList(items: seq<Json>)
    | JObject(entries: seq<(string, Json)>)

  /**
   A frozen context value. Members of string and integer enumerations are strings and numbers here, which they
   equal in Python; a member of a plain enumeration equals nothing but itself, whatever JSON it stands for.
   */
  datatype Value =
    | VNull
    | VBool(b: bool)
    | VNumber(n: int)
    | VReal(r: real)
    | VString(s: string)
    | VDatetime(iso: string)
    | VMember(stands: Json)
    | VTuple(items: seq<Value>)
    | VMapping(entries: seq<(string, Value)>)

  /** `_jsonable`: datetimes become ISO strings, enumeration members their values, tuples lists. */
  function Jsonable(v: Value): Json {
    match v
    case VNull => JNull
    case VBool(b) => JBool(b)
    case VNumber(n) => JNumber(n)
    case VReal(r) => JReal(r)
    case VString(s) => JString(s)
    case VDatetime(iso) => JString(iso)
    case VMember(stands) => stands
    case VTuple(items) => JList(seq(|items|, i requires 0 <= i < |items| => Jsonable(items[i])))
    case VMapping(entries) =>
      JObject(seq(|entries|, i requires 0 <= i < |entries| => (entries[i].0, Jsonable(entries[i].1))))
  }

  /** `_freeze_value` on JSON. */
  function Freeze(j: Json): Value {
    match j
    case JNull => VNull
    case JBool(b) => VBool(b)
    case JNumber(n) => VNumber(n)
    case JReal(r) => VReal(r)
    case JString(s) => VString(s)
    case JList(items) => VTuple(seq(|items|, i requires 0 <= i < |items| => Freeze(items[i])))
    case JObject(entries) =>
      VMapping(seq(|entries|, i requires 0 <= i < |entries| => (entries[i].0, Freeze(entries[i].1))))
  }

  /** The value with every datetime replaced by its ISO string and every member by what it stands for. */
  function Normalize(v: Value): Value {
    match v
    case VDatetime(iso) => VString(iso)
    case VMember(stands) => Freeze(stands)
    case VTuple(items) => VTuple(seq(|items|, i requires 0 <= i < |items| => Normalize(items[i])))
    case VMapping(entries) =>
      VMapping(seq(|entries|, i requires 0 <= i < |entries| => (entries[i].0, Normalize(entries[i].1))))
    case _ => v
  }

  /** Somewhere in the value is a datetime or a plain enumeration member: a leaf that JSON has no form for. */
  ghost predicate HoldsNonJson(v: Value) {
    match v
    case VDatetime(_) => true
    case VMember(_) => true
    case VTuple(items) => exists i | 0 <= i < |items| :: HoldsNonJson(items[i])
    case VMapping(entries) => exists i | 0 <= i < |entries| :: HoldsNonJson(entries[i].1)
    case _ => false
  }

  lemma {:induction false} FreezeJsonable(v: Value)
    ensures Freeze(Jsonable(v)) == Normalize(v)
  {
    match v
    case VTuple(items) =>
      forall i | 0 <= i < |items| ensures Freeze(Jsonable(items[i])) == Normalize(items[i]) {
        FreezeJsonable(items[i]);
      }
      assert Jsonable(v).items == seq(|items|, i requires 0 <= i < |items| => Jsonable(items[i]));
      assert Freeze(Jsonable(v)).items == Normalize(v).items;
    case VMapping(entries) =>
      forall i | 0 <= i < |entries| ensures Freeze(Jsonable(entries[i].1)) == Normalize(entries[i].1) {
        FreezeJsonable(entries[i].1);
      }
      assert Freeze(Jsonable(v)).entries == Normalize(v).entries;
    case _ =>
  }

  lemma {:induction false} NormalizeFixesIff(v: Value)
    ensures Normalize(v) == v <==> !HoldsNonJson(v)
  {
    match v
    case VTuple(items) =>
      forall i | 0 <= i < |items| ensures Normalize(items[i]) == items[i] <==> !HoldsNonJson(items[i]) {
        NormalizeFixesIff(items[i]);
      }
      if !HoldsNonJson(v) {
        assert Normalize(v).items == items;
      }
      if Normalize(v) == v {
        forall i | 0 <= i < |items| ensures !HoldsNonJson(items[i]) {
          assert Normalize(v).items[i] == items[i];
        }
      }
    case VMapping(entries) =>
      forall i | 0 <= i < |entries| ensures Normalize(entries[i].1) == entries[i].1 <==> !HoldsNonJson(entries[i].1) {
        NormalizeFixesIff(entries[i].1);
      }
      if !HoldsNonJson(v) {
        assert Normalize(v).entries == entries;
      }
      if Normalize(v) == v {
        forall i | 0 <= i < |entries| ensures !HoldsNonJson(entries[i].1) {
          assert Normalize(v).entries[i] == entries[i];
        }
      }
    case _ =>
  }

  /** JSON has neither datetimes nor enumeration members to give. */
  lemma {:induction false} FrozenHoldsJsonOnly(j: Json)
    ensures !HoldsNonJson(Freeze(j))
  {
    match j
    case JList(items) =>
      forall i | 0 <= i < |items| ensures !HoldsNonJson(Freeze(items[i])) {
        FrozenHoldsJsonOnly(items[i]);
      }
    case JObject(entries) =>
      forall i | 0 <= i < |entries| ensures !HoldsNonJson(Freeze(entries[i].1)) {
        FrozenHoldsJsonOnly(entries[i].1);
      }
    case _ =>
  }

  /** The JSON that stands for the value: leaf for leaf, list for tuple, object for mapping, in the same order. */
  ghost predicate StandsFor(j: Json, v: Value) {
    match v
    case VNull => j == JNull
    case VBool(b) => j == JBool(b)
    case VNumber(n) => j == JNumber(n)
    case VReal(r) => j == JReal(r)
    case VString(s) => j == JString(s)
    case VDatetime(iso) => j == JString(iso)
    case VMember(stands) => j == stands
    case VTuple(items) =>
      j.JList? && |j.items| == |items| && forall i | 0 <= i < |items| :: StandsFor(j.items[i], items[i])
    case VMapping(entries) =>
      && j.JObject? && |j.entries| == |entries|
      && forall i | 0 <= i < |entries| :: j.entries[i].0 == entries[i].0 && StandsFor(j.entries[i].1, entries[i].1)
  }

  lemma {:induction false} JsonableIff(v: Value, j: Json)
    ensures j == Jsonable(v) <==> StandsFor(j, v)
  {
    match v
    case VTuple(items) =>
      var out := Jsonable(v).items;
      if j.JList? && |j.items| == |items| {
        forall i | 0 <= i < |items| ensures j.items[i] == out[i] <==> StandsFor(j.items[i], items[i]) {
          JsonableIff(items[i], j.items[i]);
        }
        assert j.items == out <==> forall i | 0 <= i < |items| :: j.items[i] == out[i];
      }
    case VMapping(entries) =>
      var out := Jsonable(v).entries;
      if j.JObject? && |j.entries| == |entries| {
        forall i | 0 <= i < |entries|
          ensures j.entries[i] == out[i] <==> j.entries[i].0 == entries[i].0 && StandsFor(j.entries[i].1, entries[i].1)
        {
          JsonableIff(entries[i].1, j.entries[i].1);
        }
        assert j.entries == out <==> forall i | 0 <= i < |entries| :: j.entries[i] == out[i];
      }
    case _ =>
  }

  /** Freezing JSON gives the one value without datetimes and enumeration members that it stands for. */
  lemma FreezeIff(j: Json, v: Value)
    ensures Freeze(j) == v <==> StandsFor(j, v) && !HoldsNonJson(v)
  {
    FrozenHoldsJsonOnly(j);
    FrozenStands(j);
    JsonableIff(v, j);
    FreezeJsonable(v);
    NormalizeFixesIff(v);
  }

  lemma {:induction false} FrozenStands(j: Json)
    ensures StandsFor(j, Freeze(j))
  {
    match j
    case JList(items) =>
      forall i | 0 <= i < |items| ensures StandsFor(items[i], Freeze(items[i])) {
        FrozenStands(items[i]);
      }
    case JObject(entries) =>
      forall i | 0 <= i < |entries| ensures StandsFor(entries[i].1, Freeze(entries[i].1)) {
        FrozenStands(entries[i].1);
      }
    case _ =>
  }

  // ---- records of named fields ----

  datatype DecodeError = UnexpectedField | MissingField | BadType | BadValue

  /** The dictionary of a dataclass: its fields in order, each under its name. */
  function Record(names: seq<string>, field: string -> Json): seq<(string, Json)> {
    seq(|names|, i requires 0 <= i < |names| => (names[i], field(names[i])))
  }

  function Lookup(entries: seq<(string, Json)>, name: string): Option<Json> {
    if entries == [] then None
    else if entries[0].0 == name then Some(entries[0].1)
    else Lookup(entries[1..], name)
  }

  /** `data.get(name)` */
  function Get(entries: seq<(string, Json)>, name: string): Json {
    var found := Lookup(entries, name);
    if found.Some? then found.value else JNull
  }

  /** `set(data) - names` is empty. */
  predicate OnlyKeys(entries: seq<(string, Json)>, names: seq<string>) {
    forall i | 0 <= i < |entries| :: entries[i].0 in names
  }

  predicate HasKeys(entries: seq<(string, Json)>, names: seq<string>) {
    forall i | 0 <= i < |names| :: Lookup(entries, names[i]).Some?
  }

  lemma {:induction false} RecordLookup(names: seq<string>, field: string -> Json, name: string)
    ensures Lookup(Record(names, field), name) == if name in names then Some(field(name)) else None
  {
    if names != [] {
      RecordLookup(names[1..], field, name);
      assert Record(names, field)[1..] == Record(names[1..], field);
    }
  }

  lemma RecordKeys(names: seq<string>, field: string -> Json)
    ensures OnlyKeys(Record(names, field), names) && HasKeys(Record(names, field), names)
  {
    forall i | 0 <= i < |names| ensures Lookup(Record(names, field), names[i]).Some? {
      RecordLookup(names, field, names[i]);
    }
  }

  function OptionalString(s: Option<string>): Json {
    if s.Some? then JString(s.value) else JNull
  }

  // ---- reading fields back ----

  /** `_require_bounded_string` */
  predicate Bounded(s: string, maximum: nat) {
    !Text.Blank(s) && |s| <= maximum
  }

  function BoundedFrom(j: Json, maximum: nat): Result<string, DecodeError> {
    if j.JString? && Bounded(j.s, maximum) then Ok(j.s) else Err(BadValue)
  }

  /** `_require_bounded_string(data[name], ...)` */
  function RequireBounded(entries: seq<(string, Json)>, name: string, maximum: nat): Result<string, DecodeError> {
    var found := Lookup(entries, name);
    if found.None? then Err(MissingField) else BoundedFrom(found.value, maximum)
  }

  /** The same for a value that may be None. */
  function OptionalBounded(j: Json, maximum: nat): Result<Option<string>, DecodeError> {
    if j.JNull? then Ok(None)
    else
      var s := BoundedFrom(j, maximum);
      if s.Err? then Err(s.error) else Ok(Some(s.value))
  }

  predicate OptionalIsBounded(s: Option<string>, maximum: nat) {
    s.Some? ==> Bounded(s.value, maximum)
  }
}

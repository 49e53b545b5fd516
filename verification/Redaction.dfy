/** Recursive redaction of evaluation-API responses. */
module Redaction {
  import opened Wrappers
  import PrivateKeys

  /**
   A Python value with string keys. `builtin` says that a mapping is a `dict` and a sequence a `list`, rather
   than another kind of either. Members of string and integer enumerations are strings and numbers here, which
   they equal in Python and are treated as; `Member` is a member of a plain enumeration, with its value.
   */
  datatype Py =
    | Null
    | Bool(b: bool)
    | Number(n: int)
    | Str(s: string)
    | Opaque(content: string)
    | Member(value: Py)
    | Mapping(builtin: bool, entries: seq<(string, Py)>)
    | Sequence(builtin: bool, items: seq<Py>)

  const REDACTED: string := "[redacted]"

  predicate AsciiLetter(c: char) {
    'a' <= c <= 'z' || 'A' <= c <= 'Z'
  }

  predicate Slash(c: char) {
    c == '/' || c == '\\'
  }

  predicate LooksLikeAbsolutePath(s: string) {
    || (|s| >= 2 && s[0] == '\\' && s[1] == '\\')
    || (|s| >= 3 && AsciiLetter(s[0]) && s[1] == ':' && Slash(s[2]))
    || (|s| >= 1 && s[0] == '/' && !("/v1/" <= s))
  }

  /** A doubled backslash, a drive letter with its colon and a slash of either kind, or a slash outside "/v1/". */
  predicate IsRooted(s: string) {
    || "\\\\" <= s
    || (|s| > 2 && ('a' <= s[0] <= 'z' || 'A' <= s[0] <= 'Z') && (s[1..3] == ":/" || s[1..3] == ":\\"))
    || ("/" <= s && (|s| < 4 || s[..4] != "/v1/"))
  }

  lemma AbsolutePathIff(s: string)
    ensures LooksLikeAbsolutePath(s) <==> IsRooted(s)
  {
    if |s| > 2 {
      assert s[1..3] == [s[1], s[2]];
    }
    if |s| >= 4 {
      assert "/v1/" <= s <==> s[..4] == "/v1/";
    }
  }

  // ---- the two passes ----

  function Jsonable(v: Py): Py {
    match v
    case Mapping(_, entries) =>
      Mapping(true, seq(|entries|, i requires 0 <= i < |entries| => (entries[i].0, Jsonable(entries[i].1))))
    case Member(value) => value
    case Sequence(_, items) => Sequence(true, seq(|items|, i requires 0 <= i < |items| => Jsonable(items[i])))
    case _ => v
  }

  function Redact(lower: string -> string, v: Py): Py {
    match v
    case Mapping(true, entries) =>
      Mapping(true, seq(|entries|, i requires 0 <= i < |entries| =>
        (entries[i].0, if PrivateKeys.IsPrivateKey(lower, entries[i].0) then Str(REDACTED) else Redact(lower, entries[i].1))))
    case Sequence(true, items) => Sequence(true, seq(|items|, i requires 0 <= i < |items| => Redact(lower, items[i])))
    case Str(s) => if LooksLikeAbsolutePath(s) then Str(REDACTED) else v
    case _ => v
  }

  function PublicPayload(lower: string -> string, v: Py): Py {
    Redact(lower, Jsonable(v))
  }

  // ---- paths into a value ----

  datatype Step = Entry(position: nat) | Index(position: nat)

  function Child(v: Py, step: Step): Option<Py> {
    match (v, step)
    case (Mapping(_, entries), Entry(i)) => if i < |entries| then Some(entries[i].1) else None
    case (Sequence(_, items), Index(i)) => if i < |items| then Some(items[i]) else None
    case _ => None
  }

  predicate PrivateStep(lower: string -> string, v: Py, step: Step) {
    v.Mapping? && step.Entry? && step.position < |v.entries| && PrivateKeys.IsPrivateKey(lower, v.entries[step.position].0)
  }

  function At(v: Py, path: seq<Step>): Option<Py> {
    if path == [] then Some(v)
    else
      var child := Child(v, path[0]);
      if child.None? then None else At(child.value, path[1..])
  }

  /** The path enters the value of a private key. */
  predicate EntersPrivate(lower: string -> string, v: Py, path: seq<Step>) {
    path != [] &&
    (PrivateStep(lower, v, path[0]) || (Child(v, path[0]).Some? && EntersPrivate(lower, Child(v, path[0]).value, path[1..])))
  }

  // ---- plain JSON ----

  /** Only builtin containers, and no enumeration members. */
  ghost predicate Json(v: Py) {
    match v
    case Member(_) => false
    case Mapping(builtin, entries) => builtin && forall i | 0 <= i < |entries| :: Json(entries[i].1)
    case Sequence(builtin, items) => builtin && forall i | 0 <= i < |items| :: Json(items[i])
    case _ => true
  }

  /** What is left of the value once private entries are gone is plain JSON. */
  ghost predicate OpenPartIsJson(lower: string -> string, v: Py) {
    match v
    case Member(_) => false
    case Mapping(builtin, entries) =>
      builtin && forall i | 0 <= i < |entries| ::
        PrivateKeys.IsPrivateKey(lower, entries[i].0) || OpenPartIsJson(lower, entries[i].1)
    case Sequence(builtin, items) => builtin && forall i | 0 <= i < |items| :: OpenPartIsJson(lower, items[i])
    case _ => true
  }

  /** The enumeration members outside private entries stand for plain values: what a caller can check beforehand. */
  ghost predicate PlainMembers(lower: string -> string, v: Py) {
    match v
    case Member(value) => OpenPartIsJson(lower, value)
    case Mapping(_, entries) =>
      forall i | 0 <= i < |entries| :: PrivateKeys.IsPrivateKey(lower, entries[i].0) || PlainMembers(lower, entries[i].1)
    case Sequence(_, items) => forall i | 0 <= i < |items| :: PlainMembers(lower, items[i])
    case _ => true
  }

  lemma {:induction false} JsonableOpens(lower: string -> string, v: Py)
    ensures OpenPartIsJson(lower, Jsonable(v)) <==> PlainMembers(lower, v)
  {
    match v
    case Mapping(_, entries) =>
      forall i | 0 <= i < |entries| ensures OpenPartIsJson(lower, Jsonable(entries[i].1)) <==> PlainMembers(lower, entries[i].1) {
        JsonableOpens(lower, entries[i].1);
      }
      var out := Jsonable(v).entries;
      assert forall i | 0 <= i < |entries| :: out[i] == (entries[i].0, Jsonable(entries[i].1));
    case Sequence(_, items) =>
      forall i | 0 <= i < |items| ensures OpenPartIsJson(lower, Jsonable(items[i])) <==> PlainMembers(lower, items[i]) {
        JsonableOpens(lower, items[i]);
      }
      var out := Jsonable(v).items;
      assert forall i | 0 <= i < |items| :: out[i] == Jsonable(items[i]);
    case _ =>
  }

  lemma {:induction false} RedactedIsJson(lower: string -> string, v: Py)
    ensures Json(Redact(lower, v)) <==> OpenPartIsJson(lower, v)
  {
    match v
    case Mapping(true, entries) =>
      forall i | 0 <= i < |entries| ensures Json(Redact(lower, entries[i].1)) <==> OpenPartIsJson(lower, entries[i].1) {
        RedactedIsJson(lower, entries[i].1);
      }
      var out := Redact(lower, v).entries;
      assert forall i | 0 <= i < |entries| :: Json(out[i].1) <==>
        PrivateKeys.IsPrivateKey(lower, entries[i].0) || OpenPartIsJson(lower, entries[i].1);
    case Sequence(true, items) =>
      forall i | 0 <= i < |items| ensures Json(Redact(lower, items[i])) <==> OpenPartIsJson(lower, items[i]) {
        RedactedIsJson(lower, items[i]);
      }
      var out := Redact(lower, v).items;
      assert forall i | 0 <= i < |items| :: out[i] == Redact(lower, items[i]);
    case _ =>
  }

  lemma {:induction false} NotItsOwnMember(v: Py)
    ensures v != Member(v)
  {
    if v.Member? {
      NotItsOwnMember(v.value);
    }
  }

  /** Plain JSON passes the first step untouched, and nothing else comes out of it unchanged. */
  lemma {:induction false} JsonableFixesIff(v: Py)
    ensures Jsonable(v) == v <==> Json(v)
  {
    match v
    case Member(value) =>
      NotItsOwnMember(value);
    case Mapping(_, entries) =>
      forall i | 0 <= i < |entries| ensures Jsonable(entries[i].1) == entries[i].1 <==> Json(entries[i].1) {
        JsonableFixesIff(entries[i].1);
      }
      var out := Jsonable(v).entries;
      if Json(v) {
        assert forall i | 0 <= i < |entries| :: out[i] == entries[i];
        assert out == entries;
      }
      if out == entries {
        assert forall i | 0 <= i < |entries| :: out[i].1 == entries[i].1;
      }
    case Sequence(_, items) =>
      forall i | 0 <= i < |items| ensures Jsonable(items[i]) == items[i] <==> Json(items[i]) {
        JsonableFixesIff(items[i]);
      }
      var out := Jsonable(v).items;
      if Json(v) {
        assert forall i | 0 <= i < |items| :: out[i] == items[i];
        assert out == items;
      }
      if out == items {
        assert forall i | 0 <= i < |items| :: out[i] == items[i];
      }
    case _ =>
  }

  lemma {:induction false} RedactIdempotent(lower: string -> string, v: Py)
    ensures Redact(lower, Redact(lower, v)) == Redact(lower, v)
  {
    match v
    case Mapping(true, entries) =>
      var once := Redact(lower, v);
      forall i | 0 <= i < |entries| ensures Redact(lower, once).entries[i] == once.entries[i] {
        RedactIdempotent(lower, entries[i].1);
      }
      assert Redact(lower, once).entries == once.entries;
    case Sequence(true, items) =>
      var once := Redact(lower, v);
      forall i | 0 <= i < |items| ensures Redact(lower, once).items[i] == once.items[i] {
        RedactIdempotent(lower, items[i]);
      }
      assert Redact(lower, once).items == once.items;
    case _ =>
  }

  lemma {:induction false} FixedPayloadIsJson(lower: string -> string, v: Py)
    requires PublicPayload(lower, v) == v
    ensures Json(v)
  {
    match v
    case Member(value) =>
      NotItsOwnMember(value);
      assert false;
    case Mapping(_, entries) =>
      var out := PublicPayload(lower, v).entries;
      forall i | 0 <= i < |entries| ensures Json(entries[i].1) {
        assert out[i] == entries[i];
        if !PrivateKeys.IsPrivateKey(lower, entries[i].0) {
          FixedPayloadIsJson(lower, entries[i].1);
        }
      }
    case Sequence(_, items) =>
      var out := PublicPayload(lower, v).items;
      forall i | 0 <= i < |items| ensures Json(items[i]) {
        assert out[i] == items[i];
        FixedPayloadIsJson(lower, items[i]);
      }
    case _ =>
  }

  lemma JsonPayloadIff(lower: string -> string, v: Py)
    ensures Json(PublicPayload(lower, v)) <==> PlainMembers(lower, v)
  {
    JsonableOpens(lower, v);
    RedactedIsJson(lower, Jsonable(v));
  }

  /** A second pass changes nothing exactly when every enumeration member in the open stands for a plain value. */
  lemma PublicPayloadIdempotentIff(lower: string -> string, v: Py)
    ensures PublicPayload(lower, PublicPayload(lower, v)) == PublicPayload(lower, v) <==> PlainMembers(lower, v)
  {
    JsonPayloadIff(lower, v);
    var jsonable := Jsonable(v);
    var payload := Redact(lower, jsonable);
    if Json(payload) {
      JsonableFixesIff(payload);
      RedactIdempotent(lower, jsonable);
    } else if PublicPayload(lower, payload) == payload {
      FixedPayloadIsJson(lower, payload);
    }
  }

  // ---- nothing private or absolute is left ----

  /** No string value is an absolute path, and nothing but the marker is under a private key. */
  ghost predicate Safe(lower: string -> string, v: Py) {
    match v
    case Str(s) => !LooksLikeAbsolutePath(s)
    case Member(value) => Safe(lower, value)
    case Mapping(_, entries) =>
      forall i | 0 <= i < |entries| ::
        if PrivateKeys.IsPrivateKey(lower, entries[i].0) then entries[i].1 == Str(REDACTED) else Safe(lower, entries[i].1)
    case Sequence(_, items) => forall i | 0 <= i < |items| :: Safe(lower, items[i])
    case _ => true
  }

  /** Redaction reaches every open part of the value, or what it does not reach is safe as it is. */
  ghost predicate Redactable(lower: string -> string, v: Py) {
    match v
    case Mapping(true, entries) =>
      forall i | 0 <= i < |entries| ::
        PrivateKeys.IsPrivateKey(lower, entries[i].0) || Redactable(lower, entries[i].1)
    case Sequence(true, items) => forall i | 0 <= i < |items| :: Redactable(lower, items[i])
    case Str(_) => true
    case _ => Safe(lower, v)
  }

  /** The same of the values that enumeration members outside private entries stand for. */
  ghost predicate MembersRedactable(lower: string -> string, v: Py) {
    match v
    case Member(value) => Redactable(lower, value)
    case Mapping(_, entries) =>
      forall i | 0 <= i < |entries| :: PrivateKeys.IsPrivateKey(lower, entries[i].0) || MembersRedactable(lower, entries[i].1)
    case Sequence(_, items) => forall i | 0 <= i < |items| :: MembersRedactable(lower, items[i])
    case _ => true
  }

  lemma {:induction false} RedactedIsSafeIff(lower: string -> string, v: Py)
    ensures Safe(lower, Redact(lower, v)) <==> Redactable(lower, v)
  {
    match v
    case Mapping(true, entries) =>
      var out := Redact(lower, v).entries;
      forall i | 0 <= i < |entries|
        ensures (if PrivateKeys.IsPrivateKey(lower, out[i].0) then out[i].1 == Str(REDACTED) else Safe(lower, out[i].1))
                <==> PrivateKeys.IsPrivateKey(lower, entries[i].0) || Redactable(lower, entries[i].1)
      {
        RedactedIsSafeIff(lower, entries[i].1);
      }
    case Sequence(true, items) =>
      var out := Redact(lower, v).items;
      forall i | 0 <= i < |items| ensures Safe(lower, out[i]) <==> Redactable(lower, items[i]) {
        RedactedIsSafeIff(lower, items[i]);
      }
    case Str(s) =>
      assert REDACTED[0] == '[';
    case _ =>
  }

  lemma {:induction false} JsonableRedactableIff(lower: string -> string, v: Py)
    ensures Redactable(lower, Jsonable(v)) <==> MembersRedactable(lower, v)
  {
    match v
    case Mapping(_, entries) =>
      var out := Jsonable(v).entries;
      forall i | 0 <= i < |entries| ensures Redactable(lower, out[i].1) <==> MembersRedactable(lower, entries[i].1) {
        JsonableRedactableIff(lower, entries[i].1);
      }
      assert forall i | 0 <= i < |entries| :: out[i].0 == entries[i].0;
    case Sequence(_, items) =>
      var out := Jsonable(v).items;
      forall i | 0 <= i < |items| ensures Redactable(lower, out[i]) <==> MembersRedactable(lower, items[i]) {
        JsonableRedactableIff(lower, items[i]);
      }
    case _ =>
  }

  /** The payload holds no private value and no string value that is an absolute path, exactly when redaction reaches what open members stand for. */
  lemma PublicPayloadSafeIff(lower: string -> string, v: Py)
    ensures Safe(lower, PublicPayload(lower, v)) <==> MembersRedactable(lower, v)
  {
    JsonableRedactableIff(lower, v);
    RedactedIsSafeIff(lower, Jsonable(v));
  }

  lemma {:induction false} OpenJsonIsRedactable(lower: string -> string, v: Py)
    requires OpenPartIsJson(lower, v)
    ensures Redactable(lower, v)
  {
    match v
    case Mapping(_, entries) =>
      forall i | 0 <= i < |entries| && !PrivateKeys.IsPrivateKey(lower, entries[i].0) ensures Redactable(lower, entries[i].1) {
        OpenJsonIsRedactable(lower, entries[i].1);
      }
    case Sequence(_, items) =>
      forall i | 0 <= i < |items| ensures Redactable(lower, items[i]) {
        OpenJsonIsRedactable(lower, items[i]);
      }
    case _ =>
  }

  /** In particular when open members stand for plain values. */
  lemma PlainMembersAreSafe(lower: string -> string, v: Py)
    requires PlainMembers(lower, v)
    ensures Safe(lower, PublicPayload(lower, v))
  {
    JsonableOpens(lower, v);
    OpenJsonIsRedactable(lower, Jsonable(v));
    RedactedIsSafeIff(lower, Jsonable(v));
  }

  /** A member that stands for a tuple keeps the paths in it. */
  lemma CompositeMemberIsKept(lower: string -> string)
    ensures var v := Member(Sequence(false, [Str("/data")]));
            !MembersRedactable(lower, v) && PublicPayload(lower, v) == v.value
  {
    var v := Member(Sequence(false, [Str("/data")]));
    assert "/data"[1] == 'd' && "/v1/"[1] == 'v';
    assert LooksLikeAbsolutePath("/data");
    assert v.value.items[0] == Str("/data");
  }

  // ---- what stays ----

  /** Same container, same keys in the same order, same length. */
  predicate SameShape(v: Py, w: Py) {
    match v
    case Mapping(_, entries) =>
      w.Mapping? && w.builtin && |w.entries| == |entries| && forall i | 0 <= i < |entries| :: w.entries[i].0 == entries[i].0
    case Sequence(_, items) => w.Sequence? && w.builtin && |w.items| == |items|
    case _ => w == v
  }

  /** Wherever a path leads in the open, the payload has a node of the same shape, except that paths become the marker. */
  lemma {:induction false} OpenNodesAreKept(lower: string -> string, v: Py, path: seq<Step>)
    requires PlainMembers(lower, v)
    requires At(v, path).Some? && !EntersPrivate(lower, v, path)
    ensures At(PublicPayload(lower, v), path).Some?
    ensures var before, after := Unwrapped(At(v, path).value), At(PublicPayload(lower, v), path).value;
            if before.Str? && IsRooted(before.s) then after == Str("[redacted]") else SameShape(before, after)
    decreases |path|
  {
    if Unwrapped(At(v, path).value).Str? {
      AbsolutePathIff(Unwrapped(At(v, path).value).s);
    }
    var payload := PublicPayload(lower, v);
    if path != [] {
      var child := Child(v, path[0]).value;
      assert Child(payload, path[0]) == Some(PublicPayload(lower, child));
      OpenNodesAreKept(lower, child, path[1..]);
    }
  }

  /** Nothing beneath a private key is reachable any more: its value is the marker. */
  lemma {:induction false} PrivateNodesAreMarkers(lower: string -> string, v: Py, path: seq<Step>)
    requires PlainMembers(lower, v)
    requires At(v, path).Some? && EntersPrivate(lower, v, path)
    ensures At(PublicPayload(lower, v), path) in {None, Some(Str(REDACTED))}
    ensures PrivateStep(lower, v, path[0]) && |path| == 1 ==> At(PublicPayload(lower, v), path) == Some(Str(REDACTED))
    decreases |path|
  {
    var payload := PublicPayload(lower, v);
    if PrivateStep(lower, v, path[0]) {
      assert Child(payload, path[0]) == Some(Str(REDACTED));
      if |path| > 1 {
        assert Child(Str(REDACTED), path[1..][0]) == None;
      }
    } else {
      var child := Child(v, path[0]).value;
      assert Child(payload, path[0]) == Some(PublicPayload(lower, child));
      PrivateNodesAreMarkers(lower, child, path[1..]);
    }
  }

  function Unwrapped(v: Py): Py {
    if v.Member? then v.value else v
  }
}

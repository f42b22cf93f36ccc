/**
 Redaction of audit fields: every value under a sensitive key, and every string that looks like a
 credential, is replaced by a marker, at any depth of maps and lists.
 */
module AuditRedaction {
  import opened Texts
  import opened Wrappers

  /** Audit values. `Other` is what the redactor passes through: numbers, booleans, and Go types such as []string. */
  datatype Value = Str(s: string) | Map(fields: map<string, Value>) | List(items: seq<Value>) | Other(id: nat)

  const MARKER: Value := Str("[REDACTED]")

  const SENSITIVE: seq<string> :=
    ["secret", "token", "authorization", "auth_code", "code_verifier", "code_challenge", "client_secret"]

  /** `lower` is Unicode lower-casing; `patterns` are the credential patterns that a string is matched against. */
  datatype Rules = Rules(lower: string -> string, patterns: seq<string -> bool>)

  predicate IsSensitiveKey(r: Rules, key: string) {
    exists part | part in SENSITIVE :: Contains(r.lower(key), part)
  }

  predicate Matches(r: Rules, s: string) {
    exists i | 0 <= i < |r.patterns| :: r.patterns[i](s)
  }

  /** No pattern takes the marker for a credential. */
  predicate MarkerSafe(r: Rules) {
    !Matches(r, "[REDACTED]")
  }

  /** The elements of a list are judged under the key of the list. */
  function Redact(r: Rules, key: string, value: Value): Value
    decreases value
  {
    if IsSensitiveKey(r, key) then MARKER
    else match value
      case Str(s) => if Matches(r, s) then MARKER else value
      case Map(fields) => Map(map k | k in fields :: Redact(r, k, fields[k]))
      case List(items) => List(seq(|items|, i requires 0 <= i < |items| => Redact(r, key, items[i])))
      case Other(_) => value
  }

  /** The redactor as it runs, building fresh maps and lists. */
  method RedactAuditValue(r: Rules, key: string, value: Value) returns (redacted: Value)
    ensures redacted == Redact(r, key, value)
    decreases value
  {
    if IsSensitiveKey(r, key) {
      return MARKER;
    }
    match value
    case Str(s) =>
      for i := 0 to |r.patterns|
        invariant forall j | 0 <= j < i :: !r.patterns[j](s)
      {
        if r.patterns[i](s) {
          return MARKER;
        }
      }
      return value;
    case Map(fields) =>
      var out: map<string, Value> := map[];
      var rest := fields.Keys;
      while rest != {}
        invariant rest <= fields.Keys
        invariant out == map k | k in fields && k !in rest :: Redact(r, k, fields[k])
        decreases |rest|
      {
        var k :| k in rest;
        var nested := RedactAuditValue(r, k, fields[k]);
        out := out[k := nested];
        rest := rest - {k};
      }
      assert out == map k | k in fields :: Redact(r, k, fields[k]);
      return Map(out);
    case List(items) =>
      var out: seq<Value> := [];
      for i := 0 to |items|
        invariant |out| == i && forall j | 0 <= j < i :: out[j] == Redact(r, key, items[j])
      {
        var nested := RedactAuditValue(r, key, items[i]);
        out := out + [nested];
      }
      assert List(out) == Redact(r, key, value);
      return List(out);
    case Other(_) =>
      return value;
  }

  // ----- The rules, spelled out -----

  lemma SensitiveIff(r: Rules, key: string)
    ensures IsSensitiveKey(r, key) <==>
              exists part, a, b ::
                && part in
                   ["secret", "token", "authorization", "auth_code", "code_verifier",
                    "code_challenge", "client_secret"]
                && r.lower(key) == a + part + b
  {
    forall part
      ensures Contains(r.lower(key), part) <==> exists a, b :: r.lower(key) == a + part + b
    {
      ContainsIff(r.lower(key), part);
    }
    hide Contains;
  }

  /** A key that holds a listed part anywhere, once lower-cased, has its value replaced, whatever the value is. */
  lemma KeyDecides(r: Rules, key: string, a: string, part: string, b: string, v: Value)
    requires r.lower(key) == a + part + b
    requires part in
             ["secret", "token", "authorization", "auth_code", "code_verifier",
              "code_challenge", "client_secret"]
    ensures Redact(r, key, v) == Str("[REDACTED]")
  {
    SensitiveIff(r, key);
    hide IsSensitiveKey;
  }

  /** Under any other key the value decides alone: its text by the patterns, and its parts by their own keys. */
  lemma ValueDecides(r: Rules, key: string, v: Value)
    requires !exists part, a, b ::
               && part in
                  ["secret", "token", "authorization", "auth_code", "code_verifier",
                   "code_challenge", "client_secret"]
               && r.lower(key) == a + part + b
    ensures v.Str? ==>
              Redact(r, key, v) ==
              if exists i | 0 <= i < |r.patterns| :: r.patterns[i](v.s) then Str("[REDACTED]") else v
    ensures v.Map? ==>
              && Redact(r, key, v).Map? && Redact(r, key, v).fields.Keys == v.fields.Keys
              && forall k | k in v.fields :: Redact(r, key, v).fields[k] == Redact(r, k, v.fields[k])
    ensures v.List? ==>
              && Redact(r, key, v).List? && |Redact(r, key, v).items| == |v.items|
              && forall i | 0 <= i < |v.items| :: Redact(r, key, v).items[i] == Redact(r, key, v.items[i])
    ensures v.Other? ==> Redact(r, key, v) == v
  {
    SensitiveIff(r, key);
    hide IsSensitiveKey;
  }

  // ----- Where values are -----

  datatype Step = Field(k: string) | Item(i: nat)

  /** The value at a path. */
  function At(v: Value, path: seq<Step>): Option<Value>
    decreases |path|
  {
    if |path| == 0 then Some(v)
    else match (v, path[0])
      case (Map(fields), Field(k)) => if k in fields then At(fields[k], path[1..]) else None
      case (List(items), Item(i)) => if i < |items| then At(items[i], path[1..]) else None
      case _ => None
  }

  /** The key a value at a path is judged under: the last field on the way, or the key of the whole. */
  function KeyAt(key: string, path: seq<Step>): string
    decreases |path|
  {
    if |path| == 0 then key
    else KeyAt(match path[0] case Field(k) => k case Item(_) => key, path[1..])
  }

  /** No key on the way, the last one included, is sensitive. */
  predicate Exposed(r: Rules, key: string, path: seq<Step>)
    decreases |path|
  {
    && !IsSensitiveKey(r, key)
    && (|path| > 0 ==> Exposed(r, match path[0] case Field(k) => k case Item(_) => key, path[1..]))
  }

  /** What one node becomes: its text goes if it matches, its keys and its length stay. */
  predicate RedactedNode(r: Rules, before: Value, after: Value) {
    match before
    case Str(s) => after == if Matches(r, s) then MARKER else before
    case Map(fields) => after.Map? && after.fields.Keys == fields.Keys
    case List(items) => after.List? && |after.items| == |items|
    case Other(_) => after == before
  }

  /** Outside sensitive keys every path survives, and its node changes only as its own text demands. */
  lemma {:induction false} ExposedNodesKept(r: Rules, key: string, v: Value, path: seq<Step>)
    requires Exposed(r, key, path)
    ensures At(Redact(r, key, v), path).Some? <==> At(v, path).Some?
    ensures At(v, path).Some? ==> RedactedNode(r, At(v, path).value, At(Redact(r, key, v), path).value)
    decreases |path|
  {
    if |path| > 0 {
      match (v, path[0])
      case (Map(fields), Field(k)) =>
        if k in fields {
          ExposedNodesKept(r, k, fields[k], path[1..]);
        }
      case (List(items), Item(i)) =>
        if i < |items| {
          ExposedNodesKept(r, key, items[i], path[1..]);
        }
      case _ =>
    } else if v.Map? {
      assert Redact(r, key, v).fields.Keys == v.fields.Keys;
    }
  }

  /** Under a sensitive key there is nothing but the marker, wherever the key is and whatever was there. */
  lemma {:induction false} SensitiveHoldsMarker(r: Rules, key: string, v: Value, path: seq<Step>)
    requires IsSensitiveKey(r, KeyAt(key, path)) && At(Redact(r, key, v), path).Some?
    ensures At(Redact(r, key, v), path) == Some(MARKER)
    decreases |path|
  {
    if |path| > 0 {
      match (Redact(r, key, v), path[0])
      case (Map(fields), Field(k)) => SensitiveHoldsMarker(r, k, v.fields[k], path[1..]);
      case (List(items), Item(i)) => SensitiveHoldsMarker(r, key, v.items[i], path[1..]);
      case _ =>
    }
  }

  /** Every string left anywhere is the marker or matches no credential pattern. */
  lemma {:induction false} NoCredentialLeft(r: Rules, key: string, v: Value, path: seq<Step>, s: string)
    requires At(Redact(r, key, v), path) == Some(Str(s))
    ensures Str(s) == MARKER || (!Matches(r, s) && At(v, path) == Some(Str(s)))
    decreases |path|
  {
    if |path| > 0 {
      match (Redact(r, key, v), path[0])
      case (Map(fields), Field(k)) => NoCredentialLeft(r, k, v.fields[k], path[1..], s);
      case (List(items), Item(i)) => NoCredentialLeft(r, key, v.items[i], path[1..], s);
      case _ =>
    }
  }

  /** Redacting twice is redacting once, under any key. */
  lemma {:induction false} RedactIdempotent(r: Rules, key: string, v: Value)
    requires MarkerSafe(r)
    ensures Redact(r, key, Redact(r, key, v)) == Redact(r, key, v)
    decreases v
  {
    if !IsSensitiveKey(r, key) {
      match v
      case Map(fields) =>
        forall k | k in fields
          ensures Redact(r, k, Redact(r, k, fields[k])) == Redact(r, k, fields[k])
        {
          RedactIdempotent(r, k, fields[k]);
        }
        assert Redact(r, key, Redact(r, key, v)).fields == Redact(r, key, v).fields;
      case List(items) =>
        forall i | 0 <= i < |items|
          ensures Redact(r, key, Redact(r, key, items[i])) == Redact(r, key, items[i])
        {
          RedactIdempotent(r, key, items[i]);
        }
        assert Redact(r, key, Redact(r, key, v)).items == Redact(r, key, v).items;
      case _ =>
    }
  }

  /** The redactor leaves a value alone exactly when it has nothing to hide in it. */
  predicate Clean(r: Rules, key: string, v: Value)
    decreases v
  {
    if IsSensitiveKey(r, key) then v == MARKER
    else match v
      case Str(s) => Matches(r, s) ==> v == MARKER
      case Map(fields) => forall k | k in fields :: Clean(r, k, fields[k])
      case List(items) => forall i | 0 <= i < |items| :: Clean(r, key, items[i])
      case Other(_) => true
  }

  lemma {:induction false} UnchangedIff(r: Rules, key: string, v: Value)
    ensures Redact(r, key, v) == v <==> Clean(r, key, v)
    decreases v
  {
    if !IsSensitiveKey(r, key) {
      match v
      case Map(fields) =>
        var out := Redact(r, key, v).fields;
        assert out.Keys == fields.Keys;
        forall k | k in fields
          ensures out[k] == fields[k] <==> Clean(r, k, fields[k])
        {
          UnchangedIff(r, k, fields[k]);
        }
        if Clean(r, key, v) {
          assert out == fields;
        }
      case List(items) =>
        var out := Redact(r, key, v).items;
        forall i | 0 <= i < |items|
          ensures out[i] == items[i] <==> Clean(r, key, items[i])
        {
          UnchangedIff(r, key, items[i]);
        }
        if Clean(r, key, v) {
          assert out == items;
        }
      case _ =>
    }
  }

  // ----- The audit entry -----

  /** The caller's fields that have been redacted while `rest` are still to come. */
  function RedactedFields(r: Rules, fields: map<string, Value>, rest: set<string>): map<string, Value> {
    map k | k in fields && k !in rest :: Redact(r, k, fields[k])
  }

  lemma RedactedNext(r: Rules, own: map<string, Value>, fields: map<string, Value>, rest: set<string>, k: string)
    requires k in rest && k in fields
    ensures own + RedactedFields(r, fields, rest - {k}) == (own + RedactedFields(r, fields, rest))[k := Redact(r, k,
            fields[k])]
  {
  }

  lemma RedactedStart(r: Rules, own: map<string, Value>, fields: map<string, Value>)
    ensures own + RedactedFields(r, fields, fields.Keys) == own
  {
  }

  lemma RedactedEnd(r: Rules, own: map<string, Value>, fields: map<string, Value>)
    ensures var entry := own + RedactedFields(r, fields, {});
            && entry.Keys == own.Keys + fields.Keys
            && (forall k | k in fields :: entry[k] == Redact(r, k, fields[k]))
            && (forall k | k in own && k !in fields :: entry[k] == own[k])
  {
    hide Redact;
  }

  /** The entry that is written: the record's own fields, overlaid with the redacted fields of the caller. */
  method LogEntry(r: Rules, own: map<string, Value>, fields: map<string, Value>) returns (entry: map<string, Value>)
    ensures entry.Keys == own.Keys + fields.Keys
    ensures forall k | k in fields :: entry[k] == Redact(r, k, fields[k])
    ensures forall k | k in own && k !in fields :: entry[k] == own[k]
  {
    hide Redact, RedactedFields;
    entry := own;
    var rest := fields.Keys;
    RedactedStart(r, own, fields);
    while rest != {}
      invariant rest <= fields.Keys
      invariant entry == own + RedactedFields(r, fields, rest)
      decreases |rest|
    {
      var k :| k in rest;
      var redacted := RedactAuditValue(r, k, fields[k]);
      RedactedNext(r, own, fields, rest, k);
      entry := entry[k := redacted];
      rest := rest - {k};
    }
    RedactedEnd(r, own, fields);
  }
}

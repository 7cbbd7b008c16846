/**
  Redaction of credential-shaped fields in a JSON tree.

  The pattern of secret keys is a parameter.  One key is special to the language:
  assigning to `__proto__` of a fresh object sets its prototype (or nothing) and
  creates no field, so that field is lost whatever it holds.
 */
module Redaction {
  import opened Wrappers

  datatype Json =
    | Null
    | Boolean(b: bool)
    | Number(n: real)
    | Text(s: string)
    | Array(items: seq<Json>)
    | Object(fields: seq<Member>)

  datatype Member = Member(key: string, value: Json)

  const MARKER: Json := Text("[REDACTED]")
  const PROTO: string := "__proto__"

  type KeyPattern = string -> bool

  // ----- the code

  predicate HasSecretKey(secret: KeyPattern, value: Json)
    decreases value
  {
    match value
    case Array(items) => exists k :: 0 <= k < |items| && HasSecretKey(secret, items[k])
    case Object(fields) =>
      exists k :: 0 <= k < |fields| && (secret(fields[k].key) || HasSecretKey(secret, fields[k].value))
    case _ => false
  }

  function Redact(secret: KeyPattern, value: Json): Json
    decreases value
  {
    match value
    case Array(items) => Array(RedactItems(secret, items))
    case Object(fields) => Object(RedactFields(secret, fields))
    case _ => value
  }

  function RedactItems(secret: KeyPattern, items: seq<Json>): (redacted: seq<Json>)
    ensures |redacted| == |items|
    ensures forall k :: 0 <= k < |items| ==> redacted[k] == Redact(secret, items[k])
    decreases items
  {
    if items == [] then [] else [Redact(secret, items[0])] + RedactItems(secret, items[1..])
  }

  function RedactFields(secret: KeyPattern, fields: seq<Member>): seq<Member>
    decreases fields
  {
    if fields == [] then []
    else
      var Member(key, child) := fields[0];
      (if key == PROTO then [] else [Member(key, if secret(key) then MARKER else Redact(secret, child))])
      + RedactFields(secret, fields[1..])
  }

  // ----- positions in a tree

  datatype Selector = Index(i: nat) | Key(key: string)

  function Field(fields: seq<Member>, key: string): Option<Json> {
    if fields == [] then None
    else if fields[0].key == key then Some(fields[0].value)
    else Field(fields[1..], key)
  }

  function Child(value: Json, at: Selector): Option<Json> {
    match (value, at)
    case (Array(items), Index(i)) => if i < |items| then Some(items[i]) else None
    case (Object(fields), Key(key)) => Field(fields, key)
    case _ => None
  }

  function Lookup(value: Json, path: seq<Selector>): Option<Json>
    decreases |path|
  {
    if path == [] then Some(value)
    else match Child(value, path[0])
      case Some(child) => Lookup(child, path[1..])
      case None => None
  }

  function Keys(fields: seq<Member>): seq<string> {
    if fields == [] then [] else [fields[0].key] + Keys(fields[1..])
  }

  function WithoutProto(keys: seq<string>): seq<string> {
    if keys == [] then [] else (if keys[0] == PROTO then [] else [keys[0]]) + WithoutProto(keys[1..])
  }

  predicate Plain(secret: KeyPattern, at: Selector) {
    at.Key? ==> at.key != PROTO && !secret(at.key)
  }

  // ----- what redaction does at every position

  lemma {:induction false} RedactedField(secret: KeyPattern, fields: seq<Member>, key: string)
    ensures Field(RedactFields(secret, fields), key) ==
            if key == PROTO || Field(fields, key).None? then None
            else Some(if secret(key) then MARKER else Redact(secret, Field(fields, key).value))
    decreases |fields|
  {
    if fields != [] {
      RedactedField(secret, fields[1..], key);
      var rest := RedactFields(secret, fields[1..]);
      if fields[0].key != PROTO {
        assert RedactFields(secret, fields)[1..] == rest;
      } else {
        assert RedactFields(secret, fields) == rest;
      }
    }
  }

  lemma {:induction false} RedactedKeys(secret: KeyPattern, fields: seq<Member>)
    ensures Keys(RedactFields(secret, fields)) == WithoutProto(Keys(fields))
    decreases |fields|
  {
    if fields != [] {
      RedactedKeys(secret, fields[1..]);
      var rest := RedactFields(secret, fields[1..]);
      assert Keys(fields)[1..] == Keys(fields[1..]);
      if fields[0].key != PROTO {
        assert RedactFields(secret, fields)[1..] == rest;
      } else {
        assert RedactFields(secret, fields) == rest;
      }
    }
  }

  /** A node of `t` in place of a node of `v`: same kind, same leaf, same length, same keys in the same order. */
  predicate SameNode(v: Json, t: Json) {
    match (v, t)
    case (Array(xs), Array(ys)) => |xs| == |ys|
    case (Object(fs), Object(gs)) => Keys(gs) == WithoutProto(Keys(fs))
    case (Array(_), _) => false
    case (Object(_), _) => false
    case _ => v == t
  }

  /** Along every path of plain keys the redacted tree has the same nodes as the original, and no others. */
  lemma {:induction false} ShapeIsKept(secret: KeyPattern, value: Json, path: seq<Selector>)
    requires forall k :: 0 <= k < |path| ==> Plain(secret, path[k])
    ensures Lookup(Redact(secret, value), path).Some? <==> Lookup(value, path).Some?
    ensures Lookup(value, path).Some? ==>
              SameNode(Lookup(value, path).value, Lookup(Redact(secret, value), path).value)
    decreases |path|
  {
    RedactAlong(secret, value, path);
    var at := Lookup(value, path);
    if at.Some? && at.value.Object? {
      RedactedKeys(secret, at.value.fields);
    }
  }

  lemma {:induction false} RedactAlong(secret: KeyPattern, value: Json, path: seq<Selector>)
    requires forall k :: 0 <= k < |path| ==> Plain(secret, path[k])
    ensures Lookup(Redact(secret, value), path) ==
            if Lookup(value, path).None? then None else Some(Redact(secret, Lookup(value, path).value))
    decreases |path|
  {
    if path != [] {
      assert Plain(secret, path[0]);
      if value.Object? && path[0].Key? {
        RedactedField(secret, value.fields, path[0].key);
      }
      if Child(value, path[0]).Some? {
        RedactAlong(secret, Child(value, path[0]).value, path[1..]);
      }
    }
  }

  /** At any depth of the redacted tree, what stands under a secret-shaped key is the marker. */
  lemma {:induction false} SecretsAreMarked(secret: KeyPattern, value: Json, path: seq<Selector>, key: string)
    requires secret(key) && Lookup(Redact(secret, value), path + [Key(key)]).Some?
    ensures Lookup(Redact(secret, value), path + [Key(key)]) == Some(MARKER)
    decreases |path|
  {
    var full := path + [Key(key)];
    if value.Object? && full[0].Key? {
      RedactedField(secret, value.fields, full[0].key);
    }
    if path != [] {
      assert full[1..] == path[1..] + [Key(key)];
      if Child(Redact(secret, value), full[0]) != Some(MARKER) {
        SecretsAreMarked(secret, Child(value, full[0]).value, path[1..], key);
      }
    } else {
      assert full == [Key(key)];
    }
  }

  // ----- fixed points

  /** No field named `__proto__`, and markers under the secret keys. */
  predicate Clean(secret: KeyPattern, value: Json)
    decreases value
  {
    match value
    case Array(items) => forall k :: 0 <= k < |items| ==> Clean(secret, items[k])
    case Object(fields) => forall k :: 0 <= k < |fields| ==> CleanField(secret, fields[k])
    case _ => true
  }

  predicate CleanField(secret: KeyPattern, f: Member)
    decreases f
  {
    f.key != PROTO && if secret(f.key) then f.value == MARKER else Clean(secret, f.value)
  }

  /** Redaction is the identity exactly on the clean trees. */
  lemma {:induction false} IdentityIffClean(secret: KeyPattern, value: Json)
    ensures Redact(secret, value) == value <==> Clean(secret, value)
    decreases value, 0
  {
    match value
    case Array(items) =>
      forall k | 0 <= k < |items| ensures Redact(secret, items[k]) == items[k] <==> Clean(secret, items[k]) {
        IdentityIffClean(secret, items[k]);
      }
    case Object(fields) => IdentityOnFields(secret, fields);
    case _ =>
  }

  lemma {:induction false} IdentityOnFields(secret: KeyPattern, fields: seq<Member>)
    ensures |RedactFields(secret, fields)| <= |fields|
    ensures RedactFields(secret, fields) == fields <==> forall k :: 0 <= k < |fields| ==> CleanField(secret, fields[k])
    decreases fields, 1
  {
    if fields != [] {
      var Member(key, child) := fields[0];
      var rest := RedactFields(secret, fields[1..]);
      IdentityOnFields(secret, fields[1..]);
      IdentityIffClean(secret, child);
      assert forall k :: 0 <= k < |fields[1..]| ==> fields[1..][k] == fields[k + 1];
      if key == PROTO {
        assert RedactFields(secret, fields) == rest;
        assert !CleanField(secret, fields[0]);
      } else {
        assert fields == [fields[0]] + fields[1..];
        assert RedactFields(secret, fields)[1..] == rest;
      }
    }
  }

  lemma {:induction false} RedactedIsClean(secret: KeyPattern, value: Json)
    ensures Clean(secret, Redact(secret, value))
    decreases value, 0
  {
    match value
    case Array(items) =>
      forall k | 0 <= k < |items| ensures Clean(secret, Redact(secret, items[k])) {
        RedactedIsClean(secret, items[k]);
      }
    case Object(fields) => RedactedFieldsAreClean(secret, fields);
    case _ =>
  }

  lemma {:induction false} RedactedFieldsAreClean(secret: KeyPattern, fields: seq<Member>)
    ensures forall f :: f in RedactFields(secret, fields) ==> CleanField(secret, f)
    decreases fields, 1
  {
    if fields != [] {
      RedactedFieldsAreClean(secret, fields[1..]);
      RedactedIsClean(secret, fields[0].value);
    }
  }

  lemma Idempotent(secret: KeyPattern, value: Json)
    ensures Redact(secret, Redact(secret, value)) == Redact(secret, value)
  {
    RedactedIsClean(secret, value);
    IdentityIffClean(secret, Redact(secret, value));
  }

  // ----- what the test for secrets finds

  /** The keys of one object are distinct, as they are in the original. */
  predicate DistinctKeys(value: Json)
    decreases value
  {
    match value
    case Array(items) => forall k :: 0 <= k < |items| ==> DistinctKeys(items[k])
    case Object(fields) =>
      && (forall i, j :: 0 <= i < j < |fields| ==> fields[i].key != fields[j].key)
      && (forall k :: 0 <= k < |fields| ==> DistinctKeys(fields[k].value))
    case _ => true
  }

  predicate SecretAt(secret: KeyPattern, value: Json, path: seq<Selector>, key: string) {
    secret(key) && Lookup(value, path + [Key(key)]).Some?
  }

  /** The test succeeds exactly when some position of the tree stands under a secret-shaped key. */
  lemma SecretKeyIffPath(secret: KeyPattern, value: Json)
    requires DistinctKeys(value)
    ensures HasSecretKey(secret, value) <==> exists path, key :: SecretAt(secret, value, path, key)
  {
    if HasSecretKey(secret, value) {
      var path, key := SecretPath(secret, value);
    }
    forall path, key | SecretAt(secret, value, path, key) ensures HasSecretKey(secret, value) {
      PathIsFound(secret, value, path, key);
    }
  }

  lemma {:induction false} FieldAt(fields: seq<Member>, k: nat)
    requires k < |fields|
    requires forall i, j :: 0 <= i < j < |fields| ==> fields[i].key != fields[j].key
    ensures Field(fields, fields[k].key) == Some(fields[k].value)
    decreases k
  {
    if k != 0 {
      assert fields[1..][k - 1] == fields[k];
      FieldAt(fields[1..], k - 1);
    }
  }

  lemma {:induction false} SecretPath(secret: KeyPattern, value: Json) returns (path: seq<Selector>, key: string)
    requires DistinctKeys(value) && HasSecretKey(secret, value)
    ensures SecretAt(secret, value, path, key)
    decreases value
  {
    var k: nat, child;
    if value.Array? {
      k :| k < |value.items| && HasSecretKey(secret, value.items[k]);
      child := value.items[k];
      path, key := SecretPath(secret, child);
      path := [Index(k)] + path;
    } else {
      k :| k < |value.fields| && (secret(value.fields[k].key) || HasSecretKey(secret, value.fields[k].value));
      child := value.fields[k].value;
      FieldAt(value.fields, k);
      if secret(value.fields[k].key) {
        path, key := [], value.fields[k].key;
        assert path + [Key(key)] == [Key(key)];
        return;
      }
      path, key := SecretPath(secret, child);
      path := [Key(value.fields[k].key)] + path;
    }
    assert (path + [Key(key)])[1..] == path[1..] + [Key(key)];
  }

  lemma {:induction false} FieldIsMember(fields: seq<Member>, key: string)
    requires Field(fields, key).Some?
    ensures exists k :: 0 <= k < |fields| && fields[k] == Member(key, Field(fields, key).value)
    decreases |fields|
  {
    if fields[0].key != key {
      FieldIsMember(fields[1..], key);
      var k :| 0 <= k < |fields[1..]| && fields[1..][k] == Member(key, Field(fields, key).value);
      assert fields[k + 1] == Member(key, Field(fields, key).value);
    }
  }

  lemma {:induction false} PathIsFound(secret: KeyPattern, value: Json, path: seq<Selector>, key: string)
    requires SecretAt(secret, value, path, key)
    ensures HasSecretKey(secret, value)
    decreases |path|
  {
    var full := path + [Key(key)];
    if value.Object? {
      FieldIsMember(value.fields, full[0].key);
    }
    if path != [] {
      assert full[1..] == path[1..] + [Key(key)];
      PathIsFound(secret, Child(value, full[0]).value, path[1..], key);
    }
  }

  // ----- trees without secrets

  predicate HasProtoKey(value: Json) {
    match value
    case Array(items) => exists k :: 0 <= k < |items| && HasProtoKey(items[k])
    case Object(fields) => exists k :: 0 <= k < |fields| && (fields[k].key == PROTO || HasProtoKey(fields[k].value))
    case _ => false
  }

  /** Without secret-shaped keys redaction is the identity exactly when no field is named `__proto__`. */
  lemma IdentityWithoutSecrets(secret: KeyPattern, value: Json)
    requires !HasSecretKey(secret, value)
    ensures Redact(secret, value) == value <==> !HasProtoKey(value)
  {
    IdentityIffClean(secret, value);
    CleanWithoutSecrets(secret, value);
  }

  lemma {:induction false} CleanWithoutSecrets(secret: KeyPattern, value: Json)
    requires !HasSecretKey(secret, value)
    ensures Clean(secret, value) <==> !HasProtoKey(value)
  {
    match value
    case Array(items) =>
      forall k | 0 <= k < |items| ensures Clean(secret, items[k]) <==> !HasProtoKey(items[k]) {
        CleanWithoutSecrets(secret, items[k]);
      }
    case Object(fields) =>
      forall k | 0 <= k < |fields|
        ensures CleanField(secret, fields[k]) <==> fields[k].key != PROTO && !HasProtoKey(fields[k].value)
      {
        CleanWithoutSecrets(secret, fields[k].value);
      }
    case _ =>
  }

  /** A tree on which the identity fails although it carries no secret. */
  lemma ProtoFieldIsLost(secret: KeyPattern)
    requires !secret(PROTO)
    ensures var value := Object([Member(PROTO, Null)]);
      !HasSecretKey(secret, value) && Redact(secret, value) == Object([])
  {
    var fields := [Member(PROTO, Null)];
    assert RedactFields(secret, fields[1..]) == [];
    assert forall k :: 0 <= k < |fields| ==> fields[k] == Member(PROTO, Null);
  }
}

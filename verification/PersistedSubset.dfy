/** The read-back check on a published dashboard (bin/dashboards.py, `_require_persisted_subset`): every
    authored option must survive, and the server may add object fields. */
module PersistedSubset {
  import opened Optional

  datatype Json =
    | Null | Bool(on: bool) | Num(value: real) | Str(text: string)
    | List(items: seq<Json>) | Obj(fields: map<string, Json>)

  /** Python's `==` on two scalars: booleans are the numbers zero and one. */
  predicate ScalarEqual(a: Json, b: Json) {
    match (a, b)
    case (Null, Null) => true
    case (Str(x), Str(y)) => x == y
    case (Bool(x), Bool(y)) => x == y
    case (Num(x), Num(y)) => x == y
    case (Bool(x), Num(y)) => (if x then 1.0 else 0.0) == y
    case (Num(x), Bool(y)) => x == if y then 1.0 else 0.0
    case _ => false
  }

  /** Python's `==` on JSON values. */
  predicate Equal(a: Json, b: Json) {
    match a
    case Obj(fs) =>
      b.Obj? && fs.Keys == b.fields.Keys && forall k :: k in fs && k in b.fields ==> Equal(fs[k], b.fields[k])
    case List(xs) =>
      b.List? && |xs| == |b.items| && forall i :: 0 <= i < |xs| && i < |b.items| ==> Equal(xs[i], b.items[i])
    case _ => ScalarEqual(a, b)
  }

  /** The check itself, as a relation: true where the source returns, false where it raises. */
  predicate Persisted(expected: Json, actual: Json) {
    match expected
    case Obj(fs) =>
      actual.Obj? && forall k :: k in fs ==> k in actual.fields && Persisted(fs[k], actual.fields[k])
    case List(xs) =>
      actual.List? && |actual.items| == |xs|
      && forall i :: 0 <= i < |xs| && i < |actual.items| ==> Persisted(xs[i], actual.items[i])
    case _ => ScalarEqual(expected, actual)
  }

  // A partial order up to equality

  lemma {:induction false} Reflexive(a: Json)
    ensures Persisted(a, a)
  {
    match a
    case Obj(fs) =>
      forall k | k in fs ensures Persisted(fs[k], fs[k]) { Reflexive(fs[k]); }
    case List(xs) =>
      forall i | 0 <= i < |xs| ensures Persisted(xs[i], xs[i]) { Reflexive(xs[i]); }
    case _ =>
  }

  lemma {:induction false} Transitive(a: Json, b: Json, c: Json)
    requires Persisted(a, b) && Persisted(b, c)
    ensures Persisted(a, c)
  {
    match a
    case Obj(fs) =>
      forall k | k in fs ensures k in c.fields && Persisted(fs[k], c.fields[k]) {
        Transitive(fs[k], b.fields[k], c.fields[k]);
      }
    case List(xs) =>
      forall i | 0 <= i < |xs| ensures Persisted(xs[i], c.items[i]) {
        Transitive(xs[i], b.items[i], c.items[i]);
      }
    case _ =>
  }

  /** Two documents accepted for each other are equal values, and equal values are accepted both ways. */
  lemma {:induction false} Antisymmetric(a: Json, b: Json)
    ensures Persisted(a, b) && Persisted(b, a) <==> Equal(a, b)
  {
    match a
    case Obj(fs) =>
      if b.Obj? {
        forall k | k in fs && k in b.fields
          ensures Persisted(fs[k], b.fields[k]) && Persisted(b.fields[k], fs[k]) <==> Equal(fs[k], b.fields[k])
        {
          Antisymmetric(fs[k], b.fields[k]);
        }
      }
    case List(xs) =>
      if b.List? && |b.items| == |xs| {
        forall i | 0 <= i < |xs|
          ensures Persisted(xs[i], b.items[i]) && Persisted(b.items[i], xs[i]) <==> Equal(xs[i], b.items[i])
        {
          Antisymmetric(xs[i], b.items[i]);
        }
      }
    case _ =>
  }

  /** An authored scalar survives only as itself: a string, a number, a boolean and null by value, where Python takes
      true for one and false for zero. An authored list survives only as a list of the same length, an object only as an
      object. */
  lemma ScalarsSurvive(a: Json, b: Json)
    ensures a.Str? ==> (Persisted(a, b) <==> b.Str? && b.text == a.text)
    ensures a.Null? ==> (Persisted(a, b) <==> b.Null?)
    ensures a.Num? ==>
              (Persisted(a, b) <==>
                 b == a || (b == Bool(true) && a.value == 1.0) || (b == Bool(false) && a.value == 0.0))
    ensures a.Bool? ==> (Persisted(a, b) <==> b == a || b == Num(if a.on then 1.0 else 0.0))
    ensures a.List? && Persisted(a, b) ==> b.List? && |b.items| == |a.items|
    ensures a.Obj? && Persisted(a, b) ==> b.Obj? && a.fields.Keys <= b.fields.Keys
  {
  }

  // Path by path

  datatype Step = Key(key: string) | Index(index: nat)

  /** The value at a path. */
  function At(j: Json, path: seq<Step>): Option<Json>
    decreases |path|
  {
    if path == [] then Some(j)
    else
      match path[0]
      case Key(k) => if j.Obj? && k in j.fields then At(j.fields[k], path[1..]) else None
      case Index(i) => if j.List? && i < |j.items| then At(j.items[i], path[1..]) else None
  }

  /** Two values look alike at one place: both objects, lists of one length, or equal scalars. */
  predicate Alike(expected: Json, actual: Json) {
    match expected
    case Obj(_) => actual.Obj?
    case List(xs) => actual.List? && |actual.items| == |xs|
    case _ => ScalarEqual(expected, actual)
  }

  ghost predicate KeptAt(expected: Json, actual: Json, path: seq<Step>) {
    At(expected, path).Some? ==> At(actual, path).Some? && Alike(At(expected, path).value, At(actual, path).value)
  }

  /** Accepting a document means that every authored path is there with what was authored. */
  lemma PersistedIsPathwise(expected: Json, actual: Json)
    ensures Persisted(expected, actual) <==> forall path :: KeptAt(expected, actual, path)
  {
    if Persisted(expected, actual) {
      forall path ensures KeptAt(expected, actual, path) { PersistedAtPath(expected, actual, path); }
    }
    if forall path :: KeptAt(expected, actual, path) {
      PathwisePersisted(expected, actual);
    }
  }

  lemma {:induction false} PersistedAtPath(expected: Json, actual: Json, path: seq<Step>)
    requires Persisted(expected, actual)
    ensures KeptAt(expected, actual, path)
    decreases |path|
  {
    if path != [] && At(expected, path).Some? {
      match path[0]
      case Key(k) => PersistedAtPath(expected.fields[k], actual.fields[k], path[1..]);
      case Index(i) => PersistedAtPath(expected.items[i], actual.items[i], path[1..]);
    }
  }

  lemma {:induction false} PathwisePersisted(expected: Json, actual: Json)
    requires forall path :: KeptAt(expected, actual, path)
    ensures Persisted(expected, actual)
  {
    assert KeptAt(expected, actual, []);
    match expected
    case Obj(fs) =>
      forall k | k in fs ensures k in actual.fields && Persisted(fs[k], actual.fields[k]) {
        assert KeptAt(expected, actual, [Key(k)]);
        assert At(expected, [Key(k)]) == Some(fs[k]);
        forall path ensures KeptAt(fs[k], actual.fields[k], path) {
          assert KeptAt(expected, actual, [Key(k)] + path);
          assert ([Key(k)] + path)[1..] == path;
        }
        PathwisePersisted(fs[k], actual.fields[k]);
      }
    case List(xs) =>
      forall i | 0 <= i < |xs| ensures Persisted(xs[i], actual.items[i]) {
        forall path ensures KeptAt(xs[i], actual.items[i], path) {
          assert KeptAt(expected, actual, [Index(i)] + path);
          assert ([Index(i)] + path)[1..] == path;
        }
        PathwisePersisted(xs[i], actual.items[i]);
      }
    case _ =>
  }

  // What the server may do

  /** The document with one more field in the object at a path; unchanged when there is no such object or the
      field exists. */
  function AddField(j: Json, path: seq<Step>, key: string, v: Json): Json
    decreases |path|
  {
    if path == [] then
      if j.Obj? && key !in j.fields then Obj(j.fields[key := v]) else j
    else
      match path[0]
      case Key(k) =>
        if j.Obj? && k in j.fields then Obj(j.fields[k := AddField(j.fields[k], path[1..], key, v)]) else j
      case Index(i) =>
        if j.List? && i < |j.items| then List(j.items[i := AddField(j.items[i], path[1..], key, v)]) else j
  }

  lemma {:induction false} AddedFieldIsAccepted(j: Json, path: seq<Step>, key: string, v: Json)
    ensures Persisted(j, AddField(j, path, key, v))
    decreases |path|
  {
    Reflexive(j);
    if path != [] {
      match path[0]
      case Key(k) =>
        if j.Obj? && k in j.fields { AddedFieldIsAccepted(j.fields[k], path[1..], key, v); }
      case Index(i) =>
        if j.List? && i < |j.items| { AddedFieldIsAccepted(j.items[i], path[1..], key, v); }
    }
  }

  /** And where the object is there and has no such field, the field is then there. */
  lemma {:induction false} AddedFieldIsThere(j: Json, path: seq<Step>, key: string, v: Json)
    requires At(j, path).Some? && At(j, path).value.Obj? && key !in At(j, path).value.fields
    ensures At(AddField(j, path, key, v), path + [Key(key)]) == Some(v)
    decreases |path|
  {
    if path == [] {
      assert At(v, [Key(key)][1..]) == Some(v);
    } else {
      assert (path + [Key(key)])[1..] == path[1..] + [Key(key)];
      match path[0]
      case Key(k) => AddedFieldIsThere(j.fields[k], path[1..], key, v);
      case Index(i) => AddedFieldIsThere(j.items[i], path[1..], key, v);
    }
  }

  datatype Addition = Addition(path: seq<Step>, key: string, value: Json)

  function AddAll(j: Json, additions: seq<Addition>): Json
    decreases |additions|
  {
    if additions == [] then j
    else AddAll(AddField(j, additions[0].path, additions[0].key, additions[0].value), additions[1..])
  }

  lemma {:induction false} AddOneMore(j: Json, additions: seq<Addition>, last: Addition)
    ensures AddAll(j, []) == j
    ensures AddAll(j, additions + [last]) == AddField(AddAll(j, additions), last.path, last.key, last.value)
    decreases |additions|
  {
    if additions != [] {
      var a := additions[0];
      assert (additions + [last])[1..] == additions[1..] + [last];
      AddOneMore(AddField(j, a.path, a.key, a.value), additions[1..], last);
    }
  }

  /** An authored document is accepted after any chain of server-added object fields. */
  lemma {:induction false} ServerDefaultsAreAccepted(authored: Json, additions: seq<Addition>)
    ensures Persisted(authored, AddAll(authored, additions))
    decreases |additions|
  {
    Reflexive(authored);
    if additions != [] {
      var a := additions[0];
      var next := AddField(authored, a.path, a.key, a.value);
      AddedFieldIsAccepted(authored, a.path, a.key, a.value);
      ServerDefaultsAreAccepted(next, additions[1..]);
      Transitive(authored, next, AddAll(next, additions[1..]));
    }
  }
}

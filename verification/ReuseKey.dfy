/** CaseRunner._hashable_value: how a configuration is flattened into a part of the load-reuse key, and
    which configurations end up with the same one. A pydantic model is dumped as JSON first, and the dump
    writes a mask in place of a secret. */
module ReuseKey {
  import opened Util

  /** Configuration values. Atoms are numbers, texts and the like, told apart by their text. */
  datatype Value =
    | Atom(text: string)
    | Enumerated(raw: string)             // an Enum member; raw is its value
    | Secret(raw: string)
    | ListOf(items: seq<Value>)
    | TupleOf(items: seq<Value>)
    | DictOf(fields: map<string, Value>)
    | ModelOf(fields: map<string, Value>)  // a pydantic model

  datatype Hashed = Leaf(text: string) | Tuple(parts: seq<Hashed>)

  // ---- sorted keys ----

  predicate Before(a: string, b: string) {
    b != [] && (a == [] || a[0] < b[0] || (a[0] == b[0] && Before(a[1..], b[1..])))
  }

  lemma {:induction false} BeforeTotal(a: string, b: string)
    ensures Before(a, b) || Before(b, a) || a == b
  {
    if a != [] && b != [] && a[0] == b[0] {
      BeforeTotal(a[1..], b[1..]);
      assert a == [a[0]] + a[1..] && b == [b[0]] + b[1..];
    }
  }

  lemma {:induction false} BeforeTransitive(a: string, b: string, c: string)
    requires Before(a, b) && Before(b, c)
    ensures Before(a, c)
  {
    if a != [] && a[0] == b[0] == c[0] {
      BeforeTransitive(a[1..], b[1..], c[1..]);
    }
  }

  lemma {:induction false} BeforeIrreflexive(a: string)
    ensures !Before(a, a)
  {
    if a != [] {
      BeforeIrreflexive(a[1..]);
    }
  }

  predicate IsLeast(s: set<string>, m: string) {
    m in s && forall x :: x in s && x != m ==> Before(m, x)
  }

  lemma {:induction false} LeastExists(s: set<string>)
    requires s != {}
    ensures exists m :: IsLeast(s, m)
    decreases |s|
  {
    var y :| y in s;
    var rest := s - {y};
    if rest == {} {
      assert forall x :: x in s ==> x == y || x in rest;
      assert IsLeast(s, y);
    } else {
      LeastExists(rest);
      var m :| IsLeast(rest, m);
      BeforeTotal(y, m);
      if Before(y, m) {
        forall x | x in s && x != y ensures Before(y, x) {
          if x != m {
            BeforeTransitive(y, m, x);
          }
        }
        assert IsLeast(s, y);
      } else {
        assert IsLeast(s, m);
      }
    }
  }

  lemma LeastUnique(s: set<string>)
    ensures forall m, n :: IsLeast(s, m) && IsLeast(s, n) ==> m == n
  {
    forall m, n | IsLeast(s, m) && IsLeast(s, n) ensures m == n {
      if m != n {
        BeforeTransitive(m, n, m);
        BeforeIrreflexive(m);
      }
    }
  }

  /** sorted() on the keys of a dictionary. */
  function SortedKeys(s: set<string>): (keys: seq<string>)
    ensures Elements(keys) == s
    ensures forall i, j :: 0 <= i < j < |keys| ==> Before(keys[i], keys[j])
  {
    if s == {} then []
    else
      LeastExists(s);
      LeastUnique(s);
      var m :| m in s && IsLeast(s, m);
      var rest := SortedKeys(s - {m});
      assert forall j :: 0 <= j < |rest| ==> rest[j] in Elements(rest);
      ElementsConcat([m], rest);
      [m] + rest
  }

  // ---- flattening ----

  /** What a JSON dump of a model returns, and what a configuration is without what its representation adds:
      the wrappers of enumerations, secrets and models, and the difference between a list and a tuple. */
  datatype Plain = Scalar(text: string) | Sequence(items: seq<Plain>) | Fields(fields: map<string, Plain>)

  /** What the dump of a secret shows of it: whether it is empty. */
  function Mask(raw: string): string {
    if raw == "" then "" else "**********"
  }

  function Dump(v: Value): Plain {
    match v
    case Atom(text) => Scalar(text)
    case Enumerated(raw) => Scalar(raw)
    case Secret(raw) => Scalar(Mask(raw))
    case ListOf(items) => Sequence(seq(|items|, i requires 0 <= i < |items| => Dump(items[i])))
    case TupleOf(items) => Sequence(seq(|items|, i requires 0 <= i < |items| => Dump(items[i])))
    case DictOf(fields) => Fields(map k | k in fields :: Dump(fields[k]))
    case ModelOf(fields) => Fields(map k | k in fields :: Dump(fields[k]))
  }

  /** On the result of a dump, which holds nothing but dictionaries, lists and scalars. */
  function Flat(p: Plain): Hashed {
    match p
    case Scalar(text) => Leaf(text)
    case Sequence(items) => Tuple(seq(|items|, i requires 0 <= i < |items| => Flat(items[i])))
    case Fields(fields) =>
      var keys := SortedKeys(fields.Keys);
      Tuple(seq(|keys|, i requires 0 <= i < |keys| =>
        assert keys[i] in Elements(keys); Tuple([Leaf(keys[i]), Flat(fields[keys[i]])])))
  }

  function HashableValue(v: Value): Hashed {
    match v
    case Atom(text) => Leaf(text)
    case Enumerated(raw) => Leaf(raw)
    case Secret(raw) => Leaf(raw)
    case ListOf(items) => Tuple(seq(|items|, i requires 0 <= i < |items| => HashableValue(items[i])))
    case TupleOf(items) => Tuple(seq(|items|, i requires 0 <= i < |items| => HashableValue(items[i])))
    case DictOf(fields) =>
      var keys := SortedKeys(fields.Keys);
      Tuple(seq(|keys|, i requires 0 <= i < |keys| =>
        assert keys[i] in Elements(keys); Tuple([Leaf(keys[i]), HashableValue(fields[keys[i]])])))
    case ModelOf(_) => Flat(Dump(v))
  }

  /** What the key can tell of a configuration: everything but the wrappers, and within a model everything but
      the secrets. */
  function Strip(v: Value): Plain {
    match v
    case Atom(text) => Scalar(text)
    case Enumerated(raw) => Scalar(raw)
    case Secret(raw) => Scalar(raw)
    case ListOf(items) => Sequence(seq(|items|, i requires 0 <= i < |items| => Strip(items[i])))
    case TupleOf(items) => Sequence(seq(|items|, i requires 0 <= i < |items| => Strip(items[i])))
    case DictOf(fields) => Fields(map k | k in fields :: Strip(fields[k]))
    case ModelOf(_) => Dump(v)
  }

  /** The key depends on nothing else. */
  lemma {:induction false} HashableIsFlat(v: Value)
    ensures HashableValue(v) == Flat(Strip(v))
  {
    match v
    case ListOf(items) =>
      forall i | 0 <= i < |items| ensures HashableValue(items[i]) == Flat(Strip(items[i])) {
        HashableIsFlat(items[i]);
      }
    case TupleOf(items) =>
      forall i | 0 <= i < |items| ensures HashableValue(items[i]) == Flat(Strip(items[i])) {
        HashableIsFlat(items[i]);
      }
    case DictOf(fields) =>
      forall k | k in fields ensures HashableValue(fields[k]) == Flat(Strip(fields[k])) {
        HashableIsFlat(fields[k]);
      }
      FieldsFlat(fields);
    case _ =>
  }

  lemma FieldsFlat(fields: map<string, Value>)
    requires forall k :: k in fields ==> HashableValue(fields[k]) == Flat(Strip(fields[k]))
    ensures HashableValue(DictOf(fields)) == Flat(Strip(DictOf(fields)))
  {
    var keys, stripped := SortedKeys(fields.Keys), Strip(DictOf(fields)).fields;
    assert stripped.Keys == fields.Keys;
    var a, b := HashableValue(DictOf(fields)).parts, Flat(Strip(DictOf(fields))).parts;
    forall i | 0 <= i < |keys| ensures a[i] == b[i] {
      assert keys[i] in Elements(keys);
    }
    assert a == b;
  }

  /** A configuration holds no secret inside a model. */
  predicate NothingMasked(v: Value) {
    match v
    case ListOf(items) => forall i :: 0 <= i < |items| ==> NothingMasked(items[i])
    case TupleOf(items) => forall i :: 0 <= i < |items| ==> NothingMasked(items[i])
    case DictOf(fields) => forall k :: k in fields ==> NothingMasked(fields[k])
    case ModelOf(fields) => forall k :: k in fields ==> NoSecret(fields[k])
    case _ => true
  }

  predicate NoSecret(v: Value) {
    match v
    case Secret(_) => false
    case ListOf(items) => forall i :: 0 <= i < |items| ==> NoSecret(items[i])
    case TupleOf(items) => forall i :: 0 <= i < |items| ==> NoSecret(items[i])
    case DictOf(fields) => forall k :: k in fields ==> NoSecret(fields[k])
    case ModelOf(fields) => forall k :: k in fields ==> NoSecret(fields[k])
    case _ => true
  }

  /** The configuration itself, with its secrets. */
  function Meaning(v: Value): Plain {
    match v
    case Atom(text) => Scalar(text)
    case Enumerated(raw) => Scalar(raw)
    case Secret(raw) => Scalar(raw)
    case ListOf(items) => Sequence(seq(|items|, i requires 0 <= i < |items| => Meaning(items[i])))
    case TupleOf(items) => Sequence(seq(|items|, i requires 0 <= i < |items| => Meaning(items[i])))
    case DictOf(fields) => Fields(map k | k in fields :: Meaning(fields[k]))
    case ModelOf(fields) => Fields(map k | k in fields :: Meaning(fields[k]))
  }

  lemma {:induction false} DumpKeepsMeaning(v: Value)
    requires NoSecret(v)
    ensures Dump(v) == Meaning(v)
  {
    match v
    case ListOf(items) =>
      forall i | 0 <= i < |items| ensures Dump(items[i]) == Meaning(items[i]) {
        DumpKeepsMeaning(items[i]);
      }
    case TupleOf(items) =>
      forall i | 0 <= i < |items| ensures Dump(items[i]) == Meaning(items[i]) {
        DumpKeepsMeaning(items[i]);
      }
    case DictOf(fields) =>
      forall k | k in fields ensures Dump(fields[k]) == Meaning(fields[k]) {
        DumpKeepsMeaning(fields[k]);
      }
    case ModelOf(fields) =>
      forall k | k in fields ensures Dump(fields[k]) == Meaning(fields[k]) {
        DumpKeepsMeaning(fields[k]);
      }
    case _ =>
  }

  /** Without secrets in models the key tells all of it. */
  lemma {:induction false} StripKeepsMeaning(v: Value)
    requires NothingMasked(v)
    ensures Strip(v) == Meaning(v)
  {
    match v
    case ListOf(items) =>
      forall i | 0 <= i < |items| ensures Strip(items[i]) == Meaning(items[i]) {
        StripKeepsMeaning(items[i]);
      }
    case TupleOf(items) =>
      forall i | 0 <= i < |items| ensures Strip(items[i]) == Meaning(items[i]) {
        StripKeepsMeaning(items[i]);
      }
    case DictOf(fields) =>
      forall k | k in fields ensures Strip(fields[k]) == Meaning(fields[k]) {
        StripKeepsMeaning(fields[k]);
      }
    case ModelOf(fields) => ModelKeepsMeaning(fields);
    case _ =>
  }

  lemma ModelKeepsMeaning(fields: map<string, Value>)
    requires NothingMasked(ModelOf(fields))
    ensures Dump(ModelOf(fields)) == Meaning(ModelOf(fields))
  {
    forall k | k in fields ensures Dump(fields[k]) == Meaning(fields[k]) {
      DumpKeepsMeaning(fields[k]);
    }
  }

  // ---- equal keys ----

  /** Two configurations of the same schema never hold a dictionary where the other holds a sequence. */
  ghost predicate Alike(p: Plain, q: Plain) {
    match p
    case Scalar(_) => true
    case Sequence(items) =>
      && !q.Fields?
      && (q.Sequence? && |items| == |q.items| ==> forall i :: 0 <= i < |items| ==> Alike(items[i], q.items[i]))
    case Fields(fields) =>
      && !q.Sequence?
      && (q.Fields? ==> forall k :: k in fields && k in q.fields ==> Alike(fields[k], q.fields[k]))
  }

  lemma SameParts(fields: map<string, Plain>, others: map<string, Plain>, k: string)
    requires Flat(Fields(fields)) == Flat(Fields(others)) && k in fields
    ensures fields.Keys == others.Keys && Flat(fields[k]) == Flat(others[k])
  {
    var keys, keys' := SortedKeys(fields.Keys), SortedKeys(others.Keys);
    var a, b := Flat(Fields(fields)).parts, Flat(Fields(others)).parts;
    forall i | 0 <= i < |keys|
      ensures i < |keys'| && keys[i] == keys'[i] && keys[i] in fields && keys[i] in others
      ensures Flat(fields[keys[i]]) == Flat(others[keys[i]])
    {
      assert |a| == |keys| && |b| == |keys'|;
      assert keys[i] in Elements(keys) && keys'[i] in Elements(keys');
      assert a[i] == Tuple([Leaf(keys[i]), Flat(fields[keys[i]])]);
      assert b[i] == Tuple([Leaf(keys'[i]), Flat(others[keys'[i]])]);
      assert a[i].parts[0] == b[i].parts[0] && a[i].parts[1] == b[i].parts[1];
    }
    assert keys == keys';
    assert k in Elements(keys);
    var i :| 0 <= i < |keys| && keys[i] == k;
  }

  lemma {:induction false} FlatInjective(p: Plain, q: Plain)
    requires Alike(p, q) && Flat(p) == Flat(q)
    ensures p == q
  {
    match p
    case Scalar(_) =>
    case Sequence(items) =>
      assert |items| == |Flat(p).parts| == |Flat(q).parts| == |q.items|;
      forall i | 0 <= i < |items| ensures items[i] == q.items[i] {
        assert Flat(p).parts[i] == Flat(q).parts[i];
        FlatInjective(items[i], q.items[i]);
      }
      assert items == q.items;
    case Fields(fields) =>
      forall k | k in fields ensures fields.Keys == q.fields.Keys && fields[k] == q.fields[k] {
        SameParts(fields, q.fields, k);
        FlatInjective(fields[k], q.fields[k]);
      }
      if fields == map[] {
        NoKeys(q.fields);
      }
      assert fields == q.fields;
  }

  lemma NoKeys(fields: map<string, Plain>)
    requires Flat(Fields(fields)) == Flat(Fields(map[]))
    ensures fields == map[]
  {
    var none: map<string, Plain> := map[];
    assert none.Keys == {} && SortedKeys(none.Keys) == [];
    assert Flat(Fields(none)).parts == [];
    assert |Flat(Fields(fields)).parts| == |SortedKeys(fields.Keys)|;
    assert SortedKeys(fields.Keys) == [];
    assert fields.Keys == {};
  }

  /** Two configurations of one schema have the same key if and only if they are the same up to the secrets
      inside their models; and if they hold none there, if and only if they are the same. */
  lemma SameKeyIff(v: Value, w: Value)
    requires Alike(Strip(v), Strip(w))
    ensures HashableValue(v) == HashableValue(w) <==> Strip(v) == Strip(w)
    ensures NothingMasked(v) && NothingMasked(w) ==>
              (HashableValue(v) == HashableValue(w) <==> Meaning(v) == Meaning(w))
  {
    HashableIsFlat(v);
    HashableIsFlat(w);
    if HashableValue(v) == HashableValue(w) {
      FlatInjective(Strip(v), Strip(w));
    }
    if NothingMasked(v) && NothingMasked(w) {
      StripKeepsMeaning(v);
      StripKeepsMeaning(w);
    }
  }

  /** A secret of its own is told apart from every other; inside a model any two have one key, unless exactly one
      of them is empty. */
  lemma MaskedSecretsCollide(a: string, b: string)
    ensures HashableValue(Secret(a)) == HashableValue(Secret(b)) <==> a == b
    ensures var v, w := ModelOf(map["p" := Secret(a)]), ModelOf(map["p" := Secret(b)]);
            && (HashableValue(v) == HashableValue(w) <==> (a == "" <==> b == ""))
            && (Meaning(v) == Meaning(w) <==> a == b)
  {
    var v, w := ModelOf(map["p" := Secret(a)]), ModelOf(map["p" := Secret(b)]);
    assert Dump(v).fields == map["p" := Scalar(Mask(a))] && Dump(w).fields == map["p" := Scalar(Mask(b))];
    if HashableValue(v) == HashableValue(w) {
      SameParts(Dump(v).fields, Dump(w).fields, "p");
    } else {
      assert Mask(a) != Mask(b);
    }
    assert Meaning(v).fields["p"] == Scalar(a) && Meaning(w).fields["p"] == Scalar(b);
    assert a == b ==> Meaning(v).fields == Meaning(w).fields;
  }

  /** Without the same schema they can collide: a dictionary flattens like the list of its pairs. */
  lemma DictionaryLikeList()
    ensures var dict, list := DictOf(map["m" := Atom("16")]), ListOf([ListOf([Atom("m"), Atom("16")])]);
            HashableValue(dict) == HashableValue(list) && Meaning(dict) != Meaning(list)
  {
    var fields := map["m" := Atom("16")];
    var pair := ListOf([Atom("m"), Atom("16")]);
    var keys := SortedKeys(fields.Keys);
    OneKey(keys, "m");
    assert HashableValue(pair) == Tuple([Leaf("m"), Leaf("16")]);
    assert HashableValue(DictOf(fields)).parts == [Tuple([Leaf("m"), Leaf("16")])];
    assert HashableValue(ListOf([pair])).parts == [Tuple([Leaf("m"), Leaf("16")])];
  }

  lemma OneKey(keys: seq<string>, k: string)
    requires Elements(keys) == {k} && forall i, j :: 0 <= i < j < |keys| ==> Before(keys[i], keys[j])
    ensures keys == [k]
  {
    forall i, j | 0 <= i < j < |keys| ensures keys[i] != keys[j] {
      BeforeIrreflexive(keys[i]);
    }
    ElementsSize(keys);
    assert |{k}| == 1 && k in Elements(keys);
    assert keys[0] in Elements(keys);
  }
}

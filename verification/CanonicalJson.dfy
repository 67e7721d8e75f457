/**
 The canonical form of a request body and the request hash built on it. Objects are sequences of
 fields in enumeration order with distinct keys; `less` is the strict total order in which the
 canonical form enumerates keys.
 */
module CanonicalJson {

  datatype Json =
    | Null
    | Bool(b: bool)
    | Num(n: int)
    | Str(s: string)
    | Arr(items: seq<Json>)
    | Obj(fields: seq<Field>)

  datatype Field = Field(key: string, value: Json)

  type KeyOrder = (string, string) -> bool

  ghost predicate StrictTotalOrder(less: KeyOrder) {
    (forall a :: !less(a, a)) &&
    (forall a, b :: a != b ==> less(a, b) || less(b, a)) &&
    (forall a, b, c :: less(a, b) && less(b, c) ==> less(a, c))
  }

  /** Assigning this key on a plain object sets its prototype and leaves no own property, so the
      canonical form drops it. */
  const PROTO_KEY := "__proto__"

  ghost predicate DistinctKeys(fields: seq<Field>) {
    forall i, j | 0 <= i < j < |fields| :: fields[i].key != fields[j].key
  }

  /** Every object at every depth has distinct keys, as every parsed body has. */
  ghost predicate WellFormed(v: Json) {
    match v
    case Arr(items) => forall i | 0 <= i < |items| :: WellFormed(items[i])
    case Obj(fields) => DistinctKeys(fields) && forall i | 0 <= i < |fields| :: WellFormed(fields[i].value)
    case _ => true
  }

  // ---------------------------------------------------------------- canonicalize

  function Insert(f: Field, sorted: seq<Field>, less: KeyOrder): seq<Field> {
    if sorted == [] || less(f.key, sorted[0].key) then [f] + sorted
    else [sorted[0]] + Insert(f, sorted[1..], less)
  }

  function SortFields(fields: seq<Field>, less: KeyOrder): seq<Field> {
    if fields == [] then []
    else Insert(fields[0], SortFields(fields[1..], less), less)
  }

  function Canonicalize(v: Json, less: KeyOrder): Json
    decreases v, 1
  {
    match v
    case Arr(items) => Arr(CanonicalItems(items, less))
    case Obj(fields) => Obj(SortFields(CanonicalFields(fields, less), less))
    case _ => v
  }

  function CanonicalItems(items: seq<Json>, less: KeyOrder): (r: seq<Json>)
    ensures |r| == |items|
    ensures forall i | 0 <= i < |items| :: r[i] == Canonicalize(items[i], less)
    decreases items, 0
  {
    if items == [] then []
    else [Canonicalize(items[0], less)] + CanonicalItems(items[1..], less)
  }

  function CanonicalFields(fields: seq<Field>, less: KeyOrder): seq<Field>
    decreases fields, 0
  {
    if fields == [] then []
    else
      var rest := CanonicalFields(fields[1..], less);
      if fields[0].key == PROTO_KEY then rest
      else [Field(fields[0].key, Canonicalize(fields[0].value, less))] + rest
  }

  // ---------------------------------------------------------------- equality up to key order

  ghost function Keys(fields: seq<Field>): set<string> {
    set i | 0 <= i < |fields| && fields[i].key != PROTO_KEY :: fields[i].key
  }

  /** Equal up to the order of object keys at every depth; array order is significant. */
  ghost predicate Equivalent(a: Json, b: Json)
    decreases a
  {
    match (a, b)
    case (Arr(xs), Arr(ys)) =>
      |xs| == |ys| && forall i | 0 <= i < |xs| :: Equivalent(xs[i], ys[i])
    case (Obj(fs), Obj(gs)) =>
      Keys(fs) == Keys(gs) &&
      forall i, j | 0 <= i < |fs| && 0 <= j < |gs| && fs[i].key == gs[j].key && fs[i].key != PROTO_KEY ::
        Equivalent(fs[i].value, gs[j].value)
    case _ => a == b
  }

  // ---------------------------------------------------------------- sorting

  ghost predicate Sorted(fields: seq<Field>, less: KeyOrder) {
    forall i, j | 0 <= i < j < |fields| :: less(fields[i].key, fields[j].key)
  }

  lemma {:induction false} InsertSorts(f: Field, sorted: seq<Field>, less: KeyOrder)
    requires StrictTotalOrder(less) && Sorted(sorted, less)
    requires forall i | 0 <= i < |sorted| :: sorted[i].key != f.key
    ensures Sorted(Insert(f, sorted, less), less)
    ensures forall g :: g in Insert(f, sorted, less) <==> g == f || g in sorted
  {
    if sorted != [] && !less(f.key, sorted[0].key) {
      InsertSorts(f, sorted[1..], less);
      var rest := Insert(f, sorted[1..], less);
      forall i | 0 <= i < |rest| ensures less(sorted[0].key, rest[i].key) {
        assert rest[i] in rest;
        if rest[i] != f {
          var j :| 0 <= j < |sorted[1..]| && sorted[1..][j] == rest[i];
          assert sorted[j + 1] == rest[i];
        }
      }
      assert forall g :: g in sorted <==> g == sorted[0] || g in sorted[1..];
    }
  }

  lemma {:induction false} SortSorts(fields: seq<Field>, less: KeyOrder)
    requires StrictTotalOrder(less) && DistinctKeys(fields)
    ensures Sorted(SortFields(fields, less), less)
    ensures forall g :: g in SortFields(fields, less) <==> g in fields
  {
    if fields != [] {
      SortSorts(fields[1..], less);
      var rest := SortFields(fields[1..], less);
      forall i | 0 <= i < |rest| ensures rest[i].key != fields[0].key {
        assert rest[i] in fields[1..];
        var j :| 0 <= j < |fields[1..]| && fields[1..][j] == rest[i];
        assert fields[j + 1] == rest[i];
      }
      InsertSorts(fields[0], rest, less);
      assert forall g :: g in fields <==> g == fields[0] || g in fields[1..];
    }
  }

  lemma SortedTail(a: seq<Field>, less: KeyOrder)
    requires StrictTotalOrder(less) && Sorted(a, less) && a != []
    ensures Sorted(a[1..], less)
    ensures forall g :: g in a[1..] <==> g in a && g != a[0]
  {
  }

  lemma FirstIsMember(fields: seq<Field>)
    requires fields != []
    ensures exists g :: g in fields
  {
    assert fields[0] in fields;
  }

  /** Two strictly sorted field lists with the same members are the same list. */
  lemma {:induction false} SortedUnique(a: seq<Field>, b: seq<Field>, less: KeyOrder)
    requires StrictTotalOrder(less) && Sorted(a, less) && Sorted(b, less)
    requires forall g :: g in a <==> g in b
    ensures a == b
    decreases |a|
  {
    if a == [] {
      if b != [] {
        FirstIsMember(b);
      }
    } else {
      assert a[0] in a && b[0] in b;
      var i :| 0 <= i < |a| && a[i] == b[0];
      var j :| 0 <= j < |b| && b[j] == a[0];
      assert a[0] == b[0];
      SortedTail(a, less);
      SortedTail(b, less);
      SortedUnique(a[1..], b[1..], less);
    }
  }

  /** `g` is the canonical form of one of the kept fields. */
  ghost predicate IsFormOf(g: Field, fields: seq<Field>, less: KeyOrder) {
    exists i | 0 <= i < |fields| ::
      fields[i].key != PROTO_KEY && g == Field(fields[i].key, Canonicalize(fields[i].value, less))
  }

  lemma {:induction false} CanonicalFieldsMembers(fields: seq<Field>, less: KeyOrder)
    ensures forall g :: g in CanonicalFields(fields, less) <==> IsFormOf(g, fields, less)
  {
    if fields != [] {
      CanonicalFieldsMembers(fields[1..], less);
      var rest := CanonicalFields(fields[1..], less);
      var all := CanonicalFields(fields, less);
      forall g | g in all
        ensures IsFormOf(g, fields, less)
      {
        if g in rest {
          var i :| 0 <= i < |fields[1..]| && fields[1..][i].key != PROTO_KEY &&
            g == Field(fields[1..][i].key, Canonicalize(fields[1..][i].value, less));
          assert fields[i + 1] == fields[1..][i];
        } else {
          assert g == all[0];
        }
      }
      forall i | 0 <= i < |fields| && fields[i].key != PROTO_KEY
        ensures Field(fields[i].key, Canonicalize(fields[i].value, less)) in all
      {
        if i > 0 {
          assert fields[1..][i - 1] == fields[i];
          assert Field(fields[i].key, Canonicalize(fields[i].value, less)) in rest;
        }
      }
    }
  }

  lemma {:induction false} CanonicalFieldsDistinct(fields: seq<Field>, less: KeyOrder)
    requires DistinctKeys(fields)
    ensures DistinctKeys(CanonicalFields(fields, less))
  {
    if fields != [] {
      assert DistinctKeys(fields[1..]);
      CanonicalFieldsDistinct(fields[1..], less);
      CanonicalFieldsMembers(fields[1..], less);
      var rest := CanonicalFields(fields[1..], less);
      forall i | 0 <= i < |rest| ensures rest[i].key != fields[0].key {
        assert rest[i] in rest;
        var j :| 0 <= j < |fields[1..]| && rest[i].key == fields[1..][j].key;
        assert fields[j + 1] == fields[1..][j];
      }
    }
  }

  /** The canonical fields of an object: strictly sorted, with the members of its own fields. */
  lemma CanonicalObject(fields: seq<Field>, less: KeyOrder)
    requires StrictTotalOrder(less) && DistinctKeys(fields)
    ensures Sorted(Canonicalize(Obj(fields), less).fields, less)
    ensures forall g :: g in Canonicalize(Obj(fields), less).fields <==> IsFormOf(g, fields, less)
  {
    CanonicalFieldsDistinct(fields, less);
    CanonicalFieldsMembers(fields, less);
    SortSorts(CanonicalFields(fields, less), less);
  }

  // ---------------------------------------------------------------- the two directions

  lemma {:induction false} EquivalentThenSameForm(a: Json, b: Json, less: KeyOrder)
    requires StrictTotalOrder(less) && WellFormed(a) && WellFormed(b) && Equivalent(a, b)
    ensures Canonicalize(a, less) == Canonicalize(b, less)
    decreases a
  {
    match (a, b) {
      case (Arr(xs), Arr(ys)) =>
        forall i | 0 <= i < |xs| ensures Canonicalize(xs[i], less) == Canonicalize(ys[i], less) {
          EquivalentThenSameForm(xs[i], ys[i], less);
        }
      case (Obj(fs), Obj(gs)) =>
        CanonicalObject(fs, less);
        CanonicalObject(gs, less);
        forall i, j | 0 <= i < |fs| && 0 <= j < |gs| && fs[i].key == gs[j].key && fs[i].key != PROTO_KEY
          ensures Canonicalize(fs[i].value, less) == Canonicalize(gs[j].value, less)
        {
          EquivalentThenSameForm(fs[i].value, gs[j].value, less);
        }
        var cf, cg := Canonicalize(a, less).fields, Canonicalize(b, less).fields;
        forall g ensures g in cf <==> g in cg {
          if g in cf {
            var i :| 0 <= i < |fs| && fs[i].key != PROTO_KEY && g == Field(fs[i].key, Canonicalize(fs[i].value, less));
            assert fs[i].key in Keys(gs);
            var j :| 0 <= j < |gs| && gs[j].key != PROTO_KEY && gs[j].key == fs[i].key;
            assert g == Field(gs[j].key, Canonicalize(gs[j].value, less));
          }
          if g in cg {
            var j :| 0 <= j < |gs| && gs[j].key != PROTO_KEY && g == Field(gs[j].key, Canonicalize(gs[j].value, less));
            assert gs[j].key in Keys(fs);
            var i :| 0 <= i < |fs| && fs[i].key != PROTO_KEY && fs[i].key == gs[j].key;
            assert g == Field(fs[i].key, Canonicalize(fs[i].value, less));
          }
        }
        SortedUnique(cf, cg, less);
      case _ =>
    }
  }

  lemma SameFieldsSameKeys(fs: seq<Field>, gs: seq<Field>, less: KeyOrder)
    requires StrictTotalOrder(less) && DistinctKeys(fs) && DistinctKeys(gs)
    requires Canonicalize(Obj(fs), less) == Canonicalize(Obj(gs), less)
    ensures Keys(fs) <= Keys(gs)
  {
    CanonicalObject(fs, less);
    CanonicalObject(gs, less);
    forall k | k in Keys(fs) ensures k in Keys(gs) {
      var i :| 0 <= i < |fs| && fs[i].key != PROTO_KEY && fs[i].key == k;
      var g := Field(k, Canonicalize(fs[i].value, less));
      assert g in Canonicalize(Obj(fs), less).fields;
      var j :| 0 <= j < |gs| && gs[j].key != PROTO_KEY && g == Field(gs[j].key, Canonicalize(gs[j].value, less));
    }
  }

  lemma {:induction false} SameFormThenEquivalent(a: Json, b: Json, less: KeyOrder)
    requires StrictTotalOrder(less) && WellFormed(a) && WellFormed(b)
    requires Canonicalize(a, less) == Canonicalize(b, less)
    ensures Equivalent(a, b)
    decreases a
  {
    match (a, b) {
      case (Arr(xs), Arr(ys)) =>
        assert |xs| == |CanonicalItems(xs, less)| == |ys|;
        forall i | 0 <= i < |xs| ensures Equivalent(xs[i], ys[i]) {
          assert CanonicalItems(xs, less)[i] == CanonicalItems(ys, less)[i];
          SameFormThenEquivalent(xs[i], ys[i], less);
        }
      case (Obj(fs), Obj(gs)) =>
        SameFieldsSameKeys(fs, gs, less);
        SameFieldsSameKeys(gs, fs, less);
        CanonicalObject(fs, less);
        CanonicalObject(gs, less);
        forall i, j | 0 <= i < |fs| && 0 <= j < |gs| && fs[i].key == gs[j].key && fs[i].key != PROTO_KEY
          ensures Equivalent(fs[i].value, gs[j].value)
        {
          var g := Field(fs[i].key, Canonicalize(fs[i].value, less));
          assert g in Canonicalize(a, less).fields;
          var t :| 0 <= t < |gs| && gs[t].key != PROTO_KEY && g == Field(gs[t].key, Canonicalize(gs[t].value, less));
          assert t == j;
          SameFormThenEquivalent(fs[i].value, gs[j].value, less);
        }
      case _ =>
    }
  }

  /** Two bodies have the same canonical form exactly when they are equal up to key order. */
  lemma SameFormIffEquivalent(a: Json, b: Json, less: KeyOrder)
    requires StrictTotalOrder(less) && WellFormed(a) && WellFormed(b)
    ensures Canonicalize(a, less) == Canonicalize(b, less) <==> Equivalent(a, b)
  {
    if Equivalent(a, b) {
      EquivalentThenSameForm(a, b, less);
    }
    if Canonicalize(a, less) == Canonicalize(b, less) {
      SameFormThenEquivalent(a, b, less);
    }
  }

  // ---------------------------------------------------------------- idempotence

  lemma {:induction false} FormIsWellFormed(v: Json, less: KeyOrder)
    requires StrictTotalOrder(less) && WellFormed(v)
    ensures WellFormed(Canonicalize(v, less)) && Equivalent(v, Canonicalize(v, less))
    decreases v
  {
    match v {
      case Arr(items) =>
        forall i | 0 <= i < |items|
          ensures WellFormed(Canonicalize(items[i], less)) && Equivalent(items[i], Canonicalize(items[i], less))
        {
          FormIsWellFormed(items[i], less);
        }
      case Obj(fs) =>
        CanonicalObject(fs, less);
        var cs := Canonicalize(v, less).fields;
        assert DistinctKeys(cs);
        forall j | 0 <= j < |cs| ensures WellFormed(cs[j].value) && cs[j].key in Keys(fs) {
          assert cs[j] in cs;
          var i :| 0 <= i < |fs| && fs[i].key != PROTO_KEY && cs[j] == Field(fs[i].key, Canonicalize(fs[i].value, less));
          FormIsWellFormed(fs[i].value, less);
        }
        forall k | k in Keys(fs) ensures k in Keys(cs) {
          var i :| 0 <= i < |fs| && fs[i].key != PROTO_KEY && fs[i].key == k;
          var g := Field(k, Canonicalize(fs[i].value, less));
          assert g in cs;
          var j :| 0 <= j < |cs| && cs[j] == g;
        }
        forall i, j | 0 <= i < |fs| && 0 <= j < |cs| && fs[i].key == cs[j].key && fs[i].key != PROTO_KEY
          ensures Equivalent(fs[i].value, cs[j].value)
        {
          assert cs[j] in cs;
          var t :| 0 <= t < |fs| && fs[t].key != PROTO_KEY && cs[j] == Field(fs[t].key, Canonicalize(fs[t].value, less));
          assert t == i;
          FormIsWellFormed(fs[i].value, less);
        }
      case _ =>
    }
  }

  /** Canonicalizing twice is canonicalizing once. */
  lemma CanonicalizeIdempotent(v: Json, less: KeyOrder)
    requires StrictTotalOrder(less) && WellFormed(v)
    ensures Canonicalize(Canonicalize(v, less), less) == Canonicalize(v, less)
  {
    FormIsWellFormed(v, less);
    EquivalentThenSameForm(v, Canonicalize(v, less), less);
  }

  // ---------------------------------------------------------------- the request hash

  datatype Payload = Payload(method_: string, path: string, body: Json)

  /** `req.body || {}`: falsy bodies are replaced by the empty object. */
  function BodyOrEmpty(body: Json): Json {
    if body in {Null, Bool(false), Num(0), Str("")} then Obj([]) else body
  }

  function RequestHash(digest: Payload -> string, method_: string, path: string, body: Json, less: KeyOrder): string {
    digest(Payload(method_, path, Canonicalize(BodyOrEmpty(body), less)))
  }

  ghost predicate InjectiveDigest(digest: Payload -> string) {
    forall a, b :: digest(a) == digest(b) ==> a == b
  }

  /** A body that is hashed as the empty object: absent or falsy, or an object with no key that is kept. */
  ghost predicate Blank(body: Json) {
    match body
    case Null => true
    case Bool(b) => !b
    case Num(n) => n == 0
    case Str(s) => s == ""
    case Arr(_) => false
    case Obj(fields) => forall i | 0 <= i < |fields| :: fields[i].key == "__proto__"
  }

  /** Two requests hash alike exactly when method and path agree and their bodies are equal up to key
      order, or both are blank. */
  lemma HashesAgreeIffSameRequest(
      digest: Payload -> string, less: KeyOrder,
      m1: string, p1: string, b1: Json, m2: string, p2: string, b2: Json)
    requires InjectiveDigest(digest) && StrictTotalOrder(less) && WellFormed(b1) && WellFormed(b2)
    ensures RequestHash(digest, m1, p1, b1, less) == RequestHash(digest, m2, p2, b2, less)
      <==> m1 == m2 && p1 == p2 && (Equivalent(b1, b2) || (Blank(b1) && Blank(b2)))
  {
    SameFormIffEquivalent(BodyOrEmpty(b1), BodyOrEmpty(b2), less);
    BlankBodies(b1, b2);
  }

  lemma BlankIsEmpty(body: Json)
    ensures Blank(body) <==> Equivalent(BodyOrEmpty(body), Obj([]))
    ensures !Blank(body) ==> BodyOrEmpty(body) == body
  {
    if body.Obj? {
      var fields := body.fields;
      assert forall i | 0 <= i < |fields| && fields[i].key != PROTO_KEY :: fields[i].key in Keys(fields);
      assert Keys([]) == {};
    }
  }

  lemma BlankBodies(a: Json, b: Json)
    ensures Equivalent(BodyOrEmpty(a), BodyOrEmpty(b)) <==> Equivalent(a, b) || (Blank(a) && Blank(b))
  {
    BlankIsEmpty(a);
    BlankIsEmpty(b);
    assert Keys([]) == {};
    EmptyEquivalents(BodyOrEmpty(a));
    EmptyEquivalents(BodyOrEmpty(b));
    EmptyEquivalents(a);
    EmptyEquivalents(b);
  }

  /** What is equivalent to the empty object has no key that is kept. */
  lemma EmptyEquivalents(a: Json)
    ensures Equivalent(a, Obj([])) <==> a.Obj? && Keys(a.fields) == {}
  {
    assert Keys([]) == {};
  }

  /** Exactly the prototype key is dropped: an object of one field has the empty object's form if and
      only if that is its key. */
  lemma PrototypeKeyNotHashed(less: KeyOrder, key: string, value: Json)
    ensures Canonicalize(Obj([Field(key, value)]), less) == Canonicalize(Obj([]), less) <==> key == "__proto__"
  {
    var fields := [Field(key, value)];
    assert fields[1..] == [] && CanonicalFields([], less) == [];
    if key == "__proto__" {
      assert CanonicalFields(fields, less) == [];
    } else {
      var kept := [Field(key, Canonicalize(value, less))];
      assert CanonicalFields(fields, less) == kept && kept[1..] == [];
      assert SortFields(kept, less) == Insert(kept[0], [], less) == kept;
    }
  }
}

/** Canonical JSON (section 3.2.3 of RFC 8785): keys sorted, undefined fields left out. A scalar's JSON is one token. */
module CanonicalJson {
  import opened Ordering

  // ---- strings by code unit ----

  predicate StringLe(a: string, b: string) {
    if a == "" then true
    else if b == "" then false
    else a[0] < b[0] || (a[0] == b[0] && StringLe(a[1..], b[1..]))
  }

  lemma {:induction false} StringLeTotal(a: string, b: string)
    ensures StringLe(a, b) || StringLe(b, a)
    ensures StringLe(a, b) && StringLe(b, a) ==> a == b
  {
    if a != "" && b != "" {
      StringLeTotal(a[1..], b[1..]);
      if a[0] == b[0] { assert a == [a[0]] + a[1..] && b == [b[0]] + b[1..]; }
    }
  }

  lemma {:induction false} StringLeTransitive(a: string, b: string, c: string)
    requires StringLe(a, b) && StringLe(b, c)
    ensures StringLe(a, c)
  {
    if a != "" && b != "" && c != "" && a[0] == b[0] == c[0] { StringLeTransitive(a[1..], b[1..], c[1..]); }
  }

  // ---- values ----

  /** A JavaScript value of the plain kinds; a field may be undefined. */
  datatype Value = Null | Bool(b: bool) | Number(n: int) | Text(s: string) | Array(items: seq<Value>) |
    Object(fields: seq<Field>)
  datatype Field = Field(key: string, value: Value) | Undefined(key: string)

  /** No object has a key twice. */
  ghost predicate Plain(v: Value) {
    match v
    case Array(items) => forall i :: 0 <= i < |items| ==> Plain(items[i])
    case Object(fields) =>
      (forall i, j :: 0 <= i < j < |fields| ==> fields[i].key != fields[j].key) &&
      forall i :: 0 <= i < |fields| ==> PlainField(fields[i])
    case _ => true
  }

  ghost predicate PlainField(f: Field) { f.Field? ==> Plain(f.value) }

  predicate Defined(f: Field) { f.Field? }

  function InsertField(f: Field, fs: seq<Field>): (r: seq<Field>)
    ensures forall x :: x in r <==> x == f || x in fs
    ensures |r| == |fs| + 1
  {
    if fs == [] then [f]
    else if StringLe(f.key, fs[0].key) then [f] + fs
    else
      var rest := InsertField(f, fs[1..]);
      assert fs == [fs[0]] + fs[1..];
      [fs[0]] + rest
  }

  /** The defined fields, by key. */
  function SortFields(fs: seq<Field>): (r: seq<Field>)
    ensures forall x :: x in r <==> x in fs && Defined(x)
  {
    if fs == [] then []
    else
      assert fs == [fs[0]] + fs[1..];
      if Defined(fs[0]) then InsertField(fs[0], SortFields(fs[1..])) else SortFields(fs[1..])
  }

  lemma SortedBelow(fields: seq<Field>, owner: Value)
    requires owner == Object(fields)
    ensures forall i :: 0 <= i < |SortFields(fields)| ==>
      SortFields(fields)[i].Field? && SortFields(fields)[i].value < owner
  {
    var s := SortFields(fields);
    forall i | 0 <= i < |s| ensures s[i].Field? && s[i].value < owner {
      assert s[i] in s;
      var k :| 0 <= k < |fields| && fields[k] == s[i];
      assert fields[k].value < owner;
    }
  }

  // ---- tokens ----

  datatype Token = TNull | TBool(b: bool) | TNumber(n: int) | TText(s: string) | LBracket | RBracket | LBrace | RBrace |
    Comma | Colon

  function Canon(v: Value): (r: seq<Token>)
    ensures r != [] && r[0] != RBracket && r[0] != RBrace && r[0] != Comma && r[0] != Colon
    decreases v, 2
  {
    match v
    case Null => [TNull]
    case Bool(b) => [TBool(b)]
    case Number(n) => [TNumber(n)]
    case Text(s) => [TText(s)]
    case Array(items) => [LBracket] + Items(items, v) + [RBracket]
    case Object(fields) =>
      SortedBelow(fields, v);
      [LBrace] + Fields(SortFields(fields), v) + [RBrace]
  }

  /** Elements joined by commas; `owner` only bounds the recursion. */
  function Items(items: seq<Value>, ghost owner: Value): seq<Token>
    requires forall i :: 0 <= i < |items| ==> items[i] < owner
    decreases owner, 1, |items|
  {
    if items == [] then []
    else Canon(items[0]) + if |items| == 1 then [] else [Comma] + Items(items[1..], owner)
  }

  function Fields(fields: seq<Field>, ghost owner: Value): seq<Token>
    requires forall i :: 0 <= i < |fields| ==> fields[i].Field? && fields[i].value < owner
    decreases owner, 1, |fields|
  {
    if fields == [] then []
    else
      [TText(fields[0].key), Colon] + Canon(fields[0].value) + if |fields| == 1 then []
        else [Comma] + Fields(fields[1..], owner)
  }

  // ---- the normal form: fields sorted, undefined ones gone, at every depth ----

  function Norm(v: Value): Value
    decreases v, 2
  {
    match v
    case Array(items) => Array(NormItems(items, v))
    case Object(fields) =>
      SortedBelow(fields, v);
      Object(NormFields(SortFields(fields), v))
    case _ => v
  }

  function NormItems(items: seq<Value>, ghost owner: Value): (r: seq<Value>)
    requires forall i :: 0 <= i < |items| ==> items[i] < owner
    ensures |r| == |items|
    decreases owner, 1, |items|
  {
    if items == [] then [] else [Norm(items[0])] + NormItems(items[1..], owner)
  }

  function NormFields(fields: seq<Field>, ghost owner: Value): (r: seq<Field>)
    requires forall i :: 0 <= i < |fields| ==> fields[i].Field? && fields[i].value < owner
    ensures |r| == |fields|
    decreases owner, 1, |fields|
  {
    if fields == [] then [] else [Field(fields[0].key, Norm(fields[0].value))] + NormFields(fields[1..], owner)
  }

  // ---- a decoder ----

  datatype Parsed<T> = Fail | Got(value: T, rest: seq<Token>)

  function Decode(ts: seq<Token>): (r: Parsed<Value>)
    ensures r.Got? ==> |r.rest| < |ts|
    decreases |ts|, 1
  {
    if ts == [] then Fail
    else
      match ts[0]
      case TNull => Got(Null, ts[1..])
      case TBool(b) => Got(Bool(b), ts[1..])
      case TNumber(n) => Got(Number(n), ts[1..])
      case TText(s) => Got(Text(s), ts[1..])
      case LBracket =>
        if |ts| > 1 && ts[1] == RBracket then Got(Array([]), ts[2..])
        else
          var r := DecodeItems(ts[1..]);
          if r.Fail? then Fail else Got(Array(r.value), r.rest)
      case LBrace =>
        if |ts| > 1 && ts[1] == RBrace then Got(Object([]), ts[2..])
        else
          var r := DecodeFields(ts[1..]);
          if r.Fail? then Fail else Got(Object(r.value), r.rest)
      case _ => Fail
  }

  function DecodeItems(ts: seq<Token>): (r: Parsed<seq<Value>>)
    ensures r.Got? ==> |r.rest| < |ts|
    decreases |ts|, 2
  {
    var first := Decode(ts);
    if first.Fail? || first.rest == [] then Fail
    else if first.rest[0] == RBracket then Got([first.value], first.rest[1..])
    else if first.rest[0] != Comma then Fail
    else
      var more := DecodeItems(first.rest[1..]);
      if more.Fail? then Fail else Got([first.value] + more.value, more.rest)
  }

  function DecodeFields(ts: seq<Token>): (r: Parsed<seq<Field>>)
    ensures r.Got? ==> |r.rest| < |ts|
    decreases |ts|, 2
  {
    if |ts| < 2 || !ts[0].TText? || ts[1] != Colon then Fail
    else
      var first := Decode(ts[2..]);
      if first.Fail? || first.rest == [] then Fail
      else if first.rest[0] == RBrace then Got([Field(ts[0].s, first.value)], first.rest[1..])
      else if first.rest[0] != Comma then Fail
      else
        var more := DecodeFields(first.rest[1..]);
        if more.Fail? then Fail else Got([Field(ts[0].s, first.value)] + more.value, more.rest)
  }

  lemma Reassoc<T>(a: seq<T>, b: seq<T>, c: seq<T>, d: seq<T>)
    ensures a + b + c + d == a + (b + c + d)
    ensures a + c + d == a + (c + d)
  {
  }

  /** How the tokens of elements begin: the first one's, then the close or a comma and the others. */
  lemma ItemsSplit(items: seq<Value>, owner: Value, rest: seq<Token>)
    requires items != [] && forall i :: 0 <= i < |items| ==> items[i] < owner
    ensures |items| == 1 ==> Items(items, owner) + [RBracket] + rest == Canon(items[0]) + ([RBracket] + rest)
    ensures |items| > 1 ==>
      Items(items, owner) + [RBracket] + rest == Canon(items[0]) +
      ([Comma] + (Items(items[1..], owner) + [RBracket] + rest))
  {
    var first := Canon(items[0]);
    if |items| == 1 {
      assert Items(items, owner) == first + [];
      hide Canon, Items;
      assert first + [] == first;
      Reassoc(first, [], [RBracket], rest);
    } else {
      var more := Items(items[1..], owner);
      assert Items(items, owner) == first + ([Comma] + more);
      hide Canon, Items;
      Reassoc(first, [Comma] + more, [RBracket], rest);
      Reassoc([Comma], more, [RBracket], rest);
    }
  }

  lemma FieldsSplit(fields: seq<Field>, owner: Value, rest: seq<Token>)
    requires fields != [] && forall i :: 0 <= i < |fields| ==> fields[i].Field? && fields[i].value < owner
    ensures var head, first := [TText(fields[0].key), Colon], Canon(fields[0].value);
      && (|fields| == 1 ==> Fields(fields, owner) + [RBrace] + rest == head + (first + ([RBrace] + rest)))
      && (|fields| > 1 ==>
        Fields(fields, owner) + [RBrace] + rest == head +
        (first + ([Comma] + (Fields(fields[1..], owner) + [RBrace] + rest))))
  {
    var head, first := [TText(fields[0].key), Colon], Canon(fields[0].value);
    if |fields| == 1 {
      assert Fields(fields, owner) == head + first + [];
      hide Canon, Fields;
      assert head + first + [] == head + first;
      Reassoc(head, first, [RBrace], rest);
      Reassoc(first, [], [RBrace], rest);
    } else {
      var more := Fields(fields[1..], owner);
      assert Fields(fields, owner) == head + first + ([Comma] + more);
      hide Canon, Fields;
      assert head + first + ([Comma] + more) == head + (first + ([Comma] + more));
      Reassoc(head, first + ([Comma] + more), [RBrace], rest);
      Reassoc(first, [Comma] + more, [RBrace], rest);
      Reassoc([Comma], more, [RBrace], rest);
    }
  }

  /** The decoder undoes canonicalization, up to the order of fields and the undefined ones. */
  lemma {:induction false} DecodeCanon(v: Value, rest: seq<Token>)
    ensures Decode(Canon(v) + rest) == Got(Norm(v), rest)
    decreases v, 2
  {
    match v
    case Array(items) => if items != [] { DecodeItemsCanon(items, v, rest); } DecodeArray(items, v, rest);
    case Object(fields) =>
      SortedBelow(fields, v);
      if SortFields(fields) != [] { DecodeFieldsCanon(SortFields(fields), v, rest); }
      DecodeObject(fields, v, rest);
    case _ =>
  }

  lemma DecodeOpen(inner: seq<Token>)
    requires inner != []
    ensures var r := DecodeItems(inner); inner[0] != RBracket && r.Got? ==>
      Decode([LBracket] + inner) == Got(Array(r.value), r.rest)
    ensures var r := DecodeFields(inner); inner[0] != RBrace && r.Got? ==>
      Decode([LBrace] + inner) == Got(Object(r.value), r.rest)
    ensures inner[0] == RBracket ==> Decode([LBracket] + inner) == Got(Array([]), inner[1..])
    ensures inner[0] == RBrace ==> Decode([LBrace] + inner) == Got(Object([]), inner[1..])
  {
    assert ([LBracket] + inner)[1..] == inner && ([LBrace] + inner)[1..] == inner;
    assert ([LBracket] + inner)[2..] == inner[1..] && ([LBrace] + inner)[2..] == inner[1..];
  }

  lemma DecodeArray(items: seq<Value>, v: Value, rest: seq<Token>)
    requires v == Array(items)
    requires items != [] ==> DecodeItems(Items(items, v) + [RBracket] + rest) == Got(NormItems(items, v), rest)
    ensures Decode(Canon(v) + rest) == Got(Norm(v), rest)
  {
    hide Decode, DecodeItems, DecodeFields;
    var inner := Items(items, v) + [RBracket] + rest;
    assert Canon(v) == [LBracket] + Items(items, v) + [RBracket];
    assert Norm(v) == Array(NormItems(items, v));
    assert items == [] ==> Items(items, v) == [] && NormItems(items, v) == [];
    if items != [] {
      ItemsSplit(items, v, rest);
      assert inner[0] == Canon(items[0])[0];
    }
    hide Canon, Items, NormItems, Norm;
    Reassoc([LBracket], Items(items, v), [RBracket], rest);
    if items == [] {
      assert inner == [RBracket] + rest && inner[1..] == rest;
    }
    DecodeOpen(inner);
  }

  lemma DecodeObject(fields: seq<Field>, v: Value, rest: seq<Token>)
    requires v == Object(fields) &&
      (forall i :: 0 <= i < |SortFields(fields)| ==> SortFields(fields)[i].Field? && SortFields(fields)[i].value < v)
    requires SortFields(fields) != [] ==>
      DecodeFields(Fields(SortFields(fields), v) + [RBrace] + rest) == Got(NormFields(SortFields(fields), v), rest)
    ensures Decode(Canon(v) + rest) == Got(Norm(v), rest)
  {
    hide Decode, DecodeItems, DecodeFields;
    var sorted := SortFields(fields);
    var inner := Fields(sorted, v) + [RBrace] + rest;
    assert Canon(v) == [LBrace] + Fields(sorted, v) + [RBrace];
    assert Norm(v) == Object(NormFields(sorted, v));
    hide SortFields;
    assert sorted == [] ==> Fields(sorted, v) == [] && NormFields(sorted, v) == [];
    if sorted != [] {
      FieldsSplit(sorted, v, rest);
      assert inner[0] == TText(sorted[0].key);
    }
    hide Canon, Fields, NormFields, Norm;
    Reassoc([LBrace], Fields(sorted, v), [RBrace], rest);
    if sorted == [] {
      assert inner == [RBrace] + rest && inner[1..] == rest;
    }
    DecodeOpen(inner);
  }

  lemma DecodeItemsStep(ts: seq<Token>, v: Value, rest: seq<Token>)
    requires Decode(ts) == Got(v, rest) && rest != []
    ensures rest[0] == RBracket ==> DecodeItems(ts) == Got([v], rest[1..])
    ensures rest[0] == Comma && DecodeItems(rest[1..]).Got? ==>
      DecodeItems(ts) == Got([v] + DecodeItems(rest[1..]).value, DecodeItems(rest[1..]).rest)
  {
  }

  lemma {:induction false} DecodeItemsCanon(items: seq<Value>, owner: Value, rest: seq<Token>)
    requires items != [] && forall i :: 0 <= i < |items| ==> items[i] < owner
    ensures DecodeItems(Items(items, owner) + [RBracket] + rest) == Got(NormItems(items, owner), rest)
    decreases owner, 1, |items|
  {
    hide Canon, Decode, DecodeItems, Norm, Items;
    var more := items[1..];
    assert NormItems(items, owner) == [Norm(items[0])] + NormItems(more, owner);
    assert |items| == 1 ==> NormItems(more, owner) == [] && NormItems(items, owner) == [Norm(items[0])];
    hide NormItems;
    ItemsSplit(items, owner, rest);
    var tail := Items(more, owner) + [RBracket] + rest;
    var after := if |items| == 1 then [RBracket] + rest else [Comma] + tail;
    DecodeCanon(items[0], after);
    DecodeItemsStep(Canon(items[0]) + after, Norm(items[0]), after);
    if |items| == 1 {
      assert after[1..] == rest;
    } else {
      assert after[1..] == tail;
      DecodeItemsCanon(more, owner, rest);
    }
  }

  lemma DecodeFieldsStep(key: string, ts: seq<Token>, v: Value, rest: seq<Token>)
    requires Decode(ts) == Got(v, rest) && rest != []
    ensures var all := [TText(key), Colon] + ts;
      && (rest[0] == RBrace ==> DecodeFields(all) == Got([Field(key, v)], rest[1..]))
      && (rest[0] == Comma && DecodeFields(rest[1..]).Got? ==>
            DecodeFields(all) == Got([Field(key, v)] + DecodeFields(rest[1..]).value, DecodeFields(rest[1..]).rest))
  {
    assert ([TText(key), Colon] + ts)[2..] == ts;
  }

  lemma {:induction false} DecodeFieldsCanon(fields: seq<Field>, owner: Value, rest: seq<Token>)
    requires fields != [] && forall i :: 0 <= i < |fields| ==> fields[i].Field? && fields[i].value < owner
    ensures DecodeFields(Fields(fields, owner) + [RBrace] + rest) == Got(NormFields(fields, owner), rest)
    decreases owner, 1, |fields|
  {
    hide Canon, Decode, DecodeFields, Norm, Fields;
    var more, f := fields[1..], fields[0];
    assert NormFields(fields, owner) == [Field(f.key, Norm(f.value))] + NormFields(more, owner);
    assert |fields| == 1 ==>
      NormFields(more, owner) == [] && NormFields(fields, owner) == [Field(f.key, Norm(f.value))];
    hide NormFields;
    FieldsSplit(fields, owner, rest);
    var tail := Fields(more, owner) + [RBrace] + rest;
    var after := if |fields| == 1 then [RBrace] + rest else [Comma] + tail;
    DecodeCanon(f.value, after);
    DecodeFieldsStep(f.key, Canon(f.value) + after, Norm(f.value), after);
    if |fields| == 1 {
      assert after[1..] == rest;
    } else {
      assert after[1..] == tail;
      DecodeFieldsCanon(more, owner, rest);
    }
  }

  // ---- only the normal form shows ----

  lemma {:induction false} SameNormSameCanon(v: Value, w: Value)
    requires Norm(v) == Norm(w)
    ensures Canon(v) == Canon(w)
    decreases v, 2
  {
    match v
    case Array(items) =>
      assert w.Array?;
      SameItems(items, v, w.items, w);
    case Object(fields) =>
      assert w.Object?;
      SortedBelow(fields, v);
      SortedBelow(w.fields, w);
      SameFields(SortFields(fields), v, SortFields(w.fields), w);
    case _ =>
  }

  lemma {:induction false} SameItems(a: seq<Value>, v: Value, b: seq<Value>, w: Value)
    requires (forall i :: 0 <= i < |a| ==> a[i] < v) && (forall i :: 0 <= i < |b| ==> b[i] < w)
    requires NormItems(a, v) == NormItems(b, w)
    ensures Items(a, v) == Items(b, w)
    decreases v, 1, |a|
  {
    assert |a| == |NormItems(a, v)| == |NormItems(b, w)| == |b|;
    if a != [] {
      var x, y := NormItems(a, v), NormItems(b, w);
      assert x[0] == Norm(a[0]) && y[0] == Norm(b[0]) && x[1..] == NormItems(a[1..], v) &&
        y[1..] == NormItems(b[1..], w);
      SameNormSameCanon(a[0], b[0]);
      SameItems(a[1..], v, b[1..], w);
    }
  }

  lemma {:induction false} SameFields(a: seq<Field>, v: Value, b: seq<Field>, w: Value)
    requires (forall i :: 0 <= i < |a| ==> a[i].Field? && a[i].value < v) &&
      (forall i :: 0 <= i < |b| ==> b[i].Field? && b[i].value < w)
    requires NormFields(a, v) == NormFields(b, w)
    ensures Fields(a, v) == Fields(b, w)
    decreases v, 1, |a|
  {
    assert |a| == |NormFields(a, v)| == |NormFields(b, w)| == |b|;
    if a != [] {
      var x, y := NormFields(a, v), NormFields(b, w);
      assert x[0] == Field(a[0].key, Norm(a[0].value)) && y[0] == Field(b[0].key, Norm(b[0].value));
      assert x[1..] == NormFields(a[1..], v) && y[1..] == NormFields(b[1..], w);
      SameNormSameCanon(a[0].value, b[0].value);
      SameFields(a[1..], v, b[1..], w);
    }
  }

  /** Two values have one canonical form exactly when they have one normal form. */
  lemma CanonIffNorm(v: Value, w: Value)
    ensures Canon(v) == Canon(w) <==> Norm(v) == Norm(w)
  {
    DecodeCanon(v, []);
    DecodeCanon(w, []);
    assert Canon(v) + [] == Canon(v) && Canon(w) + [] == Canon(w);
    if Norm(v) == Norm(w) { SameNormSameCanon(v, w); }
  }

  // ---- what the canonical form identifies ----

  /** The same value, whatever the order of an object's fields, undefined ones not counted. */
  ghost predicate Same(v: Value, w: Value)
    decreases v
  {
    match v
    case Array(items) => w.Array? && |items| == |w.items| && forall i :: 0 <= i < |items| ==> Same(items[i], w.items[i])
    case Object(fields) =>
      && w.Object?
      && (forall i :: 0 <= i < |fields| && fields[i].Field? ==> exists j ::
        0 <= j < |w.fields| && Twin(fields[i], w.fields[j]))
      && (forall j :: 0 <= j < |w.fields| && w.fields[j].Field? ==> HasKey(fields, w.fields[j].key))
    case _ => v == w
  }

  ghost predicate Twin(f: Field, g: Field)
    requires f.Field?
    decreases f
  {
    g.Field? && g.key == f.key && Same(f.value, g.value)
  }

  ghost predicate HasKey(fields: seq<Field>, key: string) {
    exists i :: 0 <= i < |fields| && fields[i].Field? && fields[i].key == key
  }

  ghost predicate KeysAscend(s: seq<Field>) {
    forall i, j :: 0 <= i < j < |s| ==> s[i].key != s[j].key && StringLe(s[i].key, s[j].key)
  }

  ghost predicate DistinctKeys(s: seq<Field>) { forall i, j :: 0 <= i < j < |s| ==> s[i].key != s[j].key }

  lemma {:induction false} InsertAscends(f: Field, s: seq<Field>)
    requires KeysAscend(s) && forall i :: 0 <= i < |s| ==> s[i].key != f.key
    ensures KeysAscend(InsertField(f, s))
  {
    if s == [] {
    } else if StringLe(f.key, s[0].key) {
      forall j | 0 <= j < |s| ensures StringLe(f.key, s[j].key) {
        if j > 0 { StringLeTransitive(f.key, s[0].key, s[j].key); }
      }
    } else {
      StringLeTotal(f.key, s[0].key);
      var rest := InsertField(f, s[1..]);
      InsertAscends(f, s[1..]);
      forall j | 0 <= j < |rest| ensures s[0].key != rest[j].key && StringLe(s[0].key, rest[j].key) {
        assert rest[j] in rest;
        if rest[j] != f { var k :| 1 <= k < |s| && s[k] == rest[j]; }
      }
    }
  }

  lemma {:induction false} SortAscends(s: seq<Field>)
    requires DistinctKeys(s)
    ensures KeysAscend(SortFields(s))
  {
    if s != [] {
      SortAscends(s[1..]);
      if Defined(s[0]) {
        var t := SortFields(s[1..]);
        forall i | 0 <= i < |t| ensures t[i].key != s[0].key {
          assert t[i] in t;
          var k :| 1 <= k < |s| && s[k] == t[i];
        }
        InsertAscends(s[0], t);
      }
    }
  }

  function KeySeq(s: seq<Field>): (r: seq<string>)
    ensures |r| == |s| && forall i :: 0 <= i < |s| ==> r[i] == s[i].key
  {
    seq(|s|, i requires 0 <= i < |s| => s[i].key)
  }

  ghost predicate Ascending(a: seq<string>) { forall i, j :: 0 <= i < j < |a| ==> a[i] != a[j] && StringLe(a[i], a[j]) }

  lemma NonEmptyHolds(b: seq<string>)
    ensures b != [] ==> exists x :: x in b
  {
    if b != [] { assert b[0] in b; }
  }

  lemma {:induction false} AscendingUnique(a: seq<string>, b: seq<string>)
    requires Ascending(a) && Ascending(b) && (forall x :: x in a <==> x in b)
    ensures a == b
  {
    if a == [] {
      NonEmptyHolds(b);
    } else {
      assert a[0] in b && b != [];
      assert b[0] in a;
      StringLeTotal(a[0], b[0]);
      assert a[0] == b[0];
      forall x ensures x in a[1..] <==> x in b[1..] {
        assert x in a <==> x == a[0] || x in a[1..];
        assert x in b <==> x == b[0] || x in b[1..];
        assert a[0] !in a[1..] && b[0] !in b[1..];
      }
      AscendingUnique(a[1..], b[1..]);
    }
  }

  lemma {:induction false} NormItemsAt(items: seq<Value>, owner: Value, i: nat)
    requires (forall k :: 0 <= k < |items| ==> items[k] < owner) && i < |items|
    ensures NormItems(items, owner)[i] == Norm(items[i])
  {
    if i > 0 { NormItemsAt(items[1..], owner, i - 1); }
  }

  lemma {:induction false} NormFieldsAt(fields: seq<Field>, owner: Value, i: nat)
    requires (forall k :: 0 <= k < |fields| ==> fields[k].Field? && fields[k].value < owner) && i < |fields|
    ensures NormFields(fields, owner)[i] == Field(fields[i].key, Norm(fields[i].value))
  {
    if i > 0 { NormFieldsAt(fields[1..], owner, i - 1); }
  }

  lemma {:induction false} NormIffSame(v: Value, w: Value)
    requires Plain(v) && Plain(w)
    ensures Norm(v) == Norm(w) <==> Same(v, w)
    decreases v
  {
    match v
    case Array(items) =>
      if w.Array? && |items| == |w.items| {
        var x, y := NormItems(items, v), NormItems(w.items, w);
        forall i | 0 <= i < |items| ensures x[i] == y[i] <==> Same(items[i], w.items[i]) {
          NormItemsAt(items, v, i);
          NormItemsAt(w.items, w, i);
          NormIffSame(items[i], w.items[i]);
        }
        assert x == y <==> forall i :: 0 <= i < |items| ==> x[i] == y[i];
      } else if w.Array? {
        assert |NormItems(items, v)| != |NormItems(w.items, w)|;
      }
    case Object(fields) =>
      if w.Object? {
        forall f, g | f in fields && g in w.fields && f.Field? && g.Field?
          ensures Norm(f.value) == Norm(g.value) <==> Same(f.value, g.value)
        {
          var i :| 0 <= i < |fields| && fields[i] == f;
          var j :| 0 <= j < |w.fields| && w.fields[j] == g;
          assert PlainField(fields[i]) && PlainField(w.fields[j]);
          NormIffSame(f.value, g.value);
        }
        if Norm(v) == Norm(w) { NormGivesSame(v, w); }
        if Same(v, w) { SameGivesNorm(v, w); }
      }
    case _ =>
  }

  /** Norm and Same agree on the fields' values. */
  ghost predicate ValuesAgree(v: Value, w: Value)
    requires v.Object? && w.Object?
  {
    forall f, g | f in v.fields && g in w.fields && f.Field? && g.Field? :: Norm(f.value) == Norm(g.value) <==>
      Same(f.value, g.value)
  }

  /** Sorted fields of equal normal forms line up: same keys, same normal values. */
  ghost predicate LinedUp(s: seq<Field>, t: seq<Field>) {
    |s| == |t| && forall i :: 0 <= i < |s| ==>
      s[i].Field? && t[i].Field? && s[i].key == t[i].key && Norm(s[i].value) == Norm(t[i].value)
  }

  lemma NormLinesUp(v: Value, w: Value)
    requires v.Object? && w.Object? && Norm(v) == Norm(w)
    ensures LinedUp(SortFields(v.fields), SortFields(w.fields))
  {
    var s, t := SortFields(v.fields), SortFields(w.fields);
    SortedBelow(v.fields, v);
    SortedBelow(w.fields, w);
    assert NormFields(s, v) == NormFields(t, w);
    assert |s| == |NormFields(s, v)| == |NormFields(t, w)| == |t|;
    forall i | 0 <= i < |s| ensures s[i].key == t[i].key && Norm(s[i].value) == Norm(t[i].value) {
      NormFieldsAt(s, v, i);
      NormFieldsAt(t, w, i);
    }
  }

  lemma NormGivesTwin(v: Value, w: Value, i: nat)
    requires v.Object? && w.Object? && ValuesAgree(v, w) && Norm(v) == Norm(w) && i < |v.fields| && v.fields[i].Field?
    ensures exists j :: 0 <= j < |w.fields| && Twin(v.fields[i], w.fields[j])
  {
    var s, t := SortFields(v.fields), SortFields(w.fields);
    NormLinesUp(v, w);
    hide Norm, SortFields;
    assert v.fields[i] in s;
    var k :| 0 <= k < |s| && s[k] == v.fields[i];
    assert t[k] in t;
    var j :| 0 <= j < |w.fields| && w.fields[j] == t[k];
    assert v.fields[i] in v.fields && w.fields[j] in w.fields;
    assert Twin(v.fields[i], w.fields[j]);
  }

  lemma NormGivesSame(v: Value, w: Value)
    requires v.Object? && w.Object? && ValuesAgree(v, w) && Norm(v) == Norm(w)
    ensures Same(v, w)
  {
    var s, t := SortFields(v.fields), SortFields(w.fields);
    NormLinesUp(v, w);
    hide Norm, SortFields, Twin;
    forall i | 0 <= i < |v.fields| && v.fields[i].Field?
      ensures exists j :: 0 <= j < |w.fields| && Twin(v.fields[i], w.fields[j])
    {
      NormGivesTwin(v, w, i);
    }
    forall j | 0 <= j < |w.fields| && w.fields[j].Field? ensures HasKey(v.fields, w.fields[j].key) {
      assert w.fields[j] in t;
      var k :| 0 <= k < |t| && t[k] == w.fields[j];
      assert s[k] in s;
      var i :| 0 <= i < |v.fields| && v.fields[i] == s[k];
      assert v.fields[i].key == w.fields[j].key;
    }
  }

  lemma KeyForward(v: Value, w: Value, x: string)
    requires v.Object? && w.Object? && Same(v, w) && x in KeySeq(SortFields(v.fields))
    ensures x in KeySeq(SortFields(w.fields))
  {
    var s, t := SortFields(v.fields), SortFields(w.fields);
    hide SortFields;
    var k :| 0 <= k < |s| && KeySeq(s)[k] == x;
    assert s[k] in s;
    var i :| 0 <= i < |v.fields| && v.fields[i] == s[k];
    var j :| 0 <= j < |w.fields| && Twin(v.fields[i], w.fields[j]);
    assert w.fields[j] in t;
    var m :| 0 <= m < |t| && t[m] == w.fields[j];
    assert KeySeq(t)[m] == x;
  }

  lemma KeyBack(v: Value, w: Value, x: string)
    requires v.Object? && w.Object? && Same(v, w) && x in KeySeq(SortFields(w.fields))
    ensures x in KeySeq(SortFields(v.fields))
  {
    var s, t := SortFields(v.fields), SortFields(w.fields);
    hide SortFields, Twin;
    var m :| 0 <= m < |t| && KeySeq(t)[m] == x;
    assert t[m] in t;
    var j :| 0 <= j < |w.fields| && w.fields[j] == t[m];
    assert HasKey(v.fields, w.fields[j].key);
    var i :| 0 <= i < |v.fields| && v.fields[i].Field? && v.fields[i].key == x;
    assert v.fields[i] in s;
    var k :| 0 <= k < |s| && s[k] == v.fields[i];
    assert KeySeq(s)[k] == x;
  }

  lemma SameKeySets(v: Value, w: Value)
    requires v.Object? && w.Object? && Same(v, w)
    ensures forall x :: x in KeySeq(SortFields(v.fields)) <==> x in KeySeq(SortFields(w.fields))
  {
    hide SortFields, Same;
    forall x | x in KeySeq(SortFields(v.fields)) ensures x in KeySeq(SortFields(w.fields)) { KeyForward(v, w, x); }
    forall x | x in KeySeq(SortFields(w.fields)) ensures x in KeySeq(SortFields(v.fields)) { KeyBack(v, w, x); }
  }

  lemma NormOfObject(v: Value)
    requires v.Object? && Plain(v)
    ensures Ascending(KeySeq(SortFields(v.fields)))
    ensures forall i :: 0 <= i < |SortFields(v.fields)| ==>
      SortFields(v.fields)[i].Field? && SortFields(v.fields)[i].value < v
    ensures Norm(v) == Object(NormFields(SortFields(v.fields), v))
  {
    SortedBelow(v.fields, v);
    SortAscends(v.fields);
    hide SortFields, StringLe;
  }

  lemma SameGivesNorm(v: Value, w: Value)
    requires v.Object? && w.Object? && Plain(v) && Plain(w) && ValuesAgree(v, w) && Same(v, w)
    ensures Norm(v) == Norm(w)
  {
    hide Norm, SortFields, NormFields, StringLe, Same, Plain, ValuesAgree;
    var s, t := SortFields(v.fields), SortFields(w.fields);
    NormOfObject(v);
    NormOfObject(w);
    SameKeySets(v, w);
    AscendingUnique(KeySeq(s), KeySeq(t));
    assert |s| == |KeySeq(s)| == |KeySeq(t)| == |t|;
    forall k | 0 <= k < |s| ensures NormFields(s, v)[k] == NormFields(t, w)[k] {
      assert KeySeq(s)[k] == KeySeq(t)[k];
      TwinsAlign(v, w, k);
      NormFieldsAt(s, v, k);
      NormFieldsAt(t, w, k);
    }
  }

  lemma TwinsAlign(v: Value, w: Value, k: nat)
    requires v.Object? && w.Object? && k < |SortFields(v.fields)| && k < |SortFields(w.fields)|
    ensures var s, t := SortFields(v.fields), SortFields(w.fields);
      Plain(w) && ValuesAgree(v, w) && Same(v, w) && s[k].key == t[k].key ==>
        s[k].Field? && t[k].Field? && Norm(s[k].value) == Norm(t[k].value)
  {
    var s, t := SortFields(v.fields), SortFields(w.fields);
    if Plain(w) && ValuesAgree(v, w) && Same(v, w) && s[k].key == t[k].key {
      hide SortFields, Norm;
      assert s[k] in s && t[k] in t;
      var i :| 0 <= i < |v.fields| && v.fields[i] == s[k];
      var j :| 0 <= j < |w.fields| && Twin(v.fields[i], w.fields[j]);
      var m :| 0 <= m < |w.fields| && w.fields[m] == t[k];
      assert j == m;
      assert s[k] in v.fields && t[k] in w.fields;
    }
  }

  /** Canonical JSON is a faithful key: two plain values get the same text if and only if they are the same, field
      order and undefined fields aside. */
  lemma CanonIsFaithful(v: Value, w: Value)
    requires Plain(v) && Plain(w)
    ensures Canon(v) == Canon(w) <==> Same(v, w)
  {
    CanonIffNorm(v, w);
    NormIffSame(v, w);
  }

  // ---- the order of the keys ----

  /** `a` sorts before `b` by code units: they agree up to some place, where `a` ends or has the smaller unit. */
  ghost predicate Precedes(a: string, b: string) { exists k :: DepartsAt(a, b, k) }

  ghost predicate DepartsAt(a: string, b: string, k: nat) {
    k <= |a| && k < |b| && a[..k] == b[..k] && (k == |a| || a[k] < b[k])
  }

  lemma HeadsDecide(a: string, b: string, k: nat)
    requires DepartsAt(a, b, k) && a != ""
    ensures b != "" && a[0] <= b[0]
  {
    if k > 0 { assert a[0] == a[..k][0] == b[..k][0] == b[0]; }
  }

  lemma {:induction false} StringLeMeans(a: string, b: string)
    ensures StringLe(a, b) <==> a == b || Precedes(a, b)
  {
    if a == "" {
      if b != "" { assert DepartsAt(a, b, 0); }
    } else if b != "" && a[0] < b[0] {
      assert DepartsAt(a, b, 0);
    } else if b != "" && a[0] == b[0] {
      assert a == [a[0]] + a[1..] && b == [b[0]] + b[1..];
      StringLeMeans(a[1..], b[1..]);
      if Precedes(a[1..], b[1..]) {
        var k: nat :| DepartsAt(a[1..], b[1..], k);
        assert a[..k + 1] == [a[0]] + a[1..][..k] && b[..k + 1] == [b[0]] + b[1..][..k];
        assert DepartsAt(a, b, k + 1);
      }
      if Precedes(a, b) {
        var k: nat :| DepartsAt(a, b, k);
        assert k > 0;
        assert a[1..][..k - 1] == a[..k][1..] && b[1..][..k - 1] == b[..k][1..];
        assert DepartsAt(a[1..], b[1..], k - 1);
      }
    } else if Precedes(a, b) {
      var k: nat :| DepartsAt(a, b, k);
      HeadsDecide(a, b, k);
    }
  }

  /** At every depth an object's keys stand in order, each once, and every field is defined. */
  ghost predicate Ordered(v: Value) {
    match v
    case Array(items) => forall i :: 0 <= i < |items| ==> Ordered(items[i])
    case Object(fields) =>
      (forall i, j :: 0 <= i < j < |fields| ==> Precedes(fields[i].key, fields[j].key)) &&
      forall i :: 0 <= i < |fields| ==> OrderedField(fields[i])
    case _ => true
  }

  ghost predicate OrderedField(f: Field) { f.Field? && Ordered(f.value) }

  lemma {:induction false} NormIsOrdered(v: Value)
    requires Plain(v)
    ensures Ordered(Norm(v))
    decreases v
  {
    match v
    case Array(items) =>
      forall i | 0 <= i < |items| ensures Ordered(NormItems(items, v)[i]) {
        NormItemsAt(items, v, i);
        NormIsOrdered(items[i]);
      }
    case Object(fields) =>
      var s := SortFields(fields);
      SortedBelow(fields, v);
      SortAscends(fields);
      var r := NormFields(s, v);
      forall i | 0 <= i < |r| ensures r[i].key == s[i].key && OrderedField(r[i]) {
        NormFieldsAt(s, v, i);
        assert s[i] in s;
        var k :| 0 <= k < |fields| && fields[k] == s[i];
        assert PlainField(fields[k]);
        NormIsOrdered(s[i].value);
      }
      forall i, j | 0 <= i < j < |r| ensures Precedes(r[i].key, r[j].key) {
        StringLeMeans(s[i].key, s[j].key);
      }
    case _ =>
  }

  /** What is written reads back with the keys of every object in ascending code-unit order. */
  lemma CanonIsOrdered(v: Value)
    requires Plain(v)
    ensures Decode(Canon(v)).Got? && Decode(Canon(v)).rest == [] && Ordered(Decode(Canon(v)).value)
  {
    DecodeCanon(v, []);
    assert Canon(v) + [] == Canon(v);
    NormIsOrdered(v);
  }
}

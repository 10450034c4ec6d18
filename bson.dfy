/**
 * A small model of BSON as the merge engine and the builders use it: the
 * value union, documents as association lists whose `Insert` replaces a
 * value in place or appends a new key (the behaviour of an insertion-ordered
 * map), and the structural equality that BSON values compare with.
 */
module Bson {
  import opened Wrappers

  newtype i32 = x: int | -0x8000_0000 <= x < 0x8000_0000
  newtype i64 = x: int | -0x8000_0000_0000_0000 <= x < 0x8000_0000_0000_0000

  /** Two's-complement wrap-around into 32 bits, what `+` and `*` on `i32` do in a release build. */
  function Wrap32(x: int): (r: i32)
    ensures -0x8000_0000 <= x < 0x8000_0000 ==> r as int == x
  {
    ((x + 0x8000_0000) % 0x1_0000_0000 - 0x8000_0000) as i32
  }

  /** Two's-complement wrap-around into 64 bits. */
  function Wrap64(x: int): (r: i64)
    ensures -0x8000_0000_0000_0000 <= x < 0x8000_0000_0000_0000 ==> r as int == x
  {
    ((x + 0x8000_0000_0000_0000) % 0x1_0000_0000_0000_0000 - 0x8000_0000_0000_0000) as i64
  }

  /** Wrapping keeps the value modulo 2^32. */
  lemma Wrap32Congruent(x: int)
    ensures (x - Wrap32(x) as int) % 0x1_0000_0000 == 0
  {
  }

  /** Wrapping keeps the value modulo 2^64. */
  lemma Wrap64Congruent(x: int)
    ensures (x - Wrap64(x) as int) % 0x1_0000_0000_0000_0000 == 0
  {
  }

  /** An IEEE double, abstracted to its exact real value or NaN. */
  datatype Float = Finite(r: real) | NaN

  function FloatAdd(x: Float, y: Float): Float {
    if x.Finite? && y.Finite? then Finite(x.r + y.r) else NaN
  }

  function FloatMul(x: Float, y: Float): Float {
    if x.Finite? && y.Finite? then Finite(x.r * y.r) else NaN
  }

  /** `==` on doubles: NaN is equal to nothing, itself included. */
  predicate FloatEq(x: Float, y: Float) {
    x.Finite? && y.Finite? && x.r == y.r
  }

  datatype Value =
    | Int32(i: i32)
    | Int64(l: i64)
    | Double(d: Float)
    | Str(s: string)
    | Bool(b: bool)
    | Null
    | Arr(items: seq<Value>)
    | Doc(fields: seq<Field>)

  datatype Field = Field(key: string, val: Value)

  /** A document: its fields in insertion order. */
  type Document = seq<Field>

  /** The value stored under `k`, as `Document::get` returns it. */
  function Lookup(d: Document, k: string): Option<Value> {
    if d == [] then None
    else if d[0].key == k then Some(d[0].val)
    else Lookup(d[1..], k)
  }

  predicate HasKey(d: Document, k: string) {
    Lookup(d, k).Some?
  }

  predicate UniqueKeys(d: Document) {
    forall i, j :: 0 <= i < j < |d| ==> d[i].key != d[j].key
  }

  function KeySet(d: Document): set<string> {
    set i | 0 <= i < |d| :: d[i].key
  }

  /**
   * `Document::insert`: an existing key keeps its position and takes the new
   * value; a new key is appended at the end.
   */
  function Insert(d: Document, k: string, v: Value): (r: Document)
    ensures |r| == if HasKey(d, k) then |d| else |d| + 1
    ensures forall i :: 0 <= i < |d| ==> r[i].key == d[i].key
    ensures !HasKey(d, k) ==> r[|d|] == Field(k, v)
    ensures forall k' :: Lookup(r, k') == if k' == k then Some(v) else Lookup(d, k')
    ensures UniqueKeys(d) ==> UniqueKeys(r)
  {
    if d == [] then [Field(k, v)]
    else if d[0].key == k then
      var r := [Field(k, v)] + d[1..];
      LookupCons(r);
      LookupCons(d);
      r
    else
      var rest := Insert(d[1..], k, v);
      var r := [d[0]] + rest;
      LookupCons(r);
      LookupCons(d);
      InsertKeepsHead(d, k, v, rest, r);
      r
  }

  /** Looking a key up in a non-empty document: the head field, else the rest. */
  lemma LookupCons(d: Document)
    requires d != []
    ensures forall k :: Lookup(d, k) == if d[0].key == k then Some(d[0].val) else Lookup(d[1..], k)
  {
  }

  lemma InsertKeepsHead(d: Document, k: string, v: Value, rest: Document, r: Document)
    requires d != [] && d[0].key != k && r == [d[0]] + rest
    requires |rest| == if HasKey(d[1..], k) then |d| - 1 else |d|
    requires forall i :: 0 <= i < |d| - 1 ==> rest[i].key == d[1..][i].key
    requires !HasKey(d[1..], k) ==> rest[|d| - 1] == Field(k, v)
    requires UniqueKeys(d[1..]) ==> UniqueKeys(rest)
    ensures UniqueKeys(d) ==> UniqueKeys(r)
  {
    if UniqueKeys(d) {
      assert UniqueKeys(d[1..]);
      forall j | 0 < j < |r| ensures r[j].key != d[0].key {
        if j - 1 < |d| - 1 {
          assert r[j].key == d[1..][j - 1].key == d[j].key;
        }
      }
    }
  }

  lemma {:induction false} LookupAt(d: Document, i: nat)
    requires UniqueKeys(d) && i < |d|
    ensures Lookup(d, d[i].key) == Some(d[i].val)
  {
    if i > 0 {
      assert d[0].key != d[i].key;
      assert d[1..][i - 1] == d[i];
      LookupAt(d[1..], i - 1);
    }
  }

  /** Where a key that is present sits: the first field carrying it. */
  lemma {:induction false} LookupFound(d: Document, k: string) returns (j: nat)
    requires HasKey(d, k)
    ensures j < |d| && d[j].key == k && d[j].val == Lookup(d, k).value
    ensures forall i :: 0 <= i < j ==> d[i].key != k
  {
    if d[0].key == k {
      j := 0;
    } else {
      var j' := LookupFound(d[1..], k);
      j := j' + 1;
      forall i | 0 <= i < j ensures d[i].key != k {
        if i > 0 { assert d[i] == d[1..][i - 1]; }
      }
    }
  }

  lemma {:induction false} HasKeyIffInKeySet(d: Document, k: string)
    ensures HasKey(d, k) <==> k in KeySet(d)
  {
    if HasKey(d, k) {
      var j := LookupFound(d, k);
    }
    if k in KeySet(d) {
      var i :| 0 <= i < |d| && d[i].key == k;
      if !HasKey(d, k) {
        AbsentKey(d, k, i);
      }
    }
  }

  lemma {:induction false} AbsentKey(d: Document, k: string, i: nat)
    requires !HasKey(d, k) && i < |d|
    ensures d[i].key != k
  {
    if i > 0 {
      assert d[1..][i - 1] == d[i];
      AbsentKey(d[1..], k, i - 1);
    }
  }

  /** Distinct keys: as many keys as fields. */
  lemma {:induction false} KeySetSize(d: Document)
    requires UniqueKeys(d)
    ensures |KeySet(d)| == |d|
  {
    if d != [] {
      var rest := d[1..];
      KeySetSize(rest);
      assert KeySet(d) == {d[0].key} + KeySet(rest) by {
        forall k | k in KeySet(d) ensures k in {d[0].key} + KeySet(rest) {
          var i :| 0 <= i < |d| && d[i].key == k;
          if i > 0 { assert rest[i - 1] == d[i]; }
        }
        forall k | k in KeySet(rest) ensures k in KeySet(d) {
          var i :| 0 <= i < |rest| && rest[i].key == k;
          assert d[i + 1] == rest[i];
        }
      }
      forall i | 0 <= i < |rest| ensures rest[i].key != d[0].key {
        assert rest[i] == d[i + 1];
      }
      assert d[0].key !in KeySet(rest);
    }
  }

  lemma {:induction false} SubsetSize<X>(a: set<X>, b: set<X>)
    requires a <= b
    ensures |a| <= |b|
    decreases a
  {
    if a != {} {
      var y :| y in a;
      SubsetSize(a - {y}, b - {y});
    }
  }

  lemma SubsetOfSameSize<X>(a: set<X>, b: set<X>)
    requires a <= b && |a| == |b|
    ensures a == b
  {
    if a != b {
      var x :| x in b && x !in a;
      SubsetSize(a, b - {x});
    }
  }

  // ---------------------------------------------------------------------
  // Structural equality
  // ---------------------------------------------------------------------

  /**
   * `==` on BSON values: same variant and equal contents; arrays compare
   * element by element; documents compare as `documents_equal` does
   * (same number of fields, and every field of the first found in the
   * second with an equal value), so field order does not matter.
   */
  predicate BsonEq(a: Value, b: Value)
    decreases a
  {
    match (a, b)
    case (Int32(x), Int32(y)) => x == y
    case (Int64(x), Int64(y)) => x == y
    case (Double(x), Double(y)) => FloatEq(x, y)
    case (Str(x), Str(y)) => x == y
    case (Bool(x), Bool(y)) => x == y
    case (Null, Null) => true
    case (Arr(xs), Arr(ys)) =>
      |xs| == |ys| && forall i :: 0 <= i < |xs| ==> BsonEq(xs[i], ys[i])
    case (Doc(d1), Doc(d2)) => DocEq(d1, d2)
    case _ => false
  }

  predicate DocEq(d1: Document, d2: Document)
    decreases d1
  {
    && |d1| == |d2|
    && forall i :: 0 <= i < |d1| ==>
         Lookup(d2, d1[i].key).Some? && BsonEq(d1[i].val, Lookup(d2, d1[i].key).value)
  }

  /** Every document inside the value, at any depth, has unique keys. */
  predicate WfValue(v: Value) {
    match v
    case Arr(xs) => forall i :: 0 <= i < |xs| ==> WfValue(xs[i])
    case Doc(d) => UniqueKeys(d) && forall i :: 0 <= i < |d| ==> WfValue(d[i].val)
    case _ => true
  }

  predicate WfDoc(d: Document) {
    WfValue(Doc(d))
  }

  /** No NaN anywhere inside the value. */
  predicate NoNaN(v: Value) {
    match v
    case Double(x) => x.Finite?
    case Arr(xs) => forall i :: 0 <= i < |xs| ==> NoNaN(xs[i])
    case Doc(d) => forall i :: 0 <= i < |d| ==> NoNaN(d[i].val)
    case _ => true
  }

  lemma {:induction false} BsonEqReflexive(a: Value)
    requires WfValue(a) && NoNaN(a)
    ensures BsonEq(a, a)
    decreases a
  {
    match a
    case Arr(xs) =>
      forall i | 0 <= i < |xs| ensures BsonEq(xs[i], xs[i]) {
        BsonEqReflexive(xs[i]);
      }
    case Doc(d) =>
      forall i | 0 <= i < |d|
        ensures Lookup(d, d[i].key).Some? && BsonEq(d[i].val, Lookup(d, d[i].key).value)
      {
        LookupAt(d, i);
        BsonEqReflexive(d[i].val);
      }
    case _ =>
  }

  lemma {:induction false} BsonEqSymmetric(a: Value, b: Value)
    requires WfValue(a) && WfValue(b) && BsonEq(a, b)
    ensures BsonEq(b, a)
    decreases a
  {
    match (a, b)
    case (Arr(xs), Arr(ys)) =>
      forall i | 0 <= i < |ys| ensures BsonEq(ys[i], xs[i]) {
        BsonEqSymmetric(xs[i], ys[i]);
      }
    case (Doc(d1), Doc(d2)) =>
      KeySetSize(d1);
      KeySetSize(d2);
      assert KeySet(d1) <= KeySet(d2) by {
        forall k | k in KeySet(d1) ensures k in KeySet(d2) {
          var i :| 0 <= i < |d1| && d1[i].key == k;
          HasKeyIffInKeySet(d2, k);
        }
      }
      SubsetOfSameSize(KeySet(d1), KeySet(d2));
      forall j | 0 <= j < |d2|
        ensures Lookup(d1, d2[j].key).Some? && BsonEq(d2[j].val, Lookup(d1, d2[j].key).value)
      {
        var k := d2[j].key;
        assert k in KeySet(d1);
        var i :| 0 <= i < |d1| && d1[i].key == k;
        LookupAt(d1, i);
        LookupAt(d2, j);
        BsonEqSymmetric(d1[i].val, d2[j].val);
      }
    case _ =>
  }

  lemma {:induction false} BsonEqTransitive(a: Value, b: Value, c: Value)
    requires BsonEq(a, b) && BsonEq(b, c)
    ensures BsonEq(a, c)
    decreases a
  {
    match (a, b, c)
    case (Arr(xs), Arr(ys), Arr(zs)) =>
      forall i | 0 <= i < |xs| ensures BsonEq(xs[i], zs[i]) {
        BsonEqTransitive(xs[i], ys[i], zs[i]);
      }
    case (Doc(d1), Doc(d2), Doc(d3)) =>
      forall i | 0 <= i < |d1|
        ensures Lookup(d3, d1[i].key).Some? && BsonEq(d1[i].val, Lookup(d3, d1[i].key).value)
      {
        var j := LookupFound(d2, d1[i].key);
        BsonEqTransitive(d1[i].val, d2[j].val, Lookup(d3, d2[j].key).value);
      }
    case _ =>
  }

  /** `documents_equal` is symmetric on well-formed documents. */
  lemma DocEqSymmetric(d1: Document, d2: Document)
    requires WfDoc(d1) && WfDoc(d2) && DocEq(d1, d2)
    ensures DocEq(d2, d1)
  {
    BsonEqSymmetric(Doc(d1), Doc(d2));
  }

  /** `documents_equal` is transitive. */
  lemma DocEqTransitive(d1: Document, d2: Document, d3: Document)
    requires DocEq(d1, d2) && DocEq(d2, d3)
    ensures DocEq(d1, d3)
  {
    BsonEqTransitive(Doc(d1), Doc(d2), Doc(d3));
  }

  /** Equal documents have the same key set. */
  lemma DocEqSameKeys(d1: Document, d2: Document)
    requires WfDoc(d1) && WfDoc(d2) && DocEq(d1, d2)
    ensures KeySet(d1) == KeySet(d2)
  {
    KeySetSize(d1);
    KeySetSize(d2);
    assert KeySet(d1) <= KeySet(d2) by {
      forall k | k in KeySet(d1) ensures k in KeySet(d2) {
        var i :| 0 <= i < |d1| && d1[i].key == k;
        HasKeyIffInKeySet(d2, k);
      }
    }
    SubsetOfSameSize(KeySet(d1), KeySet(d2));
  }

  /** Whether `s` holds an element `==` to `x`, as `Vec::contains` decides. */
  predicate Contains(s: seq<Value>, x: Value) {
    exists i :: 0 <= i < |s| && BsonEq(s[i], x)
  }

  // ---------------------------------------------------------------------
  // Folding entries into a document
  // ---------------------------------------------------------------------

  /** The value of the last field of `fs` whose key is `k`. */
  predicate LastWithKey(fs: seq<Field>, i: int) {
    0 <= i < |fs| && forall j :: i < j < |fs| ==> fs[j].key != fs[i].key
  }

  /** The document obtained by inserting the fields of `fs` in turn into an empty document. */
  function Overlay(fs: seq<Field>): Document
  {
    if fs == [] then []
    else
      var n := |fs| - 1;
      Insert(Overlay(fs[..n]), fs[n].key, fs[n].val)
  }

  /** Overlaying one more field inserts it into the overlay of the fields before it. */
  lemma OverlaySnoc(fs: seq<Field>, f: Field)
    ensures Overlay(fs + [f]) == Insert(Overlay(fs), f.key, f.val)
  {
    assert (fs + [f])[..|fs|] == fs;
  }

  /** Overlaying yields a document with one entry per key. */
  lemma {:induction false} OverlayUnique(fs: seq<Field>)
    ensures UniqueKeys(Overlay(fs))
  {
    if fs != [] {
      OverlayUnique(fs[..|fs| - 1]);
    }
  }

  /** The keys of `fs`, in order. */
  function FieldKeys(fs: seq<Field>): (r: seq<string>)
    ensures |r| == |fs| && forall i :: 0 <= i < |fs| ==> r[i] == fs[i].key
  {
    if fs == [] then [] else FieldKeys(fs[..|fs| - 1]) + [fs[|fs| - 1].key]
  }

  /** Overlaying holds exactly the keys of `fs`. */
  lemma {:induction false} OverlayKeys(fs: seq<Field>, k: string)
    ensures HasKey(Overlay(fs), k) <==> k in FieldKeys(fs)
  {
    if fs != [] {
      var n := |fs| - 1;
      OverlayKeys(fs[..n], k);
      assert FieldKeys(fs) == FieldKeys(fs[..n]) + [fs[n].key];
    }
  }

  /** Looking a key up in an overlay: the last field if it carries the key, else the overlay before it. */
  lemma OverlayLookupLast(fs: seq<Field>, k: string)
    requires fs != []
    ensures Lookup(Overlay(fs), k) ==
      if fs[|fs| - 1].key == k then Some(fs[|fs| - 1].val) else Lookup(Overlay(fs[..|fs| - 1]), k)
  {
  }

  /** For each key, overlaying keeps the value of the last field that carries it. */
  lemma {:induction false} OverlayLastWins(fs: seq<Field>, i: int)
    requires LastWithKey(fs, i)
    ensures Lookup(Overlay(fs), fs[i].key) == Some(fs[i].val)
  {
    var n := |fs| - 1;
    var pre := fs[..n];
    var k := fs[i].key;
    OverlayLookupLast(fs, k);
    if i < n {
      assert pre[i] == fs[i];
      assert LastWithKey(pre, i) by {
        forall j | i < j < |pre| ensures pre[j].key != k {
          assert pre[j] == fs[j];
        }
      }
      OverlayLastWins(pre, i);
    }
  }

  /**
   * The entries of `d` other than `skip` inserted in turn into `acc`: keys
   * of `d` take `d`'s value, every other key keeps `acc`'s.
   */
  function InsertAllExcept(acc: Document, d: Document, skip: string): (r: Document)
    ensures UniqueKeys(d) ==> forall k :: Lookup(r, k) == if k != skip && HasKey(d, k) then Lookup(d, k) else Lookup(acc, k)
    ensures UniqueKeys(acc) ==> UniqueKeys(r)
    decreases d
  {
    if d == [] then acc
    else
      var acc' := if d[0].key == skip then acc else Insert(acc, d[0].key, d[0].val);
      LookupCons(d);
      assert UniqueKeys(d) ==> forall k :: HasKey(d[1..], k) ==> k != d[0].key by {
        if UniqueKeys(d) { TailKeysDiffer(d); }
      }
      InsertAllExcept(acc', d[1..], skip)
  }

  /** Keys after the head of a document with unique keys differ from the head key. */
  lemma TailKeysDiffer(d: Document)
    requires d != [] && UniqueKeys(d)
    ensures forall k :: HasKey(d[1..], k) ==> k != d[0].key
  {
    forall k | HasKey(d[1..], k) ensures k != d[0].key {
      var j := LookupFound(d[1..], k);
      assert d[1..][j] == d[j + 1];
    }
  }
}

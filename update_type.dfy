/**
 * The modifier merge engine of the bulk-write builder: the seventeen update
 * operators, the per-operator rule that folds a later modifier into an
 * earlier one of the same operator, and the operator document each modifier
 * turns into.
 */
module UpdateTypes {
  import opened Wrappers
  import opened Bson

  datatype Op =
    | Set | Unset | SetOnInsert | Push | PushEach | Pull | PullAll | Pop
    | AddToSet | AddToSetEach | Inc | Mul | Min | Max | Rename | CurrentDate | Bit

  /** One update modifier: its operator variant and the payload document it wraps. */
  datatype Modifier = Modifier(op: Op, payload: Document)

  datatype Ordering = Less | Equal | Greater

  /** The number a numeric BSON value denotes (NaN denotes none). */
  function Numeric(v: Value): Option<real> {
    match v
    case Int32(x) => Some(x as real)
    case Int64(x) => Some(x as real)
    case Double(Finite(x)) => Some(x)
    case _ => None
  }

  predicate SameNumericKind(v1: Value, v2: Value) {
    (v1.Int32? && v2.Int32?) || (v1.Int64? && v2.Int64?) || (v1.Double? && v2.Double?)
  }

  function OrderOf(x: real, y: real): Ordering {
    if x < y then Less else if x == y then Equal else Greater
  }

  /**
   * `compare_bson_values`: an ordering only between two Int32, two Int64 or
   * two non-NaN Double values, and then the ordering of the numbers.
   */
  function CompareValues(v1: Value, v2: Value): (r: Option<Ordering>)
    ensures r.Some? <==> SameNumericKind(v1, v2) && Numeric(v1).Some? && Numeric(v2).Some?
    ensures r.Some? ==> r.value == OrderOf(Numeric(v1).value, Numeric(v2).value)
  {
    match (v1, v2)
    case (Double(d1), Double(d2)) =>
      if d1.Finite? && d2.Finite? then Some(OrderOf(d1.r, d2.r)) else None
    case (Int32(i1), Int32(i2)) => Some(OrderOf(i1 as real, i2 as real))
    case (Int64(i1), Int64(i2)) => Some(OrderOf(i1 as real, i2 as real))
    case _ => None
  }

  /** Swapping the operands of a comparison swaps Less and Greater. */
  lemma CompareAntisymmetric(v1: Value, v2: Value)
    ensures CompareValues(v1, v2) == Some(Less) <==> CompareValues(v2, v1) == Some(Greater)
  {
  }

  /**
   * One field of an Inc (`mul` false) or Mul (`mul` true) merge: two values
   * of the same numeric type combine in that type; anything else takes the
   * incoming value.
   */
  function Arith(mul: bool, existing: Option<Value>, v: Value): Value {
    match (existing, v)
    case (Some(Double(x)), Double(y)) => Double(if mul then FloatMul(x, y) else FloatAdd(x, y))
    case (Some(Int32(x)), Int32(y)) =>
      Int32(Wrap32(if mul then x as int * y as int else x as int + y as int))
    case (Some(Int64(x)), Int64(y)) =>
      Int64(Wrap64(if mul then x as int * y as int else x as int + y as int))
    case _ => v
  }

  const EACH := "$each"

  /** A Push or AddToSet value: an array is wrapped as `{$each: array}`, anything else kept. */
  function WrapArray(v: Value): Value {
    if v.Arr? then Doc([Field(EACH, v)]) else v
  }

  /**
   * The incoming value of a PushEach or AddToSetEach field in `$each` form:
   * a document that already has `$each` as it is, an array as `{$each: array}`,
   * anything else as a one-element `$each` list.
   */
  function NormalizeEach(v: Value): (r: Document)
    ensures HasKey(r, EACH)
    ensures EachItems(r) ==
      if v.Arr? then v.items else if v.Doc? && HasKey(v.fields, EACH) then EachItems(v.fields) else [v]
  {
    match v
    case Doc(d) => if HasKey(d, EACH) then d else [Field(EACH, Arr([v]))]
    case Arr(xs) => [Field(EACH, Arr(xs))]
    case _ => [Field(EACH, Arr([v]))]
  }

  /** The `$each` list of a document; empty when it has none or it is not an array. */
  function EachItems(d: Document): seq<Value> {
    match Lookup(d, EACH)
    case Some(Arr(xs)) => xs
    case _ => []
  }

  /**
   * Appends each element of `xs` in turn to `acc` unless the list built so
   * far already contains an equal element.
   */
  function AppendAbsent(acc: seq<Value>, xs: seq<Value>): seq<Value>
    decreases xs
  {
    if xs == [] then acc
    else AppendAbsent(if Contains(acc, xs[0]) then acc else acc + [xs[0]], xs[1..])
  }

  /**
   * One field of a PushEach (`unique` false) or AddToSetEach (`unique` true)
   * merge. When the earlier value is a document, its `$each` list is
   * extended by the normalised incoming list (skipping elements already
   * present when `unique`), and the other modifier keys of both sides are
   * kept, the incoming side winning. Otherwise the normalised incoming
   * value replaces the earlier one.
   */
  function EachMerge(existing: Option<Value>, v: Value, unique: bool): (r: Value)
    ensures r.Doc?
    ensures !(existing.Some? && existing.value.Doc?) ==> r == Doc(NormalizeEach(v))
  {
    var incoming := NormalizeEach(v);
    match existing
    case Some(Doc(ex)) =>
      var items :=
        if unique then AppendAbsent(EachItems(ex), EachItems(incoming))
        else EachItems(ex) + EachItems(incoming);
      var combined := Insert(ex, EACH, Arr(items));
      Doc(InsertAllExcept(InsertAllExcept(combined, ex, EACH), incoming, EACH))
    case _ => Doc(incoming)
  }

  /**
   * The value a field takes when `merge` folds an incoming value `v` into a
   * payload whose value for that field is `existing`.
   */
  function Combine(op: Op, existing: Option<Value>, v: Value): (r: Value)
    ensures op in {Set, Unset, SetOnInsert, Pull, Rename, Bit, Pop, CurrentDate} ==> r == v
    ensures (op == Push || op == AddToSet) ==> r == v || r == Doc([Field(EACH, v)])
    ensures (op == PushEach || op == AddToSetEach) ==> r.Doc?
    ensures op in {Inc, Mul, Min, Max, PullAll} && existing.None? ==> r == v
    ensures (op == Min || op == Max) ==> r == v || Some(r) == existing
  {
    match op
    case Push => WrapArray(v)
    case AddToSet => WrapArray(v)
    case PushEach => EachMerge(existing, v, false)
    case AddToSetEach => EachMerge(existing, v, true)
    case PullAll =>
      if existing.Some? && existing.value.Arr? && v.Arr? then Arr(existing.value.items + v.items) else v
    case Inc => Arith(false, existing, v)
    case Mul => Arith(true, existing, v)
    case Min =>
      if existing.Some? && CompareValues(v, existing.value) != Some(Less) then existing.value else v
    case Max =>
      if existing.Some? && CompareValues(v, existing.value) != Some(Greater) then existing.value else v
    // Set, Unset, SetOnInsert, Pull, Rename and Bit: the incoming value wins.
    // (Pop and CurrentDate replace the whole payload and never get here.)
    case _ => v
  }

  /**
   * The per-field merge loop: starting from `acc`, every field of `incoming`
   * is combined with `acc`'s value for that key and inserted. Keys of `acc`
   * keep their positions; a key of `incoming` takes the combined value; a
   * key only in `acc` keeps its value.
   */
  function MergeFields(op: Op, acc: Document, incoming: Document): (r: Document)
    ensures UniqueKeys(incoming) ==> forall k :: (Lookup(r, k) ==
      match Lookup(incoming, k)
      case Some(v) => Some(Combine(op, Lookup(acc, k), v))
      case None => Lookup(acc, k))
    ensures UniqueKeys(acc) ==> UniqueKeys(r)
    ensures |acc| <= |r| && forall i :: 0 <= i < |acc| ==> r[i].key == acc[i].key
    decreases incoming
  {
    if incoming == [] then acc
    else
      var f := incoming[0];
      var acc' := Insert(acc, f.key, Combine(op, Lookup(acc, f.key), f.val));
      LookupCons(incoming);
      assert UniqueKeys(incoming) ==> forall k :: HasKey(incoming[1..], k) ==> k != incoming[0].key by {
        if UniqueKeys(incoming) { TailKeysDiffer(incoming); }
      }
      var r := MergeFields(op, acc', incoming[1..]);
      assert UniqueKeys(incoming) ==> forall k :: (Lookup(r, k) ==
        match Lookup(incoming, k)
        case Some(v) => Some(Combine(op, Lookup(acc, k), v))
        case None => Lookup(acc, k))
      by {
        if UniqueKeys(incoming) {
          assert UniqueKeys(incoming[1..]);
          forall k ensures Lookup(r, k) ==
            match Lookup(incoming, k)
            case Some(v) => Some(Combine(op, Lookup(acc, k), v))
            case None => Lookup(acc, k)
          {
            if k == f.key {
              assert !HasKey(incoming[1..], k);
            }
          }
        }
      }
      r
  }

  /**
   * `UpdateType::merge`: nothing for two different variants; otherwise a
   * modifier of that same variant. Pop and CurrentDate take the later
   * payload whole; every other operator merges field by field.
   */
  function Merge(a: Modifier, b: Modifier): (r: Option<Modifier>)
    ensures r.Some? <==> a.op == b.op
    ensures r.Some? ==> r.value.op == a.op
    ensures r.Some? && UniqueKeys(a.payload) && UniqueKeys(b.payload) ==> UniqueKeys(r.value.payload)
  {
    if a.op != b.op then None
    else if a.op == Pop || a.op == CurrentDate then Some(Modifier(a.op, b.payload))
    else Some(Modifier(a.op, MergeFields(a.op, a.payload, b.payload)))
  }

  predicate FieldMerged(op: Op) {
    op != Pop && op != CurrentDate
  }

  /**
   * For every operator but Pop and CurrentDate the merged payload holds the
   * union of both key sets, keeps the earlier payload's keys in place, gives
   * a key of the later payload its combined value and leaves a key only in
   * the earlier payload unchanged.
   */
  lemma MergeFieldwise(a: Modifier, b: Modifier)
    requires a.op == b.op && FieldMerged(a.op) && UniqueKeys(b.payload)
    ensures Merge(a, b).Some?
    ensures forall k :: HasKey(Merge(a, b).value.payload, k) <==> HasKey(a.payload, k) || HasKey(b.payload, k)
    ensures forall i :: 0 <= i < |a.payload| ==> Merge(a, b).value.payload[i].key == a.payload[i].key
    ensures forall k :: !HasKey(b.payload, k) ==> Lookup(Merge(a, b).value.payload, k) == Lookup(a.payload, k)
    ensures forall k :: HasKey(b.payload, k) ==>
      Lookup(Merge(a, b).value.payload, k) == Some(Combine(a.op, Lookup(a.payload, k), Lookup(b.payload, k).value))
  {
  }

  /** MergeFieldwise at a single key. */
  lemma MergeAt(a: Modifier, b: Modifier, k: string)
    requires a.op == b.op && FieldMerged(a.op) && UniqueKeys(b.payload)
    ensures Merge(a, b).Some?
    ensures Lookup(Merge(a, b).value.payload, k) ==
      if HasKey(b.payload, k) then Some(Combine(a.op, Lookup(a.payload, k), Lookup(b.payload, k).value))
      else Lookup(a.payload, k)
  {
    MergeFieldwise(a, b);
  }

  /** Inc and Mul combine a field by `Arith`. */
  lemma CombineArith(op: Op, existing: Option<Value>, v: Value)
    requires op == Inc || op == Mul
    ensures Combine(op, existing, v) == Arith(op == Mul, existing, v)
  {
  }

  /** Set, Unset, SetOnInsert, Pull, Rename and Bit: last writer wins, field by field. */
  lemma MergeLastWriterWins(a: Modifier, b: Modifier)
    requires a.op == b.op && a.op in {Set, Unset, SetOnInsert, Pull, Rename, Bit}
    requires UniqueKeys(b.payload)
    ensures Merge(a, b).Some?
    ensures forall k :: (Lookup(Merge(a, b).value.payload, k) ==
      if HasKey(b.payload, k) then Lookup(b.payload, k) else Lookup(a.payload, k))
  {
    MergeFieldwise(a, b);
  }

  /** The keys of `incoming` that `acc` lacks, in the order of `incoming`. */
  function NewKeys(acc: Document, incoming: Document): seq<string>
    decreases incoming
  {
    if incoming == [] then []
    else (if HasKey(acc, incoming[0].key) then [] else [incoming[0].key]) + NewKeys(acc, incoming[1..])
  }

  lemma {:induction false} NewKeysAgree(acc: Document, acc': Document, incoming: Document)
    requires forall k :: HasKey(incoming, k) ==> (HasKey(acc, k) <==> HasKey(acc', k))
    ensures NewKeys(acc, incoming) == NewKeys(acc', incoming)
    decreases incoming
  {
    if incoming != [] {
      LookupCons(incoming);
      assert HasKey(incoming, incoming[0].key);
      NewKeysAgree(acc, acc', incoming[1..]);
    }
  }

  lemma ConcatAssoc<X>(a: seq<X>, b: seq<X>, c: seq<X>)
    ensures (a + b) + c == a + (b + c)
  {
  }

  /** Inserting appends the key exactly when it is new; other keys keep their presence. */
  lemma InsertKeys(d: Document, k: string, v: Value)
    ensures FieldKeys(Insert(d, k, v)) == FieldKeys(d) + (if HasKey(d, k) then [] else [k])
    ensures forall k' :: k' != k ==> (HasKey(Insert(d, k, v), k') <==> HasKey(d, k'))
  {
    var r := Insert(d, k, v);
    var added := if HasKey(d, k) then [] else [k];
    assert |FieldKeys(r)| == |FieldKeys(d) + added|;
    forall i | 0 <= i < |FieldKeys(r)| ensures FieldKeys(r)[i] == (FieldKeys(d) + added)[i] {
      if i == |d| {
        assert r[|d|] == Field(k, v);
      }
    }
  }

  /**
   * The merged payload lists the earlier payload's keys first, in their
   * order, then the keys only the later payload has, in the later
   * payload's order.
   */
  lemma {:induction false} MergeFieldsKeyOrder(op: Op, acc: Document, incoming: Document)
    requires UniqueKeys(incoming)
    ensures FieldKeys(MergeFields(op, acc, incoming)) == FieldKeys(acc) + NewKeys(acc, incoming)
    decreases incoming
  {
    if incoming == [] {
      assert FieldKeys(acc) + [] == FieldKeys(acc);
    } else {
      var f := incoming[0];
      var acc' := Insert(acc, f.key, Combine(op, Lookup(acc, f.key), f.val));
      assert UniqueKeys(incoming[1..]);
      MergeFieldsKeyOrder(op, acc', incoming[1..]);
      TailKeysDiffer(incoming);
      NewKeysAgree(acc, acc', incoming[1..]);
      var added := if HasKey(acc, f.key) then [] else [f.key];
      InsertKeys(acc, f.key, Combine(op, Lookup(acc, f.key), f.val));
      var rest := NewKeys(acc, incoming[1..]);
      assert NewKeys(acc, incoming) == added + rest;
      assert MergeFields(op, acc, incoming) == MergeFields(op, acc', incoming[1..]);
      assert FieldKeys(MergeFields(op, acc, incoming)) == (FieldKeys(acc) + added) + rest;
      ConcatAssoc(FieldKeys(acc), added, rest);
    }
  }

  /** Pop and CurrentDate: the later payload replaces the earlier one whole. */
  lemma MergeWholeReplace(a: Modifier, b: Modifier)
    requires a.op == b.op && !FieldMerged(a.op)
    ensures Merge(a, b) == Some(b)
  {
  }

  /**
   * Inc and Mul with no earlier value, or with two values not of the same
   * numeric type: the incoming value is taken unchanged.
   */
  lemma CombineArithFallback(op: Op, existing: Option<Value>, v: Value)
    requires op == Inc || op == Mul
    requires existing.None? || !SameNumericKind(existing.value, v)
    ensures Combine(op, existing, v) == v
  {
  }

  /**
   * Inc and Mul on two Int32 values: an Int32 congruent to the exact sum
   * (product) modulo 2^32, and equal to it whenever it fits.
   */
  lemma CombineInt32(op: Op, x: i32, y: i32)
    requires op == Inc || op == Mul
    ensures Combine(op, Some(Int32(x)), Int32(y)).Int32?
    ensures var exact := if op == Mul then x as int * y as int else x as int + y as int;
      var r := Combine(op, Some(Int32(x)), Int32(y)).i as int;
      && (exact - r) % 0x1_0000_0000 == 0
      && (-0x8000_0000 <= exact < 0x8000_0000 ==> r == exact)
  {
    var exact := if op == Mul then x as int * y as int else x as int + y as int;
    CombineArith(op, Some(Int32(x)), Int32(y));
    assert Combine(op, Some(Int32(x)), Int32(y)) == Int32(Wrap32(exact));
    Wrap32Congruent(exact);
  }

  /**
   * Inc and Mul on two Int64 values: an Int64 congruent to the exact sum
   * (product) modulo 2^64, and equal to it whenever it fits.
   */
  lemma CombineInt64(op: Op, x: i64, y: i64)
    requires op == Inc || op == Mul
    ensures Combine(op, Some(Int64(x)), Int64(y)).Int64?
    ensures var exact := if op == Mul then x as int * y as int else x as int + y as int;
      var r := Combine(op, Some(Int64(x)), Int64(y)).l as int;
      && (exact - r) % 0x1_0000_0000_0000_0000 == 0
      && (-0x8000_0000_0000_0000 <= exact < 0x8000_0000_0000_0000 ==> r == exact)
  {
    var exact := if op == Mul then x as int * y as int else x as int + y as int;
    CombineArith(op, Some(Int64(x)), Int64(y));
    assert Combine(op, Some(Int64(x)), Int64(y)) == Int64(Wrap64(exact));
    Wrap64Congruent(exact);
  }

  /** Inc and Mul on two Double values: the exact sum (product), or NaN when either side is NaN. */
  lemma CombineDouble(op: Op, x: Float, y: Float)
    requires op == Inc || op == Mul
    ensures x.NaN? || y.NaN? ==> Combine(op, Some(Double(x)), Double(y)) == Double(NaN)
    ensures x.Finite? && y.Finite? ==>
      Combine(op, Some(Double(x)), Double(y)) == Double(Finite(if op == Mul then x.r * y.r else x.r + y.r))
  {
    CombineArith(op, Some(Double(x)), Double(y));
  }

  /**
   * Min and Max: with no earlier value the incoming one is taken; otherwise
   * the incoming value replaces the earlier one only if the two are
   * comparable and it is strictly smaller (Min) or strictly larger (Max);
   * incomparable values, NaN included, keep the earlier value.
   */
  lemma CombineMinMax(op: Op, existing: Option<Value>, v: Value)
    requires op == Min || op == Max
    ensures existing.None? ==> Combine(op, existing, v) == v
    ensures existing.Some? ==> (Combine(op, existing, v) ==
      var old_v := existing.value;
      if SameNumericKind(old_v, v) && Numeric(old_v).Some? && Numeric(v).Some? &&
         (if op == Min then Numeric(v).value < Numeric(old_v).value
          else Numeric(v).value > Numeric(old_v).value)
      then v else old_v)
  {
  }

  /** Min over two Int32 values keeps the smaller one. */
  lemma CombineMinInt32(x: i32, y: i32)
    ensures Combine(Min, Some(Int32(x)), Int32(y)) == Int32(if y < x then y else x)
  {
    CombineMinMax(Min, Some(Int32(x)), Int32(y));
  }

  /** A NaN never displaces an earlier Min or Max value. */
  lemma CombineMinMaxNaN(op: Op, e: Value)
    requires op == Min || op == Max
    ensures Combine(op, Some(e), Double(NaN)) == e
  {
    CombineMinMax(op, Some(e), Double(NaN));
  }

  /**
   * Push and AddToSet: an array is stored as `{$each: array}` and anything
   * else as it is; the earlier value is overwritten, nothing accumulates.
   */
  lemma CombinePushAddToSet(op: Op, existing: Option<Value>, v: Value)
    requires op == Push || op == AddToSet
    ensures v.Arr? ==> Combine(op, existing, v) == Doc([Field(EACH, v)])
    ensures !v.Arr? ==> Combine(op, existing, v) == v
  {
  }

  /** PullAll: two arrays concatenate, earlier first, without de-duplication; otherwise the incoming value wins. */
  lemma CombinePullAll(existing: Option<Value>, v: Value)
    ensures existing.Some? && existing.value.Arr? && v.Arr? ==>
      Combine(PullAll, existing, v) == Arr(existing.value.items + v.items)
    ensures !(existing.Some? && existing.value.Arr? && v.Arr?) ==> Combine(PullAll, existing, v) == v
  {
  }

  /**
   * The shape of one each-merged field when the earlier value is a
   * document: its `$each` is the merged list, and every other key carries
   * the incoming modifier if there is one and the earlier one otherwise.
   */
  lemma EachMergeIntoDocument(ex: Document, v: Value, unique: bool)
    requires UniqueKeys(ex) && UniqueKeys(NormalizeEach(v))
    ensures EachMerge(Some(Doc(ex)), v, unique).Doc?
    ensures var c := EachMerge(Some(Doc(ex)), v, unique).fields;
      && UniqueKeys(c)
      && Lookup(c, EACH) == Some(Arr(
           if unique then AppendAbsent(EachItems(ex), EachItems(NormalizeEach(v)))
           else EachItems(ex) + EachItems(NormalizeEach(v))))
      && forall mk :: mk != EACH ==>
           Lookup(c, mk) == if HasKey(NormalizeEach(v), mk) then Lookup(NormalizeEach(v), mk) else Lookup(ex, mk)
  {
  }

  /**
   * PushEach and AddToSetEach: when the earlier value is a document, the
   * result's `$each` is the earlier list followed by the normalised new list
   * (AddToSetEach skips elements already present) and its other keys are
   * kept, the incoming side winning; when the earlier value is absent or not
   * a document (a raw array from a first call, say), the normalised new entry
   * replaces it.
   */
  lemma CombineEach(op: Op, existing: Option<Value>, v: Value)
    requires op == PushEach || op == AddToSetEach
    requires WfValue(v) && (existing.Some? && existing.value.Doc? ==> UniqueKeys(existing.value.fields))
    ensures Combine(op, existing, v).Doc?
    ensures var c := Combine(op, existing, v).fields;
      if existing.Some? && existing.value.Doc? then
        var ex := existing.value.fields;
        && UniqueKeys(c)
        && Lookup(c, EACH) == Some(Arr(
             if op == AddToSetEach then AppendAbsent(EachItems(ex), EachItems(NormalizeEach(v)))
             else EachItems(ex) + EachItems(NormalizeEach(v))))
        && forall mk :: mk != EACH ==>
             Lookup(c, mk) == if HasKey(NormalizeEach(v), mk) then Lookup(NormalizeEach(v), mk) else Lookup(ex, mk)
      else
        c == NormalizeEach(v)
  {
    if existing.Some? && existing.value.Doc? {
      assert UniqueKeys(NormalizeEach(v)) by {
        if v.Doc? {
          assert WfValue(v);
        }
      }
      EachMergeIntoDocument(existing.value.fields, v, op == AddToSetEach);
    }
  }

  /** AppendAbsent only appends: the list it starts from is a prefix of the result. */
  lemma {:induction false} AppendAbsentPrefix(acc: seq<Value>, xs: seq<Value>)
    ensures var r := AppendAbsent(acc, xs); |acc| <= |r| && r[..|acc|] == acc
    decreases xs
  {
    if xs != [] {
      var acc' := if Contains(acc, xs[0]) then acc else acc + [xs[0]];
      AppendAbsentPrefix(acc', xs[1..]);
      var r := AppendAbsent(acc', xs[1..]);
      assert r[..|acc'|][..|acc|] == acc;
    }
  }

  /** Every element AppendAbsent appends comes from `xs` and has no equal before it. */
  lemma {:induction false} AppendAbsentFresh(acc: seq<Value>, xs: seq<Value>)
    ensures var r := AppendAbsent(acc, xs);
      forall i :: |acc| <= i < |r| ==> r[i] in xs && !Contains(r[..i], r[i])
    decreases xs
  {
    if xs != [] {
      var acc' := if Contains(acc, xs[0]) then acc else acc + [xs[0]];
      AppendAbsentFresh(acc', xs[1..]);
      AppendAbsentPrefix(acc', xs[1..]);
      var r := AppendAbsent(acc', xs[1..]);
      assert forall x :: x in xs[1..] ==> x in xs;
      if |acc'| > |acc| {
        assert r[..|acc|] == acc;
        assert r[|acc|] == acc'[|acc|] == xs[0];
      }
    }
  }

  /** Every element of `xs` ends up in the result or already had an equal there. */
  lemma {:induction false} AppendAbsentCovers(acc: seq<Value>, xs: seq<Value>)
    ensures var r := AppendAbsent(acc, xs); forall x :: x in xs ==> x in r || Contains(r, x)
    decreases xs
  {
    if xs != [] {
      var acc' := if Contains(acc, xs[0]) then acc else acc + [xs[0]];
      AppendAbsentCovers(acc', xs[1..]);
      AppendAbsentPrefix(acc', xs[1..]);
      var r := AppendAbsent(acc', xs[1..]);
      if Contains(acc, xs[0]) {
        var j :| 0 <= j < |acc| && BsonEq(acc[j], xs[0]);
        assert r[j] == acc[j];
      } else {
        assert r[|acc|] == acc'[|acc|] == xs[0];
      }
    }
  }

  /**
   * AddToSetEach never introduces a duplicate: the merged `$each` list
   * starts with the earlier list, every element it appends is a new element
   * not equal to anything before it, and every new element ends up in the
   * list or was already matched by an equal one.
   */
  lemma AddToSetEachNoNewDuplicates(old_items: seq<Value>, new_items: seq<Value>)
    ensures var r := AppendAbsent(old_items, new_items);
      && |old_items| <= |r| && r[..|old_items|] == old_items
      && (forall i :: |old_items| <= i < |r| ==> r[i] in new_items && !Contains(r[..i], r[i]))
      && (forall x :: x in new_items ==> x in r || Contains(r, x))
  {
    AppendAbsentPrefix(old_items, new_items);
    AppendAbsentFresh(old_items, new_items);
    AppendAbsentCovers(old_items, new_items);
  }

  // ---------------------------------------------------------------------
  // Worked cases from the documentation of the operators
  // ---------------------------------------------------------------------

  /**
   * PushEach: `{k: {$each: xs}}` then `{k: ys}` gives `{k: {$each: xs + ys}}`,
   * the whole merged modifier.
   */
  lemma PushEachConcatenates(k: string, xs: seq<Value>, ys: seq<Value>)
    ensures
      var a := Modifier(PushEach, [Field(k, Doc([Field(EACH, Arr(xs))]))]);
      var b := Modifier(PushEach, [Field(k, Arr(ys))]);
      Merge(a, b) == Some(Modifier(PushEach, [Field(k, Doc([Field(EACH, Arr(xs + ys))]))]))
  {
    var ex := [Field(EACH, Arr(xs))];
    var incoming := [Field(EACH, Arr(ys))];
    assert NormalizeEach(Arr(ys)) == incoming;
    assert Lookup(ex, EACH) == Some(Arr(xs));
    assert Lookup(incoming, EACH) == Some(Arr(ys));
    var combined := Insert(ex, EACH, Arr(xs + ys));
    assert combined == [Field(EACH, Arr(xs + ys))];
    InsertAllExceptSkipOnly(combined, EACH, Arr(xs));
    InsertAllExceptSkipOnly(combined, EACH, Arr(ys));
    assert EachMerge(Some(Doc(ex)), Arr(ys), false) == Doc(combined);
    var a := [Field(k, Doc(ex))];
    var b := [Field(k, Arr(ys))];
    assert Lookup(a, k) == Some(Doc(ex));
    var m := Insert(a, k, Doc(combined));
    assert m == [Field(k, Doc(combined))];
    assert MergeFields(PushEach, a, b) == MergeFields(PushEach, m, b[1..]);
  }

  /** An element with no equal in the list so far is appended. */
  lemma AppendAbsentAppends(acc: seq<Value>, x: Value, xs: seq<Value>)
    requires !Contains(acc, x)
    ensures AppendAbsent(acc, [x] + xs) == AppendAbsent(acc + [x], xs)
  {
    assert ([x] + xs)[0] == x && ([x] + xs)[1..] == xs;
  }

  /** An element with an equal in the list so far is skipped. */
  lemma AppendAbsentSkips(acc: seq<Value>, x: Value, xs: seq<Value>)
    requires Contains(acc, x)
    ensures AppendAbsent(acc, [x] + xs) == AppendAbsent(acc, xs)
  {
    assert ([x] + xs)[0] == x && ([x] + xs)[1..] == xs;
  }

  /** Folding `[y, x]` into `[x]` appends `y` and skips the duplicate `x`. */
  lemma AppendAbsentSkipsPresent(x: Value, y: Value)
    requires BsonEq(x, x) && !BsonEq(x, y)
    ensures AppendAbsent([x], [y, x]) == [x, y]
  {
    assert !Contains([x], y);
    AppendAbsentAppends([x], y, [x]);
    assert [y, x] == [y] + [x] && [x] + [y] == [x, y];
    assert BsonEq([x, y][0], x);
    AppendAbsentSkips([x, y], x, []);
    assert [x] == [x] + [];
  }

  /**
   * AddToSetEach on an `$each` document: `{$each: [x]}` then `[y, x]` gives
   * `{$each: [x, y]}` under the same key.
   */
  lemma AddToSetEachSkipsDuplicate(k: string, x: Value, y: Value)
    requires BsonEq(x, x) && !BsonEq(x, y)
    ensures
      var a := Modifier(AddToSetEach, [Field(k, Doc([Field(EACH, Arr([x]))]))]);
      var b := Modifier(AddToSetEach, [Field(k, Arr([y, x]))]);
      && Merge(a, b).Some?
      && Lookup(Merge(a, b).value.payload, k) == Some(Doc([Field(EACH, Arr([x, y]))]))
  {
    var ex := [Field(EACH, Arr([x]))];
    var a := Modifier(AddToSetEach, [Field(k, Doc(ex))]);
    var b := Modifier(AddToSetEach, [Field(k, Arr([y, x]))]);
    MergeFieldwise(a, b);
    assert Lookup(a.payload, k) == Some(Doc(ex));
    assert Lookup(b.payload, k) == Some(Arr([y, x]));
    EachMergeSkipsPresent(x, y);
  }

  /** Copying a one-field document whose only key is skipped changes nothing. */
  lemma InsertAllExceptSkipOnly(acc: Document, skip: string, v: Value)
    ensures InsertAllExcept(acc, [Field(skip, v)], skip) == acc
  {
    assert [Field(skip, v)][1..] == [];
  }

  /** The `$each` merge behind AddToSetEachSkipsDuplicate. */
  lemma EachMergeSkipsPresent(x: Value, y: Value)
    requires BsonEq(x, x) && !BsonEq(x, y)
    ensures EachMerge(Some(Doc([Field(EACH, Arr([x]))])), Arr([y, x]), true)
         == Doc([Field(EACH, Arr([x, y]))])
  {
    AppendAbsentSkipsPresent(x, y);
    var ex := [Field(EACH, Arr([x]))];
    var incoming := [Field(EACH, Arr([y, x]))];
    assert NormalizeEach(Arr([y, x])) == incoming;
    assert Lookup(ex, EACH) == Some(Arr([x]));
    assert Lookup(incoming, EACH) == Some(Arr([y, x]));
    var combined := Insert(ex, EACH, Arr([x, y]));
    assert combined == [Field(EACH, Arr([x, y]))];
    InsertAllExceptSkipOnly(combined, EACH, Arr([x]));
    InsertAllExceptSkipOnly(combined, EACH, Arr([y, x]));
  }

  /**
   * AddToSetEach on a raw array (what a first `add_to_set_each` call
   * stores): `{k: xs}` then `{k: ys}` gives `{k: {$each: ys}}`; the earlier
   * array is replaced, not extended.
   */
  lemma AddToSetEachReplacesRawArray(k: string, xs: seq<Value>, ys: seq<Value>)
    ensures
      var a := Modifier(AddToSetEach, [Field(k, Arr(xs))]);
      var b := Modifier(AddToSetEach, [Field(k, Arr(ys))]);
      Merge(a, b) == Some(Modifier(AddToSetEach, [Field(k, Doc([Field(EACH, Arr(ys))]))]))
  {
    var a := [Field(k, Arr(xs))];
    var b := [Field(k, Arr(ys))];
    var c := Doc([Field(EACH, Arr(ys))]);
    assert Lookup(a, k) == Some(Arr(xs));
    assert EachMerge(Lookup(a, k), Arr(ys), true) == c;
    var m := Insert(a, k, c);
    assert m == [Field(k, c)];
    assert MergeFields(AddToSetEach, a, b) == MergeFields(AddToSetEach, m, b[1..]);
  }

  // ---------------------------------------------------------------------
  // `$each` form for the first recording
  // ---------------------------------------------------------------------

  predicate EachOp(op: Op) {
    op == PushEach || op == AddToSetEach
  }

  /** A payload with every value in `$each` form, as `NormalizeEach` writes it. */
  function NormalizePayload(d: Document): (r: Document)
    ensures |r| == |d|
    ensures forall i :: 0 <= i < |d| ==> r[i].key == d[i].key && r[i].val.Doc? && HasKey(r[i].val.fields, EACH)
    decreases d
  {
    if d == [] then [] else [Field(d[0].key, Doc(NormalizeEach(d[0].val)))] + NormalizePayload(d[1..])
  }

  /**
   * The modifier as `push_each` and `add_to_set_each` would record it if
   * their payload were normalised on entry, as later merges normalise it:
   * a PushEach or AddToSetEach payload in `$each` form, any other modifier
   * unchanged.
   */
  function Normalized(m: Modifier): (r: Modifier)
    ensures r.op == m.op && |r.payload| == |m.payload|
    ensures forall i :: 0 <= i < |m.payload| ==> r.payload[i].key == m.payload[i].key
    ensures EachOp(m.op) ==> forall i :: 0 <= i < |r.payload| ==>
      r.payload[i].val.Doc? && HasKey(r.payload[i].val.fields, EACH)
    ensures !EachOp(m.op) ==> r == m
  {
    if EachOp(m.op) then Modifier(m.op, NormalizePayload(m.payload)) else m
  }

  lemma NormalizeEachIdempotent(v: Value)
    ensures NormalizeEach(Doc(NormalizeEach(v))) == NormalizeEach(v)
  {
  }

  lemma {:induction false} NormalisedFieldsAgree(op: Op, acc: Document, incoming: Document)
    requires EachOp(op)
    ensures MergeFields(op, acc, NormalizePayload(incoming)) == MergeFields(op, acc, incoming)
    decreases incoming
  {
    if incoming != [] {
      var f := incoming[0];
      var n := NormalizePayload(incoming);
      assert n[0] == Field(f.key, Doc(NormalizeEach(f.val)));
      assert n[1..] == NormalizePayload(incoming[1..]);
      NormalizeEachIdempotent(f.val);
      assert Combine(op, Lookup(acc, f.key), n[0].val) == Combine(op, Lookup(acc, f.key), f.val);
      var acc' := Insert(acc, f.key, Combine(op, Lookup(acc, f.key), f.val));
      NormalisedFieldsAgree(op, acc', incoming[1..]);
    }
  }

  /**
   * Normalising the incoming modifier changes no merge: merges already put
   * every incoming value in `$each` form, so only a first recording differs.
   */
  lemma NormalisedMergeAgrees(a: Modifier, b: Modifier)
    ensures Merge(a, Normalized(b)) == Merge(a, b)
  {
    if a.op == b.op && EachOp(b.op) {
      NormalisedFieldsAgree(b.op, a.payload, b.payload);
    }
  }

  /** A raw array recorded under one key, normalised: `{k: {$each: xs}}`. */
  lemma NormalizedRawArray(op: Op, k: string, xs: seq<Value>)
    requires EachOp(op)
    ensures Normalized(Modifier(op, [Field(k, Arr(xs))])) == Modifier(op, [Field(k, Doc([Field(EACH, Arr(xs))]))])
  {
    assert NormalizeEach(Arr(xs)) == [Field(EACH, Arr(xs))];
    assert [Field(k, Arr(xs))][1..] == [];
  }

  /**
   * Two `$each` entries under one key merge into one `$each` list: the
   * earlier list followed by the later one, de-duplicated for AddToSetEach.
   */
  lemma MergeEachLists(op: Op, k: string, xs: seq<Value>, ys: seq<Value>)
    requires EachOp(op)
    ensures
      var a := Modifier(op, [Field(k, Doc([Field(EACH, Arr(xs))]))]);
      var b := Modifier(op, [Field(k, Doc([Field(EACH, Arr(ys))]))]);
      Merge(a, b) ==
        Some(Modifier(op, [Field(k, Doc([Field(EACH, Arr(if op == AddToSetEach then AppendAbsent(xs, ys) else xs + ys))]))]))
  {
    var items := if op == AddToSetEach then AppendAbsent(xs, ys) else xs + ys;
    var combined := Doc([Field(EACH, Arr(items))]);
    EachMergeLists(xs, ys, op == AddToSetEach);
    var a := [Field(k, Doc([Field(EACH, Arr(xs))]))];
    var b := [Field(k, Doc([Field(EACH, Arr(ys))]))];
    assert Combine(op, Lookup(a, k), b[0].val) == combined;
    var m := Insert(a, k, combined);
    assert m == [Field(k, combined)];
    assert MergeFields(op, a, b) == MergeFields(op, m, b[1..]);
  }

  /** The `$each` merge behind MergeEachLists. */
  lemma EachMergeLists(xs: seq<Value>, ys: seq<Value>, unique: bool)
    ensures EachMerge(Some(Doc([Field(EACH, Arr(xs))])), Doc([Field(EACH, Arr(ys))]), unique) ==
      Doc([Field(EACH, Arr(if unique then AppendAbsent(xs, ys) else xs + ys))])
  {
    var ex := [Field(EACH, Arr(xs))];
    var incoming := [Field(EACH, Arr(ys))];
    assert Lookup(incoming, EACH) == Some(Arr(ys));
    assert NormalizeEach(Doc(incoming)) == incoming;
    assert Lookup(ex, EACH) == Some(Arr(xs));
    var items := if unique then AppendAbsent(xs, ys) else xs + ys;
    var combined := Insert(ex, EACH, Arr(items));
    assert combined == [Field(EACH, Arr(items))];
    InsertAllExceptSkipOnly(combined, EACH, Arr(xs));
    InsertAllExceptSkipOnly(combined, EACH, Arr(ys));
  }


  // ---------------------------------------------------------------------
  // Operator documents
  // ---------------------------------------------------------------------

  /** The operator key a modifier is written under. */
  function OperatorName(op: Op): string {
    match op
    case Set => "$set"
    case Unset => "$unset"
    case SetOnInsert => "$setOnInsert"
    case Push => "$push"
    case PushEach => "$push"
    case Pull => "$pull"
    case PullAll => "$pullAll"
    case Pop => "$pop"
    case AddToSet => "$addToSet"
    case AddToSetEach => "$addToSet"
    case Inc => "$inc"
    case Mul => "$mul"
    case Min => "$min"
    case Max => "$max"
    case Rename => "$rename"
    case CurrentDate => "$currentDate"
    case Bit => "$bit"
  }

  /** `UpdateType::to_document`: a one-field document `{<operator>: payload}`. */
  function ToDocument(m: Modifier): (r: Document)
    ensures |r| == 1 && r[0].key == OperatorName(m.op) && r[0].val == Doc(m.payload)
  {
    [Field(OperatorName(m.op), Doc(m.payload))]
  }

  /** The family an operator belongs to for its operator key: Push with PushEach, AddToSet with AddToSetEach. */
  function Family(op: Op): Op {
    if op == PushEach then Push else if op == AddToSetEach then AddToSet else op
  }

  /** The operator key back to the family it names; None for a string that is no operator key. */
  function OperatorOf(name: string): Option<Op> {
    if name == "$set" then Some(Set)
    else if name == "$unset" then Some(Unset)
    else if name == "$setOnInsert" then Some(SetOnInsert)
    else if name == "$push" then Some(Push)
    else if name == "$pull" then Some(Pull)
    else if name == "$pullAll" then Some(PullAll)
    else if name == "$pop" then Some(Pop)
    else if name == "$addToSet" then Some(AddToSet)
    else if name == "$inc" then Some(Inc)
    else if name == "$mul" then Some(Mul)
    else if name == "$min" then Some(Min)
    else if name == "$max" then Some(Max)
    else if name == "$rename" then Some(Rename)
    else if name == "$currentDate" then Some(CurrentDate)
    else if name == "$bit" then Some(Bit)
    else None
  }

  /** The operator key names the operator's family and nothing else. */
  lemma OperatorNameRoundTrip(op: Op)
    ensures OperatorOf(OperatorName(op)) == Some(Family(op))
    ensures OperatorName(Family(op)) == OperatorName(op)
  {
  }

  /**
   * Two operators share an operator key exactly when they are the same
   * operator or the Push/PushEach or AddToSet/AddToSetEach pair.
   */
  lemma OperatorNameShared(a: Op, b: Op)
    ensures OperatorName(a) == OperatorName(b) <==> Family(a) == Family(b)
  {
    OperatorNameRoundTrip(a);
    OperatorNameRoundTrip(b);
  }
}

/**
 * The builder's unit-test scenarios, stated over the builder's state as a
 * value for any filters and payloads of the shapes the tests use. Each
 * sequence of calls ends with `build`, so that the last open context is
 * committed before the log is inspected.
 */
module BuilderScenarios {
  import opened Wrappers
  import opened Bson
  import opened UpdateTypes
  import opened BulkWriter

  /** The `{id: n}` filters of the tests. */
  function IdFilter(n: i32): Document {
    [Field("id", Int32(n))]
  }

  /** Filters `{id: m}` and `{id: n}` are well formed, NaN-free, and equal only when `m == n`. */
  lemma IdFiltersQualify(m: i32, n: i32)
    ensures WfDoc(IdFilter(m)) && NoNaN(Doc(IdFilter(m)))
    ensures DocEq(IdFilter(m), IdFilter(n)) <==> m == n
  {
    var d1, d2 := IdFilter(m), IdFilter(n);
    assert Lookup(d2, d1[0].key) == Some(Int32(n));
    assert DocEq(d1, d2) <==> BsonEq(Int32(m), Int32(n));
  }

  /** Opening a context for a filter no committed update carries starts an empty context. */
  lemma OpenFresh<T>(ops: seq<WriteOperation<T>>, f: Document)
    requires FirstEqualUpdate(ops, f) == |ops|
    ensures AddUpdateStep(BuilderState(ops, None), f) == BuilderState(ops, Some(Context(f, [], false)))
  {
  }

  /** A modifier of a variant the open context does not hold is appended to it. */
  lemma AppendModifier<T>(ops: seq<WriteOperation<T>>, c: Context, m: Modifier)
    requires forall j :: 0 <= j < |c.updates| ==> c.updates[j].op != m.op
    ensures ModifierStep(BuilderState(ops, Some(c)), m) == BuilderState(ops, Some(c.(updates := c.updates + [m])))
  {
    AbsorbNone(c.updates, m);
  }

  /** Committing an open context that holds modifiers appends its update. */
  lemma CommitOpen<T>(ops: seq<WriteOperation<T>>, c: Context)
    requires c.updates != []
    ensures CommittedLog(BuilderState(ops, Some(c))) == ops + [UpdateOne(c.filter, c.updates, c.isUpsert)]
  {
  }

  /** A modifier of the variant of the context's only entry merges into it. */
  lemma MergeIntoOnly<T>(ops: seq<WriteOperation<T>>, c: Context, m: Modifier)
    requires |c.updates| == 1 && c.updates[0].op == m.op
    ensures ModifierStep(BuilderState(ops, Some(c)), m) ==
      BuilderState(ops, Some(c.(updates := [Merge(c.updates[0], m).value])))
  {
    AbsorbAt(c.updates, m, 0);
    assert c.updates[0 := Merge(c.updates[0], m).value] == [Merge(c.updates[0], m).value];
  }

  /** A filter equal to that of the log's first update reopens it and takes it out of the log. */
  lemma ReopenHead<T>(u: WriteOperation<T>, rest: seq<WriteOperation<T>>, f: Document)
    requires u.UpdateOne? && DocEq(u.filter, f)
    ensures AddUpdateStep(BuilderState([u] + rest, None), f) == BuilderState(rest, Some(Context(f, u.updates, u.upsert)))
  {
    var log := [u] + rest;
    assert log[0] == u;
    assert FirstEqualUpdate(log, f) == 0;
    assert Remove(log, 0) == rest;
  }

  /** A fresh builder given one filter and one modifier commits to that single update. */
  lemma OpenOne<T>(f: Document, m: Modifier)
    ensures var s := ModifierStep(AddUpdateStep(Initial<T>(), f), m);
      s == BuilderState([], Some(Context(f, [m], false)))
      && CommittedLog(s) == [UpdateOne(f, [m], false)]
  {
    var e: seq<WriteOperation<T>> := [];
    assert Initial<T>() == BuilderState(e, None);
    OpenFresh(e, f);
    AppendModifier(e, Context(f, [], false), m);
    assert [] + [m] == [m];
    CommitOpen(e, Context(f, [m], false));
  }

  /** A fresh builder given one update with one Set, then a delete, holds the two in its log. */
  lemma UpdateThenDelete<T>(f: Document, g: Document, p: Document)
    ensures AppendStep(ModifierStep(AddUpdateStep(Initial<T>(), f), Modifier(Set, p)), DeleteOne(g)) ==
      BuilderState([UpdateOne(f, [Modifier(Set, p)], false), DeleteOne(g)], None)
  {
    OpenOne<T>(f, Modifier(Set, p));
  }

  /** A Set then an Inc under one filter: one update holding both modifiers, in call order. */
  lemma DifferentUpdateTypesSameFilter<T>(f: Document, p: Document, q: Document)
    ensures var s0 := AddUpdateStep(Initial<T>(), f);
      var s1 := ModifierStep(s0, Modifier(Set, p));
      var s2 := ModifierStep(s1, Modifier(Inc, q));
      CommitStep(s2).operations == [UpdateOne(f, [Modifier(Set, p), Modifier(Inc, q)], false)]
  {
    var e: seq<WriteOperation<T>> := [];
    assert Initial<T>() == BuilderState(e, None);
    OpenFresh(e, f);
    var s0 := AddUpdateStep(Initial<T>(), f);
    assert s0 == BuilderState(e, Some(Context(f, [], false)));
    AppendModifier(e, Context(f, [], false), Modifier(Set, p));
    assert [] + [Modifier(Set, p)] == [Modifier(Set, p)];
    var s1 := ModifierStep(s0, Modifier(Set, p));
    assert s1 == BuilderState(e, Some(Context(f, [Modifier(Set, p)], false)));
    AppendModifier(e, Context(f, [Modifier(Set, p)], false), Modifier(Inc, q));
    assert [Modifier(Set, p)] + [Modifier(Inc, q)] == [Modifier(Set, p), Modifier(Inc, q)];
    var s2 := ModifierStep(s1, Modifier(Inc, q));
    assert s2 == BuilderState(e, Some(Context(f, [Modifier(Set, p), Modifier(Inc, q)], false)));
    CommitOpen(e, Context(f, [Modifier(Set, p), Modifier(Inc, q)], false));
  }

  /** Two Sets under one filter: one update holding one Set with the fields of both, the later winning. */
  lemma MergeSameUpdateTypeAndFilter<T>(f: Document, p: Document, q: Document)
    requires UniqueKeys(q)
    ensures var s0 := AddUpdateStep(Initial<T>(), f);
      var s1 := ModifierStep(s0, Modifier(Set, p));
      var ops := CommitStep(ModifierStep(s1, Modifier(Set, q))).operations;
      && |ops| == 1 && ops[0].UpdateOne? && ops[0].filter == f
      && |ops[0].updates| == 1 && ops[0].updates[0].op == Set
      && forall k :: Lookup(ops[0].updates[0].payload, k) == if HasKey(q, k) then Lookup(q, k) else Lookup(p, k)
  {
    var e: seq<WriteOperation<T>> := [];
    var s1 := ModifierStep(AddUpdateStep(Initial<T>(), f), Modifier(Set, p));
    OpenOne<T>(f, Modifier(Set, p));
    var merged := Merge(Modifier(Set, p), Modifier(Set, q)).value;
    MergeIntoOnly(e, Context(f, [Modifier(Set, p)], false), Modifier(Set, q));
    CommitOpen(e, Context(f, [merged], false));
    MergeLastWriterWins(Modifier(Set, p), Modifier(Set, q));
  }

  /** Updates under two different filters stay two updates, in call order. */
  lemma DifferentFiltersNoMerge<T>(f1: Document, f2: Document, p: Document, q: Document)
    requires !DocEq(f1, f2)
    ensures var s0 := ModifierStep(AddUpdateStep(Initial<T>(), f1), Modifier(Set, p));
      var s1 := ModifierStep(AddUpdateStep(s0, f2), Modifier(Set, q));
      CommitStep(s1).operations == [UpdateOne(f1, [Modifier(Set, p)], false), UpdateOne(f2, [Modifier(Set, q)], false)]
  {
    var u1: WriteOperation<T> := UpdateOne(f1, [Modifier(Set, p)], false);
    var s0 := ModifierStep(AddUpdateStep(Initial<T>(), f1), Modifier(Set, p));
    OpenOne<T>(f1, Modifier(Set, p));
    assert [u1][1..] == [];
    assert FirstEqualUpdate([u1], f2) == 1;
    OpenFresh([u1], f2);
    var s1 := AddUpdateStep(s0, f2);
    assert s1 == BuilderState([u1], Some(Context(f2, [], false)));
    AppendModifier([u1], Context(f2, [], false), Modifier(Set, q));
    assert [] + [Modifier(Set, q)] == [Modifier(Set, q)];
    assert ModifierStep(s1, Modifier(Set, q)) == BuilderState([u1], Some(Context(f2, [Modifier(Set, q)], false)));
    CommitOpen([u1], Context(f2, [Modifier(Set, q)], false));
  }

  /** An update, a delete and an update under another filter: the log holds the three in call order. */
  lemma MixedOperations<T>(f1: Document, f2: Document, f3: Document, p: Document, q: Document)
    requires !DocEq(f1, f3)
    ensures var s0 := ModifierStep(AddUpdateStep(Initial<T>(), f1), Modifier(Set, p));
      var s1 := AppendStep(s0, DeleteOne(f2));
      var s2 := ModifierStep(AddUpdateStep(s1, f3), Modifier(Set, q));
      CommitStep(s2).operations ==
        [UpdateOne(f1, [Modifier(Set, p)], false), DeleteOne(f2), UpdateOne(f3, [Modifier(Set, q)], false)]
  {
    var u1: WriteOperation<T> := UpdateOne(f1, [Modifier(Set, p)], false);
    var log := [u1, DeleteOne(f2)];
    var s1 := AppendStep(ModifierStep(AddUpdateStep(Initial<T>(), f1), Modifier(Set, p)), DeleteOne(f2));
    UpdateThenDelete<T>(f1, f2, p);
    assert FirstEqualUpdate(log, f3) == 2 by {
      assert log[1..] == [DeleteOne(f2)];
      assert log[1..][1..] == [];
    }
    OpenFresh(log, f3);
    var s2 := AddUpdateStep(s1, f3);
    assert s2 == BuilderState(log, Some(Context(f3, [], false)));
    AppendModifier(log, Context(f3, [], false), Modifier(Set, q));
    assert [] + [Modifier(Set, q)] == [Modifier(Set, q)];
    assert ModifierStep(s2, Modifier(Set, q)) == BuilderState(log, Some(Context(f3, [Modifier(Set, q)], false)));
    CommitOpen(log, Context(f3, [Modifier(Set, q)], false));
  }

  /**
   * Returning to a filter after a delete reopens the earlier update: it is
   * taken out of its place and committed again at the end, so the log keeps
   * a single update for that filter, holding the modifiers of both visits.
   */
  lemma ReopenMovesUpdateToEnd<T>(f: Document, g: Document, p: Document, q: Document)
    requires WfDoc(f) && NoNaN(Doc(f))
    ensures var s0 := ModifierStep(AddUpdateStep(Initial<T>(), f), Modifier(Set, p));
      var s1 := AppendStep(s0, DeleteOne(g));
      var s2 := ModifierStep(AddUpdateStep(s1, f), Modifier(Inc, q));
      CommitStep(s2).operations == [DeleteOne(g), UpdateOne(f, [Modifier(Set, p), Modifier(Inc, q)], false)]
  {
    var u: WriteOperation<T> := UpdateOne(f, [Modifier(Set, p)], false);
    var rest: seq<WriteOperation<T>> := [DeleteOne(g)];
    var s1 := AppendStep(ModifierStep(AddUpdateStep(Initial<T>(), f), Modifier(Set, p)), DeleteOne(g));
    UpdateThenDelete<T>(f, g, p);
    assert [u, DeleteOne(g)] == [u] + rest;
    BsonEqReflexive(Doc(f));
    ReopenHead(u, rest, f);
    var s2 := AddUpdateStep(s1, f);
    AppendModifier(rest, Context(f, [Modifier(Set, p)], false), Modifier(Inc, q));
    assert [Modifier(Set, p)] + [Modifier(Inc, q)] == [Modifier(Set, p), Modifier(Inc, q)];
    assert ModifierStep(s2, Modifier(Inc, q)) ==
      BuilderState(rest, Some(Context(f, [Modifier(Set, p), Modifier(Inc, q)], false)));
    CommitOpen(rest, Context(f, [Modifier(Set, p), Modifier(Inc, q)], false));
  }

  /** The compile step drops an update whose filter is empty and keeps a delete and an insert after it. */
  lemma CompileSkipsEmptyFilter<T>(us: seq<Modifier>, upsert: bool, g: Document, x: T)
    requires g != []
    ensures Compile([UpdateOne([], us, upsert), DeleteOne(g), InsertOne(x)]) == [DeleteOneModel(g), InsertOneModel(x)]
  {
    var u: WriteOperation<T> := UpdateOne([], us, upsert);
    CompileOne(u);
    assert Compile([u]) == [];
    CompileSnoc([u], DeleteOne(g));
    assert [u] + [DeleteOne(g)] == [u, DeleteOne(g)];
    assert Compile([u, DeleteOne(g)]) == [DeleteOneModel(g)];
    CompileSnoc([u, DeleteOne(g)], InsertOne(x));
    assert [u, DeleteOne(g)] + [InsertOne(x)] == [u, DeleteOne(g), InsertOne(x)];
  }

  /** A builder whose first update has an empty filter, followed by a delete and an insert, compiles to the delete and the insert. */
  lemma EmptyFilterIsDropped<T>(p: Document, g: Document, x: T)
    requires g != []
    ensures var s0 := ModifierStep(AddUpdateStep(Initial<T>(), []), Modifier(Set, p));
      var s1 := AppendStep(AppendStep(s0, DeleteOne(g)), InsertOne(x));
      Compile(CommitStep(s1).operations) == [DeleteOneModel(g), InsertOneModel(x)]
  {
    var u: WriteOperation<T> := UpdateOne([], [Modifier(Set, p)], false);
    var s0 := ModifierStep(AddUpdateStep(Initial<T>(), []), Modifier(Set, p));
    OpenOne<T>([], Modifier(Set, p));
    var s1 := AppendStep(AppendStep(s0, DeleteOne(g)), InsertOne(x));
    assert CommitStep(s1).operations == [u, DeleteOne(g), InsertOne(x)];
    CompileSkipsEmptyFilter([Modifier(Set, p)], false, g, x);
  }

  /**
   * As written: two `add_to_set_each` calls on one field with raw lists.
   * The first list is recorded raw, so the second call's merge finds no
   * `$each` sub-document and the first list is lost from the committed
   * update.
   */
  lemma RawEachArrayLost<T>(f: Document, k: string, xs: seq<Value>, ys: seq<Value>)
    ensures var s0 := ModifierStep(AddUpdateStep(Initial<T>(), f), Modifier(AddToSetEach, [Field(k, Arr(xs))]));
      var s1 := ModifierStep(s0, Modifier(AddToSetEach, [Field(k, Arr(ys))]));
      CommitStep(s1).operations == [UpdateOne(f, [Modifier(AddToSetEach, [Field(k, Doc([Field(EACH, Arr(ys))]))])], false)]
  {
    var a := Modifier(AddToSetEach, [Field(k, Arr(xs))]);
    var b := Modifier(AddToSetEach, [Field(k, Arr(ys))]);
    var merged := Modifier(AddToSetEach, [Field(k, Doc([Field(EACH, Arr(ys))]))]);
    OpenOne<T>(f, a);
    MergeIntoOnly<T>([], Context(f, [a], false), b);
    AddToSetEachReplacesRawArray(k, xs, ys);
    CommitOpen<T>([], Context(f, [merged], false));
  }

  /**
   * Corrected: with the payload brought to `$each` form before it is
   * recorded, the second call's list extends the first (`$push` appends,
   * `$addToSet` appends what is absent).
   */
  lemma NormalisedEachAccumulates<T>(f: Document, op: Op, k: string, xs: seq<Value>, ys: seq<Value>)
    requires EachOp(op)
    ensures var s0 := NormalisedModifierStep(AddUpdateStep(Initial<T>(), f), Modifier(op, [Field(k, Arr(xs))]));
      var s1 := NormalisedModifierStep(s0, Modifier(op, [Field(k, Arr(ys))]));
      var items := if op == AddToSetEach then AppendAbsent(xs, ys) else xs + ys;
      CommitStep(s1).operations == [UpdateOne(f, [Modifier(op, [Field(k, Doc([Field(EACH, Arr(items))]))])], false)]
  {
    var a := Modifier(op, [Field(k, Arr(xs))]);
    var b := Modifier(op, [Field(k, Arr(ys))]);
    var na := Modifier(op, [Field(k, Doc([Field(EACH, Arr(xs))]))]);
    var nb := Modifier(op, [Field(k, Doc([Field(EACH, Arr(ys))]))]);
    var items := if op == AddToSetEach then AppendAbsent(xs, ys) else xs + ys;
    var merged := Modifier(op, [Field(k, Doc([Field(EACH, Arr(items))]))]);
    NormalizedRawArray(op, k, xs);
    NormalizedRawArray(op, k, ys);
    OpenOne<T>(f, na);
    var s0 := AddUpdateStep(Initial<T>(), f);
    assert NormalisedModifierStep(s0, a) == ModifierStep(s0, na);
    var e: seq<WriteOperation<T>> := [];
    var s1 := BuilderState(e, Some(Context(f, [na], false)));
    assert NormalisedModifierStep(s1, b) == ModifierStep(s1, nb);
    MergeIntoOnly<T>([], Context(f, [na], false), nb);
    MergeEachLists(op, k, xs, ys);
    CommitOpen<T>([], Context(f, [merged], false));
  }

  /** Corrected, on tags: `["mongodb"]` then `["database", "mongodb"]` records `{$each: ["mongodb", "database"]}`. */
  lemma NormalisedTagsExample<T>(f: Document)
    ensures var k := "tags";
      var s0 := NormalisedModifierStep(AddUpdateStep(Initial<T>(), f), Modifier(AddToSetEach, [Field(k, Arr([Str("mongodb")]))]));
      var s1 := NormalisedModifierStep(s0, Modifier(AddToSetEach, [Field(k, Arr([Str("database"), Str("mongodb")]))]));
      CommitStep(s1).operations ==
        [UpdateOne(f, [Modifier(AddToSetEach, [Field(k, Doc([Field(EACH, Arr([Str("mongodb"), Str("database")]))]))])], false)]
  {
    NormalisedEachAccumulates<T>(f, AddToSetEach, "tags", [Str("mongodb")], [Str("database"), Str("mongodb")]);
    AppendAbsentSkipsPresent(Str("mongodb"), Str("database"));
  }

  /**
   * Corrected, in general: the list committed for two `add_to_set_each`
   * calls starts with the first list, every later element comes from the
   * second list and has no equal before it, and every element of the
   * second list is covered.
   */
  lemma NormalisedAddToSetKeepsSet<T>(f: Document, k: string, xs: seq<Value>, ys: seq<Value>)
    ensures var s0 := NormalisedModifierStep(AddUpdateStep(Initial<T>(), f), Modifier(AddToSetEach, [Field(k, Arr(xs))]));
      var s1 := NormalisedModifierStep(s0, Modifier(AddToSetEach, [Field(k, Arr(ys))]));
      exists r: seq<Value> ::
        && CommitStep(s1).operations == [UpdateOne(f, [Modifier(AddToSetEach, [Field(k, Doc([Field(EACH, Arr(r))]))])], false)]
        && |xs| <= |r| && r[..|xs|] == xs
        && (forall i :: |xs| <= i < |r| ==> r[i] in ys && !Contains(r[..i], r[i]))
        && (forall y :: y in ys ==> y in r || Contains(r, y))
  {
    NormalisedEachAccumulates<T>(f, AddToSetEach, k, xs, ys);
    AddToSetEachNoNewDuplicates(xs, ys);
    var r := AppendAbsent(xs, ys);
    assert r[..|xs|] == xs;
  }
}

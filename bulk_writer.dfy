/**
 * The batched write-intent builder: an open update context that collects
 * modifiers for one filter, an ordered log of committed write operations,
 * and the compile step that turns the log into the primitive write models
 * handed to the driver, dropping every update or delete whose filter is
 * empty.
 */
module BulkWriter {
  import opened Wrappers
  import opened Bson
  import opened UpdateTypes

  /** A committed write intent; `T` is the record type of an insert, kept opaque. */
  datatype WriteOperation<T> =
    | UpdateOne(filter: Document, updates: seq<Modifier>, upsert: bool)
    | DeleteOne(filter: Document)
    | DeleteMany(filter: Document)
    | InsertOne(document: T)

  /** A primitive write model, what the compile step emits for the bulk write. */
  datatype WriteModel<T> =
    | UpdateOneModel(filter: Document, update: Document, upsert: bool)
    | DeleteOneModel(filter: Document)
    | DeleteManyModel(filter: Document)
    | InsertOneModel(document: T)

  // ---------------------------------------------------------------------
  // Modifier lists of one update
  // ---------------------------------------------------------------------

  /** No operator variant occurs twice in the list. */
  predicate Collapsed(us: seq<Modifier>) {
    forall i, j :: 0 <= i < j < |us| ==> us[i].op != us[j].op
  }

  /**
   * The first entry of `us` that `m` merges into, or `|us|` when there is
   * none; `Merge` accepts exactly the entries of `m`'s variant.
   */
  function FirstMergeable(us: seq<Modifier>, m: Modifier): (r: nat)
    ensures r <= |us|
    ensures forall j :: 0 <= j < r ==> us[j].op != m.op
    ensures r < |us| ==> us[r].op == m.op
  {
    if us == [] then 0
    else if us[0].op == m.op then 0
    else 1 + FirstMergeable(us[1..], m)
  }

  /**
   * The modifier list `add_update_type` leaves behind: the first entry of
   * the same variant is replaced in place by the merge of the two, and the
   * new modifier is appended when there is no such entry.
   */
  function Absorb(us: seq<Modifier>, m: Modifier): (r: seq<Modifier>)
    ensures |us| <= |r| <= |us| + 1
    ensures forall j :: 0 <= j < |us| ==> r[j].op == us[j].op
    ensures |r| == |us| + 1 ==> r[|us|] == m
  {
    var i := FirstMergeable(us, m);
    if i < |us| then us[i := Merge(us[i], m).value] else us + [m]
  }

  /** Absorbing into a list whose entry `i` is the first of `m`'s variant replaces that entry. */
  lemma AbsorbAt(us: seq<Modifier>, m: Modifier, i: nat)
    requires i < |us| && us[i].op == m.op
    requires forall j :: 0 <= j < i ==> us[j].op != m.op
    ensures Absorb(us, m) == us[i := Merge(us[i], m).value]
  {
  }

  /** Absorbing into a list with no entry of `m`'s variant appends. */
  lemma AbsorbNone(us: seq<Modifier>, m: Modifier)
    requires forall j :: 0 <= j < |us| ==> us[j].op != m.op
    ensures Absorb(us, m) == us + [m]
  {
  }

  /**
   * Absorbing a modifier keeps the list collapsed, grows it by at most one,
   * leaves every entry of another variant where it was, and leaves exactly
   * one entry of the new modifier's variant: the merge of the old entry and
   * the new modifier when there was one, the new modifier otherwise.
   */
  lemma AbsorbShape(us: seq<Modifier>, m: Modifier)
    requires Collapsed(us)
    ensures var r := Absorb(us, m);
      && Collapsed(r)
      && |us| <= |r| <= |us| + 1
      && (forall j :: 0 <= j < |us| && us[j].op != m.op ==> r[j] == us[j])
      && (forall j :: 0 <= j < |us| ==> r[j].op == us[j].op)
      && (exists i :: 0 <= i < |r| && r[i].op == m.op)
      && (forall i :: 0 <= i < |us| && us[i].op == m.op ==> r[i] == Merge(us[i], m).value && |r| == |us|)
      && ((forall i :: 0 <= i < |us| ==> us[i].op != m.op) ==> r == us + [m])
  {
    var i := FirstMergeable(us, m);
    var r := Absorb(us, m);
    if i < |us| {
      assert r[i].op == m.op;
    } else {
      assert r[|us|].op == m.op;
      assert forall j :: 0 <= j < |us| ==> us[j].op != m.op;
    }
  }

  // ---------------------------------------------------------------------
  // The committed log and its invariant
  // ---------------------------------------------------------------------

  /** No two committed updates have filters that `documents_equal` relates. */
  predicate DistinctFilters<T>(ops: seq<WriteOperation<T>>) {
    forall i, j :: 0 <= i < j < |ops| && ops[i].UpdateOne? && ops[j].UpdateOne? ==>
      !DocEq(ops[i].filter, ops[j].filter)
  }

  /** Every committed update has a well-formed filter and a non-empty, collapsed modifier list. */
  predicate WellFormedUpdates<T>(ops: seq<WriteOperation<T>>) {
    forall i :: 0 <= i < |ops| && ops[i].UpdateOne? ==>
      WfDoc(ops[i].filter) && ops[i].updates != [] && Collapsed(ops[i].updates)
  }

  /** No committed update has a filter `documents_equal` relates to `f`. */
  predicate FilterFree<T>(ops: seq<WriteOperation<T>>, f: Document) {
    forall i :: 0 <= i < |ops| && ops[i].UpdateOne? ==> !DocEq(ops[i].filter, f)
  }

  /** The position `add_update` looks for: the first update whose filter equals `f`, or `|ops|`. */
  function FirstEqualUpdate<T>(ops: seq<WriteOperation<T>>, f: Document): (r: nat)
    ensures r <= |ops|
    ensures forall j :: 0 <= j < r ==> !(ops[j].UpdateOne? && DocEq(ops[j].filter, f))
    ensures r < |ops| ==> ops[r].UpdateOne? && DocEq(ops[r].filter, f)
  {
    if ops == [] then 0
    else if ops[0].UpdateOne? && DocEq(ops[0].filter, f) then 0
    else 1 + FirstEqualUpdate(ops[1..], f)
  }

  function Remove<X>(s: seq<X>, i: nat): (r: seq<X>)
    requires i < |s|
    ensures |r| == |s| - 1
    ensures forall j :: 0 <= j < i ==> r[j] == s[j]
    ensures forall j :: i <= j < |r| ==> r[j] == s[j + 1]
  {
    s[..i] + s[i + 1..]
  }

  /** Committing an update whose filter is free keeps the log's invariant. */
  lemma CommitKeepsInvariant<T>(ops: seq<WriteOperation<T>>, f: Document, us: seq<Modifier>, upsert: bool)
    requires DistinctFilters(ops) && WellFormedUpdates(ops)
    requires FilterFree(ops, f) && WfDoc(f) && us != [] && Collapsed(us)
    ensures DistinctFilters(ops + [UpdateOne(f, us, upsert)])
    ensures WellFormedUpdates(ops + [UpdateOne(f, us, upsert)])
  {
    var r := ops + [UpdateOne(f, us, upsert)];
    forall i, j | 0 <= i < j < |r| && r[i].UpdateOne? && r[j].UpdateOne?
      ensures !DocEq(r[i].filter, r[j].filter)
    {
      if j == |ops| {
        assert r[i] == ops[i];
      } else {
        assert r[i] == ops[i] && r[j] == ops[j];
      }
    }
  }

  /**
   * Taking out the first update whose filter equals `f` leaves a log with
   * no update whose filter equals `f`: two such updates would have equal
   * filters themselves, since `documents_equal` is symmetric on well-formed
   * documents and transitive.
   */
  lemma ReopenLeavesFilterFree<T>(ops: seq<WriteOperation<T>>, f: Document)
    requires DistinctFilters(ops) && WellFormedUpdates(ops) && WfDoc(f)
    ensures var i := FirstEqualUpdate(ops, f);
      var rest := if i < |ops| then Remove(ops, i) else ops;
      DistinctFilters(rest) && WellFormedUpdates(rest) && FilterFree(rest, f)
  {
    var i := FirstEqualUpdate(ops, f);
    if i < |ops| {
      var rest := Remove(ops, i);
      forall j | 0 <= j < |rest| && rest[j].UpdateOne? ensures !DocEq(rest[j].filter, f) {
        if j >= i {
          var o := ops[j + 1];
          if DocEq(o.filter, f) {
            DocEqSymmetric(o.filter, f);
            DocEqTransitive(ops[i].filter, f, o.filter);
            assert false;
          }
        }
      }
      forall a, b | 0 <= a < b < |rest| && rest[a].UpdateOne? && rest[b].UpdateOne?
        ensures !DocEq(rest[a].filter, rest[b].filter)
      {
        var a', b' := if a < i then a else a + 1, if b < i then b else b + 1;
        assert rest[a] == ops[a'] && rest[b] == ops[b'];
      }
    }
  }

  // ---------------------------------------------------------------------
  // Compiling the log
  // ---------------------------------------------------------------------

  /** The operator fields of a modifier list, one `{<operator>: payload}` entry per modifier, in order. */
  function OperatorFields(us: seq<Modifier>): (r: seq<Field>)
    ensures |r| == |us|
    ensures forall i :: 0 <= i < |us| ==> r[i] == ToDocument(us[i])[0]
  {
    if us == [] then [] else OperatorFields(us[..|us| - 1]) + ToDocument(us[|us| - 1])
  }

  /** The update document `execute` builds: each modifier's document inserted in turn. */
  function UpdateDoc(us: seq<Modifier>): (r: Document)
    ensures UniqueKeys(r)
  {
    OverlayUnique(OperatorFields(us));
    Overlay(OperatorFields(us))
  }

  /** The update document holds exactly the operator keys of the modifiers, once each. */
  lemma UpdateDocKeys(us: seq<Modifier>, k: string)
    ensures UniqueKeys(UpdateDoc(us))
    ensures HasKey(UpdateDoc(us), k) <==> exists i :: 0 <= i < |us| && OperatorName(us[i].op) == k
  {
    var fs := OperatorFields(us);
    OverlayUnique(fs);
    OverlayKeys(fs, k);
    if HasKey(UpdateDoc(us), k) {
      var i :| 0 <= i < |fs| && FieldKeys(fs)[i] == k;
      assert OperatorName(us[i].op) == k;
    }
    if exists i :: 0 <= i < |us| && OperatorName(us[i].op) == k {
      var i :| 0 <= i < |us| && OperatorName(us[i].op) == k;
      assert FieldKeys(fs)[i] == k;
    }
  }

  /**
   * Under each operator key the update document holds the payload of the
   * last modifier with that key: a later modifier overwrites an earlier one
   * with the same key wholesale.
   */
  lemma UpdateDocLastWins(us: seq<Modifier>, i: int)
    requires 0 <= i < |us|
    requires forall j :: i < j < |us| ==> OperatorName(us[j].op) != OperatorName(us[i].op)
    ensures Lookup(UpdateDoc(us), OperatorName(us[i].op)) == Some(Doc(us[i].payload))
  {
    var fs := OperatorFields(us);
    assert LastWithKey(fs, i);
    OverlayLastWins(fs, i);
  }

  /** Push then PushEach in one update: both go under `$push`, and only the PushEach payload survives. */
  lemma PushThenPushEachShareKey(p: Document, q: Document)
    ensures UpdateDoc([Modifier(Push, p), Modifier(PushEach, q)]) == [Field("$push", Doc(q))]
  {
    var us := [Modifier(Push, p), Modifier(PushEach, q)];
    assert us[..1] == [Modifier(Push, p)];
    assert us[..1][..0] == [];
    assert OperatorFields(us) == [] + [Field("$push", Doc(p))] + [Field("$push", Doc(q))];
    OverlaySnoc([], Field("$push", Doc(p)));
    OverlaySnoc([Field("$push", Doc(p))], Field("$push", Doc(q)));
    assert Overlay([]) == [];
    assert [] + [Field("$push", Doc(p))] == [Field("$push", Doc(p))];
  }

  /** AddToSet then AddToSetEach in one update: both go under `$addToSet`, the later payload survives. */
  lemma AddToSetThenEachShareKey(p: Document, q: Document)
    ensures UpdateDoc([Modifier(AddToSet, p), Modifier(AddToSetEach, q)]) == [Field("$addToSet", Doc(q))]
  {
    var us := [Modifier(AddToSet, p), Modifier(AddToSetEach, q)];
    assert us[..1] == [Modifier(AddToSet, p)];
    assert us[..1][..0] == [];
    assert OperatorFields(us) == [] + [Field("$addToSet", Doc(p))] + [Field("$addToSet", Doc(q))];
    OverlaySnoc([], Field("$addToSet", Doc(p)));
    OverlaySnoc([Field("$addToSet", Doc(p))], Field("$addToSet", Doc(q)));
    assert Overlay([]) == [];
    assert [] + [Field("$addToSet", Doc(p))] == [Field("$addToSet", Doc(p))];
  }

  /**
   * The write model one operation compiles to, if any: an update needs a
   * non-empty filter and at least one modifier, a delete a non-empty
   * filter; an insert always compiles.
   */
  function Emit<T>(op: WriteOperation<T>): (r: seq<WriteModel<T>>)
    ensures |r| <= 1
    ensures op.InsertOne? ==> r == [InsertOneModel(op.document)]
  {
    match op
    case UpdateOne(f, us, upsert) =>
      if f != [] && us != [] then [UpdateOneModel(f, UpdateDoc(us), upsert)] else []
    case DeleteOne(f) => if f != [] then [DeleteOneModel(f)] else []
    case DeleteMany(f) => if f != [] then [DeleteManyModel(f)] else []
    case InsertOne(d) => [InsertOneModel(d)]
  }

  /** The write models of a log, in log order. */
  function Compile<T>(ops: seq<WriteOperation<T>>): (r: seq<WriteModel<T>>)
    ensures |r| <= |ops|
  {
    if ops == [] then [] else Compile(ops[..|ops| - 1]) + Emit(ops[|ops| - 1])
  }

  /** Compiling one more operation appends its model, if any. */
  lemma CompileSnoc<T>(ops: seq<WriteOperation<T>>, op: WriteOperation<T>)
    ensures Compile(ops + [op]) == Compile(ops) + Emit(op)
  {
    assert (ops + [op])[..|ops|] == ops;
  }

  /** Compiling distributes over concatenation, so the models keep the order of the log. */
  lemma {:induction false} CompileAppend<T>(a: seq<WriteOperation<T>>, b: seq<WriteOperation<T>>)
    ensures Compile(a + b) == Compile(a) + Compile(b)
    decreases |b|
  {
    if b == [] {
      assert a + b == a;
    } else {
      var n := |b| - 1;
      var pre, x := b[..n], b[n];
      assert a + b == (a + pre) + [x];
      assert b == pre + [x];
      CompileSnoc(a + pre, x);
      CompileAppend(a, pre);
      CompileSnoc(pre, x);
    }
  }

  /**
   * The destructive-operation guard: no compiled update or delete has an
   * empty filter, every compiled update has a non-empty update document, and
   * there are never more models than operations.
   */
  lemma {:induction false} CompileGuard<T>(ops: seq<WriteOperation<T>>)
    ensures |Compile(ops)| <= |ops|
    ensures forall m :: m in Compile(ops) && !m.InsertOneModel? ==> m.filter != []
    ensures forall m :: m in Compile(ops) && m.UpdateOneModel? ==> m.update != []
  {
    if ops != [] {
      var n := |ops| - 1;
      CompileGuard(ops[..n]);
      EmitGuard(ops[n]);
      assert Compile(ops) == Compile(ops[..n]) + Emit(ops[n]);
    }
  }

  /** The guard on one operation: at most one model, with a non-empty filter and update document. */
  lemma EmitGuard<T>(op: WriteOperation<T>)
    ensures |Emit(op)| <= 1
    ensures forall m :: m in Emit(op) && !m.InsertOneModel? ==> m.filter != []
    ensures forall m :: m in Emit(op) && m.UpdateOneModel? ==> m.update != []
  {
    if op.UpdateOne? && op.filter != [] && op.updates != [] {
      UpdateDocKeys(op.updates, OperatorName(op.updates[0].op));
    }
  }

  /** An operation is dropped by the compile step exactly when the guard rejects it. */
  lemma CompileOne<T>(op: WriteOperation<T>)
    ensures Compile([op]) == Emit(op)
    ensures |Emit(op)| == 0 <==>
      match op
      case UpdateOne(f, us, _) => f == [] || us == []
      case DeleteOne(f) => f == []
      case DeleteMany(f) => f == []
      case InsertOne(_) => false
  {
    assert [op][..0] == [];
  }

  // ---------------------------------------------------------------------
  // The builder's state as a value, and what each call does to it
  // ---------------------------------------------------------------------

  /** The open update context: its filter, its modifiers and its upsert flag. */
  datatype Context = Context(filter: Document, updates: seq<Modifier>, isUpsert: bool)

  /** The builder's state: the committed log and the open context, if any. */
  datatype BuilderState<T> = BuilderState(operations: seq<WriteOperation<T>>, current: Option<Context>)

  /**
   * No two updates pending in the log or the open context have filters
   * that `documents_equal` relates, every committed update has a
   * well-formed filter and carries modifiers, and no update repeats an
   * operator variant.
   */
  predicate ValidState<T>(s: BuilderState<T>) {
    && DistinctFilters(s.operations)
    && WellFormedUpdates(s.operations)
    && (s.current.Some? ==>
          var c := s.current.value;
          WfDoc(c.filter) && Collapsed(c.updates) && FilterFree(s.operations, c.filter))
  }

  /** The log as it stands once the open context is committed: a context without modifiers is dropped. */
  function CommittedLog<T>(s: BuilderState<T>): seq<WriteOperation<T>> {
    match s.current
    case Some(c) =>
      if c.updates != [] then s.operations + [UpdateOne(c.filter, c.updates, c.isUpsert)] else s.operations
    case None => s.operations
  }

  /** `commit_context` and `build`. */
  function CommitStep<T>(s: BuilderState<T>): (r: BuilderState<T>)
    ensures r.current.None?
    ensures |s.operations| <= |r.operations| <= |s.operations| + 1
    ensures r.operations[..|s.operations|] == s.operations
  {
    BuilderState(CommittedLog(s), None)
  }

  /**
   * `add_update`: commit, then take the first committed update whose filter
   * equals `f` out of the log and reopen its modifiers and upsert flag under
   * `f`; with no such update, open an empty context.
   */
  function AddUpdateStep<T>(s: BuilderState<T>, f: Document): (r: BuilderState<T>)
    ensures r.current.Some? && r.current.value.filter == f
    ensures |CommittedLog(s)| - 1 <= |r.operations| <= |CommittedLog(s)|
  {
    var log := CommittedLog(s);
    var i := FirstEqualUpdate(log, f);
    if i < |log| then BuilderState(Remove(log, i), Some(Context(f, log[i].updates, log[i].upsert)))
    else BuilderState(log, Some(Context(f, [], false)))
  }

  /** The seventeen modifier calls: absorb the modifier into the open context; without one, nothing changes. */
  function ModifierStep<T>(s: BuilderState<T>, m: Modifier): (r: BuilderState<T>)
    ensures r.operations == s.operations && r.current.Some? == s.current.Some?
    ensures s.current.Some? ==>
      r.current.value.filter == s.current.value.filter && r.current.value.isUpsert == s.current.value.isUpsert
  {
    match s.current
    case Some(c) => BuilderState(s.operations, Some(c.(updates := Absorb(c.updates, m))))
    case None => s
  }

  /** The first entry of a variant is found by the variant alone. */
  lemma FirstMergeableByOp(us: seq<Modifier>, m: Modifier, n: Modifier)
    requires m.op == n.op
    ensures FirstMergeable(us, m) == FirstMergeable(us, n)
  {
  }

  /**
   * The modifier step as the comments at `add_update_type` intend it: the
   * payload of a `$each` variant is brought to `$each` form before it is
   * recorded, so the first recording of a field is a list that later
   * recordings extend. Merging into an existing entry is unaffected.
   */
  function NormalisedModifierStep<T>(s: BuilderState<T>, m: Modifier): (r: BuilderState<T>)
    ensures r.operations == s.operations && r.current.Some? == s.current.Some?
    ensures s.current.Some? && FirstMergeable(s.current.value.updates, m) < |s.current.value.updates| ==>
      r == ModifierStep(s, m)
    ensures s.current.Some? && FirstMergeable(s.current.value.updates, m) == |s.current.value.updates| ==>
      r.current.value.updates == s.current.value.updates + [Normalized(m)]
    ensures !EachOp(m.op) ==> r == ModifierStep(s, m)
  {
    if s.current.Some? then
      var us := s.current.value.updates;
      FirstMergeableByOp(us, m, Normalized(m));
      var i := FirstMergeable(us, m);
      if i < |us| then NormalisedMergeAgrees(us[i], m); ModifierStep(s, Normalized(m))
      else ModifierStep(s, Normalized(m))
    else ModifierStep(s, Normalized(m))
  }

  /** `upsert`: set the open context's flag; without one, nothing changes. */
  function UpsertStep<T>(s: BuilderState<T>, flag: bool): (r: BuilderState<T>)
    ensures r.operations == s.operations && r.current.Some? == s.current.Some?
    ensures s.current.Some? ==>
      r.current.value.filter == s.current.value.filter && r.current.value.updates == s.current.value.updates
      && r.current.value.isUpsert == flag
  {
    match s.current
    case Some(c) => BuilderState(s.operations, Some(c.(isUpsert := flag)))
    case None => s
  }

  /** `delete`, `delete_many` and `insert`: commit, then append the operation. */
  function AppendStep<T>(s: BuilderState<T>, op: WriteOperation<T>): (r: BuilderState<T>)
    ensures r.current.None?
    ensures |r.operations| == |CommittedLog(s)| + 1 && r.operations[|CommittedLog(s)|] == op
    ensures r.operations[..|s.operations|] == s.operations
  {
    BuilderState(CommittedLog(s) + [op], None)
  }

  /** Committing keeps the invariant and closes the context. */
  lemma CommitStepValid<T>(s: BuilderState<T>)
    requires ValidState(s)
    ensures DistinctFilters(CommittedLog(s)) && WellFormedUpdates(CommittedLog(s))
    ensures ValidState(CommitStep(s)) && CommitStep(s).current.None?
  {
    if s.current.Some? && s.current.value.updates != [] {
      var c := s.current.value;
      CommitKeepsInvariant(s.operations, c.filter, c.updates, c.isUpsert);
    }
  }

  /**
   * Opening a context for `f` keeps the invariant: whatever committed update
   * `f` reopens leaves the log, so no update left in the log has a filter
   * equal to `f`.
   */
  lemma AddUpdateStepValid<T>(s: BuilderState<T>, f: Document)
    requires ValidState(s) && WfDoc(f)
    ensures ValidState(AddUpdateStep(s, f))
    ensures FilterFree(AddUpdateStep(s, f).operations, f)
  {
    CommitStepValid(s);
    var log := CommittedLog(s);
    ReopenLeavesFilterFree(log, f);
    var i := FirstEqualUpdate(log, f);
    if i < |log| {
      assert log[i].UpdateOne? && Collapsed(log[i].updates);
    }
  }

  /** Absorbing a modifier keeps the invariant. */
  lemma ModifierStepValid<T>(s: BuilderState<T>, m: Modifier)
    requires ValidState(s)
    ensures ValidState(ModifierStep(s, m))
  {
    if s.current.Some? {
      AbsorbShape(s.current.value.updates, m);
    }
  }

  /** Appending a delete or an insert keeps the invariant. */
  lemma AppendStepValid<T>(s: BuilderState<T>, op: WriteOperation<T>)
    requires ValidState(s) && !op.UpdateOne?
    ensures ValidState(AppendStep(s, op))
  {
    CommitStepValid(s);
    var log := CommittedLog(s);
    var r := log + [op];
    forall i, j | 0 <= i < j < |r| && r[i].UpdateOne? && r[j].UpdateOne?
      ensures !DocEq(r[i].filter, r[j].filter)
    {
      assert r[i] == log[i] && r[j] == log[j];
    }
  }

  /**
   * Reopening keeps the modifiers: when `f` reopens a committed update, the
   * log committed afterwards is the old log with that update moved to the
   * end, under the new filter, with its modifiers and upsert flag intact.
   * Without a match the committed log is unchanged.
   */
  lemma ReopenMovesToEnd<T>(s: BuilderState<T>, f: Document)
    requires ValidState(s)
    ensures var log := CommittedLog(s);
      var i := FirstEqualUpdate(log, f);
      CommittedLog(AddUpdateStep(s, f)) ==
        if i < |log| then Remove(log, i) + [UpdateOne(f, log[i].updates, log[i].upsert)] else log
  {
    CommitStepValid(s);
  }

  /** The state of a new builder. */
  function Initial<T>(): (s: BuilderState<T>)
    ensures ValidState(s) && CommittedLog(s) == []
  {
    BuilderState([], None)
  }

  // ---------------------------------------------------------------------
  // The open update context
  // ---------------------------------------------------------------------

  /** `BatchUpdateContext`: the filter, modifiers and upsert flag of the update being built. */
  class BatchUpdateContext {
    var filter: Document
    var updates: seq<Modifier>
    var isUpsert: bool

    /** The context's fields as a value. */
    function Snapshot(): Context
      reads this
    {
      Context(filter, updates, isUpsert)
    }

    constructor (filter: Document, updates: seq<Modifier>, isUpsert: bool)
      ensures Snapshot() == Context(filter, updates, isUpsert)
    {
      this.filter := filter;
      this.updates := updates;
      this.isUpsert := isUpsert;
    }

    /** `add_update_type`: merge `m` into the first entry that accepts it, else append it. */
    method AddUpdateType(m: Modifier)
      modifies this
      ensures Snapshot() == old(Snapshot()).(updates := Absorb(old(updates), m))
    {
      var i := 0;
      while i < |updates|
        invariant 0 <= i <= |updates|
        invariant updates == old(updates)
        invariant forall j :: 0 <= j < i ==> updates[j].op != m.op
      {
        var merged := Merge(updates[i], m);
        if merged.Some? {
          AbsorbAt(updates, m, i);
          updates := updates[i := merged.value];
          return;
        }
        i := i + 1;
      }
      AbsorbNone(updates, m);
      updates := updates + [m];
    }
  }

  // ---------------------------------------------------------------------
  // The builder
  // ---------------------------------------------------------------------

  /** `BatchUpdateBuilder`: the committed log and the open context, if any. */
  class BatchUpdateBuilder<T> {
    var operations: seq<WriteOperation<T>>
    var ordered: bool
    var current: BatchUpdateContext?

    /** The builder's fields as a value. */
    function State(): BuilderState<T>
      reads this, current
    {
      BuilderState(operations, if current == null then None else Some(current.Snapshot()))
    }

    predicate Valid()
      reads this, current
    {
      ValidState(State())
    }

    /** `new`: an empty log, no open context, ordered writes. */
    constructor ()
      ensures Valid() && State() == Initial() && ordered
    {
      operations := [];
      ordered := true;
      current := null;
    }

    /** `ordered`: records the flag; the compile step never reads it. */
    method SetOrdered(flag: bool)
      modifies this
      ensures ordered == flag && operations == old(operations) && current == old(current)
    {
      ordered := flag;
    }

    /** `commit_context`: the open context joins the log if it holds modifiers; the context is closed either way. */
    method CommitContext()
      requires Valid()
      modifies this
      ensures Valid() && current == null
      ensures State() == CommitStep(old(State()))
      ensures ordered == old(ordered)
    {
      CommitStepValid(State());
      if current != null {
        if current.updates != [] {
          operations := operations + [UpdateOne(current.filter, current.updates, current.isUpsert)];
        }
        current := null;
      }
    }

    /** `add_update`: commit, then reopen the first committed update whose filter equals `filter`, or open an empty context. */
    method AddUpdate(filter: Document)
      requires Valid() && WfDoc(filter)
      modifies this
      ensures Valid() && current != null && fresh(current)
      ensures State() == AddUpdateStep(old(State()), filter)
      ensures ordered == old(ordered)
    {
      ghost var s := State();
      AddUpdateStepValid(s, filter);
      CommitContext();
      var i := FindEqualUpdate(operations, filter);
      if i < |operations| {
        var reopened := operations[i];
        operations := Remove(operations, i);
        current := new BatchUpdateContext(filter, reopened.updates, reopened.upsert);
      } else {
        current := new BatchUpdateContext(filter, [], false);
      }
    }

    /**
     * `set`, `unset`, `set_on_insert`, `push`, `push_each`, `pull`,
     * `pull_all`, `pop`, `add_to_set`, `add_to_set_each`, `inc`, `mul`,
     * `min`, `max`, `rename`, `current_date` and `bit`: the modifier of
     * variant `op` is absorbed into the open context.
     */
    method AddModifier(op: Op, doc: Document)
      requires Valid()
      modifies current
      ensures Valid()
      ensures State() == ModifierStep(old(State()), Modifier(op, doc))
    {
      ModifierStepValid(State(), Modifier(op, doc));
      if current != null {
        current.AddUpdateType(Modifier(op, doc));
      }
    }

    /** `upsert`: sets the open context's upsert flag. */
    method Upsert(flag: bool)
      requires Valid()
      modifies current
      ensures Valid()
      ensures State() == UpsertStep(old(State()), flag)
    {
      if current != null {
        current.isUpsert := flag;
      }
    }

    /** `delete`: commit, then append a DeleteOne. */
    method Delete(filter: Document)
      requires Valid()
      modifies this
      ensures Valid() && current == null
      ensures State() == AppendStep(old(State()), DeleteOne(filter))
      ensures ordered == old(ordered)
    {
      AppendStepValid(State(), DeleteOne(filter));
      CommitContext();
      operations := operations + [DeleteOne(filter)];
    }

    /** `delete_many`: commit, then append a DeleteMany. */
    method DeleteMany(filter: Document)
      requires Valid()
      modifies this
      ensures Valid() && current == null
      ensures State() == AppendStep(old(State()), WriteOperation.DeleteMany(filter))
      ensures ordered == old(ordered)
    {
      AppendStepValid(State(), WriteOperation.DeleteMany(filter));
      CommitContext();
      operations := operations + [WriteOperation.DeleteMany(filter)];
    }

    /** `insert`: commit, then append an InsertOne. */
    method Insert(document: T)
      requires Valid()
      modifies this
      ensures Valid() && current == null
      ensures State() == AppendStep(old(State()), InsertOne(document))
      ensures ordered == old(ordered)
    {
      AppendStepValid(State(), InsertOne(document));
      CommitContext();
      operations := operations + [InsertOne(document)];
    }

    /** `build`: commit the open context. */
    method Build()
      requires Valid()
      modifies this
      ensures Valid() && current == null
      ensures State() == CommitStep(old(State()))
      ensures ordered == old(ordered)
    {
      CommitContext();
    }

    /**
     * The selection and flattening inside `execute`: build, then emit the
     * write model of every operation the guard admits, in log order.
     */
    method Execute() returns (models: seq<WriteModel<T>>)
      requires Valid()
      modifies this
      ensures Valid() && current == null
      ensures State() == CommitStep(old(State()))
      ensures models == Compile(operations)
      ensures ordered == old(ordered)
    {
      Build();
      models := CompileOperations(operations);
    }
  }

  /** The search of `add_update`: the first committed update whose filter `documents_equal` relates to `f`. */
  method FindEqualUpdate<T>(ops: seq<WriteOperation<T>>, f: Document) returns (i: nat)
    ensures i == FirstEqualUpdate(ops, f)
  {
    i := 0;
    while i < |ops| && !(ops[i].UpdateOne? && DocEq(ops[i].filter, f))
      invariant 0 <= i <= |ops|
      invariant forall j :: 0 <= j < i ==> !(ops[j].UpdateOne? && DocEq(ops[j].filter, f))
    {
      i := i + 1;
    }
    assert i == FirstEqualUpdate(ops, f);
  }

  /** The `filter_map` of `execute`: the write model of every operation the guard admits, in order. */
  method CompileOperations<T>(ops: seq<WriteOperation<T>>) returns (models: seq<WriteModel<T>>)
    ensures models == Compile(ops)
  {
    models := [];
    for i := 0 to |ops|
      invariant models == Compile(ops[..i])
    {
      assert ops[..i + 1][..i] == ops[..i];
      match ops[i]
      case UpdateOne(f, us, upsert) =>
        if f != [] && us != [] {
          var doc := FlattenUpdates(us);
          models := models + [UpdateOneModel(f, doc, upsert)];
        }
      case DeleteOne(f) =>
        if f != [] {
          models := models + [DeleteOneModel(f)];
        }
      case DeleteMany(f) =>
        if f != [] {
          models := models + [DeleteManyModel(f)];
        }
      case InsertOne(d) =>
        models := models + [InsertOneModel(d)];
    }
    assert ops[..|ops|] == ops;
  }

  /** The update document of one update: every modifier's operator document inserted in turn. */
  method FlattenUpdates(us: seq<Modifier>) returns (doc: Document)
    ensures doc == UpdateDoc(us)
    ensures UniqueKeys(doc)
  {
    doc := [];
    for i := 0 to |us|
      invariant doc == Overlay(OperatorFields(us[..i]))
    {
      var d := ToDocument(us[i]);
      ghost var before := OperatorFields(us[..i]);
      OperatorFieldsSnoc(us, i);
      assert before + d[..0] == before;
      for j := 0 to |d|
        invariant doc == Overlay(before + d[..j])
      {
        OverlayStep(before, d, j);
        doc := Bson.Insert(doc, d[j].key, d[j].val);
      }
      assert d[..|d|] == d;
    }
    assert us[..|us|] == us;
    OverlayUnique(OperatorFields(us));
  }

  lemma OperatorFieldsSnoc(us: seq<Modifier>, i: nat)
    requires i < |us|
    ensures OperatorFields(us[..i + 1]) == OperatorFields(us[..i]) + ToDocument(us[i])
  {
    assert us[..i + 1][..i] == us[..i];
  }

  lemma OverlayStep(before: seq<Field>, d: seq<Field>, j: nat)
    requires j < |d|
    ensures Overlay(before + d[..j + 1]) == Insert(Overlay(before + d[..j]), d[j].key, d[j].val)
  {
    assert before + d[..j + 1] == (before + d[..j]) + [d[j]];
    OverlaySnoc(before + d[..j], d[j]);
  }
}

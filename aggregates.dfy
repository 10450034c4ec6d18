/**
 * The lazy aggregate and update builder: fluent calls record pipeline
 * stages and update operations, and two loops turn the records into the
 * pipeline of an aggregation and the update document of an update.
 */
module LazyAggregates {
  import opened Wrappers
  import opened Bson

  /** A `$lookup` join: the collection, the two joined fields, the output field and an optional sub-pipeline. */
  datatype LookupStage = LookupStage(
    from: string, localField: string, foreignField: string, asField: string,
    pipeline: Option<seq<Document>>)

  /** A recorded aggregation stage. */
  datatype PipelineStage =
    | Match(doc: Document)
    | Group(doc: Document)
    | Sort(doc: Document)
    | Limit(n: i64)
    | Skip(n: i64)
    | Project(doc: Document)
    | Lookup(lookup: LookupStage)
    | Unwind(path: string)
    | Count(field: string)
    | AddFields(doc: Document)
    | ReplaceRoot(doc: Document)
    | Facet(doc: Document)
    | Bucket(doc: Document)
    | SortByCount(expression: Value)
    | GraphLookup(doc: Document)
    | Out(collection: string)

  /** A recorded update operation. */
  datatype UpdateOperation =
    | Set(doc: Document)
    | Unset(doc: Document)
    | Pull(doc: Document)
    | Push(doc: Document)
    | AddToSet(doc: Document)
    | Inc(doc: Document)
    | Max(doc: Document)
    | Min(doc: Document)
    | Mul(doc: Document)
    | Rename(doc: Document)
    | CurrentDate(doc: Document)

  // ---------------------------------------------------------------------
  // Stage documents
  // ---------------------------------------------------------------------

  /** The operator a stage is emitted under. */
  function StageOperator(s: PipelineStage): string {
    match s
    case Match(_) => "$match"
    case Group(_) => "$group"
    case Sort(_) => "$sort"
    case Limit(_) => "$limit"
    case Skip(_) => "$skip"
    case Project(_) => "$project"
    case Lookup(_) => "$lookup"
    case Unwind(_) => "$unwind"
    case Count(_) => "$count"
    case AddFields(_) => "$addFields"
    case ReplaceRoot(_) => "$replaceRoot"
    case Facet(_) => "$facet"
    case Bucket(_) => "$bucket"
    case SortByCount(_) => "$sortByCount"
    case GraphLookup(_) => "$graphLookup"
    case Out(_) => "$out"
  }

  /** The array of a sub-pipeline: one embedded document per stage document. */
  function PipelineArray(p: seq<Document>): (r: seq<Value>)
    ensures |r| == |p| && forall i :: 0 <= i < |p| ==> r[i] == Doc(p[i])
  {
    seq(|p|, i requires 0 <= i < |p| => Doc(p[i]))
  }

  /** The body of a `$lookup` stage: the four join fields, then the sub-pipeline when one was supplied. */
  function LookupDoc(l: LookupStage): (r: Document)
    ensures UniqueKeys(r)
    ensures |r| >= 4 && FieldKeys(r)[..4] == ["from", "localField", "foreignField", "as"]
    ensures HasKey(r, "pipeline") <==> l.pipeline.Some?
  {
    var base := [Field("from", Str(l.from)), Field("localField", Str(l.localField)),
                 Field("foreignField", Str(l.foreignField)), Field("as", Str(l.asField))];
    match l.pipeline
    case Some(p) => Insert(base, "pipeline", Arr(PipelineArray(p)))
    case None => HasKeyIffInKeySet(base, "pipeline"); base
  }

  /** The value a stage is emitted with. */
  function StageValue(s: PipelineStage): Value {
    match s
    case Match(d) => Doc(d)
    case Group(d) => Doc(d)
    case Sort(d) => Doc(d)
    case Limit(n) => Int64(n)
    case Skip(n) => Int64(n)
    case Project(d) => Doc(d)
    case Lookup(l) => Doc(LookupDoc(l))
    case Unwind(path) => Str("$" + path)
    case Count(field) => Str(field)
    case AddFields(d) => Doc(d)
    case ReplaceRoot(d) => Doc(d)
    case Facet(d) => Doc(d)
    case Bucket(d) => Doc(d)
    case SortByCount(e) => e
    case GraphLookup(d) => Doc(d)
    case Out(c) => Str(c)
  }

  /** The document `build_pipeline` emits for one stage. */
  function StageDoc(s: PipelineStage): (r: Document)
    ensures |r| == 1 && |r[0].key| > 1 && r[0].key[0] == '$'
  {
    [Field(StageOperator(s), StageValue(s))]
  }

  /** The leading `$match` document of a filter. */
  function MatchDoc(filter: Document): Document {
    [Field("$match", Doc(filter))]
  }

  /** The stage operators are pairwise distinct: a stage document names its variant. */
  lemma StageOperatorInjective(s: PipelineStage, t: PipelineStage)
    ensures StageOperator(s) == StageOperator(t) <==> (
      && s.Match? == t.Match? && s.Group? == t.Group? && s.Sort? == t.Sort?
      && s.Limit? == t.Limit? && s.Skip? == t.Skip? && s.Project? == t.Project?
      && s.Lookup? == t.Lookup? && s.Unwind? == t.Unwind? && s.Count? == t.Count?
      && s.AddFields? == t.AddFields? && s.ReplaceRoot? == t.ReplaceRoot? && s.Facet? == t.Facet?
      && s.Bucket? == t.Bucket? && s.SortByCount? == t.SortByCount? && s.GraphLookup? == t.GraphLookup?
      && s.Out? == t.Out?)
  {
  }

  /**
   * A `$lookup` body always holds the four join fields, holds `pipeline`
   * exactly when a sub-pipeline was supplied, and then holds it last.
   */
  lemma LookupDocFields(l: LookupStage)
    ensures var d := LookupDoc(l);
      && Bson.Lookup(d, "from") == Some(Str(l.from))
      && Bson.Lookup(d, "localField") == Some(Str(l.localField))
      && Bson.Lookup(d, "foreignField") == Some(Str(l.foreignField))
      && Bson.Lookup(d, "as") == Some(Str(l.asField))
      && (HasKey(d, "pipeline") <==> l.pipeline.Some?)
      && (l.pipeline.Some? ==> |d| == 5 && d[4] == Field("pipeline", Arr(PipelineArray(l.pipeline.value))))
      && (l.pipeline.None? ==> |d| == 4)
  {
    var base := [Field("from", Str(l.from)), Field("localField", Str(l.localField)),
                 Field("foreignField", Str(l.foreignField)), Field("as", Str(l.asField))];
    assert UniqueKeys(base);
    LookupAt(base, 0);
    LookupAt(base, 1);
    LookupAt(base, 2);
    LookupAt(base, 3);
    HasKeyIffInKeySet(base, "pipeline");
    assert "pipeline" !in KeySet(base);
  }

  // ---------------------------------------------------------------------
  // Reading stage documents back
  // ---------------------------------------------------------------------

  /** The documents of an array whose items are all embedded documents. */
  function DocumentsOf(items: seq<Value>): Option<seq<Document>> {
    if forall i :: 0 <= i < |items| ==> items[i].Doc? then
      Some(seq(|items|, i requires 0 <= i < |items| && items[i].Doc? => items[i].fields))
    else None
  }

  /** The string stored under `k`, if it is one. */
  function StrField(d: Document, k: string): Option<string> {
    match Bson.Lookup(d, k)
    case Some(Str(s)) => Some(s)
    case _ => None
  }

  /** Reads a `$lookup` body back into its join. */
  function ParseLookup(d: Document): Option<LookupStage> {
    var source, local, foreign, asF := StrField(d, "from"), StrField(d, "localField"),
      StrField(d, "foreignField"), StrField(d, "as");
    if source.None? || local.None? || foreign.None? || asF.None? then None
    else
      match Bson.Lookup(d, "pipeline")
      case None => Some(LookupStage(source.value, local.value, foreign.value, asF.value, None))
      case Some(Arr(items)) =>
        var p := DocumentsOf(items);
        if p.None? then None
        else Some(LookupStage(source.value, local.value, foreign.value, asF.value, Some(p.value)))
      case Some(_) => None
  }

  /** Reads a single-key stage document back into the stage it was emitted for. */
  function ParseStage(d: Document): Option<PipelineStage> {
    if |d| != 1 then None
    else
      var k, v := d[0].key, d[0].val;
      if k == "$limit" then (if v.Int64? then Some(Limit(v.l)) else None)
      else if k == "$skip" then (if v.Int64? then Some(Skip(v.l)) else None)
      else if k == "$unwind" then
        (if v.Str? && |v.s| > 0 && v.s[0] == '$' then Some(Unwind(v.s[1..])) else None)
      else if k == "$count" then (if v.Str? then Some(Count(v.s)) else None)
      else if k == "$out" then (if v.Str? then Some(Out(v.s)) else None)
      else if k == "$sortByCount" then Some(SortByCount(v))
      else if k == "$lookup" then
        (if v.Doc? then (var l := ParseLookup(v.fields); if l.Some? then Some(Lookup(l.value)) else None) else None)
      else if !v.Doc? then None
      else if k == "$match" then Some(Match(v.fields))
      else if k == "$group" then Some(Group(v.fields))
      else if k == "$sort" then Some(Sort(v.fields))
      else if k == "$project" then Some(Project(v.fields))
      else if k == "$addFields" then Some(AddFields(v.fields))
      else if k == "$replaceRoot" then Some(ReplaceRoot(v.fields))
      else if k == "$facet" then Some(Facet(v.fields))
      else if k == "$bucket" then Some(Bucket(v.fields))
      else if k == "$graphLookup" then Some(GraphLookup(v.fields))
      else None
  }

  /** A sub-pipeline survives its embedding as an array. */
  lemma PipelineArrayRoundTrip(p: seq<Document>)
    ensures DocumentsOf(PipelineArray(p)) == Some(p)
  {
    var items := PipelineArray(p);
    var back := seq(|items|, i requires 0 <= i < |items| && items[i].Doc? => items[i].fields);
    assert back == p;
  }

  /** A `$lookup` body reads back into its join. */
  lemma LookupRoundTrip(l: LookupStage)
    ensures ParseLookup(LookupDoc(l)) == Some(l)
  {
    LookupDocFields(l);
    if l.pipeline.Some? {
      PipelineArrayRoundTrip(l.pipeline.value);
    }
  }

  /**
   * Every stage document reads back into the stage it was emitted for: the
   * emitted pipeline loses nothing of the recorded stages, an unwind path
   * included, whose `$` prefix is the only thing added.
   */
  lemma StageRoundTrip(s: PipelineStage)
    ensures ParseStage(StageDoc(s)) == Some(s)
  {
    match s
    case Lookup(l) => LookupRoundTrip(l);
    case Unwind(path) => assert ("$" + path)[1..] == path;
    case _ =>
  }

  /** Different stages emit different documents. */
  lemma StageDocInjective(s: PipelineStage, t: PipelineStage)
    ensures StageDoc(s) == StageDoc(t) ==> s == t
  {
    if StageDoc(s) == StageDoc(t) {
      StageRoundTrip(s);
      StageRoundTrip(t);
    }
  }

  // ---------------------------------------------------------------------
  // Update documents
  // ---------------------------------------------------------------------

  /** The operator an update operation is emitted under. */
  function UpdateOperator(op: UpdateOperation): string {
    match op
    case Set(_) => "$set"
    case Unset(_) => "$unset"
    case Pull(_) => "$pull"
    case Push(_) => "$push"
    case AddToSet(_) => "$addToSet"
    case Inc(_) => "$inc"
    case Max(_) => "$max"
    case Min(_) => "$min"
    case Mul(_) => "$mul"
    case Rename(_) => "$rename"
    case CurrentDate(_) => "$currentDate"
  }

  /** One `{<operator>: doc}` field per recorded operation, in recording order. */
  function UpdateFields(ops: seq<UpdateOperation>): (r: seq<Field>)
    ensures |r| == |ops| && forall i :: 0 <= i < |ops| ==> r[i] == Field(UpdateOperator(ops[i]), Doc(ops[i].doc))
  {
    seq(|ops|, i requires 0 <= i < |ops| => Field(UpdateOperator(ops[i]), Doc(ops[i].doc)))
  }

  /** The update document: every recorded operation inserted in turn under its operator. */
  function UpdateDoc(ops: seq<UpdateOperation>): (r: Document)
    ensures UniqueKeys(r)
  {
    OverlayUnique(UpdateFields(ops));
    Overlay(UpdateFields(ops))
  }

  /** The update document holds each recorded operator once, and no other key. */
  lemma UpdateDocKeys(ops: seq<UpdateOperation>, k: string)
    ensures UniqueKeys(UpdateDoc(ops))
    ensures HasKey(UpdateDoc(ops), k) <==> exists i :: 0 <= i < |ops| && UpdateOperator(ops[i]) == k
  {
    var fs := UpdateFields(ops);
    OverlayUnique(fs);
    OverlayKeys(fs, k);
    if HasKey(UpdateDoc(ops), k) {
      var i :| 0 <= i < |fs| && FieldKeys(fs)[i] == k;
      assert UpdateOperator(ops[i]) == k;
    }
    if exists i :: 0 <= i < |ops| && UpdateOperator(ops[i]) == k {
      var i :| 0 <= i < |ops| && UpdateOperator(ops[i]) == k;
      assert FieldKeys(fs)[i] == k;
    }
  }

  /**
   * An operator recorded more than once keeps only its last document,
   * whole: the earlier documents are replaced, not merged into it.
   */
  lemma UpdateDocLastWins(ops: seq<UpdateOperation>, i: nat)
    requires i < |ops|
    requires forall j :: i < j < |ops| ==> UpdateOperator(ops[j]) != UpdateOperator(ops[i])
    ensures Bson.Lookup(UpdateDoc(ops), UpdateOperator(ops[i])) == Some(Doc(ops[i].doc))
  {
    OverlayLastWins(UpdateFields(ops), i);
  }

  /** Recording one more operation inserts its field into the update document of the ones before it. */
  lemma UpdateFieldsSnoc(ops: seq<UpdateOperation>, i: nat)
    requires i < |ops|
    ensures Overlay(UpdateFields(ops[..i + 1])) ==
      Insert(Overlay(UpdateFields(ops[..i])), UpdateOperator(ops[i]), Doc(ops[i].doc))
  {
    var f := Field(UpdateOperator(ops[i]), Doc(ops[i].doc));
    assert UpdateFields(ops[..i + 1]) == UpdateFields(ops[..i]) + [f];
    OverlaySnoc(UpdateFields(ops[..i]), f);
  }

  /** Two `set` calls: the update document holds the second document alone. */
  lemma SetTwiceKeepsLast(a: Document, b: Document)
    ensures UpdateDoc([Set(a), Set(b)]) == [Field("$set", Doc(b))]
  {
    var fs := UpdateFields([Set(a), Set(b)]);
    assert fs[..1][..0] == [];
    assert Overlay(fs[..1]) == [Field("$set", Doc(a))];
  }

  // ---------------------------------------------------------------------
  // Update requests
  // ---------------------------------------------------------------------

  /** The update handed to the driver: filter, update document, upsert option, and whether it is `update_many`. */
  datatype UpdateRequest = UpdateRequest(filter: Document, update: Document, upsert: bool, many: bool)

  /**
   * `execute_update` as written: the upsert option is built and then
   * dropped, so the request never asks for an upsert.
   */
  function UpdateRequestAsWritten(filter: Option<Document>, ops: seq<UpdateOperation>, isUpsert: bool)
    : (r: Result<UpdateRequest, string>)
    ensures filter.None? <==> r == Failure("No filter specified")
    ensures filter.Some? ==> r.Success? && r.value.filter == filter.value && r.value.update == UpdateDoc(ops)
    ensures r.Success? ==> !r.value.upsert && !r.value.many
  {
    match filter
    case None => Failure("No filter specified")
    case Some(f) => Success(UpdateRequest(f, UpdateDoc(ops), false, false))
  }

  /**
   * The upsert flag has no effect on the request `execute_update` makes:
   * it is the corrected request with the flag off, and with a filter and
   * the flag on the two requests differ.
   */
  lemma UpsertFlagDropped(filter: Option<Document>, ops: seq<UpdateOperation>, isUpsert: bool)
    ensures UpdateRequestAsWritten(filter, ops, isUpsert) == UpdateOneRequest(filter, ops, false)
    ensures filter.Some? && isUpsert ==> UpdateRequestAsWritten(filter, ops, isUpsert) != UpdateOneRequest(filter, ops, isUpsert)
  {
  }

  /** `execute_update` with the upsert option it builds passed on. */
  function UpdateOneRequest(filter: Option<Document>, ops: seq<UpdateOperation>, isUpsert: bool)
    : (r: Result<UpdateRequest, string>)
    ensures filter.None? <==> r == Failure("No filter specified")
    ensures filter.Some? ==> r.Success? && r.value.filter == filter.value && r.value.update == UpdateDoc(ops)
    ensures r.Success? ==> r.value.upsert == isUpsert && !r.value.many
  {
    match filter
    case None => Failure("No filter specified")
    case Some(f) => Success(UpdateRequest(f, UpdateDoc(ops), isUpsert, false))
  }

  /** `execute_update_many`: no upsert option at all. */
  function UpdateManyRequest(filter: Option<Document>, ops: seq<UpdateOperation>): (r: Result<UpdateRequest, string>)
    ensures filter.None? <==> r == Failure("No filter specified")
    ensures filter.Some? ==> r.Success? && r.value.filter == filter.value && r.value.update == UpdateDoc(ops)
    ensures r.Success? ==> !r.value.upsert && r.value.many
  {
    match filter
    case None => Failure("No filter specified")
    case Some(f) => Success(UpdateRequest(f, UpdateDoc(ops), false, true))
  }

  // ---------------------------------------------------------------------
  // The builder
  // ---------------------------------------------------------------------

  /** `MongoAggregateBuilder`: the recorded stages and operations, the filter and the upsert flag. */
  class MongoAggregateBuilder<T> {
    var pipelineStages: seq<PipelineStage>
    var updateOperations: seq<UpdateOperation>
    var filter: Option<Document>
    var isUpsert: bool

    /** `new`: nothing recorded, no filter, no upsert. */
    constructor ()
      ensures pipelineStages == [] && updateOperations == [] && filter == None && !isUpsert
    {
      pipelineStages := [];
      updateOperations := [];
      filter := None;
      isUpsert := false;
    }

    /** `filter`: replaces any earlier filter. */
    method Filter(f: Document)
      modifies this
      ensures filter == Some(f)
      ensures pipelineStages == old(pipelineStages) && updateOperations == old(updateOperations)
      ensures isUpsert == old(isUpsert)
    {
      filter := Some(f);
    }

    /** `upsert`: records the flag. */
    method Upsert(flag: bool)
      modifies this
      ensures isUpsert == flag
      ensures pipelineStages == old(pipelineStages) && updateOperations == old(updateOperations)
      ensures filter == old(filter)
    {
      isUpsert := flag;
    }

    /** Appends one stage. */
    method RecordStage(s: PipelineStage)
      modifies this
      ensures pipelineStages == old(pipelineStages) + [s]
      ensures updateOperations == old(updateOperations) && filter == old(filter) && isUpsert == old(isUpsert)
    {
      pipelineStages := pipelineStages + [s];
    }

    /** Appends one update operation. */
    method RecordUpdate(op: UpdateOperation)
      modifies this
      ensures updateOperations == old(updateOperations) + [op]
      ensures pipelineStages == old(pipelineStages) && filter == old(filter) && isUpsert == old(isUpsert)
    {
      updateOperations := updateOperations + [op];
    }

    /** `lookup`: a join without a sub-pipeline. */
    method Lookup(from: string, localField: string, foreignField: string, asField: string)
      modifies this
      ensures pipelineStages ==
        old(pipelineStages) + [PipelineStage.Lookup(LookupStage(from, localField, foreignField, asField, None))]
      ensures updateOperations == old(updateOperations) && filter == old(filter) && isUpsert == old(isUpsert)
    {
      RecordStage(PipelineStage.Lookup(LookupStage(from, localField, foreignField, asField, None)));
    }

    /** `lookup_with_pipeline`: a join carrying a sub-pipeline. */
    method LookupWithPipeline(from: string, localField: string, foreignField: string, asField: string,
                              pipeline: seq<Document>)
      modifies this
      ensures pipelineStages ==
        old(pipelineStages) + [PipelineStage.Lookup(LookupStage(from, localField, foreignField, asField, Some(pipeline)))]
      ensures updateOperations == old(updateOperations) && filter == old(filter) && isUpsert == old(isUpsert)
    {
      RecordStage(PipelineStage.Lookup(LookupStage(from, localField, foreignField, asField, Some(pipeline))));
    }

    /** `unwind`. */
    method Unwind(path: string)
      modifies this
      ensures pipelineStages == old(pipelineStages) + [PipelineStage.Unwind(path)]
      ensures updateOperations == old(updateOperations) && filter == old(filter) && isUpsert == old(isUpsert)
    {
      RecordStage(PipelineStage.Unwind(path));
    }

    /** `group`. */
    method Group(group: Document)
      modifies this
      ensures pipelineStages == old(pipelineStages) + [PipelineStage.Group(group)]
      ensures updateOperations == old(updateOperations) && filter == old(filter) && isUpsert == old(isUpsert)
    {
      RecordStage(PipelineStage.Group(group));
    }

    /** `sort`. */
    method Sort(sort: Document)
      modifies this
      ensures pipelineStages == old(pipelineStages) + [PipelineStage.Sort(sort)]
      ensures updateOperations == old(updateOperations) && filter == old(filter) && isUpsert == old(isUpsert)
    {
      RecordStage(PipelineStage.Sort(sort));
    }

    /** `project`. */
    method Project(project: Document)
      modifies this
      ensures pipelineStages == old(pipelineStages) + [PipelineStage.Project(project)]
      ensures updateOperations == old(updateOperations) && filter == old(filter) && isUpsert == old(isUpsert)
    {
      RecordStage(PipelineStage.Project(project));
    }

    /** `add_fields`. */
    method AddFields(fields: Document)
      modifies this
      ensures pipelineStages == old(pipelineStages) + [PipelineStage.AddFields(fields)]
      ensures updateOperations == old(updateOperations) && filter == old(filter) && isUpsert == old(isUpsert)
    {
      RecordStage(PipelineStage.AddFields(fields));
    }

    /** `replace_root`. */
    method ReplaceRoot(newRoot: Document)
      modifies this
      ensures pipelineStages == old(pipelineStages) + [PipelineStage.ReplaceRoot(newRoot)]
      ensures updateOperations == old(updateOperations) && filter == old(filter) && isUpsert == old(isUpsert)
    {
      RecordStage(PipelineStage.ReplaceRoot(newRoot));
    }

    /** `facet`. */
    method Facet(facet: Document)
      modifies this
      ensures pipelineStages == old(pipelineStages) + [PipelineStage.Facet(facet)]
      ensures updateOperations == old(updateOperations) && filter == old(filter) && isUpsert == old(isUpsert)
    {
      RecordStage(PipelineStage.Facet(facet));
    }

    /** `set`. */
    method Set(update: Document)
      modifies this
      ensures updateOperations == old(updateOperations) + [UpdateOperation.Set(update)]
      ensures pipelineStages == old(pipelineStages) && filter == old(filter) && isUpsert == old(isUpsert)
    {
      RecordUpdate(UpdateOperation.Set(update));
    }

    /** `unset`. */
    method Unset(fields: Document)
      modifies this
      ensures updateOperations == old(updateOperations) + [UpdateOperation.Unset(fields)]
      ensures pipelineStages == old(pipelineStages) && filter == old(filter) && isUpsert == old(isUpsert)
    {
      RecordUpdate(UpdateOperation.Unset(fields));
    }

    /** `pull`. */
    method Pull(pull: Document)
      modifies this
      ensures updateOperations == old(updateOperations) + [UpdateOperation.Pull(pull)]
      ensures pipelineStages == old(pipelineStages) && filter == old(filter) && isUpsert == old(isUpsert)
    {
      RecordUpdate(UpdateOperation.Pull(pull));
    }

    /** `push`. */
    method Push(push: Document)
      modifies this
      ensures updateOperations == old(updateOperations) + [UpdateOperation.Push(push)]
      ensures pipelineStages == old(pipelineStages) && filter == old(filter) && isUpsert == old(isUpsert)
    {
      RecordUpdate(UpdateOperation.Push(push));
    }

    /** `add_to_set`. */
    method AddToSet(add: Document)
      modifies this
      ensures updateOperations == old(updateOperations) + [UpdateOperation.AddToSet(add)]
      ensures pipelineStages == old(pipelineStages) && filter == old(filter) && isUpsert == old(isUpsert)
    {
      RecordUpdate(UpdateOperation.AddToSet(add));
    }

    /** `inc`. */
    method Inc(inc: Document)
      modifies this
      ensures updateOperations == old(updateOperations) + [UpdateOperation.Inc(inc)]
      ensures pipelineStages == old(pipelineStages) && filter == old(filter) && isUpsert == old(isUpsert)
    {
      RecordUpdate(UpdateOperation.Inc(inc));
    }

    /**
     * `build_pipeline`: the `$match` of the filter first, when there is
     * one, then one document per recorded stage, in recording order.
     */
    method BuildPipeline() returns (pipeline: seq<Document>)
      ensures var off := if filter.Some? then 1 else 0;
        && |pipeline| == off + |pipelineStages|
        && (filter.Some? ==> pipeline[0] == MatchDoc(filter.value))
        && (forall i :: 0 <= i < |pipelineStages| ==> pipeline[off + i] == StageDoc(pipelineStages[i]))
        && forall i :: 0 <= i < |pipelineStages| ==> ParseStage(pipeline[off + i]) == Some(pipelineStages[i])
    {
      pipeline := [];
      if filter.Some? {
        pipeline := pipeline + [MatchDoc(filter.value)];
      }
      var off := |pipeline|;
      for i := 0 to |pipelineStages|
        invariant |pipeline| == off + i
        invariant filter.Some? ==> pipeline[0] == MatchDoc(filter.value)
        invariant forall j :: 0 <= j < i ==> pipeline[off + j] == StageDoc(pipelineStages[j])
      {
        pipeline := pipeline + [StageDoc(pipelineStages[i])];
      }
      forall i | 0 <= i < |pipelineStages| ensures ParseStage(pipeline[off + i]) == Some(pipelineStages[i]) {
        StageRoundTrip(pipelineStages[i]);
      }
    }

    /** `build_update_doc`: every recorded operation inserted in turn under its operator. */
    method BuildUpdateDoc() returns (update: Document)
      ensures update == UpdateDoc(updateOperations)
      ensures UniqueKeys(update)
    {
      update := [];
      for i := 0 to |updateOperations|
        invariant update == Overlay(UpdateFields(updateOperations[..i]))
      {
        var op := updateOperations[i];
        UpdateFieldsSnoc(updateOperations, i);
        update := Insert(update, UpdateOperator(op), Doc(op.doc));
      }
      assert updateOperations[..|updateOperations|] == updateOperations;
      OverlayUnique(UpdateFields(updateOperations));
    }

    /**
     * `execute_update` as written: refuses without a filter; otherwise the
     * update of the recorded operations, with the upsert option dropped.
     */
    method ExecuteUpdate() returns (r: Result<UpdateRequest, string>)
      ensures r == UpdateRequestAsWritten(filter, updateOperations, isUpsert)
    {
      if filter.Some? {
        var update := BuildUpdateDoc();
        r := Success(UpdateRequest(filter.value, update, false, false));
      } else {
        r := Failure("No filter specified");
      }
    }

    /** `execute_update` with the upsert option it builds passed to the driver. */
    method ExecuteUpdateWithOptions() returns (r: Result<UpdateRequest, string>)
      ensures r == UpdateOneRequest(filter, updateOperations, isUpsert)
    {
      if filter.Some? {
        var update := BuildUpdateDoc();
        r := Success(UpdateRequest(filter.value, update, isUpsert, false));
      } else {
        r := Failure("No filter specified");
      }
    }

    /** `execute_update_many`: refuses without a filter; otherwise the update of the recorded operations. */
    method ExecuteUpdateMany() returns (r: Result<UpdateRequest, string>)
      ensures r == UpdateManyRequest(filter, updateOperations)
    {
      if filter.Some? {
        var update := BuildUpdateDoc();
        r := Success(UpdateRequest(filter.value, update, false, true));
      } else {
        r := Failure("No filter specified");
      }
    }
  }
}

/** The ORM the mixin reads from, reduced to what the export uses: model
    metadata (`_meta.fields`, `_meta.get_field`, `field.verbose_name`,
    `field.rel.to`) and a queryset's `values_list`. */
module Models {

  import opened Wrappers
  import opened Values

  /** One model field. A relation field carries the metadata of the model it
      points to (`rel.to`); other fields carry None (`rel` is None). */
  datatype FieldMeta = FieldMeta(name: string, verboseName: string, related: Option<ModelMeta>)

  /** A model's `_meta`: its concrete fields in declaration order. */
  datatype ModelMeta = ModelMeta(name: string, fields: seq<FieldMeta>)

  /** `[f.name for f in model._meta.fields]`. */
  function FieldNames(m: ModelMeta): (r: seq<string>)
    ensures |r| == |m.fields|
    ensures forall i :: 0 <= i < |r| ==> r[i] == m.fields[i].name
  {
    seq(|m.fields|, i requires 0 <= i < |m.fields| => m.fields[i].name)
  }

  function GetFieldFrom(fields: seq<FieldMeta>, name: string): (r: Result<FieldMeta, Error>)
    ensures r.Success? <==> exists i :: 0 <= i < |fields| && fields[i].name == name
    ensures r.Success? ==> r.value in fields && r.value.name == name
    ensures r.Failure? ==> r.error == FieldDoesNotExist(name)
  {
    if fields == [] then Failure(FieldDoesNotExist(name))
    else if fields[0].name == name then Success(fields[0])
    else
      var r := GetFieldFrom(fields[1..], name);
      assert forall i :: 1 <= i < |fields| ==> fields[i] == fields[1..][i - 1];
      r
  }

  /** `model._meta.get_field(name)`: the field of that name, or
      FieldDoesNotExist. */
  function GetField(m: ModelMeta, name: string): (r: Result<FieldMeta, Error>)
    ensures r.Success? <==> name in FieldNames(m)
    ensures r.Success? ==> r.value in m.fields && r.value.name == name
    ensures r.Failure? ==> r.error == FieldDoesNotExist(name)
  {
    GetFieldFrom(m.fields, name)
  }

  /** A fetched record: column reference to value. */
  type Record = map<string, Value>

  /** A queryset: the model it ranges over, its records in iteration order,
      the column references `values_list` accepts, and, for a values
      queryset, its `field_names`. */
  datatype QuerySet = QuerySet(
    model: ModelMeta,
    records: seq<Record>,
    columns: set<string>,
    fieldNames: Option<seq<string>>)

  /** Every accepted column is present in every record, and every field of
      the model is an accepted column. */
  predicate ValidQuerySet(qs: QuerySet)
  {
    && (forall i, c :: 0 <= i < |qs.records| && c in qs.columns ==> c in qs.records[i])
    && (forall i :: 0 <= i < |qs.model.fields| ==> qs.model.fields[i].name in qs.columns)
  }

  /** The first column of `cols` that is not in `accepted`, if any. */
  function MissingColumn(cols: seq<string>, accepted: set<string>): (r: Option<string>)
    ensures r.None? <==> forall c :: c in cols ==> c in accepted
    ensures r.Some? ==> exists i :: 0 <= i < |cols| && cols[i] == r.value && r.value !in accepted
                                    && forall k :: 0 <= k < i ==> cols[k] in accepted
  {
    if cols == [] then None
    else if cols[0] !in accepted then Some(cols[0])
    else
      var r := MissingColumn(cols[1..], accepted);
      assert forall i :: 1 <= i < |cols| ==> cols[i] == cols[1..][i - 1];
      assert forall c :: c in cols ==> c == cols[0] || c in cols[1..];
      r
  }

  /** One record restricted to the columns `cols`, in that order. */
  function FetchRow(rec: Record, cols: seq<string>): (r: seq<Value>)
    requires forall c :: c in cols ==> c in rec
    ensures |r| == |cols|
    ensures forall j :: 0 <= j < |cols| ==> r[j] == rec[cols[j]]
  {
    seq(|cols|, j requires 0 <= j < |cols| => rec[cols[j]])
  }

  /** `queryset.values_list(*cols)`: one tuple per record, in iteration
      order, or FieldError for the first column the query does not know. */
  function Fetch(qs: QuerySet, cols: seq<string>): (r: Result<seq<seq<Value>>, Error>)
    requires ValidQuerySet(qs)
    ensures r.Success? <==> forall c :: c in cols ==> c in qs.columns
    ensures r.Failure? ==> MissingColumn(cols, qs.columns).Some?
                           && r.error == FieldError(MissingColumn(cols, qs.columns).value)
    ensures r.Success? ==> |r.value| == |qs.records|
    ensures r.Success? ==> forall i :: 0 <= i < |qs.records| ==> r.value[i] == FetchRow(qs.records[i], cols)
  {
    match MissingColumn(cols, qs.columns)
    case Some(c) => Failure(FieldError(c))
    case None =>
      Success(seq(|qs.records|, i requires 0 <= i < |qs.records| => FetchRow(qs.records[i], cols)))
  }

  /** `queryset.values_list()` with no columns: every field of the model. */
  function FetchAll(qs: QuerySet): (r: seq<seq<Value>>)
    requires ValidQuerySet(qs)
    ensures |r| == |qs.records|
    ensures forall i :: 0 <= i < |qs.records| ==> r[i] == FetchRow(qs.records[i], FieldNames(qs.model))
  {
    var names := FieldNames(qs.model);
    assert forall c :: c in names ==> c in qs.columns;
    Fetch(qs, names).value
  }
}

/** `generate_data`: the column plan that maps each requested field onto a
    run of raw columns of one `values_list` call, and the rows built from it. */
module ColumnPlan {

  import opened Wrappers
  import opened Values
  import opened Models
  import opened Config

  /** One entry of `field_maps`: the field, its calculated field (None for a
      direct field) and the offset of its first raw column. */
  datatype PlanEntry = PlanEntry(field: string, calculated: Option<Calc>, offset: nat)

  /** The raw columns one field adds: a calculated field's declared `fields`,
      or the field name itself. */
  function Contribution(attrs: map<string, Attr>, f: string): seq<string>
  {
    match GetCalculatedField(attrs, f)
    case Some(c) => c.fields
    case None => [f]
  }

  /** The `columns` list after the first `n` fields: their contributions
      appended in field order, without deduplication. */
  function ColumnsOf(attrs: map<string, Attr>, fields: seq<string>, n: nat): seq<string>
    requires n <= |fields|
  {
    if n == 0 then [] else ColumnsOf(attrs, fields, n - 1) + Contribution(attrs, fields[n - 1])
  }

  /** The `columns` list passed to `values_list` for `fields`. */
  function Columns(attrs: map<string, Attr>, fields: seq<string>): seq<string>
  {
    ColumnsOf(attrs, fields, |fields|)
  }

  /** The offset of field `j`'s first raw column: the number of columns the
      fields before it contribute. */
  function Offset(attrs: map<string, Attr>, fields: seq<string>, j: nat): nat
    requires j <= |fields|
  {
    |ColumnsOf(attrs, fields, j)|
  }

  /** The number of raw columns, summed field by field from the front. */
  function TotalWidth(attrs: map<string, Attr>, fields: seq<string>): nat
  {
    if fields == [] then 0 else |Contribution(attrs, fields[0])| + TotalWidth(attrs, fields[1..])
  }

  lemma {:induction false} ColumnsOfTail(attrs: map<string, Attr>, fields: seq<string>, n: nat)
    requires 1 <= n <= |fields|
    ensures ColumnsOf(attrs, fields, n) == Contribution(attrs, fields[0]) + ColumnsOf(attrs, fields[1..], n - 1)
  {
    if n > 1 {
      ColumnsOfTail(attrs, fields, n - 1);
      assert fields[1..][n - 2] == fields[n - 1];
    }
  }

  /** `|columns|` is the sum of the widths of the fields' contributions. */
  lemma {:induction false} ColumnCount(attrs: map<string, Attr>, fields: seq<string>)
    ensures |Columns(attrs, fields)| == TotalWidth(attrs, fields)
    decreases |fields|
  {
    if fields != [] {
      ColumnsOfTail(attrs, fields, |fields|);
      ColumnCount(attrs, fields[1..]);
    }
  }

  /** The columns of the first `i` fields are a prefix of those of the first `n`. */
  lemma {:induction false} ColumnsPrefix(attrs: map<string, Attr>, fields: seq<string>, i: nat, n: nat)
    requires i <= n <= |fields|
    ensures ColumnsOf(attrs, fields, i) <= ColumnsOf(attrs, fields, n)
    decreases n - i
  {
    if i < n {
      ColumnsPrefix(attrs, fields, i, n - 1);
    }
  }

  /** Field `j` owns the columns `[offset, offset + width)`, where `offset` is
      the number of columns of the fields before it; they are exactly its
      contribution, so a direct field's one column is its own name. */
  lemma {:induction false} EntryLayout(attrs: map<string, Attr>, fields: seq<string>, j: nat)
    requires j < |fields|
    ensures var off := Offset(attrs, fields, j);
            var w := Contribution(attrs, fields[j]);
            && off + |w| <= |Columns(attrs, fields)|
            && Columns(attrs, fields)[off..off + |w|] == w
            && (GetCalculatedField(attrs, fields[j]).None? ==> Columns(attrs, fields)[off] == fields[j])
  {
    ColumnsPrefix(attrs, fields, j + 1, |fields|);
  }

  /** Entries do not overlap: a later entry starts at or after the end of an
      earlier one. */
  lemma {:induction false} EntriesDisjoint(attrs: map<string, Attr>, fields: seq<string>, i: nat, j: nat)
    requires i < j < |fields|
    ensures Offset(attrs, fields, i) + |Contribution(attrs, fields[i])| <= Offset(attrs, fields, j)
  {
    ColumnsPrefix(attrs, fields, i + 1, j);
  }

  /** What a field exports for one record: the record's value of a direct
      field, or the calculated field applied to the values of its declared
      inputs in declared order. */
  function FieldValue(attrs: map<string, Attr>, f: string, rec: Record): Value
    requires forall c :: c in Contribution(attrs, f) ==> c in rec
  {
    match GetCalculatedField(attrs, f)
    case None => rec[f]
    case Some(c) => c.fn(FetchRow(rec, c.fields))
  }

  /** Every column a field contributes is fetched. */
  lemma {:induction false} ContributionFetched(attrs: map<string, Attr>, fields: seq<string>, j: nat)
    requires j < |fields|
    ensures forall c :: c in Contribution(attrs, fields[j]) ==> c in Columns(attrs, fields)
  {
    EntryLayout(attrs, fields, j);
    var off := Offset(attrs, fields, j);
    var w := Contribution(attrs, fields[j]);
    forall c | c in w
      ensures c in Columns(attrs, fields)
    {
      var k :| 0 <= k < |w| && w[k] == c;
      assert Columns(attrs, fields)[off + k] == c;
    }
  }

  /** What field `j` of `fields` exports for a record that holds every
      fetched column: `FieldValue` of that field alone. */
  function ExportedValue(attrs: map<string, Attr>, fields: seq<string>, j: nat, rec: Record): Value
    requires j < |fields|
    requires forall c :: c in Columns(attrs, fields) ==> c in rec
  {
    ContributionFetched(attrs, fields, j);
    FieldValue(attrs, fields[j], rec)
  }

  /** The exported tuple of one record: each field's value, field by field. */
  function ExportRecord(attrs: map<string, Attr>, fields: seq<string>, rec: Record): seq<Value>
    requires forall c :: c in Columns(attrs, fields) ==> c in rec
  {
    seq(|fields|, j requires 0 <= j < |fields| => ExportedValue(attrs, fields, j, rec))
  }

  /** What iterating `generate_data` yields, defined field by field with no
      column plan: the resolved queryset's raw rows when there are no fields,
      the values-list error when a needed column is missing, and otherwise
      one exported tuple per record. */
  function ExportRows(view: View, queryset: Option<QuerySet>, fields: seq<string>): Result<seq<seq<Value>>, Error>
    requires queryset.Some? ==> ValidQuerySet(queryset.value)
    requires view.queryset.Present? ==> ValidQuerySet(view.queryset.value)
  {
    var qs :- ResolveQuerySet(queryset, view.queryset);
    if fields == [] then Success(FetchAll(qs))
    else
      var fetched :- Fetch(qs, Columns(view.attrs, fields));
      Success(seq(|qs.records|, i requires 0 <= i < |qs.records| => ExportRecord(view.attrs, fields, qs.records[i])))
  }

  /** In a fetched row, the slice that belongs to field `j` holds the values
      of exactly that field's contribution, whatever else the other fields
      fetch. */
  lemma {:induction false} EntryReadsDeclaredInputs(attrs: map<string, Attr>, fields: seq<string>, j: nat, rec: Record)
    requires j < |fields|
    requires forall c :: c in Columns(attrs, fields) ==> c in rec
    ensures forall c :: c in Contribution(attrs, fields[j]) ==> c in rec
    ensures var off := Offset(attrs, fields, j);
            var w := Contribution(attrs, fields[j]);
            var row := FetchRow(rec, Columns(attrs, fields));
            && off + |w| <= |row|
            && row[off..off + |w|] == FetchRow(rec, w)
  {
    EntryLayout(attrs, fields, j);
  }

  /** What the inner loop of `generate_data` computes for field `j` from a
      fetched row is that field's exported value: `row[offset]` for a direct
      field, the calculated field called with
      `row[offset:offset + len(fields)]` otherwise. */
  lemma {:induction false} EntryValue(attrs: map<string, Attr>, fields: seq<string>, j: nat, rec: Record)
    requires j < |fields|
    requires forall c :: c in Columns(attrs, fields) ==> c in rec
    ensures var off := Offset(attrs, fields, j);
            var row := FetchRow(rec, Columns(attrs, fields));
            match GetCalculatedField(attrs, fields[j])
            case None => off < |row| && row[off] == ExportedValue(attrs, fields, j, rec)
            case Some(c) => off + |c.fields| <= |row| && c.fn(row[off..off + |c.fields|]) == ExportedValue(attrs, fields, j, rec)
  {
    EntryReadsDeclaredInputs(attrs, fields, j, rec);
    var off := Offset(attrs, fields, j);
    var row := FetchRow(rec, Columns(attrs, fields));
    if GetCalculatedField(attrs, fields[j]).None? {
      assert row[off] == row[off..off + 1][0];
    }
  }

  /** `plan` is the `field_maps` list for `fields`: one entry per field, in
      field order, recording the field, its calculated field and its offset. */
  ghost predicate IsPlanFor(attrs: map<string, Attr>, fields: seq<string>, plan: seq<PlanEntry>)
  {
    && |plan| == |fields|
    && (forall j {:trigger plan[j]} :: 0 <= j < |fields| ==> plan[j].field == fields[j])
    && (forall j {:trigger plan[j]} :: 0 <= j < |fields| ==> plan[j].calculated == GetCalculatedField(attrs, fields[j]))
    && (forall j {:trigger plan[j]} :: 0 <= j < |fields| ==> plan[j].offset == Offset(attrs, fields, j))
  }

  /** The first loop of `generate_data`: build `columns` and `field_maps`. */
  method BuildColumnPlan(attrs: map<string, Attr>, fields: seq<string>) returns (columns: seq<string>, plan: seq<PlanEntry>)
    ensures columns == Columns(attrs, fields)
    ensures IsPlanFor(attrs, fields, plan)
  {
    columns := [];
    plan := [];
    for i := 0 to |fields|
      invariant columns == ColumnsOf(attrs, fields, i)
      invariant |plan| == i
      invariant forall j {:trigger plan[j]} :: 0 <= j < i ==> plan[j].field == fields[j]
      invariant forall j {:trigger plan[j]} :: 0 <= j < i ==> plan[j].calculated == GetCalculatedField(attrs, fields[j])
      invariant forall j {:trigger plan[j]} :: 0 <= j < i ==> plan[j].offset == Offset(attrs, fields, j)
    {
      var field := fields[i];
      var calculated := GetCalculatedField(attrs, field);
      var fieldMap := PlanEntry(field, calculated, |columns|);
      if calculated.Some? {
        columns := columns + calculated.value.fields;
      } else {
        columns := columns + [field];
      }
      plan := plan + [fieldMap];
    }
  }

  /** The inner loop of `generate_data`: one output tuple from one fetched
      row, a direct field taking `row[offset]` and a calculated field being
      called with `row[offset:offset + len(fields)]`. */
  method EvaluateRow(attrs: map<string, Attr>, fields: seq<string>, plan: seq<PlanEntry>, rec: Record, row: seq<Value>)
    returns (valuesOut: seq<Value>)
    requires IsPlanFor(attrs, fields, plan)
    requires forall c :: c in Columns(attrs, fields) ==> c in rec
    requires row == FetchRow(rec, Columns(attrs, fields))
    ensures |valuesOut| == |fields|
    ensures forall j :: 0 <= j < |fields| ==> valuesOut[j] == ExportedValue(attrs, fields, j, rec)
  {
    valuesOut := [];
    for j := 0 to |plan|
      invariant |valuesOut| == j
      invariant forall t {:trigger valuesOut[t]} :: 0 <= t < j ==> valuesOut[t] == ExportedValue(attrs, fields, t, rec)
    {
      var entry := plan[j];
      assert entry.calculated == GetCalculatedField(attrs, fields[j]);
      assert entry.offset == Offset(attrs, fields, j);
      EntryValue(attrs, fields, j, rec);
      var value;
      if entry.calculated.None? {
        value := row[entry.offset];
      } else {
        var calculated := entry.calculated.value;
        var length := |calculated.fields|;
        value := calculated.fn(row[entry.offset..entry.offset + length]);
      }
      valuesOut := valuesOut + [value];
    }
  }

  /** `generate_data(queryset, fields)`, with the generator's output collected
      into a sequence. With fields, every record yields one tuple with one
      value per field, in field order; without, every row of `values_list()`
      is passed through unchanged. */
  method GenerateData(view: View, queryset: Option<QuerySet>, fields: seq<string>)
    returns (r: Result<seq<seq<Value>>, Error>)
    requires queryset.Some? ==> ValidQuerySet(queryset.value)
    requires view.queryset.Present? ==> ValidQuerySet(view.queryset.value)
    ensures r == ExportRows(view, queryset, fields)
    ensures ResolveQuerySet(queryset, view.queryset).Failure? ==>
              r == Failure(ResolveQuerySet(queryset, view.queryset).error)
    ensures ResolveQuerySet(queryset, view.queryset).Success? ==>
              var qs := ResolveQuerySet(queryset, view.queryset).value;
              var columns := Columns(view.attrs, fields);
              && (r.Success? <==> fields == [] || forall c :: c in columns ==> c in qs.columns)
              && (r.Failure? ==> r == Fetch(qs, columns))
              && (r.Success? && fields == [] ==> r.value == FetchAll(qs))
              && (r.Success? && fields != [] ==>
                    && |r.value| == |qs.records|
                    && forall i :: 0 <= i < |qs.records| ==>
                         && |r.value[i]| == |fields|
                         && forall j :: 0 <= j < |fields| ==>
                              r.value[i][j] == ExportedValue(view.attrs, fields, j, qs.records[i]))
  {
    var resolved := ResolveQuerySet(queryset, view.queryset);
    if resolved.Failure? {
      return Failure(resolved.error);
    }
    var qs := resolved.value;
    if |fields| > 0 {
      var columns, plan := BuildColumnPlan(view.attrs, fields);
      var fetched := Fetch(qs, columns);
      if fetched.Failure? {
        return fetched;
      }
      var rows := fetched.value;
      var out: seq<seq<Value>> := [];
      for i := 0 to |rows|
        invariant |out| == i
        invariant forall k :: 0 <= k < i ==> |out[k]| == |fields|
        invariant forall k, j :: 0 <= k < i && 0 <= j < |fields| ==>
                    out[k][j] == ExportedValue(view.attrs, fields, j, qs.records[k])
      {
        var valuesOut := EvaluateRow(view.attrs, fields, plan, qs.records[i], rows[i]);
        out := out + [valuesOut];
      }
      forall k | 0 <= k < |out|
        ensures out[k] == ExportRecord(view.attrs, fields, qs.records[k])
      {
      }
      ghost var expected := seq(|qs.records|, i requires 0 <= i < |qs.records| => ExportRecord(view.attrs, fields, qs.records[i]));
      assert out == expected;
      assert ExportRows(view, queryset, fields) == Success(expected);
      return Success(out);
    } else {
      var rows := FetchAll(qs);
      var out: seq<seq<Value>> := [];
      for i := 0 to |rows|
        invariant out == rows[..i]
      {
        out := out + [rows[i]];
      }
      assert rows[..|rows|] == rows;
      return Success(out);
    }
  }
}

/** `render_setup`: resolve the queryset, the fields and the headers of a
    render call and set up the rows. */
module Render {

  import opened Wrappers
  import opened Values
  import opened Models
  import opened Config
  import opened ColumnPlan
  import opened Headers

  /** The keyword arguments a render call forwards to `render_setup`: an
      omitted keyword is None. */
  datatype Kwargs = Kwargs(
    queryset: Option<QuerySet>,
    fields: Option<seq<string>>,
    model: Option<ModelMeta>,
    headers: Option<seq<string>>)

  /** Every queryset the call can reach holds its own columns. */
  predicate ValidInputs(view: View, kw: Kwargs)
  {
    && (kw.queryset.Some? ==> ValidQuerySet(kw.queryset.value))
    && (view.queryset.Present? ==> ValidQuerySet(view.queryset.value))
  }

  /** The fields of the call, as `get_fields(**kwargs)` resolves them. */
  function SetupFields(view: View, kw: Kwargs): seq<string>
  {
    GetFields(kw.fields, kw.model, view)
  }

  /** The headers `render_setup` settles on: a non-empty `headers` keyword
      verbatim, otherwise the labels generated from the queryset's model
      (NoModel when the queryset is None). Resolving the queryset comes
      first and can fail with NoQueryset. */
  function SetupHeaders(view: View, kw: Kwargs): (r: Result<seq<string>, Error>)
    ensures GetQueryset(kw.queryset, view.queryset).Failure? ==> r == Failure(NoQueryset)
    ensures GetQueryset(kw.queryset, view.queryset).Success? && kw.headers.Some? && kw.headers.value != [] ==>
              r == Success(kw.headers.value)
    ensures GetQueryset(kw.queryset, view.queryset).Success? && (kw.headers.None? || kw.headers.value == []) ==>
              match GetQueryset(kw.queryset, view.queryset).value
              case None => r == Failure(NoModel)
              case Some(qs) => r == GenerateHeaders(view.attrs, qs.model, SetupFields(view, kw))
  {
    var queryset :- GetQueryset(kw.queryset, view.queryset);
    if kw.headers.Some? && kw.headers.value != [] then Success(kw.headers.value)
    else if queryset.None? then Failure(NoModel)
    else GenerateHeaders(view.attrs, queryset.value.model, SetupFields(view, kw))
  }

  /** What the data generator of `render_setup` yields once iterated. */
  function SetupData(view: View, kw: Kwargs): Result<seq<seq<Value>>, Error>
    requires ValidInputs(view, kw)
    requires GetQueryset(kw.queryset, view.queryset).Success?
  {
    ExportRows(view, GetQueryset(kw.queryset, view.queryset).value, SetupFields(view, kw))
  }

  /** Generated headers and generated rows agree in width: with fields
      given, every exported row has one value under each header. */
  lemma HeadersFitRows(view: View, kw: Kwargs)
    requires ValidInputs(view, kw)
    requires GetQueryset(kw.queryset, view.queryset).Success?
    requires kw.headers.None? || kw.headers.value == []
    requires SetupHeaders(view, kw).Success? && SetupData(view, kw).Success?
    requires SetupFields(view, kw) != []
    ensures forall row :: row in SetupData(view, kw).value ==> |row| == |SetupHeaders(view, kw).value|
  {
    var queryset := GetQueryset(kw.queryset, view.queryset).value;
    var fields := SetupFields(view, kw);
    var qs := ResolveQuerySet(queryset, view.queryset).value;
    assert |SetupHeaders(view, kw).value| == |fields|;
    assert SetupData(view, kw).value == seq(|qs.records|, i requires 0 <= i < |qs.records| => ExportRecord(view.attrs, fields, qs.records[i]));
  }

  /** With no fields and no `headers` keyword, the generated header tuple is
      empty while the rows are the queryset's whole `values_list()` rows. */
  lemma EmptyFieldsSetup(view: View, kw: Kwargs)
    requires ValidInputs(view, kw)
    requires GetQueryset(kw.queryset, view.queryset).Success?
    requires GetQueryset(kw.queryset, view.queryset).value.Some?
    requires kw.headers.None? || kw.headers.value == []
    requires SetupFields(view, kw) == []
    ensures SetupHeaders(view, kw) == Success([])
    ensures SetupData(view, kw) == Success(FetchAll(GetQueryset(kw.queryset, view.queryset).value.value))
  {
  }

  /** A `render_setup` result: the rows (the generator, whose error, if any,
      is raised only while it is iterated) and the headers. */
  datatype Setup = Setup(data: Result<seq<seq<Value>>, Error>, headers: seq<string>)

  /** `render_setup(**kwargs)`: resolves the queryset and the fields, sets up
      the rows, then chooses the headers. */
  method RenderSetup(view: View, kw: Kwargs) returns (r: Result<Setup, Error>)
    requires ValidInputs(view, kw)
    ensures r.Success? <==> SetupHeaders(view, kw).Success?
    ensures r.Failure? ==> r.error == SetupHeaders(view, kw).error
    ensures r.Success? ==> r.value.headers == SetupHeaders(view, kw).value
    ensures r.Success? ==> r.value.data == SetupData(view, kw)
  {
    var got := GetQueryset(kw.queryset, view.queryset);
    if got.Failure? {
      return Failure(got.error);
    }
    var queryset := got.value;
    var fields := GetFields(kw.fields, kw.model, view);
    var data := GenerateData(view, queryset, fields);
    var headers: seq<string>;
    if kw.headers.Some? && kw.headers.value != [] {
      headers := kw.headers.value;
    } else if queryset.None? {
      return Failure(NoModel);
    } else {
      var generated := GenerateHeaders(view.attrs, queryset.value.model, fields);
      if generated.Failure? {
        return Failure(generated.error);
      }
      headers := generated.value;
    }
    return Success(Setup(data, headers));
  }
}

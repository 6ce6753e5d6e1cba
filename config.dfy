/** The view the mixin is mixed into: its configuration attributes, its
    calculated fields, and the lookups that resolve a setting from the call's
    keyword arguments first and the view's attributes second. */
module Config {

  import opened Wrappers
  import opened Values
  import opened Models

  /** A Python attribute: not defined, defined as None, or defined with a value. */
  datatype Slot<+T> = Absent | Null | Present(value: T)

  /** A calculated field: a callable on the view with the columns it reads
      (`.fields`), an optional `.verbose_name`, and what calling it with the
      values of those columns returns. */
  datatype Calc = Calc(fields: seq<string>, verboseName: Option<string>, fn: seq<Value> -> Value)

  /** What `getattr(view, name)` finds: a plain value, or a callable that is
      truthy or not. */
  datatype Attr = Plain | Callable(field: Calc, truthy: bool)

  /** The view's configuration attributes and the rest of its attribute
      namespace, as far as field names can resolve into it. */
  datatype View = View(
    queryset: Slot<QuerySet>,
    fields: Slot<seq<string>>,
    model: Slot<ModelMeta>,
    filename: Slot<string>,
    format: Slot<string>,
    attrs: map<string, Attr>)

  /** The two renderers `get_render_method` can select: `render_excel_response` and `render_csv_response`. */
  datatype Format = Excel | Csv

  /** `get_calculated_field`: the attribute of that name when it is both
      truthy and callable, None otherwise. */
  function GetCalculatedField(attrs: map<string, Attr>, name: string): (r: Option<Calc>)
    ensures r.Some? <==> name in attrs && attrs[name].Callable? && attrs[name].truthy
    ensures r.Some? ==> r.value == attrs[name].field
  {
    if name in attrs && attrs[name].Callable? && attrs[name].truthy then Some(attrs[name].field)
    else None
  }

  /** `get_queryset(queryset)`: the argument unless it is None, else the view's
      `queryset` attribute (which may itself be None), else NoQueryset. */
  function GetQueryset(arg: Option<QuerySet>, attr: Slot<QuerySet>): (r: Result<Option<QuerySet>, Error>)
    ensures arg.Some? ==> r == Success(arg)
    ensures arg.None? && attr.Present? ==> r == Success(Some(attr.value))
    ensures arg.None? && attr.Null? ==> r == Success(None)
    ensures r.Failure? <==> arg.None? && attr.Absent?
    ensures r.Failure? ==> r.error == NoQueryset
  {
    if arg.Some? then Success(arg)
    else
      match attr
      case Absent => Failure(NoQueryset)
      case Null => Success(None)
      case Present(q) => Success(Some(q))
  }

  /** `get_queryset` followed by `assert isinstance(queryset, QuerySet)`, the
      first two lines of `generate_data`. */
  function ResolveQuerySet(arg: Option<QuerySet>, attr: Slot<QuerySet>): (r: Result<QuerySet, Error>)
    ensures r.Success? <==> arg.Some? || attr.Present?
    ensures r.Success? ==> r.value == if arg.Some? then arg.value else attr.value
    ensures r.Failure? ==> r.error == if attr.Absent? then NoQueryset else NotAQuerySet
  {
    var q :- GetQueryset(arg, attr);
    if q.None? then Failure(NotAQuerySet) else Success(q.value)
  }

  /** `get_fields(model, **kwargs)`: the `fields` keyword, then a non-None
      `fields` attribute, then the view queryset's `field_names`, then the
      field names of the view queryset's model, of the `model` keyword or of
      the view's `model` attribute, in that order; otherwise no fields. */
  function GetFields(kwFields: Option<seq<string>>, kwModel: Option<ModelMeta>, view: View): (r: seq<string>)
    ensures kwFields.Some? ==> r == kwFields.value
    ensures kwFields.None? && view.fields.Present? ==> r == view.fields.value
    ensures kwFields.None? && !view.fields.Present? && view.queryset.Present? ==>
              r == match view.queryset.value.fieldNames
                   case Some(names) => names
                   case None => FieldNames(view.queryset.value.model)
    ensures kwFields.None? && !view.fields.Present? && !view.queryset.Present? ==>
              r == if kwModel.Some? then FieldNames(kwModel.value)
                   else if view.model.Present? then FieldNames(view.model.value)
                   else []
  {
    if kwFields.Some? then kwFields.value
    else if view.fields.Present? then view.fields.value
    else if view.queryset.Present? && view.queryset.value.fieldNames.Some? then
      view.queryset.value.fieldNames.value
    else
      var model := if view.queryset.Present? then Some(view.queryset.value.model) else kwModel;
      var model' := if model.None? && view.model.Present? then Some(view.model.value) else model;
      if model'.Some? then FieldNames(model'.value) else []
  }

  /** `get_filename(**kwargs)`: the `filename` keyword, then the view's
      `filename` attribute (None when it is set to None), then
      "export.<extension>" with the extension defaulting to "out". */
  function GetFilename(kwFilename: Option<string>, kwExtension: Option<string>, attr: Slot<string>): (r: Option<string>)
    ensures kwFilename.Some? ==> r == kwFilename
    ensures kwFilename.None? && attr.Present? ==> r == Some(attr.value)
    ensures kwFilename.None? && attr.Null? ==> r == None
    ensures kwFilename.None? && attr.Absent? ==>
              r == Some("export." + if kwExtension.Some? then kwExtension.value else "out")
  {
    if kwFilename.Some? then kwFilename
    else
      match attr
      case Present(name) => Some(name)
      case Null => None
      case Absent =>
        var extension := if kwExtension.Some? then kwExtension.value else "out";
        assert "export" + "." + extension == "export." + extension;
        Some("export" + "." + extension)
  }

  /** `get_format(**kwargs)`: the `format` keyword, then the view's `format`
      attribute (None when it is set to None), else FormatNotDefined. */
  function GetFormat(kwFormat: Option<string>, attr: Slot<string>): (r: Result<Option<string>, Error>)
    ensures kwFormat.Some? ==> r == Success(kwFormat)
    ensures kwFormat.None? && attr.Present? ==> r == Success(Some(attr.value))
    ensures kwFormat.None? && attr.Null? ==> r == Success(None)
    ensures r.Failure? <==> kwFormat.None? && attr.Absent?
    ensures r.Failure? ==> r.error == FormatNotDefined
  {
    if kwFormat.Some? then Success(kwFormat)
    else
      match attr
      case Present(f) => Success(Some(f))
      case Null => Success(None)
      case Absent => Failure(FormatNotDefined)
  }

  /** `get_render_method(format)`: "excel" and "csv" select a renderer,
      anything else (None included) is FormatNotRecognized. */
  function GetRenderMethod(format: Option<string>): (r: Result<Format, Error>)
    ensures r == Success(Excel) <==> format == Some("excel")
    ensures r == Success(Csv) <==> format == Some("csv")
    ensures r.Failure? <==> format != Some("excel") && format != Some("csv")
    ensures r.Failure? ==> r.error == FormatNotRecognized
  {
    if format == Some("excel") then Success(Excel)
    else if format == Some("csv") then Success(Csv)
    else Failure(FormatNotRecognized)
  }
}

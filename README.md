# Spreadsheet export mixin: field-to-column logic in Dafny

This project models the core of `SpreadsheetResponseMixin`, a Django view mixin
that exports a queryset as an Excel workbook or a CSV file. The model covers:

- how the requested fields become one flat list of database columns (the
  *column plan*): a direct field adds its own name, a *calculated field* (a
  truthy callable attribute of the view) adds the columns it declares;
- how each fetched row becomes one output tuple;
- how each field gets a display label, directly or through one `__`
  relationship hop;
- where the two encoders put the header row and the data;
- the lookups that resolve the queryset, fields, filename, format and render
  method from keyword arguments and view attributes.

Modules, one per file:

- `Wrappers` (`wrappers.dfy`): `Option` and `Result`.
- `Values` (`values.dfy`): cell values, the errors the code raises, and the
  text `unicode()` gives a value.
- `Text` (`text.dfy`): ASCII `str.title()`, `replace`, `' '.join`, and
  `split('__', maxsplit)`.
- `Models` (`models.dfy`): model metadata (`_meta.get_field`, `_meta.fields`,
  `rel.to`) and a queryset whose `values_list` is a function of its records.
- `Config` (`config.dfy`): the view's attributes and the configuration lookups.
- `ColumnPlan` (`column_plan.dfy`): `generate_data`, as imperative methods
  proved against declarative reference functions.
- `Headers` (`headers.dfy`): `recursively_build_field_name`,
  `build_field_name` and `generate_headers`.
- `Encoders` (`encoders.dfy`): the cell layout of `generate_xlsx` and the
  record order of `generate_csv`, as loops proved against reference
  functions.
- `Render` (`render.dfy`): `render_setup`.

Python attributes that may be missing, set to None or set are modelled as
`Slot<T>` (`Absent`, `Null`, `Present`). An omitted keyword argument is `None`
of an `Option`. A raised exception is a `Failure` carrying an `Error` that
names the exception's cause.

Three features of the source that the model keeps as they are:

- `recursively_build_field_name` walks at most one `__` hop. A path with three
  or more segments (`a__b__c`) fails: `split('__', 2)` yields three parts, and
  unpacking them into two names raises. `Headers.ThreeSegmentsFail` proves
  this.
- `get_fields` reads the view's own `queryset` attribute, not the `queryset`
  keyword. That attribute's model takes precedence over the `model` keyword.
- With no fields, `render_setup` generates the empty header tuple while the
  rows are whole `values_list()` rows, so the header row does not describe
  the columns. `Render.EmptyFieldsSetup` proves this.

## Model

| member | source | states |
|---|---|---|
| Config.GetCalculatedField | spreadsheetresponsemixin/views.py:112-117 | an attribute is a calculated field exactly when it exists, is callable and is truthy; the calculated field is that attribute |
| Config.GetQueryset | spreadsheetresponsemixin/views.py:49-57 | the argument wins unless it is None; otherwise the view's attribute, None when that is None; NoQueryset exactly when both are missing |
| Config.ResolveQuerySet | spreadsheetresponsemixin/views.py:59-63 | a queryset results exactly when the argument or the attribute is one; a missing attribute is NoQueryset, a None queryset fails the isinstance assertion |
| Config.GetFields | spreadsheetresponsemixin/views.py:190-208 | field precedence: the `fields` keyword; then a non-None `fields` attribute; then the view queryset's `field_names`; then the field names of the view queryset's model, the `model` keyword or the `model` attribute; otherwise no fields |
| Config.GetFilename | spreadsheetresponsemixin/views.py:181-188 | filename precedence: the `filename` keyword; then the attribute (None when set to None); then "export." plus the extension, which defaults to "out" |
| Config.GetFormat | spreadsheetresponsemixin/views.py:174-179 | format precedence: the `format` keyword, then the attribute; FormatNotDefined exactly when both are missing |
| Config.GetRenderMethod | spreadsheetresponsemixin/views.py:167-172 | "excel" selects the Excel renderer and "csv" the CSV renderer, each if and only if; any other format, None included, is FormatNotRecognized |
| Models.GetField | spreadsheetresponsemixin/views.py:101 | a field lookup succeeds exactly when the model declares that name; the result is that declared field; otherwise FieldDoesNotExist for that name |
| Models.FieldNames | spreadsheetresponsemixin/views.py:206 | the model's field names in schema order |
| Models.Fetch | spreadsheetresponsemixin/views.py:87 | `values_list(*columns)` succeeds exactly when every column is known; it gives one row per record, each row holding the record's values of the columns in order; otherwise an error naming the first missing column |
| Models.FetchAll | spreadsheetresponsemixin/views.py:97 | `values_list()` gives one row per record with the values of every model field in schema order |
| ColumnPlan.ColumnCount | spreadsheetresponsemixin/views.py:75-85 | the number of raw columns is the sum of the fields' contribution widths (no deduplication) |
| ColumnPlan.ColumnsPrefix | spreadsheetresponsemixin/views.py:75-85 | the columns of earlier fields are never changed by later fields; `columns` only grows at the end |
| ColumnPlan.EntryLayout | spreadsheetresponsemixin/views.py:78-85 | field j owns the columns from its offset for the width of its contribution; they are exactly that contribution, so a direct field's column is its own name |
| ColumnPlan.EntriesDisjoint | spreadsheetresponsemixin/views.py:79-84 | offsets never decrease in field order, and a later entry starts at or after the end of every earlier one |
| ColumnPlan.ContributionFetched | spreadsheetresponsemixin/views.py:80-84 | every column a field contributes is among the fetched columns |
| ColumnPlan.EntryReadsDeclaredInputs | spreadsheetresponsemixin/views.py:79-94 | in a fetched row, the slice at field j's offset holds exactly the record's values of that field's declared columns, in declared order, whatever the other fields fetch |
| ColumnPlan.EntryValue | spreadsheetresponsemixin/views.py:90-94 | `row[offset]` for a direct field, and the calculated field called on `row[offset:offset + len(fields)]` otherwise, is exactly that field's own value for the record |
| ColumnPlan.BuildColumnPlan | spreadsheetresponsemixin/views.py:75-85 | returns the column list of the reference definition, and one plan entry per field in field order, recording the field, its calculated field and its offset |
| ColumnPlan.EvaluateRow | spreadsheetresponsemixin/views.py:88-95 | one value per field in field order: a direct field's record value, or the calculated field applied to its declared inputs |
| ColumnPlan.GenerateData | spreadsheetresponsemixin/views.py:59-98 | equals the field-by-field reference `ExportRows`; with fields, one tuple of exactly `len(fields)` values per fetched row and every value the field's own value; without fields, the `values_list()` rows unchanged and in order; a queryset or column error is the error raised |
| Text.TitleAt | spreadsheetresponsemixin/views.py:125-128 | `title()` keeps the length; each character is upper-cased at the start of a word and lower-cased after a letter |
| Text.TitleKeepsNonLetters | spreadsheetresponsemixin/views.py:125-128 | `title()` leaves non-letters unchanged and maps letters to letters |
| Text.TitleIdempotent | spreadsheetresponsemixin/views.py:125-128 | title-casing a title-cased string changes nothing |
| Text.FindSeparator | spreadsheetresponsemixin/views.py:103 | finds the first `__` at or after a position, or shows there is none |
| Text.SplitSep | spreadsheetresponsemixin/views.py:104 | `split('__', n)` gives between 1 and n+1 parts; the parts joined by `__` restore the string; a string holding `__` gives at least two parts; when fewer than n+1 parts result, the last holds no `__` |
| Text.FirstSeparatorAfter | spreadsheetresponsemixin/views.py:103-104 | in `a__b`, where `a` is a whole segment, the first separator is the one right after `a` |
| Text.SplitAfter | spreadsheetresponsemixin/views.py:104 | splitting `a__b` cuts off the segment `a` and splits the rest with one split fewer |
| Headers.RecursivelyBuildFieldName | spreadsheetresponsemixin/views.py:100-110 | a successful walk gives one or two verbose names, and exactly one for a path without `__` |
| Headers.OneSegmentParts | spreadsheetresponsemixin/views.py:109-110 | a path without `__` gives the field's verbose name, or FieldDoesNotExist when the model lacks it |
| Headers.TwoSegmentParts | spreadsheetresponsemixin/views.py:103-108 | `fk__f` gives the verbose names of `fk` and of `f` on the related model; a missing `fk`, a non-relation `fk` or a missing `f` is the error raised |
| Headers.ThreeSegmentsFail | spreadsheetresponsemixin/views.py:104 | any path of three or more segments fails with the two-name unpacking error |
| Headers.BuildFieldName | spreadsheetresponsemixin/views.py:119-128 | a calculated field's label never fails; a direct field's label fails exactly when the path walk fails, with the same error |
| Headers.CalculatedVerboseLabel | spreadsheetresponsemixin/views.py:121-123 | a calculated field with a `verbose_name` is labelled by it verbatim |
| Headers.CalculatedNameLabel | spreadsheetresponsemixin/views.py:124-125 | a calculated field without a `verbose_name` gets a label as long as its name, with a space for each `_` and other non-letters kept; a letter is upper-cased when it starts a word and lower-cased when it follows a letter |
| Headers.OneSegmentLabel | spreadsheetresponsemixin/views.py:127-128 | a direct single-segment field is labelled by its title-cased verbose name |
| Headers.TwoSegmentLabel | spreadsheetresponsemixin/views.py:127-128 | a direct `fk__f` field is labelled by the two verbose names joined by one space and title-cased |
| Headers.CollectLabels | spreadsheetresponsemixin/views.py:131 | evaluating the label tuple gives every label in order, or the error of the first failing label |
| Headers.GenerateHeaders | spreadsheetresponsemixin/views.py:130-131 | succeeds exactly when every field's label does; gives one label per field, in field order; otherwise the error of the first failing field |
| Encoders.SheetLayout | spreadsheetresponsemixin/views.py:138-147 | header c is at (0, c); data value (r, c) is at (r + 1, c) when there are headers and at (r, c) otherwise; no other cell is written and no header shares a cell with data |
| Encoders.GenerateXlsx | spreadsheetresponsemixin/views.py:138-147 | the sheet written by the loops holds exactly the written positions, each with the value of the reference layout |
| Encoders.CsvLayout | spreadsheetresponsemixin/views.py:159-164 | one header record only when there are headers, then one record per data row in order, each holding the text of every value |
| Encoders.GenerateCsv | spreadsheetresponsemixin/views.py:159-164 | the records written by the loops are those of the reference order |
| Encoders.EncodersAgree | spreadsheetresponsemixin/views.py:138-164 | a position holds a worksheet cell exactly when the CSV output has a field there, and that field is the cell's value as text |
| Render.SetupHeaders | spreadsheetresponsemixin/views.py:39-45 | a queryset lookup failure comes first; a non-empty `headers` keyword is used verbatim; otherwise the labels of the queryset model's fields, or NoModel for a None queryset |
| Render.HeadersFitRows | spreadsheetresponsemixin/views.py:40-45 | when fields are given, every generated row has exactly one value under each generated header |
| Render.EmptyFieldsSetup | spreadsheetresponsemixin/views.py:39-45 | with no fields and no `headers` keyword, the generated headers are empty while the rows are the unchanged `values_list()` rows of the queryset |
| Render.RenderSetup | spreadsheetresponsemixin/views.py:37-47 | fails exactly when the header choice fails, with its error; otherwise returns the chosen headers and the rows `generate_data` yields for the resolved queryset and fields |

## Left out

- Building the `HttpResponse`, content types and the `Content-Disposition` header (`render_excel_response`, `render_csv_response`): this is web-framework plumbing around the core.
- openpyxl's `Workbook` and `wb.save(file)`: only the cell map the loops write is modelled.
- CSV dialect quoting and the `encode('utf-8')` byte encoding: a CSV record is a sequence of strings.
- Django's `values_list`, `_meta.get_field` and `rel.to` are modelled as functions over a queryset's records and nested model metadata. Metadata is a finite tree, so a relation cycle between models is not representable; a walk goes at most one hop deep, so this loses no reachable label.
- Python's `getattr`, `hasattr` and `callable` are replaced by the `attrs` map. It holds the attributes a field name can resolve to, excluding the configuration attributes and the mixin's own methods.
- A calculated field without a `.fields` attribute, which raises AttributeError in `generate_data`, is not modelled: every `Calc` declares its fields.
- An explicit `None` passed as the `fields`, `filename` or `format` keyword is not distinguished from an omitted keyword.
- An explicit `extension=None` passed to `get_filename`, which gives "export.None", is not representable: the extension is an `Option<string>` whose `None` means omitted.
- A calculated field is a total, pure function of its input values (`Calc.fn`). A calculated field that raises, or that reads or changes the view's state, is not representable.
- `ColumnPlan.GenerateData`: it does not model generator laziness. The rows are a finite sequence and any error comes with them. `Render.RenderSetup` keeps the order that laziness causes: a data error is held in the returned rows and does not replace a header error.
- `Text.TitleAt`: it models `str.title()` over ASCII letters only. Unicode case mapping is not modelled.
- Values are strings, integers, booleans or None; floating point, dates and other column types are not modelled.
- `get_format` and `get_render_method` are modelled on their own; the caller that combines them is not part of the mixin.

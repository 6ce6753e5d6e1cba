/** Cell values and the exceptions the export mixin can raise or let through. */
module Values {

  /** A value fetched from the database or returned by a calculated field. */
  datatype Value = Str(s: string) | Int(i: int) | Bool(b: bool) | Null

  /** The exceptions of the export path, raised by the mixin itself or
      propagated from the ORM it calls. */
  datatype Error =
    | NoQueryset              // NotImplementedError: no queryset on the class or in the call
    | NotAQuerySet            // AssertionError: the resolved queryset is not a QuerySet
    | NoModel                 // AttributeError: `queryset.model` read on None
    | FieldError(column: string)          // values_list() given an unknown column
    | FieldDoesNotExist(name: string)     // _meta.get_field() given an unknown name
    | NotARelation(name: string)          // `.rel.to` read on a field whose `rel` is None
    | TooManyValuesToUnpack   // ValueError: a path split into three parts unpacked into two names
    | FormatNotDefined        // NotImplementedError: "Format is not defined."
    | FormatNotRecognized     // NotImplementedError: "Export format is not recognized."

  function DigitChar(d: nat): char
    requires d < 10
  {
    "0123456789"[d]
  }

  /** Decimal digits of a natural number, most significant first. */
  function Digits(n: nat): (r: string)
    ensures |r| >= 1
    ensures forall k :: 0 <= k < |r| ==> '0' <= r[k] <= '9'
    decreases n
  {
    if n < 10 then [DigitChar(n)] else Digits(n / 10) + [DigitChar(n % 10)]
  }

  /** The text `unicode(v)` gives for a cell value. */
  function ToText(v: Value): string
  {
    match v
    case Str(s) => s
    case Int(i) => if i < 0 then "-" + Digits(-i) else Digits(i)
    case Bool(b) => if b then "True" else "False"
    case Null => "None"
  }
}

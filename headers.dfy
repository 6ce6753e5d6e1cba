/** `generate_headers`: one display heading per field, from a calculated
    field's `verbose_name` or name, or from the verbose names met along a
    `__` relationship path. */
module Headers {

  import opened Wrappers
  import opened Values
  import opened Text
  import opened Models
  import opened Config

  /** `recursively_build_field_name(model, path)`. A path without `__` names
      a field of `model`. A path with `__` is split by `split('__', 2)` and
      unpacked into a relation name and the rest, so it works for exactly two
      segments and raises TooManyValuesToUnpack for three or more. */
  function RecursivelyBuildFieldName(model: ModelMeta, path: string): (r: Result<seq<string>, Error>)
    ensures r.Success? ==> 1 <= |r.value| <= 2
    ensures !HasSeparator(path) && r.Success? ==> |r.value| == 1
    decreases |path|
  {
    if HasSeparator(path) then
      var parts := SplitSep(path, 2);
      if |parts| != 2 then Failure(TooManyValuesToUnpack)
      else
        assert JoinSep(parts) == parts[0] + "__" + JoinSep(parts[1..]);
        assert parts[1..] == [parts[1]];
        var foreignKeyField :- GetField(model, parts[0]);
        if foreignKeyField.related.None? then Failure(NotARelation(parts[0]))
        else
          var rest :- RecursivelyBuildFieldName(foreignKeyField.related.value, parts[1]);
          Success([foreignKeyField.verboseName] + rest)
    else
      var field :- GetField(model, path);
      Success([field.verboseName])
  }

  /** A path segment that `split('__')` cuts off cleanly: it holds no `__`
      and does not end in `_` (which would merge with the separator). */
  predicate IsSegment(s: string)
  {
    !HasSeparator(s) && (s == [] || s[|s| - 1] != '_')
  }

  /** A single-segment path yields the verbose name of that field, or the
      lookup error. */
  lemma OneSegmentParts(model: ModelMeta, name: string)
    requires !HasSeparator(name)
    ensures GetField(model, name).Success? ==>
              RecursivelyBuildFieldName(model, name) == Success([GetField(model, name).value.verboseName])
    ensures GetField(model, name).Failure? ==>
              RecursivelyBuildFieldName(model, name) == Failure(FieldDoesNotExist(name))
  {
  }

  /** `fk__f` yields the verbose names of `fk` and of `f` on the model `fk`
      points to; a missing `fk`, a non-relation `fk` or a missing `f` is the
      error. */
  lemma {:induction false} TwoSegmentParts(model: ModelMeta, fk: string, f: string)
    requires IsSegment(fk)
    requires !HasSeparator(f)
    ensures var r := RecursivelyBuildFieldName(model, fk + "__" + f);
            match GetField(model, fk)
            case Failure(e) => r == Failure(e)
            case Success(fkField) =>
              match fkField.related
              case None => r == Failure(NotARelation(fk))
              case Some(related) =>
                match GetField(related, f)
                case Failure(e) => r == Failure(e)
                case Success(field) => r == Success([fkField.verboseName, field.verboseName])
  {
    var path := fk + "__" + f;
    assert IsSepAt(path, |fk|);
    SplitAfter(fk, f, 2);
    assert SplitSep(f, 1) == [f];
    var parts := SplitSep(path, 2);
    assert parts == [fk, f];
    assert HasSeparator(path);
    if GetField(model, fk).Success? && GetField(model, fk).value.related.Some? {
      var fkField := GetField(model, fk).value;
      OneSegmentParts(fkField.related.value, f);
      var rest := RecursivelyBuildFieldName(fkField.related.value, f);
      if rest.Success? {
        assert RecursivelyBuildFieldName(model, path) == Success([fkField.verboseName] + rest.value);
        assert [fkField.verboseName] + rest.value == [fkField.verboseName, rest.value[0]];
      } else {
        assert RecursivelyBuildFieldName(model, path) == Failure(rest.error);
      }
    }
  }

  /** A path of three or more segments never yields a heading: the split gives
      three parts and the two-name unpacking fails. */
  lemma {:induction false} ThreeSegmentsFail(model: ModelMeta, a: string, b: string, rest: string)
    requires IsSegment(a) && IsSegment(b)
    ensures RecursivelyBuildFieldName(model, a + "__" + b + "__" + rest) == Failure(TooManyValuesToUnpack)
  {
    var path := a + "__" + b + "__" + rest;
    assert path == a + "__" + (b + "__" + rest);
    assert IsSepAt(path, |a|);
    SplitAfter(a, b + "__" + rest, 2);
    SplitAfter(b, rest, 1);
  }

  /** `build_field_name(model, path)`: a calculated field's `verbose_name`,
      or its path with `_` replaced by a space and title-cased; otherwise the
      verbose names along the path joined by one space and title-cased. */
  function BuildFieldName(attrs: map<string, Attr>, model: ModelMeta, path: string): (r: Result<string, Error>)
    ensures GetCalculatedField(attrs, path).Some? ==> r.Success?
    ensures GetCalculatedField(attrs, path).None? ==>
              (r.Success? <==> RecursivelyBuildFieldName(model, path).Success?)
    ensures GetCalculatedField(attrs, path).None? && r.Failure? ==>
              r.error == RecursivelyBuildFieldName(model, path).error
  {
    match GetCalculatedField(attrs, path)
    case Some(calculated) =>
      if calculated.verboseName.Some? then Success(calculated.verboseName.value)
      else Success(Title(ReplaceUnderscores(path)))
    case None =>
      var nameParts :- RecursivelyBuildFieldName(model, path);
      Success(Title(JoinSpace(nameParts)))
  }

  /** A calculated field with a `verbose_name` is labelled by it verbatim. */
  lemma CalculatedVerboseLabel(attrs: map<string, Attr>, model: ModelMeta, path: string)
    requires GetCalculatedField(attrs, path).Some?
    requires GetCalculatedField(attrs, path).value.verboseName.Some?
    ensures BuildFieldName(attrs, model, path) == Success(GetCalculatedField(attrs, path).value.verboseName.value)
  {
  }

  /** A calculated field without a `verbose_name` is labelled by its own
      name, same length, every `_` turned into a space and every letter
      title-cased. */
  lemma CalculatedNameLabel(attrs: map<string, Attr>, model: ModelMeta, path: string)
    requires GetCalculatedField(attrs, path).Some?
    requires GetCalculatedField(attrs, path).value.verboseName.None?
    ensures BuildFieldName(attrs, model, path).Success?
    ensures var heading := BuildFieldName(attrs, model, path).value;
            && |heading| == |path|
            && forall i :: 0 <= i < |path| ==>
                 && (path[i] == '_' ==> heading[i] == ' ')
                 && (IsLetter(path[i]) <==> IsLetter(heading[i]))
                 && (!IsLetter(path[i]) && path[i] != '_' ==> heading[i] == path[i])
                 && (IsLetter(path[i]) ==> ToUpper(heading[i]) == ToUpper(path[i]))
                 && (IsLetter(path[i]) ==>
                       heading[i] == if i > 0 && IsLetter(path[i - 1]) then ToLower(path[i]) else ToUpper(path[i]))
  {
    var spaced := ReplaceUnderscores(path);
    var heading := Title(spaced);
    forall i | 0 <= i < |path|
      ensures && (path[i] == '_' ==> heading[i] == ' ')
              && (IsLetter(path[i]) <==> IsLetter(heading[i]))
              && (!IsLetter(path[i]) && path[i] != '_' ==> heading[i] == path[i])
              && (IsLetter(path[i]) ==> ToUpper(heading[i]) == ToUpper(path[i]))
              && (IsLetter(path[i]) ==>
                    heading[i] == if i > 0 && IsLetter(path[i - 1]) then ToLower(path[i]) else ToUpper(path[i]))
    {
      TitleAt(spaced, i);
    }
  }

  /** A direct single-segment field is labelled by its title-cased verbose name. */
  lemma OneSegmentLabel(attrs: map<string, Attr>, model: ModelMeta, name: string)
    requires GetCalculatedField(attrs, name).None?
    requires !HasSeparator(name)
    requires GetField(model, name).Success?
    ensures BuildFieldName(attrs, model, name) == Success(Title(GetField(model, name).value.verboseName))
  {
    OneSegmentParts(model, name);
  }

  /** A direct `fk__f` field is labelled by the two verbose names joined by
      one space and title-cased. */
  lemma TwoSegmentLabel(attrs: map<string, Attr>, model: ModelMeta, fk: string, f: string)
    requires GetCalculatedField(attrs, fk + "__" + f).None?
    requires IsSegment(fk) && !HasSeparator(f)
    requires GetField(model, fk).Success? && GetField(model, fk).value.related.Some?
    requires GetField(GetField(model, fk).value.related.value, f).Success?
    ensures var fkField := GetField(model, fk).value;
            var field := GetField(fkField.related.value, f).value;
            BuildFieldName(attrs, model, fk + "__" + f) == Success(Title(fkField.verboseName + " " + field.verboseName))
  {
    TwoSegmentParts(model, fk, f);
    var fkField := GetField(model, fk).value;
    var field := GetField(fkField.related.value, f).value;
    assert JoinSpace([fkField.verboseName, field.verboseName]) == fkField.verboseName + " " + field.verboseName;
  }

  /** Evaluating a tuple of labels left to right: all the labels, or the
      first error raised. */
  function CollectLabels(results: seq<Result<string, Error>>): (r: Result<seq<string>, Error>)
    ensures r.Success? <==> forall i :: 0 <= i < |results| ==> results[i].Success?
    ensures r.Success? ==> |r.value| == |results|
    ensures r.Success? ==> forall i :: 0 <= i < |results| ==> r.value[i] == results[i].value
    ensures r.Failure? ==> exists i :: 0 <= i < |results| && results[i] == Failure(r.error)
                                     && forall k :: 0 <= k < i ==> results[k].Success?
  {
    if results == [] then Success([])
    else if results[0].Failure? then Failure(results[0].error)
    else
      var tail := CollectLabels(results[1..]);
      if tail.Failure? then
        var i :| 0 <= i < |results| - 1 && results[1..][i] == Failure(tail.error)
                 && forall k :: 0 <= k < i ==> results[1..][k].Success?;
        assert results[i + 1] == Failure(tail.error);
        Failure(tail.error)
      else
        Success([results[0].value] + tail.value)
  }

  /** `generate_headers(model, fields)`: the labels of the fields in field
      order, or the error of the first field whose label fails. */
  function GenerateHeaders(attrs: map<string, Attr>, model: ModelMeta, fields: seq<string>): (r: Result<seq<string>, Error>)
    ensures r.Success? <==> forall i :: 0 <= i < |fields| ==> BuildFieldName(attrs, model, fields[i]).Success?
    ensures r.Success? ==> |r.value| == |fields|
    ensures r.Success? ==> forall i :: 0 <= i < |fields| ==> r.value[i] == BuildFieldName(attrs, model, fields[i]).value
    ensures r.Failure? ==> exists i :: 0 <= i < |fields| && BuildFieldName(attrs, model, fields[i]) == Failure(r.error)
                                     && forall k :: 0 <= k < i ==> BuildFieldName(attrs, model, fields[k]).Success?
  {
    var results := seq(|fields|, i requires 0 <= i < |fields| => BuildFieldName(attrs, model, fields[i]));
    assert forall i :: 0 <= i < |fields| ==> results[i] == BuildFieldName(attrs, model, fields[i]);
    CollectLabels(results)
  }
}

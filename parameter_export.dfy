/**
 * The last step of the Model 7 global fit: the fitted parameters are put in a
 * dictionary by name and written to `fit_parameters.txt`, first one
 * `name: value` line per dictionary entry, then one `name_error: error` line
 * per signal-yield parameter (a name starting with `Nsig_`).
 */
module ParameterExport {
  import opened Wrappers
  import opened OrderedDict
  import opened ResultFile

  /**
   * A fitted parameter as the export sees it: its name (`GetName()`) and the
   * text Python writes for its value (`getValV()`) and its error (`getError()`).
   */
  datatype Parameter = Parameter(name: string, value: string, error: string)

  const YieldPrefix := "Nsig_"
  const ErrorSuffix := "_error"

  /** `name.startswith("Nsig_")`. */
  predicate IsSignalYield(name: string) {
    |YieldPrefix| <= |name| && name[..|YieldPrefix|] == YieldPrefix
  }

  /** `names = [var.GetName() for var in variables]`. */
  function Names(variables: seq<Parameter>): seq<string> {
    seq(|variables|, i requires 0 <= i < |variables| => variables[i].name)
  }

  /** `values = [var.getValV() for var in variables]`. */
  function Values(variables: seq<Parameter>): seq<string> {
    seq(|variables|, i requires 0 <= i < |variables| => variables[i].value)
  }

  /** `parameters_dict`: each name mapped to its parameter's value. */
  function ParameterDict(variables: seq<Parameter>): (d: Dict<string>)
    ensures Valid(d)
  {
    FromPairs(Names(variables), Values(variables))
  }

  /** The `(name_error, error)` pairs the second loop writes, in list order. */
  function ErrorPairs(variables: seq<Parameter>): seq<(string, string)> {
    if variables == [] then []
    else
      var v := variables[|variables| - 1];
      ErrorPairs(variables[..|variables| - 1])
        + (if IsSignalYield(v.name) then [(v.name + ErrorSuffix, v.error)] else [])
  }

  /** Every pair the export writes, in the order it writes them. */
  function ExportedPairs(variables: seq<Parameter>): seq<(string, string)> {
    Items(ParameterDict(variables)) + ErrorPairs(variables)
  }

  /** The number of signal-yield names in a list. */
  function YieldCount(names: seq<string>): nat {
    if names == [] then 0
    else YieldCount(names[..|names| - 1]) + (if IsSignalYield(names[|names| - 1]) then 1 else 0)
  }

  /** The first loop: one `key: value` line per dictionary item, after what is already written. */
  method WriteItems(written0: seq<string>, items: seq<(string, string)>) returns (written: seq<string>)
    ensures written == written0 + Lines(items)
  {
    written := written0;
    for i := 0 to |items|
      invariant written == written0 + Lines(items[..i])
    {
      written := written + [Line(items[i].0, items[i].1)];
      assert written == written0 + Lines(items[..i + 1]) by {
        assert items[..i + 1] == items[..i] + [items[i]];
        LinesAppend(items[..i], [items[i]]);
      }
    }
    assert items[..|items|] == items;
  }

  /** The second loop: a `name_error: error` line for each signal yield, after what is already written. */
  method WriteErrors(written0: seq<string>, variables: seq<Parameter>) returns (written: seq<string>)
    ensures written == written0 + Lines(ErrorPairs(variables))
  {
    written := written0;
    for j := 0 to |variables|
      invariant written == written0 + Lines(ErrorPairs(variables[..j]))
    {
      var v := variables[j];
      if IsSignalYield(v.name) {
        written := written + [Line(v.name + ErrorSuffix, v.error)];
      }
      assert written == written0 + Lines(ErrorPairs(variables[..j + 1])) by {
        ErrorPairsStep(variables, j);
        LinesAppend(ErrorPairs(variables[..j]), if IsSignalYield(v.name) then [(v.name + ErrorSuffix, v.error)] else []);
      }
    }
    assert variables[..|variables|] == variables;
  }

  /**
   * Writes the file: the dictionary's items, then an error line for each
   * signal yield. With distinct names that is one value line per parameter
   * in declaration order, followed by the error lines.
   */
  method WriteParameterFile(variables: seq<Parameter>) returns (written: seq<string>)
    ensures written == Lines(ExportedPairs(variables))
    ensures Distinct(Names(variables)) ==>
      && |written| == |variables| + YieldCount(Names(variables))
      && forall i :: 0 <= i < |variables| ==> written[i] == Line(variables[i].name, variables[i].value)
  {
    var items := Items(ParameterDict(variables));
    var valueLines := WriteItems([], items);
    written := WriteErrors(valueLines, variables);
    assert written == Lines(ExportedPairs(variables)) by {
      assert valueLines == Lines(items);
      LinesAppend(items, ErrorPairs(variables));
    }
    WrittenValuesFirst(variables, written);
  }

  /** The second loop's step: one more parameter adds at most its own error pair. */
  lemma ErrorPairsStep(variables: seq<Parameter>, j: nat)
    requires j < |variables|
    ensures ErrorPairs(variables[..j + 1]) == ErrorPairs(variables[..j])
      + (if IsSignalYield(variables[j].name) then [(variables[j].name + ErrorSuffix, variables[j].error)] else [])
  {
    assert variables[..j + 1][..j] == variables[..j];
  }

  lemma WrittenValuesFirst(variables: seq<Parameter>, written: seq<string>)
    requires written == Lines(ExportedPairs(variables))
    ensures Distinct(Names(variables)) ==>
      && |written| == |variables| + YieldCount(Names(variables))
      && forall i :: 0 <= i < |variables| ==> written[i] == Line(variables[i].name, variables[i].value)
  {
    if Distinct(Names(variables)) {
      ExportValuesFirst(variables);
    }
  }

  lemma {:induction false} ErrorPairsCount(variables: seq<Parameter>)
    ensures |ErrorPairs(variables)| == YieldCount(Names(variables))
  {
    if variables != [] {
      var n := |variables| - 1;
      ErrorPairsCount(variables[..n]);
      assert Names(variables)[..n] == Names(variables[..n]);
    }
  }

  /** `pair` is the error pair of some signal-yield parameter: its name with `_error`, and its error. */
  predicate IsErrorPairOf(variables: seq<Parameter>, pair: (string, string)) {
    exists i :: (0 <= i < |variables| && IsSignalYield(variables[i].name)
      && pair == (variables[i].name + ErrorSuffix, variables[i].error))
  }

  /** Each error line belongs to a signal-yield parameter. */
  lemma {:induction false} ErrorPairsSound(variables: seq<Parameter>, j: nat)
    requires j < |ErrorPairs(variables)|
    ensures IsErrorPairOf(variables, ErrorPairs(variables)[j])
  {
    var n := |variables| - 1;
    var prefix := variables[..n];
    if j < |ErrorPairs(prefix)| {
      ErrorPairsSound(prefix, j);
      var i :| 0 <= i < |prefix| && IsSignalYield(prefix[i].name)
        && ErrorPairs(prefix)[j] == (prefix[i].name + ErrorSuffix, prefix[i].error);
      assert variables[i] == prefix[i];
    } else {
      assert ErrorPairs(variables)[j] == (variables[n].name + ErrorSuffix, variables[n].error);
    }
  }

  /** Every signal-yield parameter has its error line. */
  lemma {:induction false} ErrorPairsComplete(variables: seq<Parameter>, i: nat)
    requires i < |variables| && IsSignalYield(variables[i].name)
    ensures (variables[i].name + ErrorSuffix, variables[i].error) in ErrorPairs(variables)
  {
    var n := |variables| - 1;
    if i < n {
      ErrorPairsComplete(variables[..n], i);
    }
  }

  lemma KeySuffix(name: string)
    requires IsKey(name)
    ensures IsKey(name + ErrorSuffix)
  {
  }

  /** Every exported key can be read back and every exported value stays on its line. */
  lemma ExportedPairsReadable(variables: seq<Parameter>)
    requires forall i :: 0 <= i < |variables| ==>
      IsKey(variables[i].name) && IsOneLine(variables[i].value) && IsOneLine(variables[i].error)
    ensures forall k :: 0 <= k < |ExportedPairs(variables)| ==>
      IsKey(ExportedPairs(variables)[k].0) && IsOneLine(ExportedPairs(variables)[k].1)
  {
    var pairs := ExportedPairs(variables);
    var d := ParameterDict(variables);
    var items := Items(d);
    forall k | 0 <= k < |pairs| ensures IsKey(pairs[k].0) && IsOneLine(pairs[k].1) {
      if k < |items| {
        var key := d.keys[k];
        assert pairs[k] == (key, d.entries[key]);
        assert key in Names(variables);
        FromPairsValue(Names(variables), Values(variables), key);
      } else {
        ErrorPairsSound(variables, k - |items|);
        var i :| 0 <= i < |variables| && IsSignalYield(variables[i].name)
          && ErrorPairs(variables)[k - |items|] == (variables[i].name + ErrorSuffix, variables[i].error);
        KeySuffix(variables[i].name);
      }
    }
  }

  /** Reading the written file back gives every exported pair, in the order written. */
  lemma ExportRoundTrip(variables: seq<Parameter>)
    requires forall i :: 0 <= i < |variables| ==>
      IsKey(variables[i].name) && IsOneLine(variables[i].value) && IsOneLine(variables[i].error)
    ensures ParseText(Text(Lines(ExportedPairs(variables)))) == Some(ExportedPairs(variables))
  {
    ExportedPairsReadable(variables);
    TextRoundTrip(ExportedPairs(variables));
  }

  /** With distinct names the file starts with each parameter's name and value, in declaration order. */
  lemma ExportValuesFirst(variables: seq<Parameter>)
    requires Distinct(Names(variables))
    ensures |ExportedPairs(variables)| == |variables| + YieldCount(Names(variables))
    ensures forall i :: 0 <= i < |variables| ==> ExportedPairs(variables)[i] == (variables[i].name, variables[i].value)
  {
    ItemsOfDistinctPairs(Names(variables), Values(variables));
    ErrorPairsCount(variables);
  }

  /** With distinct names every pair after the value pairs is the error pair of a signal yield. */
  lemma ExportErrorsAfter(variables: seq<Parameter>)
    requires Distinct(Names(variables))
    ensures forall j :: |variables| <= j < |ExportedPairs(variables)| ==>
      IsErrorPairOf(variables, ExportedPairs(variables)[j])
  {
    var items := Items(ParameterDict(variables));
    var errors := ErrorPairs(variables);
    assert ExportedPairs(variables) == items + errors;
    assert |items| == |variables| by {
      ItemsOfDistinctPairs(Names(variables), Values(variables));
    }
    forall j | |variables| <= j < |items + errors|
      ensures IsErrorPairOf(variables, (items + errors)[j])
    {
      ErrorPairsSound(variables, j - |variables|);
      assert (items + errors)[j] == errors[j - |variables|];
    }
  }
}

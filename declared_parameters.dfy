/**
 * The parameter list the Model 7 global fit exports, and what the export
 * writes for it.
 */
module DeclaredParameters {
  import opened Wrappers
  import opened OrderedDict
  import opened ResultFile
  import opened ParameterExport

  /** The names in the fit's `variables` list, in its order. */
  const DeclaredNames: seq<string> := [
    "a0",
    "frac_D0_down", "frac_D0_down_2", "frac_D0_up", "frac_D0_up_2",
    "frac_D0bar_down", "frac_D0bar_down_2", "frac_D0bar_up", "frac_D0bar_up_2",
    "Nsig_D0_down", "Nbkg_D0_down", "Nsig_D0_up", "Nbkg_D0_up",
    "Nsig_D0bar_down", "Nbkg_D0bar_down", "Nsig_D0bar_up", "Nbkg_D0bar_up",
    "sigmaL", "sigmaR", "Jmu", "Jlam", "Jgam", "Jdel", "mean", "sigma"
  ]

  /** A few characters that already tell the declared names apart. */
  function Signature(name: string): (int, char, char, char)
    requires |name| >= 2
  {
    (|name|, name[0], name[1], name[|name| - 1])
  }

  /** The declared names are distinct, so the dictionary loses no parameter. */
  lemma DeclaredNamesDistinct()
    ensures |DeclaredNames| == 25 && Distinct(DeclaredNames)
  {
    forall i, j | 0 <= i < j < |DeclaredNames| ensures DeclaredNames[i] != DeclaredNames[j] {
      assert Signature(DeclaredNames[i]) != Signature(DeclaredNames[j]);
    }
  }

  /** `startswith("Nsig_")` spelled out character by character. */
  lemma SignalYieldChars(name: string)
    ensures IsSignalYield(name) <==>
      5 <= |name| && name[0] == 'N' && name[1] == 's' && name[2] == 'i' && name[3] == 'g' && name[4] == '_'
  {
    if 5 <= |name| && name[0] == 'N' && name[1] == 's' && name[2] == 'i' && name[3] == 'g' && name[4] == '_' {
      assert name[..5] == YieldPrefix;
    }
  }

  /** The signal yields of the list are the entries 9, 11, 13 and 15: Nsig_D0_down, Nsig_D0_up, Nsig_D0bar_down, Nsig_D0bar_up. */
  lemma DeclaredYieldAt(i: nat)
    requires i < |DeclaredNames|
    ensures IsSignalYield(DeclaredNames[i]) <==> i == 9 || i == 11 || i == 13 || i == 15
  {
    SignalYieldChars(DeclaredNames[i]);
  }

  /** Signal yields among the first k declared names. */
  function YieldsBefore(k: nat): nat {
    if k <= 9 then 0 else if k <= 11 then 1 else if k <= 13 then 2 else if k <= 15 then 3 else 4
  }

  lemma {:induction false} DeclaredYieldPrefix(k: nat)
    requires k <= |DeclaredNames|
    ensures YieldCount(DeclaredNames[..k]) == YieldsBefore(k)
  {
    if k > 0 {
      DeclaredYieldPrefix(k - 1);
      DeclaredYieldAt(k - 1);
      assert DeclaredNames[..k][..k - 1] == DeclaredNames[..k - 1];
    }
  }

  /** The error pairs of the signal yields among the first k declared parameters. */
  function ErrorsBefore(variables: seq<Parameter>, k: nat): seq<(string, string)>
    requires |variables| == |DeclaredNames|
  {
    (if k > 9 then [(DeclaredNames[9] + ErrorSuffix, variables[9].error)] else [])
      + (if k > 11 then [(DeclaredNames[11] + ErrorSuffix, variables[11].error)] else [])
      + (if k > 13 then [(DeclaredNames[13] + ErrorSuffix, variables[13].error)] else [])
      + (if k > 15 then [(DeclaredNames[15] + ErrorSuffix, variables[15].error)] else [])
  }

  /** The second loop, run over the first k declared parameters, writes the error pairs of the signal yields among them. */
  lemma {:induction false} DeclaredErrorPrefix(variables: seq<Parameter>, k: nat)
    requires Names(variables) == DeclaredNames && k <= |DeclaredNames|
    ensures ErrorPairs(variables[..k]) == ErrorsBefore(variables, k)
  {
    if k > 0 {
      var v := variables[k - 1];
      DeclaredErrorPrefix(variables, k - 1);
      ErrorPairsStep(variables, k - 1);
      DeclaredYieldAt(k - 1);
      assert v.name == DeclaredNames[k - 1];
      if IsSignalYield(v.name) {
        assert ErrorsBefore(variables, k) == ErrorsBefore(variables, k - 1) + [(v.name + ErrorSuffix, v.error)];
      } else {
        assert ErrorsBefore(variables, k) == ErrorsBefore(variables, k - 1);
      }
    } else {
      assert variables[..0] == [];
    }
  }

  /** The names of the four error lines. */
  lemma DeclaredErrorNames()
    ensures DeclaredNames[9] + ErrorSuffix == "Nsig_D0_down_error"
    ensures DeclaredNames[11] + ErrorSuffix == "Nsig_D0_up_error"
    ensures DeclaredNames[13] + ErrorSuffix == "Nsig_D0bar_down_error"
    ensures DeclaredNames[15] + ErrorSuffix == "Nsig_D0bar_up_error"
  {
  }

  /** The second loop writes the error lines of the four signal yields, in list order. */
  lemma DeclaredErrorLines(variables: seq<Parameter>)
    requires Names(variables) == DeclaredNames
    ensures Lines(ErrorPairs(variables)) == [
      Line("Nsig_D0_down_error", variables[9].error),
      Line("Nsig_D0_up_error", variables[11].error),
      Line("Nsig_D0bar_down_error", variables[13].error),
      Line("Nsig_D0bar_up_error", variables[15].error)]
  {
    DeclaredErrorPrefix(variables, 25);
    assert variables[..25] == variables;
    DeclaredErrorNames();
  }

  /** For the declared parameters the file has 25 value lines, in list order, followed by 4 error lines. */
  lemma DeclaredExport(variables: seq<Parameter>)
    requires Names(variables) == DeclaredNames
    ensures |Lines(ExportedPairs(variables))| == 29
    ensures forall i :: 0 <= i < 25 ==>
      Lines(ExportedPairs(variables))[i] == Line(DeclaredNames[i], variables[i].value)
    ensures Lines(ExportedPairs(variables))[25..] == [
      Line("Nsig_D0_down_error", variables[9].error),
      Line("Nsig_D0_up_error", variables[11].error),
      Line("Nsig_D0bar_down_error", variables[13].error),
      Line("Nsig_D0bar_up_error", variables[15].error)]
  {
    DeclaredNamesDistinct();
    DeclaredYieldPrefix(25);
    assert DeclaredNames[..25] == DeclaredNames;
    ExportValuesFirst(variables);
    assert Lines(ExportedPairs(variables))[25..] == Lines(ErrorPairs(variables)) by {
      ItemsOfDistinctPairs(Names(variables), Values(variables));
      LinesAppend(Items(ParameterDict(variables)), ErrorPairs(variables));
    }
    DeclaredErrorLines(variables);
  }

  /** The first nine declared names, `a0` and the fractions, hold no colon and no newline. */
  lemma FractionNamesAreKeys()
    ensures forall i :: 0 <= i < 9 ==> IsKey(DeclaredNames[i])
  {
  }

  /** The eight yield names hold no colon and no newline. */
  lemma YieldNamesAreKeys()
    ensures forall i :: 9 <= i < 17 ==> IsKey(DeclaredNames[i])
  {
  }

  /** The last eight declared names, the shape parameters, hold no colon and no newline. */
  lemma ShapeNamesAreKeys()
    ensures forall i :: 17 <= i < 25 ==> IsKey(DeclaredNames[i])
  {
  }

  /** No declared name holds a colon or a newline, so each can be read back as a key. */
  lemma DeclaredNamesAreKeys()
    ensures forall i :: 0 <= i < |DeclaredNames| ==> IsKey(DeclaredNames[i])
  {
    FractionNamesAreKeys();
    YieldNamesAreKeys();
    ShapeNamesAreKeys();
  }

  /** Reading back the file written for the declared parameters gives every exported pair, in order. */
  lemma DeclaredRoundTrip(variables: seq<Parameter>)
    requires Names(variables) == DeclaredNames
    requires forall i :: 0 <= i < |variables| ==> IsOneLine(variables[i].value) && IsOneLine(variables[i].error)
    ensures ParseText(Text(Lines(ExportedPairs(variables)))) == Some(ExportedPairs(variables))
  {
    DeclaredNamesAreKeys();
    forall i | 0 <= i < |variables| ensures IsKey(variables[i].name) {
      assert variables[i].name == DeclaredNames[i];
    }
    ExportRoundTrip(variables);
  }
}

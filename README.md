# Model 7 global fit: command-line checks, size list and parameter export

The Model 7 global-fit script fits four D0 mass spectra at once: D0 and D0bar, each
with magnet up and magnet down. Almost all of its work is done by ROOT and RooFit.
This project models the parts of the script that are plain logic and proves what
they promise:

- `size_argument`, the argument type of `--size`. It accepts a string of digits whose
  value is one of 10, 20, ..., 800 and returns that value. A string of more than 4300
  digits, leading zeros included, makes `int()` raise `ValueError` (CPython's integer
  string conversion limit). Any other ASCII string raises one of two argument errors.
- `generate_list`, the list 10, 20, ... that is built from the size.
- The `--binned_fit` decision: the fit is binned exactly when the flag is `y` or `Y`.
- The export of the fitted parameters to `fit_parameters.txt`. The parameters go into
  a dictionary keyed by name. The file then gets one `name: value` line per dictionary
  entry, followed by a `name_error: error` line for each parameter whose name starts
  with `Nsig_` (the signal yields).

Modules, one per component:

- `Wrappers` (wrappers.dfy): the `Option` and `Result` datatypes.
- `Decimal` (decimal.dfy): strings of ASCII digits. This covers `str.isdigit()` and
  `int(str)` on such strings, and their inverse `ToDecimal`.
- `CommandLine` (command_line.dfy): `SizeArgument`, its three ways of failing and their
  messages,
  and `IsBinnedFit`.
- `SizeList` (size_list.dfy): `GenerateList`, a `while` loop as in the source, and a
  predicate `IsSizeList` that describes its result.
- `OrderedDict` (ordered_dict.dfy): a Python dictionary built by a comprehension. Keys
  stay in the order they were first inserted. A key that is inserted again keeps its
  place and takes the new value.
- `ResultFile` (result_file.dfy): the `key: value` line format. It also reads text back
  into pairs, which the round-trip lemmas use.
- `ParameterExport` (parameter_export.dfy): the two writing loops as methods
  (`WriteItems`, `WriteErrors`) that append to a sequence of written lines,
  `WriteParameterFile`, which runs them one after the other, and the lemmas about what
  gets written.
- `DeclaredParameters` (declared_parameters.dfy): the 25 parameters the script actually
  exports, and what the export writes for them.

Only names starting with `Nsig_` get an error line; the background yields `Nbkg_...`
get none (fit_global_model7.py:342).

## Model

| member | source | states |
|---|---|---|
| `Decimal.IsDigits` | Models/Model7_pythonfiles/fit_global_model7.py:120 | `isdigit()` on ASCII text: true exactly for a non-empty string of the digits 0-9 |
| `Decimal.Value` | Models/Model7_pythonfiles/fit_global_model7.py:122 | the number `int()` reads from k digits is below 10^k, and at least 10^(k-1) when the first digit is not 0 |
| `Decimal.ToDecimal` | Models/Model7_pythonfiles/fit_global_model7.py:122 | the decimal text of n is a digit string that `int()` reads back as n, with no leading zero |
| `Decimal.ValueRoundTrip` | Models/Model7_pythonfiles/fit_global_model7.py:122 | a digit string without a leading zero is the decimal text of the number `int()` reads from it |
| `Decimal.LeadingZero` | Models/Model7_pythonfiles/fit_global_model7.py:122 | one leading zero does not change the value `int()` gives |
| `Decimal.LeadingZeros` | Models/Model7_pythonfiles/fit_global_model7.py:122 | any number of leading zeros does not change the value |
| `CommandLine.SizeChoiceIff` | Models/Model7_pythonfiles/fit_global_model7.py:123 | `1 <= n <= 800 and n % 10 == 0` holds exactly for n in {10, 20, ..., 800} |
| `CommandLine.SizeArgument` | Models/Model7_pythonfiles/fit_global_model7.py:119-128 | accepts exactly the digit strings of at most 4300 characters whose value is in {10, ..., 800}, returning that value; the error is "not an integer" exactly when the string is not all digits, and the conversion error exactly when it is a digit string of more than 4300 characters |
| `CommandLine.Message` | Models/Model7_pythonfiles/fit_global_model7.py:122-128 | the text argparse shows for each error kind: the two `ArgumentTypeError` messages, and `invalid size_argument value: '<text>'` for the `ValueError` of `int()` |
| `CommandLine.MessagesDistinct` | Models/Model7_pythonfiles/fit_global_model7.py:122-128 | the three texts differ for every refused string |
| `CommandLine.SizeErrorMessage` | Models/Model7_pythonfiles/fit_global_model7.py:120-128 | a refused string gets the "Invalid value" text exactly when it is not all digits, the conversion text exactly when it is a digit string of more than 4300 characters, and the range text exactly when it is a shorter digit string whose value is not one of 10, ..., 800 |
| `CommandLine.RejectsNonDigits` | Models/Model7_pythonfiles/fit_global_model7.py:120-128 | a string that is not all digits (the empty string included) is refused with the "Invalid value" error |
| `CommandLine.RejectsOutOfRange` | Models/Model7_pythonfiles/fit_global_model7.py:122-126 | a digit string of at most 4300 characters whose value is 0, above 800 or not a multiple of 10 is refused with the range error |
| `CommandLine.RejectsLongDigits` | Models/Model7_pythonfiles/fit_global_model7.py:120-122 | a digit string of more than 4300 characters is refused by `int()`, whatever its value |
| `CommandLine.AcceptedSizes` | Models/Model7_pythonfiles/fit_global_model7.py:123-124 | some string is accepted as n if and only if n is one of 10, 20, ..., 800 |
| `CommandLine.LeadingZerosAccepted` | Models/Model7_pythonfiles/fit_global_model7.py:120-124 | padding a digit string with zeros does not change the outcome while the padded string has at most 4300 digits |
| `CommandLine.PaddedTen` | Models/Model7_pythonfiles/fit_global_model7.py:122-124 | "010" is accepted as 10 |
| `CommandLine.PaddedTenTooLong` | Models/Model7_pythonfiles/fit_global_model7.py:120-124 | "10" is accepted, but "10" behind 4300 zeros is refused by `int()`: padding past the limit changes the outcome |
| `CommandLine.IsBinnedFit` | Models/Model7_pythonfiles/fit_global_model7.py:147-150 | the fit is binned iff the flag is the single character `y` or `Y` |
| `CommandLine.BinnedFitOnChoices` | Models/Model7_pythonfiles/fit_global_model7.py:72-78 | among the flags argparse allows, only `n` and `N` give an unbinned fit |
| `SizeList.GenerateList` | Models/Model7_pythonfiles/fit_global_model7.py:130-138 | the result is non-empty, entry i is 10*(i+1), the last entry has reached the target and all earlier ones are below it; its length is `StepCount(target)`; for a positive multiple of 10 it has target/10 entries and ends at the target |
| `SizeList.SizeListLength` | Models/Model7_pythonfiles/fit_global_model7.py:134 | any list meeting that description has one entry for a target up to 10, and the target divided by 10, rounded up, otherwise |
| `SizeList.SizeListUnique` | Models/Model7_pythonfiles/fit_global_model7.py:130-138 | the description determines the list, so it fully specifies `generate_list` |
| `SizeList.SmallTarget` | Models/Model7_pythonfiles/fit_global_model7.py:131-136 | a target of 10 or less (zero and negative included) gives exactly [10] |
| `OrderedDict.Insert` | Models/Model7_pythonfiles/fit_global_model7.py:335 | inserting keeps the dictionary valid; a new key is appended to the key order and an existing key keeps its place |
| `OrderedDict.FromPairs` | Models/Model7_pythonfiles/fit_global_model7.py:335 | the comprehension gives a valid dictionary whose keys are exactly the names |
| `OrderedDict.Items` | Models/Model7_pythonfiles/fit_global_model7.py:339 | `parameters_dict.items()`: one (key, value) pair per key, in key order; `ItemsOfDistinctPairs` states what they are for the exported dictionary |
| `OrderedDict.FromDistinctPairs` | Models/Model7_pythonfiles/fit_global_model7.py:335 | with distinct names the key order is the name list and each name maps to its own value |
| `OrderedDict.FromPairsValue` | Models/Model7_pythonfiles/fit_global_model7.py:335 | every value in the dictionary is one of the values given |
| `OrderedDict.LastValueWins` | Models/Model7_pythonfiles/fit_global_model7.py:335 | a repeated name maps to the value paired with its last occurrence |
| `OrderedDict.ItemsOfDistinctPairs` | Models/Model7_pythonfiles/fit_global_model7.py:335-339 | with distinct names the items are the zipped (name, value) pairs in list order |
| `ResultFile.Line` | Models/Model7_pythonfiles/fit_global_model7.py:340 | a written line is three characters longer than its key and value together, and ends with a newline; `LineRoundTrip` states the rest of the format |
| `ResultFile.Lines` | Models/Model7_pythonfiles/fit_global_model7.py:340 | the lines a sequence of `(key, value)` pairs is written as, one `key: value` line per pair; `LinesAppend`, `WriteItems` and `LinesRoundTrip` state its properties |
| `ResultFile.LineRoundTrip` | Models/Model7_pythonfiles/fit_global_model7.py:340 | reading a written line back gives its key and value, for any key without a colon |
| `ResultFile.WrittenLine` | Models/Model7_pythonfiles/fit_global_model7.py:340 | a written line holds exactly one newline, at its end |
| `ResultFile.SplitText` | Models/Model7_pythonfiles/fit_global_model7.py:338-343 | splitting the file text at newlines gives back the lines written, in order |
| `ResultFile.LinesRoundTrip` | Models/Model7_pythonfiles/fit_global_model7.py:339-343 | reading back the lines written for a sequence of pairs gives back those pairs, in order |
| `ResultFile.LinesAppend` | Models/Model7_pythonfiles/fit_global_model7.py:338-343 | the lines for two pair sequences written one after the other are the lines of the joined sequence |
| `ResultFile.TextRoundTrip` | Models/Model7_pythonfiles/fit_global_model7.py:338-343 | reading back text made of written lines gives back every (key, value) pair, in order |
| `ParameterExport.Values` | Models/Model7_pythonfiles/fit_global_model7.py:330 | `values`: each parameter's value, in list order; `ExportValuesFirst` states where they end up in the file |
| `ParameterExport.Names` | Models/Model7_pythonfiles/fit_global_model7.py:332 | `names`: each parameter's name, in list order; `ExportValuesFirst` states where they end up in the file |
| `ParameterExport.IsSignalYield` | Models/Model7_pythonfiles/fit_global_model7.py:342 | `name.startswith("Nsig_")`: the name is at least five characters long and begins with `Nsig_` |
| `ParameterExport.ErrorPairs` | Models/Model7_pythonfiles/fit_global_model7.py:341-343 | the `(name_error, error)` pairs the second loop writes, in list order; `ErrorPairsSound`, `ErrorPairsComplete` and `ErrorPairsCount` state which they are |
| `ParameterExport.ParameterDict` | Models/Model7_pythonfiles/fit_global_model7.py:335 | the parameter dictionary is a valid insertion-ordered dictionary |
| `ParameterExport.WriteItems` | Models/Model7_pythonfiles/fit_global_model7.py:339-340 | the first loop appends exactly one `key: value` line per dictionary item, in item order, after what was already written |
| `ParameterExport.WriteErrors` | Models/Model7_pythonfiles/fit_global_model7.py:341-343 | the second loop appends exactly the error lines of the signal yields, in list order, after what was already written |
| `ParameterExport.WriteParameterFile` | Models/Model7_pythonfiles/fit_global_model7.py:338-343 | writes the dictionary's items, then the error pairs; with distinct names that is one `name: value` line per parameter in declaration order, and the error lines make up the rest of the file, one per signal yield |
| `ParameterExport.ErrorPairsStep` | Models/Model7_pythonfiles/fit_global_model7.py:341-343 | each step of the second loop adds an error line only for a name starting with `Nsig_` |
| `ParameterExport.ErrorPairsCount` | Models/Model7_pythonfiles/fit_global_model7.py:341-343 | there are as many error lines as names starting with `Nsig_` |
| `ParameterExport.ErrorPairsSound` | Models/Model7_pythonfiles/fit_global_model7.py:341-343 | each error line is `<name>_error` with the error of a parameter whose name starts with `Nsig_` |
| `ParameterExport.ErrorPairsComplete` | Models/Model7_pythonfiles/fit_global_model7.py:341-343 | every parameter whose name starts with `Nsig_` has its error line |
| `ParameterExport.ExportedPairsReadable` | Models/Model7_pythonfiles/fit_global_model7.py:338-343 | every exported key and value can be written on one line and read back |
| `ParameterExport.ExportRoundTrip` | Models/Model7_pythonfiles/fit_global_model7.py:338-343 | reading the written file back recovers every exported (key, value) pair, in order |
| `ParameterExport.ExportValuesFirst` | Models/Model7_pythonfiles/fit_global_model7.py:329-340 | with distinct names the file has parameters-plus-signal-yields lines, and the first lines are each parameter's `name: value`, in declaration order |
| `ParameterExport.ExportErrorsAfter` | Models/Model7_pythonfiles/fit_global_model7.py:341-343 | with distinct names every line after the value lines is a signal yield's error line |
| `DeclaredParameters.DeclaredNamesDistinct` | Models/Model7_pythonfiles/fit_global_model7.py:329 | the 25 exported parameter names are distinct, so the dictionary drops none of them |
| `DeclaredParameters.SignalYieldChars` | Models/Model7_pythonfiles/fit_global_model7.py:342 | `startswith("Nsig_")` is the same test as checking the first five characters one by one |
| `DeclaredParameters.DeclaredYieldAt` | Models/Model7_pythonfiles/fit_global_model7.py:329 | the signal yields of the list are exactly entries 9, 11, 13 and 15 |
| `DeclaredParameters.DeclaredYieldPrefix` | Models/Model7_pythonfiles/fit_global_model7.py:329 | the number of signal yields among the first k declared names |
| `DeclaredParameters.DeclaredErrorPrefix` | Models/Model7_pythonfiles/fit_global_model7.py:329-343 | run over the first k declared parameters, the second loop writes the error pairs of the signal yields among them, in list order |
| `DeclaredParameters.DeclaredErrorNames` | Models/Model7_pythonfiles/fit_global_model7.py:342-343 | the four error keys are `Nsig_D0_down_error`, `Nsig_D0_up_error`, `Nsig_D0bar_down_error` and `Nsig_D0bar_up_error` |
| `DeclaredParameters.DeclaredErrorLines` | Models/Model7_pythonfiles/fit_global_model7.py:341-343 | for the declared parameters the second loop writes exactly those four error lines, with the errors of entries 9, 11, 13 and 15, in that order |
| `DeclaredParameters.DeclaredExport` | Models/Model7_pythonfiles/fit_global_model7.py:329-343 | for the declared parameters the file has 29 lines: the 25 value lines in list order, then the error lines of `Nsig_D0_down`, `Nsig_D0_up`, `Nsig_D0bar_down` and `Nsig_D0bar_up` |
| `DeclaredParameters.DeclaredNamesAreKeys` | Models/Model7_pythonfiles/fit_global_model7.py:329 | no declared name holds a colon or a newline |
| `DeclaredParameters.DeclaredRoundTrip` | Models/Model7_pythonfiles/fit_global_model7.py:329-343 | for the declared parameters, with value and error text on one line, reading the written file back gives every exported pair, in order |

## Left out

- Everything done through ROOT and RooFit is not modelled: reading the TChains,
  `SetBranchStatus`, histogram `Draw`/`GetPrimitive`, `RooDataHist`, `RooSimultaneous`,
  `fitTo`, and `enableBinIntegrator`/`disableBinIntegrator`. These are calls into a
  library whose code is not part of this model, and the likelihood maths lives in that
  library.
- The shape definitions and parameter bounds (lines 209-256) are not modelled. They are
  constructor calls into RooFit and have no behaviour of their own in this script.
- The file-loading loop (lines 161-206) is not modelled. It walks `size_list` but never
  uses the loop variable, and it only does file I/O.
- The unbinned branch is not modelled. `fitResult` is only assigned when the fit is
  binned, so the unbinned run stops at `fitResult.Print()`.
- `dir_path` and `parse_arguments` are not modelled. They are filesystem checks and
  argparse plumbing. `CommandLine.SizeArgument` returns the error kind and
  `CommandLine.Message` the text argparse shows for it; how argparse prints the usage
  line and exits is not modelled.
- fit_global.py and plot_pT_eta.py are not part of this model.
- `CommandLine.SizeArgument` uses CPython's default conversion limit of 4300 digits. A limit
  changed through `PYTHONINTMAXSTRDIGITS` or `sys.set_int_max_str_digits`, and older Python
  versions that have no limit, are not modelled.
- `CommandLine.SizeArgument` considers only ASCII digits. Python's `str.isdigit()` also
  accepts other Unicode digits, some of which `int()` then rejects; that case is not
  modelled.
- `ParameterExport.WriteParameterFile` carries each value and error as the text Python
  prints for it. How Python formats a float is not modelled. The round-trip lemmas
  therefore recover that text, not a float.
- `ParameterExport.ExportRoundTrip` assumes that names contain no colon or newline and
  that value text contains no newline. `DeclaredParameters.DeclaredRoundTrip` proves that the
  declared names meet this. Python's text for a float holds no newline, but that is not
  proved here.
- Opening the output file and the timing printout at the end of the script are not
  modelled. The method returns the sequence of written lines instead of writing a
  file.

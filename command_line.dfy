/**
 * The two command-line decisions of the Model 7 global-fit script that are
 * plain logic: the `--size` argument type and the `--binned_fit` flag.
 */
module CommandLine {
  import opened Wrappers
  import opened Decimal

  /** The ways `size_argument` can refuse its text. */
  datatype SizeError =
    | NotAnInteger      // `ArgumentTypeError`: the text is not a string of digits
    | OutOfRange        // `ArgumentTypeError`: a number, but not one of 10, 20, ..., 800
    | ConversionLimit   // `ValueError` from `int()`: more digits than the conversion limit

  /**
   * The longest digit string `int()` converts: the default integer string
   * conversion length limit of CPython 3.11 on and of the September 2022
   * security releases (3.7.14, 3.8.14, 3.9.14, 3.10.7).
   * Leading zeros count as digits.
   */
  const MaxStrDigits := 4300

  /**
   * The error text argparse shows: the message of an `ArgumentTypeError`, or
   * for any other `ValueError` its own `invalid <type> value: <repr>` text.
   */
  function Message(e: SizeError, value: string): string {
    match e
    case NotAnInteger => "Invalid value.Choose an integer between 1 and 800 that is divisible by 10."
    case OutOfRange => "Integer value must be between 1 and 800 and be divisible by 10."
    case ConversionLimit => "invalid size_argument value: '" + value + "'"
  }

  const MinSize := 1
  const MaxSize := 800
  const SizeStep := 10

  /** The sizes the documentation of `--size` promises: 10, 20, ..., 800. */
  const SizeChoices: set<int> := set k | 1 <= k <= 80 :: 10 * k

  /** The range-and-step test the script applies is the same set as `SizeChoices`. */
  lemma SizeChoiceIff(n: int)
    ensures n in SizeChoices <==> MinSize <= n <= MaxSize && n % SizeStep == 0
  {
    if MinSize <= n <= MaxSize && n % SizeStep == 0 {
      var k := n / 10;
      assert n == 10 * k;
    }
  }

  /**
   * `size_argument`: a string of digits that `int()` converts and whose value
   * is one of the size choices is accepted as that value; a string of too
   * many digits makes `int()` fail; a string of digits with any other value
   * is out of range; anything else is not an integer.
   */
  function SizeArgument(value: string): (r: Result<int, SizeError>)
    ensures r.Success? <==> IsDigits(value) && |value| <= MaxStrDigits && Value(value) in SizeChoices
    ensures r.Success? ==> r.value == Value(value)
    ensures r.Failure? ==> (r.error == NotAnInteger <==> !IsDigits(value))
    ensures r.Failure? ==> (r.error == ConversionLimit <==> IsDigits(value) && |value| > MaxStrDigits)
  {
    if IsDigits(value) then
      if |value| > MaxStrDigits then Failure(ConversionLimit)
      else
        var n := Value(value);
        SizeChoiceIff(n);
        if MinSize <= n <= MaxSize && n % SizeStep == 0 then Success(n)
        else Failure(OutOfRange)
    else
      Failure(NotAnInteger)
  }

  /** The three texts differ, whatever the refused string, so the text tells the failures apart. */
  lemma MessagesDistinct(value: string)
    ensures Message(NotAnInteger, value) != Message(OutOfRange, value)
    ensures Message(NotAnInteger, value) != Message(ConversionLimit, value)
    ensures Message(OutOfRange, value) != Message(ConversionLimit, value)
  {
    assert |Message(NotAnInteger, value)| == 74 && |Message(OutOfRange, value)| == 63;
    assert Message(NotAnInteger, value)[73] == '.' && Message(OutOfRange, value)[62] == '.';
    var conversion := Message(ConversionLimit, value);
    assert conversion[|conversion| - 1] == '\'';
  }

  /** The message shown names the check that failed: the digit test, the conversion, or the range test. */
  lemma SizeErrorMessage(value: string)
    requires SizeArgument(value).Failure?
    ensures Message(SizeArgument(value).error, value) == Message(NotAnInteger, value)
      <==> !IsDigits(value)
    ensures Message(SizeArgument(value).error, value) == Message(OutOfRange, value)
      <==> IsDigits(value) && |value| <= MaxStrDigits && Value(value) !in SizeChoices
    ensures Message(SizeArgument(value).error, value) == Message(ConversionLimit, value)
      <==> IsDigits(value) && |value| > MaxStrDigits
  {
    MessagesDistinct(value);
  }

  /** A string that is not all digits is refused as not an integer. */
  lemma RejectsNonDigits(value: string)
    requires !IsDigits(value)
    ensures SizeArgument(value) == Failure(NotAnInteger)
  {
  }

  /** A digit string `int()` converts, whose value is 0, above 800 or not a multiple of 10, is out of range. */
  lemma RejectsOutOfRange(value: string)
    requires IsDigits(value) && |value| <= MaxStrDigits
    requires Value(value) == 0 || Value(value) > MaxSize || Value(value) % SizeStep != 0
    ensures SizeArgument(value) == Failure(OutOfRange)
  {
    SizeChoiceIff(Value(value));
  }

  /** The values `size_argument` can return are exactly 10, 20, ..., 800. */
  lemma AcceptedSizes(n: int)
    ensures (exists s :: SizeArgument(s) == Success(n)) <==> n in SizeChoices
  {
    if n in SizeChoices {
      var s := ToDecimal(n);
      ShortDecimal(n);
      assert SizeArgument(s) == Success(n);
    }
  }

  /** A number below 1000 is written with at most three digits. */
  lemma ShortDecimal(n: nat)
    requires n < 1000
    ensures |ToDecimal(n)| <= 3
  {
    if n >= 10 {
      assert |ToDecimal(n)| == |ToDecimal(n / 10)| + 1;
      if n / 10 >= 10 {
        assert |ToDecimal(n / 10)| == |ToDecimal(n / 100)| + 1;
      }
    }
  }

  /** A digit string longer than the conversion limit makes `int()` fail, whatever its value. */
  lemma RejectsLongDigits(value: string)
    requires IsDigits(value) && |value| > MaxStrDigits
    ensures SizeArgument(value) == Failure(ConversionLimit)
  {
  }

  /** Leading zeros are accepted and ignored, as `int()` ignores them, while the padded text stays within the limit. */
  lemma LeadingZerosAccepted(k: nat, value: string)
    requires IsDigits(value) && k + |value| <= MaxStrDigits
    ensures SizeArgument(Zeros(k) + value) == SizeArgument(value)
  {
    LeadingZeros(k, value);
  }

  /** Padding past the limit changes the outcome: "10" behind 4300 zeros is refused. */
  lemma PaddedTenTooLong()
    ensures SizeArgument("10") == Success(10)
    ensures SizeArgument(Zeros(MaxStrDigits) + "10") == Failure(ConversionLimit)
  {
    PaddedTen();
    LeadingZerosAccepted(1, "10");
    LeadingZeros(MaxStrDigits, "10");
  }

  /** For example, "010" is accepted as the size 10. */
  lemma PaddedTen()
    ensures SizeArgument("010") == Success(10)
  {
    LeadingZerosAccepted(1, "10");
    assert Zeros(1) + "10" == "010";
    assert "10"[..1] == "1" && "1"[..0] == "";
    assert Value("10") == 10;
    SizeChoiceIff(10);
  }

  /** The choices argparse offers for `--binned_fit`. */
  const BinnedFitChoices: seq<string> := ["y", "Y", "n", "N"]

  /** The fit is binned exactly when the flag is a single `y`, in either case. */
  function IsBinnedFit(flag: string): (binned: bool)
    ensures binned <==> |flag| == 1 && (flag[0] == 'y' || flag[0] == 'Y')
  {
    flag == "y" || flag == "Y"
  }

  /** Among the flags argparse lets through, only `n` and `N` select an unbinned fit. */
  lemma BinnedFitOnChoices(flag: string)
    requires flag in BinnedFitChoices
    ensures !IsBinnedFit(flag) <==> flag == "n" || flag == "N"
  {
  }
}

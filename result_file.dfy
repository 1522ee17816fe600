/**
 * The text format of `fit_parameters.txt`: one `key: value` line per entry,
 * each ended by a newline, and the reading of such text back into pairs.
 */
module ResultFile {
  import opened Wrappers

  const Separator := ": "

  /** A key that can be read back: no colon, no newline. */
  predicate IsKey(s: string) {
    forall i :: 0 <= i < |s| ==> s[i] != ':' && s[i] != '\n'
  }

  /** Value text that stays on its line. */
  predicate IsOneLine(s: string) {
    forall i :: 0 <= i < |s| ==> s[i] != '\n'
  }

  /** The line `f"{key}: {value}\n"` writes. */
  function Line(key: string, value: string): (line: string)
    ensures |line| == |key| + |value| + 3
    ensures line[|line| - 1] == '\n'
  {
    key + Separator + value + "\n"
  }

  /** The position of the first `c` in `s`, or `|s|` when there is none. */
  function IndexOf(s: string, c: char): (k: nat)
    ensures k <= |s|
    ensures k < |s| ==> s[k] == c
    ensures forall i :: 0 <= i < k ==> s[i] != c
  {
    if s == [] then 0
    else if s[0] == c then 0
    else 1 + IndexOf(s[1..], c)
  }

  /** Reads one line: the key is the text before the first colon, which must be followed by a space. */
  function ParseLine(line: string): Option<(string, string)> {
    var k := IndexOf(line, ':');
    if |line| > 0 && line[|line| - 1] == '\n' && k + 2 <= |line| - 1 && line[k + 1] == ' ' then
      Some((line[..k], line[k + 2..|line| - 1]))
    else
      None
  }

  /** The text a sequence of `write` calls leaves in the file. */
  function Text(lines: seq<string>): string {
    if lines == [] then [] else Text(lines[..|lines| - 1]) + lines[|lines| - 1]
  }

  /** Splits text after each newline; a last line without one is kept as it is. */
  function SplitLines(text: string): seq<string>
    decreases |text|
  {
    if text == [] then []
    else
      var k := IndexOf(text, '\n');
      if k == |text| then [text]
      else [text[..k + 1]] + SplitLines(text[k + 1..])
  }

  /** Reads each line in turn, failing if any of them is not a `key: value` line. */
  function ParseLines(lines: seq<string>): Option<seq<(string, string)>> {
    if lines == [] then Some([])
    else
      match ParseLine(lines[0])
      case None => None
      case Some(pair) =>
        match ParseLines(lines[1..])
        case None => None
        case Some(rest) => Some([pair] + rest)
  }

  /** Reads the whole text back into pairs. */
  function ParseText(text: string): Option<seq<(string, string)>> {
    ParseLines(SplitLines(text))
  }

  /** The first `c` in `a + b` is inside `b` when `a` has none. */
  lemma {:induction false} IndexOfAppend(a: string, b: string, c: char)
    requires forall i :: 0 <= i < |a| ==> a[i] != c
    ensures IndexOf(a + b, c) == |a| + IndexOf(b, c)
  {
    if a != [] {
      assert (a + b)[1..] == a[1..] + b;
      IndexOfAppend(a[1..], b, c);
    } else {
      assert a + b == b;
    }
  }

  /** Reading a written line gives back its key and value. */
  lemma LineRoundTrip(key: string, value: string)
    requires IsKey(key)
    ensures ParseLine(Line(key, value)) == Some((key, value))
  {
    var line := Line(key, value);
    assert line == key + (Separator + value + "\n");
    IndexOfAppend(key, Separator + value + "\n", ':');
    assert line[..|key|] == key;
    assert line[|key| + 2..|line| - 1] == value;
  }

  /** A line with no newline but its last character. */
  predicate IsWrittenLine(line: string) {
    |line| > 0 && line[|line| - 1] == '\n' && IsOneLine(line[..|line| - 1])
  }

  lemma WrittenLine(key: string, value: string)
    requires IsKey(key) && IsOneLine(value)
    ensures IsWrittenLine(Line(key, value))
  {
    var line := Line(key, value);
    assert line[..|line| - 1] == key + Separator + value;
  }

  lemma {:induction false} TextCons(lines: seq<string>)
    requires lines != []
    ensures Text(lines) == lines[0] + Text(lines[1..])
    decreases |lines|
  {
    if |lines| > 1 {
      var n := |lines| - 1;
      TextCons(lines[..n]);
      assert lines[..n][1..] == lines[1..][..n - 1];
      assert lines[..n][0] == lines[0];
      assert lines[1..][n - 1] == lines[n];
    } else {
      assert lines[1..] == [];
      assert lines[..0] == [];
    }
  }

  /** Splitting the written text gives back the lines written. */
  lemma {:induction false} SplitText(lines: seq<string>)
    requires forall i :: 0 <= i < |lines| ==> IsWrittenLine(lines[i])
    ensures SplitLines(Text(lines)) == lines
    decreases |lines|
  {
    if lines != [] {
      var first := lines[0];
      TextCons(lines);
      var text := Text(lines);
      IndexOfAppend(first[..|first| - 1], ['\n'] + Text(lines[1..]), '\n');
      assert text == first[..|first| - 1] + (['\n'] + Text(lines[1..]));
      assert text[..|first|] == first;
      assert text[|first|..] == Text(lines[1..]);
      SplitText(lines[1..]);
      assert lines == [first] + lines[1..];
    }
  }

  /** Reading back the lines written for some pairs gives back the pairs, in order. */
  lemma {:induction false} LinesRoundTrip(pairs: seq<(string, string)>)
    requires forall i :: 0 <= i < |pairs| ==> IsKey(pairs[i].0)
    ensures ParseLines(Lines(pairs)) == Some(pairs)
    decreases |pairs|
  {
    var lines := Lines(pairs);
    if pairs == [] {
      assert lines == [];
    } else {
      LineRoundTrip(pairs[0].0, pairs[0].1);
      assert lines[1..] == Lines(pairs[1..]);
      LinesRoundTrip(pairs[1..]);
      assert pairs == [pairs[0]] + pairs[1..];
    }
  }

  /** Reading back text made of `Line(key, value)` lines gives back the pairs, in order. */
  lemma TextRoundTrip(pairs: seq<(string, string)>)
    requires forall i :: 0 <= i < |pairs| ==> IsKey(pairs[i].0) && IsOneLine(pairs[i].1)
    ensures ParseText(Text(Lines(pairs))) == Some(pairs)
  {
    var lines := Lines(pairs);
    forall i | 0 <= i < |lines| ensures IsWrittenLine(lines[i]) {
      WrittenLine(pairs[i].0, pairs[i].1);
    }
    SplitText(lines);
    LinesRoundTrip(pairs);
  }

  /** One written line per pair. */
  function Lines(pairs: seq<(string, string)>): seq<string> {
    seq(|pairs|, i requires 0 <= i < |pairs| => Line(pairs[i].0, pairs[i].1))
  }

  lemma LinesAppend(a: seq<(string, string)>, b: seq<(string, string)>)
    ensures Lines(a + b) == Lines(a) + Lines(b)
  {
    assert |Lines(a + b)| == |Lines(a) + Lines(b)|;
    forall i | 0 <= i < |a + b| ensures Lines(a + b)[i] == (Lines(a) + Lines(b))[i] {
      if i >= |a| {
        assert (a + b)[i] == b[i - |a|];
      }
    }
  }
}

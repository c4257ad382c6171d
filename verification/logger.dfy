/**
 The console logger of the link checker (`OutputLogger` in main.go).

 The console is modelled as the sequence of lines printed so far; each line is
 stored without the newline that `fmt.Println` appends to it.
 */
module Logging {

  /** The logger's only setting. Debug lines are printed exactly when it is "DEBUG". */
  datatype Logger = Logger(verbosity: string)

  const DebugLevel: string := "DEBUG"

  /** The text of one logged line: every part followed by a single space. */
  function Line(parts: seq<string>): string
  {
    if parts == [] then "" else parts[0] + " " + Line(parts[1..])
  }

  /** The width of a line: the length of each part plus its trailing space. */
  function Width(parts: seq<string>): nat
  {
    if parts == [] then 0 else |parts[0]| + 1 + Width(parts[1..])
  }

  /** Formatting distributes over concatenation of the parts. */
  lemma {:induction false} LineAppend(a: seq<string>, b: seq<string>)
    ensures Line(a + b) == Line(a) + Line(b)
  {
    if a == [] {
      assert a + b == b;
    } else {
      assert (a + b)[0] == a[0];
      assert (a + b)[1..] == a[1..] + b;
      LineAppend(a[1..], b);
    }
  }

  /** A line is exactly as long as its parts plus one space per part. */
  lemma {:induction false} LineLength(parts: seq<string>)
    ensures |Line(parts)| == Width(parts)
  {
    if parts != [] {
      LineLength(parts[1..]);
    }
  }

  /** Part `i` of a line sits at offset `Width(parts[..i])`, after the parts before it,
      and is followed by exactly one space and then the parts after it. */
  lemma LinePart(parts: seq<string>, i: nat)
    requires i < |parts|
    ensures Line(parts) == Line(parts[..i]) + parts[i] + " " + Line(parts[i + 1..])
    ensures |Line(parts[..i])| == Width(parts[..i])
  {
    var tail := [parts[i]] + parts[i + 1..];
    assert parts == parts[..i] + tail;
    LineAppend(parts[..i], tail);
    assert tail[0] == parts[i] && tail[1..] == parts[i + 1..];
    LineLength(parts[..i]);
  }

  /** `Output` builds the line in a buffer, one part and one space at a time. */
  method Output(parts: seq<string>) returns (line: string)
    ensures line == Line(parts)
    ensures |line| == Width(parts)
  {
    line := "";
    var i := 0;
    while i < |parts|
      invariant 0 <= i <= |parts|
      invariant line == Line(parts[..i])
    {
      LineAppend(parts[..i], [parts[i]]);
      assert parts[..i + 1] == parts[..i] + [parts[i]];
      line := line + parts[i];
      line := line + " ";
      i := i + 1;
    }
    assert parts[..i] == parts;
    LineLength(parts);
  }

  /** The console lines one call of `Output` prints. */
  function OutputLines(parts: seq<string>): (r: seq<string>)
    ensures |r| == 1 && r[0] == Line(parts)
  {
    [Line(parts)]
  }

  /** `Debug` prints one line when the verbosity is "DEBUG", and nothing otherwise. */
  function Debug(logger: Logger, parts: seq<string>): (r: seq<string>)
    ensures |r| <= 1
    ensures r != [] <==> logger.verbosity == DebugLevel
    ensures forall line :: line in r ==> line == Line(parts)
  {
    if logger.verbosity == DebugLevel then OutputLines(parts) else []
  }

  /** `Error` prints its line whatever the verbosity: it is what `Debug` prints at "DEBUG". */
  function Error(logger: Logger, parts: seq<string>): (r: seq<string>)
    ensures r == Debug(Logger(DebugLevel), parts)
    ensures |r| == 1 && r[0] == Line(parts)
  {
    OutputLines(parts)
  }
}

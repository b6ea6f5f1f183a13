/**
  Text normalisation and tokenisation of program output before it is graded.
 */
module Normalizer {
  /** The characters Python counts as whitespace when it strips and splits text. */
  predicate IsSpace(c: char) {
    var v := c as int;
    || 0x9 <= v <= 0xD || 0x1C <= v <= 0x20 || v == 0x85 || v == 0xA0 || v == 0x1680
    || 0x2000 <= v <= 0x200A || v == 0x2028 || v == 0x2029 || v == 0x202F || v == 0x205F || v == 0x3000
  }

  function RStrip(line: string): string {
    if line != "" && IsSpace(line[|line| - 1]) then RStrip(line[..|line| - 1]) else line
  }

  function ReplaceCrLf(s: string): string {
    if |s| >= 2 && s[0] == '\r' && s[1] == '\n' then "\n" + ReplaceCrLf(s[2..])
    else if s == "" then "" else [s[0]] + ReplaceCrLf(s[1..])
  }

  function ReplaceCr(s: string): string {
    if s == "" then "" else [if s[0] == '\r' then '\n' else s[0]] + ReplaceCr(s[1..])
  }

  /** Puts `c` in front of the first line. */
  function Prepend(c: char, lines: seq<string>): (r: seq<string>)
    requires lines != []
    ensures r != []
  {
    [[c] + lines[0]] + lines[1..]
  }

  /** Splits at every line feed. */
  function Split(s: string): (lines: seq<string>)
    ensures lines != []
  {
    if s == "" then [""]
    else if s[0] == '\n' then [""] + Split(s[1..])
    else Prepend(s[0], Split(s[1..]))
  }

  /** Joins with a line feed between lines. */
  function Join(lines: seq<string>): string {
    if lines == [] then ""
    else if |lines| == 1 then lines[0]
    else lines[0] + "\n" + Join(lines[1..])
  }

  function Stripped(lines: seq<string>): seq<string> {
    seq(|lines|, i requires 0 <= i < |lines| => RStrip(lines[i]))
  }

  function DropBlankTail(lines: seq<string>): seq<string> {
    if lines != [] && lines[|lines| - 1] == "" then DropBlankTail(lines[..|lines| - 1]) else lines
  }

  function Normalize(s: string): string {
    Join(DropBlankTail(Stripped(Split(ReplaceCr(ReplaceCrLf(s))))))
  }

  method NormalizeText(text: string) returns (r: string)
    ensures r == Normalize(text)
  {
    if text == "" {
      return "";
    }
    var unified := ReplaceCr(ReplaceCrLf(text));
    var lines := Split(unified);
    var i := 0;
    while i < |lines|
      invariant 0 <= i <= |lines| == |Split(unified)|
      invariant forall j :: 0 <= j < i ==> lines[j] == RStrip(Split(unified)[j])
      invariant forall j :: i <= j < |lines| ==> lines[j] == Split(unified)[j]
    {
      lines := lines[i := RStrip(lines[i])];
      i := i + 1;
    }
    assert lines == Stripped(Split(unified));
    while lines != [] && lines[|lines| - 1] == ""
      invariant DropBlankTail(lines) == DropBlankTail(Stripped(Split(unified)))
    {
      lines := lines[..|lines| - 1];
    }
    r := Join(lines);
  }

  function Flush(word: string): seq<string> {
    if word == "" then [] else [word]
  }

  /** Splits `s` at whitespace, `word` being the word read so far. */
  function Words(s: string, word: string): seq<string> {
    if s == "" then Flush(word)
    else if IsSpace(s[0]) then Flush(word) + Words(s[1..], "")
    else Words(s[1..], word + [s[0]])
  }

  function Tokenize(text: string): seq<string> {
    Words(text, "")
  }
}

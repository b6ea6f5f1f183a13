/**
  What normalisation and tokenisation mean, in terms of the lines of a text.
 */
module NormalizerLaws {
  import opened Models
  import opened Normalizer

  // ---------- Lines ----------

  /** The lines of a text in one pass: each of CR LF, CR and LF ends a line. */
  function TextLines(s: string): (lines: seq<string>)
    ensures lines != []
  {
    if s == "" then [""]
    else if |s| >= 2 && s[0] == '\r' && s[1] == '\n' then [""] + TextLines(s[2..])
    else if s[0] == '\r' || s[0] == '\n' then [""] + TextLines(s[1..])
    else Prepend(s[0], TextLines(s[1..]))
  }

  predicate Unbroken(line: string) {
    forall i :: 0 <= i < |line| ==> line[i] != '\r' && line[i] != '\n'
  }

  predicate AllUnbroken(lines: seq<string>) {
    forall i :: 0 <= i < |lines| ==> Unbroken(lines[i])
  }

  lemma {:induction false} SplitIsTextLines(s: string)
    ensures Split(ReplaceCr(ReplaceCrLf(s))) == TextLines(s)
  {
    if |s| >= 2 && s[0] == '\r' && s[1] == '\n' {
      SplitIsTextLines(s[2..]);
      assert ReplaceCrLf(s)[1..] == ReplaceCrLf(s[2..]);
      assert ReplaceCr(ReplaceCrLf(s))[1..] == ReplaceCr(ReplaceCrLf(s[2..]));
    } else if s != "" {
      SplitIsTextLines(s[1..]);
      assert ReplaceCrLf(s)[1..] == ReplaceCrLf(s[1..]);
      assert ReplaceCr(ReplaceCrLf(s))[1..] == ReplaceCr(ReplaceCrLf(s[1..]));
    }
  }

  lemma {:induction false} TextLinesAreUnbroken(s: string)
    ensures AllUnbroken(TextLines(s))
  {
    if |s| >= 2 && s[0] == '\r' && s[1] == '\n' {
      TextLinesAreUnbroken(s[2..]);
    } else if s != "" {
      TextLinesAreUnbroken(s[1..]);
    }
  }

  /** A text without line breaks in front of a rest whose first line it joins. */
  lemma {:induction false} LineInFront(line: string, rest: string)
    requires Unbroken(line) && (rest == "" || rest[0] == '\n')
    ensures TextLines(line + rest) == [line] + TextLines(rest)[1..]
  {
    if line == "" {
      assert line + rest == rest;
    } else {
      assert (line + rest)[1..] == line[1..] + rest;
      LineInFront(line[1..], rest);
      assert line == [line[0]] + line[1..];
    }
  }

  /** Joining lines and reading the lines of the result gives the lines back. */
  lemma {:induction false} LinesOfJoin(lines: seq<string>)
    requires lines != [] && AllUnbroken(lines)
    ensures TextLines(Join(lines)) == lines
  {
    if |lines| == 1 {
      LineInFront(lines[0], "");
      assert lines[0] + "" == lines[0];
      assert lines == [lines[0]];
    } else {
      LinesOfJoin(lines[1..]);
      var rest := "\n" + Join(lines[1..]);
      LineInFront(lines[0], rest);
      assert rest[1..] == Join(lines[1..]);
      assert TextLines(rest) == [""] + lines[1..];
      assert lines[0] + "\n" + Join(lines[1..]) == lines[0] + rest;
      assert lines == [lines[0]] + lines[1..];
    }
  }

  lemma {:induction false} RStripKeepsPrefix(line: string)
    ensures RStrip(line) <= line
    ensures RStrip(line) != "" ==> !IsSpace(RStrip(line)[|RStrip(line)| - 1])
    ensures RStrip(RStrip(line)) == RStrip(line)
  {
    if line != "" && IsSpace(line[|line| - 1]) {
      RStripKeepsPrefix(line[..|line| - 1]);
    }
  }

  lemma {:induction false} TailIsDropped(lines: seq<string>)
    ensures DropBlankTail(lines) <= lines
    ensures forall i :: |DropBlankTail(lines)| <= i < |lines| ==> lines[i] == ""
    ensures var d := DropBlankTail(lines); d != [] ==> d[|d| - 1] != ""
  {
    if lines != [] && lines[|lines| - 1] == "" {
      TailIsDropped(lines[..|lines| - 1]);
    }
  }

  /** The lines that are left after normalisation. */
  function Kept(s: string): seq<string> {
    DropBlankTail(Stripped(TextLines(s)))
  }

  lemma StrippedLines(lines: seq<string>)
    requires AllUnbroken(lines)
    ensures |Stripped(lines)| == |lines| && AllUnbroken(Stripped(lines))
    ensures forall i :: 0 <= i < |lines| ==> RStrip(Stripped(lines)[i]) == Stripped(lines)[i]
  {
    hide RStrip;
    forall i | 0 <= i < |lines|
      ensures Unbroken(RStrip(lines[i])) && RStrip(RStrip(lines[i])) == RStrip(lines[i])
    {
      RStripKeepsPrefix(lines[i]);
    }
  }

  lemma KeptLines(s: string)
    ensures Normalize(s) == Join(Kept(s))
    ensures AllUnbroken(Kept(s))
    ensures forall i :: 0 <= i < |Kept(s)| ==> RStrip(Kept(s)[i]) == Kept(s)[i]
    ensures Kept(s) != [] ==> Kept(s)[|Kept(s)| - 1] != ""
  {
    hide TextLines, RStrip, Stripped, DropBlankTail, Join, Unbroken, Split, ReplaceCr, ReplaceCrLf;
    SplitIsTextLines(s);
    TextLinesAreUnbroken(s);
    StrippedLines(TextLines(s));
    TailIsDropped(Stripped(TextLines(s)));
  }

  lemma LinesOfNormalized(s: string)
    ensures TextLines(Normalize(s)) == if Kept(s) == [] then [""] else Kept(s)
  {
    KeptLines(s);
    if Kept(s) != [] {
      LinesOfJoin(Kept(s));
    }
  }

  // ---------- Canonical form ----------

  /** No CR, no line that ends in whitespace, no blank line at the end. */
  predicate Canonical(r: string) {
    && (forall i :: 0 <= i < |r| ==> r[i] != '\r')
    && (forall i :: 0 <= i < |TextLines(r)| ==>
          var line := TextLines(r)[i]; line != "" ==> !IsSpace(line[|line| - 1]))
    && (r != "" ==> TextLines(r)[|TextLines(r)| - 1] != "")
  }

  lemma {:induction false} JoinHasNoCr(lines: seq<string>)
    requires AllUnbroken(lines)
    ensures forall i :: 0 <= i < |Join(lines)| ==> Join(lines)[i] != '\r'
  {
    if |lines| > 1 {
      JoinHasNoCr(lines[1..]);
    }
  }

  lemma JoinOfPrepended(c: char, lines: seq<string>)
    requires lines != []
    ensures Join(Prepend(c, lines)) == [c] + Join(lines)
  {
    assert Prepend(c, lines)[1..] == lines[1..];
    if |lines| > 1 {
      assert [c] + lines[0] + "\n" + Join(lines[1..]) == [c] + (lines[0] + "\n" + Join(lines[1..]));
    }
  }

  lemma JoinOfBlankFirst(lines: seq<string>)
    requires lines != []
    ensures Join([""] + lines) == "\n" + Join(lines)
  {
    assert ([""] + lines)[1..] == lines;
    assert "" + "\n" == "\n";
  }

  lemma {:induction false} JoinOfTextLines(s: string)
    requires forall i :: 0 <= i < |s| ==> s[i] != '\r'
    ensures Join(TextLines(s)) == s
  {
    hide Join, Prepend;
    if s == "" {
      JoinOfOne("");
    } else {
      JoinOfTextLines(s[1..]);
      assert s == [s[0]] + s[1..];
      if s[0] == '\n' {
        JoinOfBlankFirst(TextLines(s[1..]));
      } else {
        JoinOfPrepended(s[0], TextLines(s[1..]));
      }
    }
  }

  lemma JoinOfOne(line: string)
    ensures Join([line]) == line
  {
  }

  /** Normalised text is canonical, and canonical text is left alone: normalising twice is normalising once. */
  lemma NormalizeIsCanonical(s: string)
    ensures Canonical(Normalize(s))
    ensures Canonical(s) <==> Normalize(s) == s
    ensures Normalize(Normalize(s)) == Normalize(s)
  {
    ResultIsCanonical(s);
    if Canonical(s) {
      CanonicalIsFixed(s);
    }
    CanonicalIsFixed(Normalize(s));
  }

  lemma ResultIsCanonical(s: string)
    ensures Canonical(Normalize(s))
  {
    KeptLines(s);
    LinesOfNormalized(s);
    JoinHasNoCr(Kept(s));
    forall i | 0 <= i < |Kept(s)|
      ensures var line := Kept(s)[i]; line != "" ==> !IsSpace(line[|line| - 1])
    {
      RStripKeepsPrefix(Kept(s)[i]);
    }
  }

  lemma CanonicalIsFixed(s: string)
    requires Canonical(s)
    ensures Normalize(s) == s
  {
    hide TextLines, Join, RStrip, DropBlankTail, Normalize;
    KeptLines(s);
    JoinOfTextLines(s);
    if s == "" {
      NothingIsFixed();
    } else {
      assert Stripped(TextLines(s)) == TextLines(s) by {
        StrippedAlready(TextLines(s));
      }
      NoBlankTail(TextLines(s));
    }
  }

  lemma NothingIsFixed()
    ensures Normalize("") == ""
  {
  }

  lemma StrippedAlready(lines: seq<string>)
    requires forall i :: 0 <= i < |lines| ==>
               var line := lines[i]; line != "" ==> !IsSpace(line[|line| - 1])
    ensures Stripped(lines) == lines
  {
  }

  lemma NoBlankTail(lines: seq<string>)
    requires lines != [] && lines[|lines| - 1] != ""
    ensures DropBlankTail(lines) == lines
  {
  }

  // ---------- When two texts normalise equally ----------

  /** The `i`-th line without trailing whitespace; beyond the last line there are only blank ones. */
  function LineAt(s: string, i: nat): string {
    if i < |TextLines(s)| then RStrip(TextLines(s)[i]) else ""
  }

  lemma LineAtKept(s: string, i: nat)
    ensures LineAt(s, i) == if i < |Kept(s)| then Kept(s)[i] else ""
  {
    var stripped := Stripped(TextLines(s));
    TailIsDropped(stripped);
    if i < |stripped| {
      assert LineAt(s, i) == stripped[i];
    }
  }

  /**
    Two texts normalise equally exactly when they agree line by line, whatever ends their lines,
    up to whitespace at the end of lines and blank lines at the end of the text.
   */
  lemma NormalizeEquallyIffLinesAgree(s: string, t: string)
    ensures Normalize(s) == Normalize(t) <==> forall i: nat :: LineAt(s, i) == LineAt(t, i)
  {
    KeptLines(s);
    KeptLines(t);
    if forall i: nat :: LineAt(s, i) == LineAt(t, i) {
      SameKept(s, t);
      SameKept(t, s);
      assert Kept(s) == Kept(t);
    }
    if Normalize(s) == Normalize(t) {
      LinesOfNormalized(s);
      LinesOfNormalized(t);
      assert Kept(s) == Kept(t);
      forall i: nat
        ensures LineAt(s, i) == LineAt(t, i)
      {
        LineAtKept(s, i);
        LineAtKept(t, i);
      }
    }
  }

  lemma SameKept(s: string, t: string)
    requires forall i: nat :: LineAt(s, i) == LineAt(t, i)
    ensures |Kept(s)| <= |Kept(t)|
    ensures forall i :: 0 <= i < |Kept(s)| && i < |Kept(t)| ==> Kept(s)[i] == Kept(t)[i]
  {
    KeptLines(s);
    if Kept(s) != [] {
      LineAtKept(s, |Kept(s)| - 1);
      LineAtKept(t, |Kept(s)| - 1);
    }
    forall i | 0 <= i < |Kept(s)| && i < |Kept(t)|
      ensures Kept(s)[i] == Kept(t)[i]
    {
      LineAtKept(s, i);
      LineAtKept(t, i);
    }
  }

  // ---------- Tokens ----------

  function LineWords(lines: seq<string>): seq<string> {
    if lines == [] then [] else Tokenize(lines[0]) + LineWords(lines[1..])
  }

  /** Reading on from a started word is reading the first line with it, and then the other lines. */
  lemma {:induction false} WordsByLine(s: string, word: string)
    ensures Words(s, word) == Words(TextLines(s)[0], word) + LineWords(TextLines(s)[1..])
  {
    hide Prepend, Flush, IsSpace;
    BreaksAreSpaces();
    if s == "" {
    } else if |s| >= 2 && s[0] == '\r' && s[1] == '\n' {
      WordsByLine(s[2..], "");
      assert s[1..][1..] == s[2..];
      assert Flush(word) + ([] + Words(s[2..], "")) == Flush(word) + Words(s[2..], "");
      assert ([""] + TextLines(s[2..]))[1..] == TextLines(s[2..]);
    } else if s[0] == '\r' || s[0] == '\n' {
      WordsByLine(s[1..], "");
      assert ([""] + TextLines(s[1..]))[1..] == TextLines(s[1..]);
    } else {
      var rest := if IsSpace(s[0]) then "" else word + [s[0]];
      WordsByLine(s[1..], rest);
      WordsOfPrepended(s[0], TextLines(s[1..]), word);
      assert Flush(word) + (Words(TextLines(s[1..])[0], "") + LineWords(TextLines(s[1..])[1..]))
             == Flush(word) + Words(TextLines(s[1..])[0], "") + LineWords(TextLines(s[1..])[1..]);
    }
  }

  lemma BreaksAreSpaces()
    ensures IsSpace('\r') && IsSpace('\n') && Flush("") == []
  {
  }

  lemma WordsOfPrepended(c: char, lines: seq<string>, word: string)
    requires lines != []
    ensures Prepend(c, lines)[1..] == lines[1..]
    ensures Words(Prepend(c, lines)[0], word)
            == if IsSpace(c) then Flush(word) + Words(lines[0], "") else Words(lines[0], word + [c])
  {
    assert ([c] + lines[0])[1..] == lines[0];
  }

  lemma {:induction false} TrailingSpaceIsNoWord(line: string, c: char, word: string)
    requires IsSpace(c)
    ensures Words(line + [c], word) == Words(line, word)
  {
    if line == "" {
      assert line + [c] == [c];
      assert [c][1..] == "";
      assert Flush(word) + [] == Flush(word);
    } else {
      assert (line + [c])[1..] == line[1..] + [c];
      TrailingSpaceIsNoWord(line[1..], c, if IsSpace(line[0]) then "" else word + [line[0]]);
    }
  }

  lemma {:induction false} StripKeepsWords(line: string)
    ensures Tokenize(RStrip(line)) == Tokenize(line)
  {
    if line != "" && IsSpace(line[|line| - 1]) {
      var init := line[..|line| - 1];
      StripKeepsWords(init);
      TrailingSpaceIsNoWord(init, line[|line| - 1], "");
      assert line == init + [line[|line| - 1]];
    }
  }

  lemma {:induction false} StrippedLineWords(lines: seq<string>)
    ensures LineWords(Stripped(lines)) == LineWords(lines)
  {
    if lines != [] {
      StripKeepsWords(lines[0]);
      StrippedLineWords(lines[1..]);
      assert Stripped(lines)[1..] == Stripped(lines[1..]);
    }
  }

  lemma {:induction false} LineWordsSnoc(lines: seq<string>, line: string)
    ensures LineWords(lines + [line]) == LineWords(lines) + Tokenize(line)
  {
    if lines == [] {
      assert [] + [line] == [line];
      assert Tokenize(line) + LineWords([]) == Tokenize(line);
    } else {
      assert (lines + [line])[1..] == lines[1..] + [line];
      LineWordsSnoc(lines[1..], line);
    }
  }

  lemma {:induction false} BlankTailHasNoWords(lines: seq<string>)
    ensures LineWords(DropBlankTail(lines)) == LineWords(lines)
  {
    if lines != [] && lines[|lines| - 1] == "" {
      var init := lines[..|lines| - 1];
      BlankTailHasNoWords(init);
      LineWordsSnoc(init, "");
      assert lines == init + [""];
    }
  }

  /** Normalisation never changes the tokens of a text. */
  lemma TokensSurviveNormalization(s: string)
    ensures Tokenize(Normalize(s)) == Tokenize(s)
  {
    TokensOfText(s);
    TokensOfText(Normalize(s));
    LinesOfNormalized(s);
    StrippedLineWords(TextLines(s));
    BlankTailHasNoWords(Stripped(TextLines(s)));
    assert LineWords([""]) == LineWords([]);
  }

  lemma TokensOfText(s: string)
    ensures Tokenize(s) == LineWords(TextLines(s))
  {
    WordsByLine(s, "");
  }

  // ---------- What tokens are ----------

  predicate IsWord(w: string) {
    w != "" && forall i :: 0 <= i < |w| ==> !IsSpace(w[i])
  }

  function WithoutSpaces(s: string): string {
    if s == "" then "" else (if IsSpace(s[0]) then "" else [s[0]]) + WithoutSpaces(s[1..])
  }

  /** Tokens are non-empty, contain no whitespace, and together are the text without its whitespace. */
  lemma {:induction false} TokensAreTheWords(s: string, word: string)
    requires forall i :: 0 <= i < |word| ==> !IsSpace(word[i])
    ensures forall i :: 0 <= i < |Words(s, word)| ==> IsWord(Words(s, word)[i])
    ensures Concat(Words(s, word)) == word + WithoutSpaces(s)
  {
    if s == "" {
      assert Concat(Flush(word)) == word + "";
    } else if IsSpace(s[0]) {
      TokensAreTheWords(s[1..], "");
      ConcatSplits(Flush(word), Words(s[1..], ""));
      assert Concat(Flush(word)) == word;
    } else {
      TokensAreTheWords(s[1..], word + [s[0]]);
      assert word + [s[0]] + WithoutSpaces(s[1..]) == word + ([s[0]] + WithoutSpaces(s[1..]));
    }
  }

  /** A word is one token: it is never taken apart. */
  lemma WordIsOneToken(w: string)
    requires IsWord(w)
    ensures Tokenize(w) == [w]
  {
    WordIsRead(w, "");
    assert "" + w == w;
  }

  lemma {:induction false} WordIsRead(rest: string, word: string)
    requires word + rest != "" && forall i :: 0 <= i < |rest| ==> !IsSpace(rest[i])
    ensures Words(rest, word) == [word + rest]
  {
    if rest == "" {
      assert word + "" == word;
    } else {
      WordIsRead(rest[1..], word + [rest[0]]);
      assert word + [rest[0]] + rest[1..] == word + rest;
    }
  }

  /** Whitespace always separates: what is before it and what is behind it are tokenised on their own. */
  lemma {:induction false} SpaceSeparates(a: string, c: char, b: string, word: string)
    requires IsSpace(c)
    ensures Words(a + [c] + b, word) == Words(a, word) + Tokenize(b)
  {
    var s := a + [c] + b;
    if a == "" {
      assert s[0] == c && s[1..] == b;
    } else {
      assert s[0] == a[0] && s[1..] == a[1..] + [c] + b;
      if IsSpace(a[0]) {
        SpaceSeparates(a[1..], c, b, "");
        assert Flush(word) + (Words(a[1..], "") + Tokenize(b)) == Flush(word) + Words(a[1..], "") + Tokenize(b);
      } else {
        SpaceSeparates(a[1..], c, b, word + [a[0]]);
      }
    }
  }

  /**
    A text with one space in front of every word and no other whitespace; `gap` says whether whitespace
    was read last.
   */
  function Squeezed(s: string, gap: bool): string {
    if s == "" then ""
    else if IsSpace(s[0]) then Squeezed(s[1..], true)
    else (if gap then " " else "") + [s[0]] + Squeezed(s[1..], false)
  }

  function Spread(words: seq<string>): string {
    if words == [] then "" else " " + words[0] + Spread(words[1..])
  }

  lemma {:induction false} SqueezedIsSpread(s: string, word: string)
    ensures Spread(Words(s, word)) == Behind(word) + Squeezed(s, word == "")
  {
    hide IsSpace, Spread, Flush, Behind;
    if s == "" {
      FlushedSpread(word, []);
      assert Behind(word) + "" == Behind(word);
    } else if IsSpace(s[0]) {
      SqueezedIsSpread(s[1..], "");
      FlushedSpread(word, Words(s[1..], ""));
      FlushedSpread("", []);
      assert "" + Squeezed(s[1..], true) == Squeezed(s[1..], true);
    } else {
      SqueezedIsSpread(s[1..], word + [s[0]]);
      LetterBehind(word, s[0], Squeezed(s[1..], false));
    }
  }

  /** The word read so far, with its space in front. */
  function Behind(word: string): string {
    if word == "" then "" else " " + word
  }

  lemma LetterBehind(word: string, c: char, rest: string)
    ensures Behind(word + [c]) + rest == Behind(word) + ((if word == "" then " " else "") + [c] + rest)
  {
    if word == "" {
      assert "" + [c] == [c];
      assert " " + [c] + rest == "" + (" " + [c] + rest);
    } else {
      assert " " + (word + [c]) + rest == " " + word + ("" + [c] + rest);
    }
  }

  lemma FlushedSpread(word: string, rest: seq<string>)
    ensures Spread(Flush(word) + rest) == Behind(word) + Spread(rest)
    ensures Spread([]) == Behind("") == "" && Flush(word) + [] == Flush(word)
  {
    if word == "" {
      assert Flush(word) + rest == rest;
    } else {
      assert (Flush(word) + rest)[1..] == rest;
    }
  }

  lemma SpaceInFront(s: string)
    ensures Tokenize(" " + s) == Tokenize(s)
  {
    assert (" " + s)[1..] == s;
    assert Flush("") + Words(s, "") == Words(s, "");
  }

  /** Words can be read back from their spread. */
  lemma {:induction false} SpreadIsRead(words: seq<string>)
    requires forall i :: 0 <= i < |words| ==> IsWord(words[i])
    ensures Tokenize(Spread(words)) == words
  {
    hide IsWord, Words;
    if words == [] {
      NoTokens();
    } else {
      var (w, rest) := (words[0], words[1..]);
      SpreadIsRead(rest);
      WordInFront(w, rest);
      SpaceInFront(w + Spread(rest));
      assert Spread(words) == " " + (w + Spread(rest));
    }
  }

  lemma NoTokens()
    ensures Tokenize("") == []
  {
  }

  lemma WordInFront(w: string, rest: seq<string>)
    requires IsWord(w) && Tokenize(Spread(rest)) == rest
    ensures Tokenize(w + Spread(rest)) == [w] + rest
  {
    hide IsWord, Words;
    WordIsOneToken(w);
    if rest == [] {
      assert w + "" == w;
    } else {
      var behind := rest[0] + Spread(rest[1..]);
      assert Spread(rest) == " " + behind;
      SpaceInFront(behind);
      assert w + Spread(rest) == w + [' '] + behind;
      SpaceSeparates(w, ' ', behind, "");
    }
  }

  /**
    Two texts have equal tokens exactly when they agree up to the amount and kind of whitespace between,
    before and behind their words.
   */
  lemma EqualTokensIff(a: string, b: string)
    ensures Tokenize(a) == Tokenize(b) <==> Squeezed(a, true) == Squeezed(b, true)
  {
    SqueezedIsSpread(a, "");
    SqueezedIsSpread(b, "");
    TokensAreTheWords(a, "");
    TokensAreTheWords(b, "");
    SpreadIsRead(Tokenize(a));
    SpreadIsRead(Tokenize(b));
    assert "" + Squeezed(a, true) == Squeezed(a, true) && "" + Squeezed(b, true) == Squeezed(b, true);
  }

  // ---------- Which characters are whitespace ----------

  /** The code points of Python's whitespace, one by one. */
  const SPACES := {
    0x9, 0xA, 0xB, 0xC, 0xD, 0x1C, 0x1D, 0x1E, 0x1F, 0x20, 0x85, 0xA0, 0x1680,
    0x2000, 0x2001, 0x2002, 0x2003, 0x2004, 0x2005, 0x2006, 0x2007, 0x2008, 0x2009, 0x200A,
    0x2028, 0x2029, 0x202F, 0x205F, 0x3000
  }

  lemma SpacesAre(c: char)
    ensures IsSpace(c) <==> c as int in SPACES
    ensures '!' <= c <= '~' ==> !IsSpace(c)
  {
  }
}

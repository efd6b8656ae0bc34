/** The parameter file as a text: its split into lines, the written text, and what survives a write. */
module BallModelFile {

  import opened BallModelYaml
  import opened Options
  import SortedStrings

  type Model = map<string, string>

  function FirstBreak(text: string): (n: nat)
    ensures n <= |text|
  {
    RunLength(c => !IsBreak(c), text)
  }

  /** Length of the first line with its line break; a carriage return and a newline are one break. */
  function FirstLength(text: string): (n: nat)
    ensures n <= |text| && (text != "" ==> n > 0)
  {
    var n := FirstBreak(text);
    if n == |text| then n
    else if text[n] == '\r' && n + 1 < |text| && text[n + 1] == '\n' then n + 2
    else n + 1
  }

  function SplitLines(text: string): seq<string> {
    if text == "" then [] else [text[..FirstBreak(text)]] + SplitLines(text[FirstLength(text)..])
  }

  function Join(lines: seq<string>): string {
    if lines == [] then ""
    else if |lines| == 1 then lines[0]
    else lines[0] + "\n" + Join(lines[1..])
  }

  function FileText(lines: seq<string>): string {
    Join(lines) + "\n"
  }

  ghost function ReadFile(text: string): Model {
    ReadModel(SplitLines(text))
  }

  ghost function WriteFile(text: string, ball: Model): string {
    FileText(Write(SplitLines(text), Print(ball)))
  }

  ghost predicate AllOneLine(lines: seq<string>) {
    forall i :: 0 <= i < |lines| ==> OneLine(lines[i])
  }

  // --- lines and texts --------------------------------------------------------------------------------------

  lemma FirstLine(a: string, rest: string)
    requires OneLine(a)
    ensures SplitLines(a + "\n" + rest) == [a] + SplitLines(rest)
  {
    var text := a + "\n" + rest;
    assert text == a + ("\n" + rest);
    RunPrefix(c => !IsBreak(c), a, "\n" + rest);
    assert FirstBreak(text) == |a| && text[..|a|] == a && text[|a|] == '\n' && text[|a| + 1..] == rest;
    hide FirstBreak;
  }

  lemma TextStep(lines: seq<string>)
    requires lines != []
    ensures FileText(lines) == lines[0] + "\n" + if |lines| == 1 then "" else FileText(lines[1..])
  {
    if |lines| > 1 {
      assert FileText(lines) == lines[0] + "\n" + Join(lines[1..]) + "\n";
    } else {
      assert FileText(lines) == lines[0] + "\n" + "";
    }
  }

  /** Lines without breaks come back from the text they were joined to. */
  lemma {:induction false} TextSplits(lines: seq<string>)
    requires lines != [] && AllOneLine(lines)
    ensures SplitLines(FileText(lines)) == lines
  {
    TextStep(lines);
    if |lines| == 1 {
      FirstLine(lines[0], "");
      assert SplitLines("") == [];
    } else {
      hide FileText, SplitLines, OneLine;
      FirstLine(lines[0], FileText(lines[1..]));
      TextSplits(lines[1..]);
    }
  }

  /** Text whose lines all end with the break `br`. */
  function Ended(lines: seq<string>, br: string): string {
    if lines == [] then "" else lines[0] + br + Ended(lines[1..], br)
  }

  lemma FirstEndedLine(a: string, br: string, rest: string)
    requires OneLine(a) && br != "" && (br == "\r\n" || (|br| == 1 && IsBreak(br[0]) && br != "\r"))
    ensures SplitLines(a + br + rest) == [a] + SplitLines(rest)
  {
    var text := a + br + rest;
    assert text == a + (br + rest);
    RunPrefix(c => !IsBreak(c), a, br + rest);
    assert FirstBreak(text) == |a| && text[..|a|] == a && text[|a|] == br[0] && text[|a| + |br|..] == rest;
    if br == "\r\n" {
      assert text[|a| + 1] == '\n';
    }
    assert FirstLength(text) == |a| + |br|;
    hide FirstBreak, FirstLength;
  }

  /** Lines without breaks come back from a text in which each of them ends with the same line break, whichever
      it is: a carriage return with a newline is one break. */
  lemma {:induction false} EndedSplits(lines: seq<string>, br: string)
    requires AllOneLine(lines) && (br == "\r\n" || (|br| == 1 && IsBreak(br[0]) && br != "\r"))
    ensures SplitLines(Ended(lines, br)) == lines
  {
    hide SplitLines, OneLine, IsBreak;
    if lines == [] {
      NoText();
    } else {
      FirstEndedLine(lines[0], br, Ended(lines[1..], br));
      EndedSplits(lines[1..], br);
    }
  }

  lemma NoText()
    ensures SplitLines("") == []
  {
  }

  lemma {:induction false} SplitOneLine(text: string)
    ensures AllOneLine(SplitLines(text))
    decreases |text|
  {
    if text != "" {
      RunHolds(c => !IsBreak(c), text);
      assert OneLine(text[..FirstBreak(text)]);
      SplitOneLine(text[FirstLength(text)..]);
      hide FirstBreak, FirstLength, OneLine;
    }
  }

  lemma {:induction false} RewriteOneLine(lines: seq<string>, block: seq<string>)
    requires AllOneLine(lines) && AllOneLine(block)
    ensures AllOneLine(Rewrite(lines, block))
    decreases |lines|
  {
    hide OneLine, IsHeader, InBody;
    if lines != [] {
      SkipOneLine(lines[1..]);
      RewriteOneLine(SkipBody(lines[1..]), block);
      RewriteOneLine(lines[1..], block);
    }
  }

  lemma {:induction false} SkipOneLine(lines: seq<string>)
    requires AllOneLine(lines)
    ensures AllOneLine(SkipBody(lines))
  {
    hide OneLine, InBody;
    if lines != [] {
      SkipOneLine(lines[1..]);
    }
  }

  lemma {:induction false} RewriteNotEmpty(lines: seq<string>, block: seq<string>)
    requires lines != [] && block != []
    ensures Rewrite(lines, block) != []
  {
    hide IsHeader, SkipBody;
  }

  lemma WordIsOneLine(w: string)
    requires Word(w)
    ensures OneLine(w)
  {
  }

  lemma {:induction false} FlatsOneLine(ball: Model, keys: seq<string>)
    requires Printable(ball) && forall i :: 0 <= i < |keys| ==> Word(keys[i])
    ensures AllOneLine(Flats(ball, keys))
  {
    hide Word, Trimmed, Dotted;
    if keys != [] {
      var n := |keys| - 1;
      FlatsOneLine(ball, keys[..n]);
      WordIsOneLine(keys[n]);
      assert keys[n] in ball ==> OneLine(Line(keys[n], ball[keys[n]]));
      hide OneLine, Line;
    }
  }

  lemma {:induction false} ChildrenOneLine(ball: Model, p: string, nested: seq<string>)
    requires Printable(ball) && AllNested(ball, nested)
    ensures AllOneLine(Children(ball, p, nested))
  {
    hide Dotted, Under, Printable, OneLine, NestedLine;
    if nested != [] {
      var n := |nested| - 1;
      var k := nested[n];
      ChildrenOneLine(ball, p, nested[..n]);
      PrintableValueOneLine(ball, k);
      NestedOneLine(k, ball[k]);
    }
  }

  lemma PrintableValueOneLine(ball: Model, k: string)
    requires Printable(ball) && k in ball
    ensures OneLine(ball[k])
  {
  }

  lemma NestedOneLine(k: string, value: string)
    requires Dotted(k) && OneLine(value)
    ensures OneLine(NestedLine(k, value))
  {
    WordHasNoDot(k[FirstDot(k) + 1..]);
    WordIsOneLine(Child(k));
    hide Word, FirstDot, Child, Dotted;
  }

  lemma {:induction false} FamiliesOneLine(ball: Model, parents: seq<string>, nested: seq<string>)
    requires Printable(ball) && AllNested(ball, nested) && forall i :: 0 <= i < |parents| ==> Word(parents[i])
    ensures AllOneLine(Families(ball, parents, nested))
  {
    hide Word, Printable, Children, FirstDot;
    if parents != [] {
      var n := |parents| - 1;
      FamiliesOneLine(ball, parents[..n], nested);
      ChildrenOneLine(ball, parents[n], nested);
      WordIsOneLine(parents[n]);
      assert OneLine(ParentLine(parents[n]));
      hide OneLine, ParentLine;
    }
  }

  lemma PrintOneLine(ball: Model)
    requires Printable(ball)
    ensures AllOneLine(Print(ball)) && IsSection(Print(ball))
  {
    hide OneLine, Printable, IsSection, Block, Print, Enumerates, AllNested, Word, SortedStrings.Sorted;
    var parents, nested := SortedStrings.Sorted(ParentKeys(ball)), SortedStrings.Sorted(NestedKeys(ball));
    PrintIsBlock(ball);
    EnumeratedInBall(ball, parents, nested);
    BlockIsSection(ball, parents, nested);
    BlockOneLine(ball, parents, nested);
  }

  lemma BlockOneLine(ball: Model, parents: seq<string>, nested: seq<string>)
    requires Printable(ball) && Enumerates(ball, parents, nested)
    ensures AllOneLine(Block(ball, parents, nested))
  {
    AllAreNested(ball, parents, nested);
    FlatWords();
    assert OneLine(HEADER);
    hide OneLine, Flats, Families, Printable, Enumerates, AllNested, Word;
    FlatsOneLine(ball, FLAT);
    FamiliesOneLine(ball, parents, nested);
  }

  /** The lines of the written text are the lines that were written. */
  lemma WrittenLines(text: string, ball: Model)
    requires Printable(ball)
    ensures SplitLines(WriteFile(text, ball)) == Write(SplitLines(text), Print(ball))
  {
    var lines, block := SplitLines(text), Print(ball);
    SplitOneLine(text);
    PrintOneLine(ball);
    hide Printable, Print, SplitLines, OneLine, IsHeader, InBody, FileText;
    RewriteOneLine(lines, block);
    if lines != [] {
      RewriteNotEmpty(lines, block);
    }
    hide Rewrite;
    TextSplits(Write(lines, block));
  }

  // --- what a file can carry --------------------------------------------------------------------------------

  lemma {:induction false} StripLeftKeeps(s: string)
    requires OneLine(s)
    ensures OneLine(StripLeft(s))
  {
    if s != "" {
      StripLeftKeeps(s[1..]);
    }
  }

  lemma {:induction false} StripRightTrims(s: string)
    requires OneLine(s) && (s == "" || !IsSpace(s[0]))
    ensures var r := StripRight(s); OneLine(r) && (r == "" || Trimmed(r))
    decreases |s|
  {
    if s != "" && IsSpace(s[|s| - 1]) {
      StripRightTrims(s[..|s| - 1]);
    }
  }

  lemma EntryIsClean(line: string)
    requires OneLine(line) && Parse(line).Some?
    ensures var e := Parse(line).value; Word(e.key) && OneLine(e.value) && (e.value == "" || Trimmed(e.value))
  {
    KeyIsWord(line, Parse(line).value);
    var rest := line[RunLength(c => c == ' ', line)..];
    var tail := rest[RunLength(IsWordChar, rest) + 1..];
    assert Parse(line).value.value == Strip(tail);
    assert OneLine(tail);
    hide RunLength, Parse, IsSpace, IsBreak;
    StripLeftKeeps(tail);
    StripRightTrims(StripLeft(tail));
  }

  lemma DottedKey(parent: string, key: string)
    requires Word(parent) && Word(key)
    ensures Dotted(parent + "." + key)
  {
    var k := parent + "." + key;
    assert k == parent + ("." + key);
    RunPrefix(c => c != '.', parent, "." + key);
    assert FirstDot(k) == |parent| && k[..|parent|] == parent && k[|parent| + 1..] == key;
  }

  /** Every entry could have been printed, apart from flat keys that the printer does not know. */
  ghost predicate Readable(out: Model) {
    forall k :: k in out ==> Trimmed(out[k]) && OneLine(out[k]) && (Word(k) || Dotted(k))
  }

  ghost predicate Clean(st: Scan) {
    Readable(st.out) && (st.parent.Some? ==> Word(st.parent.value))
  }

  lemma EntryKeepsClean(st: Scan, e: Entry)
    requires Clean(st) && Word(e.key) && OneLine(e.value) && (e.value == "" || Trimmed(e.value))
    ensures Clean(ScanEntry(st, e))
  {
    if st.parent.Some? {
      DottedKey(st.parent.value, e.key);
    }
    hide Word, Dotted, OneLine, Trimmed;
  }

  lemma LineKeepsClean(st: Scan, line: string)
    requires Clean(st) && OneLine(line)
    ensures Clean(ScanLine(st, line))
  {
    hide Parse, Comment, Blank, Indented, Word, Readable, OneLine, Trimmed, ScanEntry;
    if Parse(line).Some? {
      EntryIsClean(line);
      EntryKeepsClean(st, Parse(line).value);
    }
  }

  lemma {:induction false} ReadIsClean(st: Scan, lines: seq<string>)
    requires Clean(st) && AllOneLine(lines)
    ensures Clean(ScanAll(st, lines))
  {
    hide Clean, ScanLine, OneLine;
    if lines != [] {
      ReadIsClean(st, lines[..|lines| - 1]);
      LineKeepsClean(ScanAll(st, lines[..|lines| - 1]), lines[|lines| - 1]);
    }
  }

  lemma FileIsReadable(text: string)
    ensures Readable(ReadFile(text))
  {
    SplitOneLine(text);
    hide SplitLines, ScanAll, OneLine;
    ReadIsClean(Scan(map[], false, None), SplitLines(text));
  }

  /** The entries that the printer looks at. */
  ghost function Printed(ball: Model): Model {
    map k | k in ball && (k in FLAT || '.' in k) :: ball[k]
  }

  lemma PrintedIsPrintable(ball: Model)
    requires Readable(ball)
    ensures Printable(Printed(ball))
  {
    forall k | k in Printed(ball) && k !in FLAT ensures Dotted(k) {
      DotFound(k);
      if Word(k) {
        WordHasNoDot(k);
      }
    }
    hide Dotted, Word, Trimmed, OneLine;
  }

  lemma {:induction false} FlatsAgree(a: Model, b: Model, keys: seq<string>)
    requires forall i :: 0 <= i < |keys| ==> FlatLine(a, keys[i]) == FlatLine(b, keys[i])
    ensures Flats(a, keys) == Flats(b, keys)
  {
    hide FlatLine;
    if keys != [] {
      FlatsAgree(a, b, keys[..|keys| - 1]);
    }
  }

  ghost predicate Agree(a: Model, b: Model, nested: seq<string>) {
    forall i :: 0 <= i < |nested| ==> nested[i] in a && nested[i] in b && a[nested[i]] == b[nested[i]]
  }

  lemma {:induction false} ChildrenAgree(a: Model, b: Model, p: string, nested: seq<string>)
    requires Agree(a, b, nested)
    ensures Children(a, p, nested) == Children(b, p, nested)
  {
    hide NestedLine, Under;
    if nested != [] {
      ChildrenAgree(a, b, p, nested[..|nested| - 1]);
    }
  }

  lemma {:induction false} FamiliesAgree(a: Model, b: Model, parents: seq<string>, nested: seq<string>)
    requires Agree(a, b, nested)
    ensures Families(a, parents, nested) == Families(b, parents, nested)
  {
    hide ParentLine, Children;
    if parents != [] {
      FamiliesAgree(a, b, parents[..|parents| - 1], nested);
      ChildrenAgree(a, b, parents[|parents| - 1], nested);
    }
  }

  lemma PrintedPrintsAlike(ball: Model)
    ensures Print(Printed(ball)) == Print(ball)
  {
    hide Parent;
    var good := Printed(ball);
    assert NestedKeys(good) == NestedKeys(ball);
    assert ParentKeys(good) == ParentKeys(ball);
    var nested := SortedStrings.Sorted(NestedKeys(ball));
    PrintIsBlock(ball);
    PrintIsBlock(good);
    EnumeratedInBall(ball, SortedStrings.Sorted(ParentKeys(ball)), nested);
    EnumeratedInBall(good, SortedStrings.Sorted(ParentKeys(ball)), nested);
    forall i | 0 <= i < |FLAT| ensures FlatLine(good, FLAT[i]) == FlatLine(ball, FLAT[i]) {
      assert FLAT[i] in FLAT;
    }
    hide Print, Enumerates, NestedKeys, ParentKeys, FlatLine, SortedStrings.Sorted;
    FlatsAgree(good, ball, FLAT);
    FamiliesAgree(good, ball, SortedStrings.Sorted(ParentKeys(ball)), nested);
  }

  // --- round trip of files ----------------------------------------------------------------------------------

  ghost predicate FileRoundTrips(text: string, ball: Model) {
    ReadFile(WriteFile(text, ball)) == ball
  }

  /** In a file where the writer leaves no old entry behind, exactly the printable models survive. */
  lemma PrintableExactly(text: string, ball: Model)
    requires FirstStale(SplitLines(text), false).None?
    ensures FileRoundTrips(text, ball) <==> Printable(ball)
  {
    hide Printable, Readable, FirstStale, SplitLines, Print, Printed, Write, FileText;
    if Printable(ball) {
      WrittenLines(text, ball);
      NoStaleRoundTrips(SplitLines(text), ball);
    }
    if FileRoundTrips(text, ball) {
      FileIsReadable(WriteFile(text, ball));
      PrintedIsPrintable(ball);
      PrintedPrintsAlike(ball);
      WrittenLines(text, Printed(ball));
      NoStaleRoundTrips(SplitLines(text), Printed(ball));
    }
  }

  /** Every printable model survives in a file if and only if the writer leaves no old entry in it. */
  lemma FileRoundTripExactly(text: string)
    ensures FirstStale(SplitLines(text), false).None? <==> forall ball :: Printable(ball) ==> FileRoundTrips(text, ball)
  {
    hide Printable, FirstStale, SplitLines, Print, Write, FileText;
    forall ball | Printable(ball) ensures FileRoundTrips(text, ball) <==> RoundTrips(SplitLines(text), ball) {
      WrittenLines(text, ball);
    }
    hide RoundTrips, FileRoundTrips;
    RoundTripExactly(SplitLines(text));
  }

  /** Writing leaves every other line of the file as it was, and no trace of an earlier write. */
  lemma FileWrite(text: string, ball: Model, next: Model)
    requires Printable(ball)
    ensures Outside(SplitLines(WriteFile(text, ball))) == Outside(SplitLines(text))
    ensures WriteFile(WriteFile(text, ball), next) == WriteFile(text, next)
  {
    WrittenLines(text, ball);
    PrintIsBlock(ball);
    PrintOneLine(ball);
    hide Printable, SplitLines, Print, Write, FileText, Outside, Block, OneLine, IsSection, Enumerates;
    WriteKeepsOutside(SplitLines(text), ball, SortedStrings.Sorted(ParentKeys(ball)), SortedStrings.Sorted(NestedKeys(ball)));
    LastWriteWins(SplitLines(text), Print(ball), Print(next));
  }
}

/** The ball_model section of a robot parameter file, on its lines: the scanner that reads it
    (read_ball_model), the printer (ball_yaml_block) and the rewriter (write_ball_model). */
module BallModelYaml {

  import opened Options
  import SortedStrings

  const HEADER := "ball_model:"
  const FLAT := ["acc_slide_mm_s2", "acc_roll_mm_s2", "k_switch"]

  // --- characters and strings ---------------------------------------------------------------------------

  predicate IsSpace(c: char) {
    || c == ' ' || '\t' <= c <= '\r' || '\U{1C}' <= c <= '\U{1F}' || c == '\U{85}' || c == '\U{A0}'
    || c == '\U{1680}' || '\U{2000}' <= c <= '\U{200A}' || c == '\U{2028}' || c == '\U{2029}'
    || c == '\U{202F}' || c == '\U{205F}' || c == '\U{3000}'
  }

  /** The characters at which a text is split into lines. */
  predicate IsBreak(c: char) {
    '\n' <= c <= '\r' || '\U{1C}' <= c <= '\U{1E}' || c == '\U{85}' || c == '\U{2028}' || c == '\U{2029}'
  }

  predicate OneLine(s: string) {
    forall i :: 0 <= i < |s| ==> !IsBreak(s[i])
  }

  predicate IsWordChar(c: char) {
    'a' <= c <= 'z' || 'A' <= c <= 'Z' || '0' <= c <= '9' || c == '_'
  }

  predicate Word(s: string) {
    s != "" && forall i :: 0 <= i < |s| ==> IsWordChar(s[i])
  }

  predicate StartsWith(s: string, prefix: string) {
    prefix <= s
  }

  function StripLeft(s: string): (r: string)
    ensures r == "" || !IsSpace(r[0])
  {
    if s != "" && IsSpace(s[0]) then StripLeft(s[1..]) else s
  }

  function StripRight(s: string): string {
    if s != "" && IsSpace(s[|s| - 1]) then StripRight(s[..|s| - 1]) else s
  }

  function Strip(s: string): string {
    StripRight(StripLeft(s))
  }

  predicate Trimmed(s: string) {
    s != "" && !IsSpace(s[0]) && !IsSpace(s[|s| - 1])
  }

  predicate Blank(line: string) {
    Strip(line) == ""
  }

  predicate Indented(line: string) {
    StartsWith(line, " ")
  }

  predicate Comment(line: string) {
    StartsWith(Strip(line), "#")
  }

  /** Number of leading characters that satisfy p. */
  function RunLength(p: char -> bool, s: string): (n: nat)
    ensures n <= |s|
  {
    if s != "" && p(s[0]) then 1 + RunLength(p, s[1..]) else 0
  }

  datatype Entry = Entry(indent: nat, key: string, value: string)

  /** An indented `key: value` line. */
  function Parse(line: string): Option<Entry> {
    var indent := RunLength(c => c == ' ', line);
    var rest := line[indent..];
    var n := RunLength(IsWordChar, rest);
    if indent == 0 || n == 0 || n == |rest| || rest[n] != ':' then None
    else Some(Entry(indent, rest[..n], Strip(rest[n + 1..])))
  }

  // --- reading --------------------------------------------------------------------------------------------

  datatype Scan = Scan(out: map<string, string>, inside: bool, parent: Option<string>)

  function ScanEntry(st: Scan, e: Entry): Scan {
    if e.indent == 2 then
      if e.value != "" then st.(out := st.out[e.key := e.value], parent := None)
      else st.(parent := Some(e.key))
    else if e.indent == 4 && st.parent.Some? && e.value != "" then
      st.(out := st.out[st.parent.value + "." + e.key := e.value])
    else st
  }

  function ScanLine(st: Scan, line: string): Scan {
    if Comment(line) || Blank(line) then st
    else if !Indented(line) then st.(inside := StartsWith(line, HEADER), parent := None)
    else if !st.inside || Parse(line).None? then st
    else ScanEntry(st, Parse(line).value)
  }

  function ScanAll(st: Scan, lines: seq<string>): Scan {
    if lines == [] then st else ScanLine(ScanAll(st, lines[..|lines| - 1]), lines[|lines| - 1])
  }

  function ReadModel(lines: seq<string>): map<string, string> {
    ScanAll(Scan(map[], false, None), lines).out
  }

  // --- printing -------------------------------------------------------------------------------------------

  function Line(key: string, value: string): string {
    "  " + key + ": " + value
  }

  function ParentLine(parent: string): string {
    "  " + parent + ":"
  }

  function NestedLine(k: string, value: string): string {
    "    " + Child(k) + ": " + value
  }

  predicate Under(k: string, parent: string) {
    StartsWith(k, parent + ".")
  }

  function FlatLine(ball: map<string, string>, key: string): seq<string> {
    if key in ball then [Line(key, ball[key])] else []
  }

  /** Position of the first dot, or the length. */
  function FirstDot(k: string): nat {
    RunLength(c => c != '.', k)
  }

  function Parent(k: string): string {
    k[..FirstDot(k)]
  }

  /** The second of the parts between dots. */
  function Child(k: string): string {
    if FirstDot(k) == |k| then "" else Parent(k[FirstDot(k) + 1..])
  }

  function ChildLine(ball: map<string, string>, parent: string, k: string): seq<string>
    requires k in ball
  {
    if Under(k, parent) then [NestedLine(k, ball[k])] else []
  }

  function Flats(ball: map<string, string>, keys: seq<string>): seq<string> {
    if keys == [] then [] else Flats(ball, keys[..|keys| - 1]) + FlatLine(ball, keys[|keys| - 1])
  }

  function Children(ball: map<string, string>, parent: string, nested: seq<string>): seq<string>
    requires forall i :: 0 <= i < |nested| ==> nested[i] in ball
  {
    if nested == [] then []
    else Children(ball, parent, nested[..|nested| - 1]) + ChildLine(ball, parent, nested[|nested| - 1])
  }

  function Families(ball: map<string, string>, parents: seq<string>, nested: seq<string>): seq<string>
    requires forall i :: 0 <= i < |nested| ==> nested[i] in ball
  {
    if parents == [] then []
    else
      var p := parents[|parents| - 1];
      Families(ball, parents[..|parents| - 1], nested) + [ParentLine(p)] + Children(ball, p, nested)
  }

  /** The nested keys and their parents, each in the order in which they are printed. */
  ghost predicate Enumerates(ball: map<string, string>, parents: seq<string>, nested: seq<string>) {
    && (forall k :: k in nested <==> k in ball && '.' in k)
    && (forall p :: p in parents <==> exists i :: 0 <= i < |nested| && p == Parent(nested[i]))
  }

  function Block(ball: map<string, string>, parents: seq<string>, nested: seq<string>): seq<string>
    requires forall i :: 0 <= i < |nested| ==> nested[i] in ball
  {
    [HEADER] + Flats(ball, FLAT) + Families(ball, parents, nested)
  }

  /** parent.child, each of them a word. */
  predicate Dotted(k: string) {
    FirstDot(k) < |k| && Word(k[..FirstDot(k)]) && Word(k[FirstDot(k) + 1..])
  }

  /** A model the printer can represent: flat keys it knows, parent.child keys, trimmed values on one line. */
  ghost predicate Printable(ball: map<string, string>) {
    forall k :: k in ball ==> Trimmed(ball[k]) && OneLine(ball[k]) && (k in FLAT || Dotted(k))
  }

  function NestedKeys(ball: map<string, string>): set<string> {
    set k | k in ball && '.' in k
  }

  function ParentKeys(ball: map<string, string>): set<string> {
    set k | k in NestedKeys(ball) :: Parent(k)
  }

  lemma SortedEnumerates(ball: map<string, string>)
    ensures Enumerates(ball, SortedStrings.Sorted(ParentKeys(ball)), SortedStrings.Sorted(NestedKeys(ball)))
  {
    var nested := SortedStrings.Sorted(NestedKeys(ball));
    SortedStrings.SortedHolds(NestedKeys(ball));
    SortedStrings.SortedHolds(ParentKeys(ball));
    hide FirstDot, Parent, SortedStrings.Sorted;
    forall p ensures p in ParentKeys(ball) <==> exists i :: 0 <= i < |nested| && p == Parent(nested[i]) {
      if p in ParentKeys(ball) {
        var k :| k in NestedKeys(ball) && p == Parent(k);
        assert k in nested;
        var i :| 0 <= i < |nested| && nested[i] == k;
      } else if i :| 0 <= i < |nested| && p == Parent(nested[i]) {
        assert nested[i] in nested;
      }
    }
  }

  lemma EnumeratedInBall(ball: map<string, string>, parents: seq<string>, nested: seq<string>)
    requires Enumerates(ball, parents, nested)
    ensures forall i :: 0 <= i < |nested| ==> nested[i] in ball
  {
  }

  /** The section as it is printed, parents and nested keys in ascending order. */
  ghost function Print(ball: map<string, string>): seq<string> {
    SortedEnumerates(ball);
    EnumeratedInBall(ball, SortedStrings.Sorted(ParentKeys(ball)), SortedStrings.Sorted(NestedKeys(ball)));
    Block(ball, SortedStrings.Sorted(ParentKeys(ball)), SortedStrings.Sorted(NestedKeys(ball)))
  }

  lemma PrintIsBlock(ball: map<string, string>)
    ensures var parents, nested := SortedStrings.Sorted(ParentKeys(ball)), SortedStrings.Sorted(NestedKeys(ball));
            Enumerates(ball, parents, nested) && Print(ball) == Block(ball, parents, nested)
  {
    SortedEnumerates(ball);
    hide Enumerates, Block;
  }

  // --- rewriting ------------------------------------------------------------------------------------------

  predicate InBody(line: string) {
    Indented(line) || Blank(line)
  }

  function SkipBody(lines: seq<string>): (r: seq<string>)
    ensures |r| <= |lines| && (r == [] || !InBody(r[0]))
  {
    if lines != [] && InBody(lines[0]) then SkipBody(lines[1..]) else lines
  }

  predicate IsHeader(line: string) {
    StartsWith(line, HEADER)
  }

  predicate HasBlock(lines: seq<string>) {
    exists i :: 0 <= i < |lines| && IsHeader(lines[i])
  }

  function Rewrite(lines: seq<string>, block: seq<string>): seq<string>
    decreases |lines|
  {
    if lines == [] then []
    else if IsHeader(lines[0]) then block + Rewrite(SkipBody(lines[1..]), block)
    else [lines[0]] + Rewrite(lines[1..], block)
  }

  function Write(lines: seq<string>, block: seq<string>): seq<string> {
    if HasBlock(lines) then Rewrite(lines, block) else lines + block
  }

  /** The lines that belong to no ball_model section. */
  function Outside(lines: seq<string>): seq<string>
    decreases |lines|
  {
    if lines == [] then []
    else if IsHeader(lines[0]) then Outside(SkipBody(lines[1..]))
    else [lines[0]] + Outside(lines[1..])
  }

  /** The line makes the reader, inside the section, store a value. */
  predicate Stores(line: string) {
    && Indented(line) && !Comment(line) && !Blank(line) && Parse(line).Some?
    && Parse(line).value.value != "" && (Parse(line).value.indent == 2 || Parse(line).value.indent == 4)
  }

  /** Whether the reader is inside the section after this line, which is no header. */
  predicate StaysInside(line: string) {
    Comment(line) || InBody(line)
  }

  /** The first old entry of a section that the writer leaves in the file. */
  function FirstStale(lines: seq<string>, inside: bool): Option<Entry>
    decreases |lines|
  {
    if lines == [] then None
    else if IsHeader(lines[0]) then FirstStale(SkipBody(lines[1..]), true)
    else if inside && Stores(lines[0]) then Parse(lines[0])
    else FirstStale(lines[1..], inside && StaysInside(lines[0]))
  }

  /** No section is followed directly by a comment that starts in the first column. */
  predicate NoColumnZeroComment(lines: seq<string>)
    decreases |lines|
  {
    if lines == [] then true
    else if IsHeader(lines[0]) then
      var rest := SkipBody(lines[1..]);
      (rest == [] || !Comment(rest[0])) && NoColumnZeroComment(rest)
    else NoColumnZeroComment(lines[1..])
  }

  // --- lines and their parts --------------------------------------------------------------------------------

  lemma {:induction false} RunPrefix(p: char -> bool, u: string, v: string)
    requires (forall i :: 0 <= i < |u| ==> p(u[i])) && (v == "" || !p(v[0]))
    ensures RunLength(p, u + v) == |u|
  {
    if u == "" {
      assert u + v == v;
    } else {
      RunPrefix(p, u[1..], v);
      assert (u + v)[1..] == u[1..] + v;
    }
  }

  lemma {:induction false} StripRightKeeps(s: string)
    requires s != "" && !IsSpace(s[0])
    ensures StripRight(s) != "" && StripRight(s)[0] == s[0]
    decreases |s|
  {
    if IsSpace(s[|s| - 1]) {
      StripRightKeeps(s[..|s| - 1]);
    }
  }

  lemma {:induction false} StripLeftDrops(ind: string, s: string)
    requires (forall i :: 0 <= i < |ind| ==> ind[i] == ' ') && s != "" && !IsSpace(s[0])
    ensures StripLeft(ind + s) == s
  {
    if ind == "" {
      assert ind + s == s;
    } else {
      StripLeftDrops(ind[1..], s);
      assert (ind + s)[1..] == ind[1..] + s;
    }
  }

  lemma StripTrimmed(v: string)
    requires Trimmed(v)
    ensures Strip(" " + v) == v && Strip("") == ""
  {
    StripLeftDrops(" ", v);
  }

  /** An entry as it is printed is neither a comment nor blank, and parses to itself. */
  lemma EntryParses(ind: string, key: string, tail: string)
    requires ind != "" && (forall i :: 0 <= i < |ind| ==> ind[i] == ' ') && Word(key)
    ensures var line := ind + key + ":" + tail;
            && Indented(line) && !Comment(line) && !Blank(line)
            && Parse(line) == Some(Entry(|ind|, key, Strip(tail)))
  {
    var rest := key + ":" + tail;
    assert ind + key + ":" + tail == ind + rest;
    hide Strip, Parse, Comment, Blank, Indented;
    IndentSplits(ind, rest);
    KeySplits(key, tail);
    hide RunLength, IsSpace;
    LineParses(ind + rest, ind, rest, key, tail);
  }

  lemma IndentSplits(ind: string, rest: string)
    requires ind != "" && (forall i :: 0 <= i < |ind| ==> ind[i] == ' ') && rest != "" && IsWordChar(rest[0])
    ensures RunLength(c => c == ' ', ind + rest) == |ind| && (ind + rest)[|ind|..] == rest
    ensures Indented(ind + rest) && !Comment(ind + rest) && !Blank(ind + rest)
  {
    RunPrefix(c => c == ' ', ind, rest);
    StripLeftDrops(ind, rest);
    StripRightKeeps(rest);
  }

  lemma KeySplits(key: string, tail: string)
    requires Word(key)
    ensures var rest := key + ":" + tail;
            && RunLength(IsWordChar, rest) == |key| && rest[..|key|] == key && rest[|key|] == ':' && rest[|key| + 1..] == tail
  {
    assert key + ":" + tail == key + (":" + tail);
    RunPrefix(IsWordChar, key, ":" + tail);
  }

  lemma LineParses(line: string, ind: string, rest: string, key: string, tail: string)
    requires ind != "" && key != "" && |ind| <= |line| && line[|ind|..] == rest && RunLength(c => c == ' ', line) == |ind|
    requires |key| < |rest| && RunLength(IsWordChar, rest) == |key| && rest[..|key|] == key && rest[|key|] == ':' && rest[|key| + 1..] == tail
    ensures Parse(line) == Some(Entry(|ind|, key, Strip(tail)))
  {
    hide RunLength, Strip;
  }

  lemma {:induction false} ScanAppend(st: Scan, a: seq<string>, b: seq<string>)
    ensures ScanAll(st, a + b) == ScanAll(ScanAll(st, a), b)
  {
    hide ScanLine;
    if b == [] {
      assert a + b == a;
    } else {
      ScanAppend(st, a, b[..|b| - 1]);
      assert (a + b)[..|a + b| - 1] == a + b[..|b| - 1];
    }
  }

  lemma ScanOne(st: Scan, line: string)
    ensures ScanAll(st, [line]) == ScanLine(st, line)
  {
    hide ScanLine;
    assert [line][..0] == [];
    assert ScanAll(st, []) == st;
  }

  lemma ScanFirst(st: Scan, line: string, rest: seq<string>)
    ensures ScanAll(st, [line] + rest) == ScanAll(ScanLine(st, line), rest)
  {
    ScanAppend(st, [line], rest);
    ScanOne(st, line);
  }

  // --- the printed block reads back -------------------------------------------------------------------------

  /** out with the entries of ball for the given keys laid over it. */
  ghost function Overlay(out: map<string, string>, ball: map<string, string>, keys: set<string>): map<string, string>
    requires keys <= ball.Keys
  {
    map k | k in out.Keys + keys :: if k in keys then ball[k] else out[k]
  }

  lemma OverlayMore(out: map<string, string>, ball: map<string, string>, keys: set<string>, k: string)
    requires keys <= ball.Keys && k in ball
    ensures Overlay(out, ball, keys)[k := ball[k]] == Overlay(out, ball, keys + {k})
  {
  }

  lemma OverlayNone(out: map<string, string>, ball: map<string, string>, keys: set<string>)
    requires keys == {}
    ensures Overlay(out, ball, keys) == out
  {
  }

  ghost function Chosen(ball: map<string, string>, keys: seq<string>): set<string> {
    set i | 0 <= i < |keys| && keys[i] in ball :: keys[i]
  }

  lemma ChosenMore(ball: map<string, string>, keys: seq<string>)
    requires keys != []
    ensures var k := keys[|keys| - 1];
            Chosen(ball, keys) == Chosen(ball, keys[..|keys| - 1]) + if k in ball then {k} else {}
  {
    var n := |keys| - 1;
    forall k | k in Chosen(ball, keys) ensures k in Chosen(ball, keys[..n]) || (k == keys[n] && k in ball) {
      var i :| 0 <= i < |keys| && keys[i] in ball && keys[i] == k;
      assert i < n ==> keys[..n][i] == k;
    }
    forall k | k in Chosen(ball, keys[..n]) ensures k in Chosen(ball, keys) {
      var i :| 0 <= i < n && keys[..n][i] in ball && keys[..n][i] == k;
      assert keys[i] == k;
    }
  }

  lemma FlatReads(st: Scan, ball: map<string, string>, k: string)
    requires st.inside && k in ball && Trimmed(ball[k]) && Word(k)
    ensures ScanLine(st, Line(k, ball[k])) == st.(out := st.out[k := ball[k]], parent := None)
  {
    hide Word, Trimmed, Parse, Strip, Comment, Blank, Indented;
    var value := ball[k];
    EntryParses("  ", k, " " + value);
    StripTrimmed(value);
    TrimmedNotEmpty(value);
    assert "  " + k + ":" + (" " + value) == Line(k, value);
    hide Line;
  }

  lemma FlatLineReads(st: Scan, ball: map<string, string>, k: string)
    requires st.inside && (k in ball ==> Trimmed(ball[k])) && Word(k)
    ensures ScanAll(st, FlatLine(ball, k)) == if k in ball then st.(out := st.out[k := ball[k]], parent := None) else st
  {
    hide ScanLine, Word, Line;
    if k in ball {
      ScanOne(st, Line(k, ball[k]));
      FlatReads(st, ball, k);
    }
  }

  lemma PrintableValue(ball: map<string, string>, k: string)
    requires Printable(ball) && k in ball
    ensures Trimmed(ball[k])
  {
  }

  lemma FlatsStep(ball: map<string, string>, keys: seq<string>, n: nat)
    requires n < |keys|
    ensures Flats(ball, keys[..n + 1]) == Flats(ball, keys[..n]) + FlatLine(ball, keys[n])
  {
    hide FlatLine;
    assert keys[..n + 1][..n] == keys[..n];
  }

  lemma {:induction false} FlatsRead(st: Scan, ball: map<string, string>, keys: seq<string>)
    requires st.inside && Printable(ball) && forall i :: 0 <= i < |keys| ==> Word(keys[i])
    ensures var r := ScanAll(st, Flats(ball, keys));
            r.inside && r.out == Overlay(st.out, ball, Chosen(ball, keys))
  {
    hide ScanLine, Word, Overlay, FlatLine, Trimmed, Printable;
    if keys == [] {
      OverlayNone(st.out, ball, Chosen(ball, keys));
    } else {
      var n := |keys| - 1;
      var k := keys[n];
      FlatsRead(st, ball, keys[..n]);
      ScanAppend(st, Flats(ball, keys[..n]), FlatLine(ball, k));
      ChosenMore(ball, keys);
      hide Chosen;
      if k in ball {
        PrintableValue(ball, k);
        FlatLineReads(ScanAll(st, Flats(ball, keys[..n])), ball, k);
        OverlayMore(st.out, ball, Chosen(ball, keys[..n]), k);
      } else {
        FlatLineReads(ScanAll(st, Flats(ball, keys[..n])), ball, k);
        assert Chosen(ball, keys) == Chosen(ball, keys[..n]);
      }
    }
  }

  lemma WordHasNoDot(w: string)
    requires Word(w)
    ensures FirstDot(w) == |w| && Parent(w) == w
  {
    assert w + "" == w;
    RunPrefix(c => c != '.', w, "");
  }

  /** A nested key is its parent, a dot and its child; it starts with a parent and a dot exactly when
      that is its own parent. */
  lemma NestedKey(k: string, p: string)
    requires Dotted(k) && Word(p)
    ensures k[FirstDot(k)] == '.' && Parent(k) + "." + Child(k) == k && Word(Child(k))
    ensures Under(k, p) <==> p == Parent(k)
  {
    WordHasNoDot(k[FirstDot(k) + 1..]);
    DotIsDot(k);
    assert k == k[..FirstDot(k)] + "." + k[FirstDot(k) + 1..];
    if StartsWith(k, p + ".") {
      var v := k[|p|..];
      assert k == p + v && v[0] == (p + ".")[|p|];
      RunPrefix(c => c != '.', p, v);
    }
  }

  lemma {:induction false} DotIsDot(k: string)
    requires FirstDot(k) < |k|
    ensures k[FirstDot(k)] == '.'
  {
    if k[0] != '.' {
      DotIsDot(k[1..]);
    }
  }

  lemma {:induction false} DotFound(k: string)
    ensures '.' in k <==> FirstDot(k) < |k|
  {
    if k != "" {
      assert k == [k[0]] + k[1..];
      DotFound(k[1..]);
    }
  }

  lemma ChildReads(st: Scan, ball: map<string, string>, p: string, k: string)
    requires st.inside && st.parent == Some(p) && Word(p) && k in ball && Trimmed(ball[k])
    requires Dotted(k)
    ensures ScanAll(st, ChildLine(ball, p, k)) == if p == Parent(k) then st.(out := st.out[k := ball[k]]) else st
  {
    NestedKey(k, p);
    hide FirstDot, Word, Trimmed, Child, Parent, NestedLine, Under, ScanLine;
    if p == Parent(k) {
      NestedLineReads(st, ball, p, k);
      ScanOne(st, NestedLine(k, ball[k]));
    }
  }

  lemma NestedLineReads(st: Scan, ball: map<string, string>, p: string, k: string)
    requires st.inside && st.parent == Some(p) && k in ball && Trimmed(ball[k]) && Word(Child(k)) && p + "." + Child(k) == k
    ensures ScanLine(st, NestedLine(k, ball[k])) == st.(out := st.out[k := ball[k]])
  {
    hide Word, Trimmed, Child, Parse, Strip, Comment, Blank, Indented;
    var value := ball[k];
    EntryParses("    ", Child(k), " " + value);
    StripTrimmed(value);
    TrimmedNotEmpty(value);
    assert "    " + Child(k) + ":" + (" " + value) == NestedLine(k, value);
    hide NestedLine;
  }

  lemma TrimmedNotEmpty(value: string)
    requires Trimmed(value)
    ensures value != ""
  {
  }

  ghost function OfParent(ball: map<string, string>, p: string, nested: seq<string>): set<string> {
    set i | 0 <= i < |nested| && nested[i] in ball && Parent(nested[i]) == p :: nested[i]
  }

  lemma OfParentMore(ball: map<string, string>, p: string, nested: seq<string>)
    requires nested != [] && nested[|nested| - 1] in ball
    ensures var k := nested[|nested| - 1];
            OfParent(ball, p, nested) == OfParent(ball, p, nested[..|nested| - 1]) + if Parent(k) == p then {k} else {}
  {
    hide Parent;
    var n := |nested| - 1;
    forall k | k in OfParent(ball, p, nested) ensures k in OfParent(ball, p, nested[..n]) || (k == nested[n] && Parent(k) == p) {
      var i :| 0 <= i < |nested| && nested[i] in ball && Parent(nested[i]) == p && nested[i] == k;
      assert i < n ==> nested[..n][i] == k;
    }
    forall k | k in OfParent(ball, p, nested[..n]) ensures k in OfParent(ball, p, nested) {
      var i :| 0 <= i < n && nested[..n][i] in ball && Parent(nested[..n][i]) == p && nested[..n][i] == k;
      assert nested[i] == k;
    }
  }

  /** All of them are parent.child keys of ball. */
  ghost predicate AllNested(ball: map<string, string>, nested: seq<string>) {
    forall i :: 0 <= i < |nested| ==> nested[i] in ball && Dotted(nested[i])
  }

  lemma {:induction false} ChildrenRead(st: Scan, ball: map<string, string>, p: string, nested: seq<string>)
    requires st.inside && st.parent == Some(p) && Word(p) && Printable(ball) && AllNested(ball, nested)
    ensures ScanAll(st, Children(ball, p, nested)) == st.(out := Overlay(st.out, ball, OfParent(ball, p, nested)))
  {
    hide ScanLine, Word, Parent, ChildLine, FirstDot;
    if nested == [] {
      OverlayNone(st.out, ball, OfParent(ball, p, nested));
    } else {
      hide Overlay, OfParent;
      var n := |nested| - 1;
      var k := nested[n];
      ChildrenRead(st, ball, p, nested[..n]);
      ScanAppend(st, Children(ball, p, nested[..n]), ChildLine(ball, p, k));
      OfParentMore(ball, p, nested);
      ChildReads(ScanAll(st, Children(ball, p, nested[..n])), ball, p, k);
      OverlayMore(st.out, ball, OfParent(ball, p, nested[..n]), k);
      if Parent(k) != p {
        assert OfParent(ball, p, nested) == OfParent(ball, p, nested[..n]);
      }
    }
  }

  ghost function OfParents(ball: map<string, string>, parents: seq<string>, nested: seq<string>): set<string> {
    set i | 0 <= i < |nested| && nested[i] in ball && Parent(nested[i]) in parents :: nested[i]
  }

  lemma OfParentsMore(ball: map<string, string>, parents: seq<string>, nested: seq<string>)
    requires parents != []
    ensures OfParents(ball, parents, nested)
         == OfParents(ball, parents[..|parents| - 1], nested) + OfParent(ball, parents[|parents| - 1], nested)
  {
    hide Parent;
    var n := |parents| - 1;
    assert parents == parents[..n] + [parents[n]];
  }

  lemma ParentReads(st: Scan, p: string)
    requires st.inside && Word(p)
    ensures ScanLine(st, ParentLine(p)) == st.(parent := Some(p))
  {
    EntryParses("  ", p, "");
    assert "  " + p + ":" + "" == ParentLine(p);
    assert Strip("") == "";
    hide Parse, Strip, Comment, Blank, Indented;
  }

  lemma {:induction false} FamiliesRead(st: Scan, ball: map<string, string>, parents: seq<string>, nested: seq<string>)
    requires st.inside && Printable(ball) && AllNested(ball, nested) && forall i :: 0 <= i < |parents| ==> Word(parents[i])
    ensures var r := ScanAll(st, Families(ball, parents, nested));
            r.inside && r.out == Overlay(st.out, ball, OfParents(ball, parents, nested))
  {
    hide ScanLine, Word, Parent, Children, FirstDot, ParentLine;
    if parents == [] {
      OverlayNone(st.out, ball, OfParents(ball, parents, nested));
    } else {
      hide Overlay, OfParents, OfParent;
      var n := |parents| - 1;
      var p := parents[n];
      FamiliesRead(st, ball, parents[..n], nested);
      var before := Families(ball, parents[..n], nested);
      var r := ScanAll(st, before);
      ScanAppend(st, before, [ParentLine(p)]);
      ScanAppend(st, before + [ParentLine(p)], Children(ball, p, nested));
      ScanOne(r, ParentLine(p));
      ParentReads(r, p);
      ChildrenRead(r.(parent := Some(p)), ball, p, nested);
      OfParentsMore(ball, parents, nested);
      OverlayTwice(st.out, ball, OfParents(ball, parents[..n], nested), OfParent(ball, p, nested));
    }
  }

  lemma OverlayTwice(out: map<string, string>, ball: map<string, string>, a: set<string>, b: set<string>)
    requires a <= ball.Keys && b <= ball.Keys
    ensures Overlay(Overlay(out, ball, a), ball, b) == Overlay(out, ball, a + b)
  {
  }

  lemma HeaderReads(st: Scan)
    ensures ScanLine(st, HEADER) == st.(inside := true, parent := None)
  {
    assert HEADER[0] == 'b';
    StripLeftDrops("", HEADER);
    assert "" + HEADER == HEADER;
    StripRightKeeps(HEADER);
  }

  /** Reading a printed block lays the whole model over what was read before, from any state. */
  lemma BlockReads(st: Scan, ball: map<string, string>, parents: seq<string>, nested: seq<string>)
    requires Printable(ball) && Enumerates(ball, parents, nested)
    ensures var r := ScanAll(st, Block(ball, parents, nested));
            r.inside && r.out == Overlay(st.out, ball, ball.Keys)
  {
    AllAreNested(ball, parents, nested);
    KeysCovered(ball, parents, nested);
    FlatWords();
    hide ScanLine, Word, Flats, Families, Printable, Enumerates;
    var a := st.(inside := true, parent := None);
    ScanOne(st, HEADER);
    HeaderReads(st);
    ScanAppend(st, [HEADER], Flats(ball, FLAT));
    FlatsRead(a, ball, FLAT);
    var b := ScanAll(a, Flats(ball, FLAT));
    ScanAppend(st, [HEADER] + Flats(ball, FLAT), Families(ball, parents, nested));
    FamiliesRead(b, ball, parents, nested);
    OverlayTwice(st.out, ball, Chosen(ball, FLAT), OfParents(ball, parents, nested));
  }

  lemma FlatWords()
    ensures forall i :: 0 <= i < |FLAT| ==> Word(FLAT[i])
  {
  }

  lemma AllAreNested(ball: map<string, string>, parents: seq<string>, nested: seq<string>)
    requires Printable(ball) && Enumerates(ball, parents, nested)
    ensures AllNested(ball, nested) && forall i :: 0 <= i < |parents| ==> Word(parents[i])
  {
    forall i | 0 <= i < |nested|
      ensures nested[i] in ball && Dotted(nested[i]) && Word(Parent(nested[i]))
    {
      assert nested[i] in nested;
      DotFound(nested[i]);
      FlatHasNoDot(nested[i]);
    }
    hide FirstDot, Word;
    forall i | 0 <= i < |parents| ensures Word(parents[i]) {
      assert parents[i] in parents;
    }
  }

  lemma FlatHasNoDot(k: string)
    ensures k in FLAT ==> FirstDot(k) == |k|
  {
    FlatWords();
    if k in FLAT {
      WordHasNoDot(k);
    }
  }

  lemma KeysCovered(ball: map<string, string>, parents: seq<string>, nested: seq<string>)
    requires Printable(ball) && Enumerates(ball, parents, nested)
    ensures Chosen(ball, FLAT) + OfParents(ball, parents, nested) == ball.Keys
  {
    forall k | k in ball ensures k in Chosen(ball, FLAT) || k in OfParents(ball, parents, nested) {
      if k in FLAT {
        var i :| 0 <= i < |FLAT| && FLAT[i] == k;
      } else {
        DotFound(k);
        assert k in nested;
        var i :| 0 <= i < |nested| && nested[i] == k;
        assert Parent(nested[i]) in parents;
      }
    }
  }

  // --- round trip and frame -----------------------------------------------------------------------------------

  lemma StoresParses(line: string)
    ensures Stores(line) ==> Parse(line).Some?
  {
    hide Comment, Blank, Indented, Parse;
  }

  lemma OtherLine(st: Scan, line: string)
    requires !IsHeader(line) && !(st.inside && Stores(line))
    ensures var r := ScanLine(st, line);
            && r.out == st.out && r.inside == (st.inside && StaysInside(line))
            && (r.inside && st.parent.Some? ==> r.parent.Some?)
  {
    hide Comment, Blank, Parse;
  }

  lemma OverlayAll(out: map<string, string>, ball: map<string, string>)
    requires out == map[] || out == ball
    ensures Overlay(out, ball, ball.Keys) == ball
  {
  }

  lemma NoLines(st: Scan)
    ensures ScanAll(st, []) == st
  {
  }

  lemma {:induction false} RewriteReads(st: Scan, lines: seq<string>, ball: map<string, string>, parents: seq<string>, nested: seq<string>)
    requires Printable(ball) && Enumerates(ball, parents, nested)
    requires FirstStale(lines, st.inside).None? && (st.out == map[] || st.out == ball)
    ensures ScanAll(st, Rewrite(lines, Block(ball, parents, nested))).out == if HasBlock(lines) then ball else st.out
    decreases |lines|
  {
    hide ScanLine, Stores, StaysInside, Block, IsHeader, Printable, Overlay, ScanAll;
    NoLines(st);
    var block := Block(ball, parents, nested);
    StoresParses(if lines == [] then "" else lines[0]);
    if lines == [] {
    } else if IsHeader(lines[0]) {
      var rest := SkipBody(lines[1..]);
      BlockReads(st, ball, parents, nested);
      OverlayAll(st.out, ball);
      ScanAppend(st, block, Rewrite(rest, block));
      RewriteReads(ScanAll(st, block), rest, ball, parents, nested);
    } else {
      OtherLine(st, lines[0]);
      ScanFirst(st, lines[0], Rewrite(lines[1..], block));
      RewriteReads(ScanLine(st, lines[0]), lines[1..], ball, parents, nested);
      HasBlockRest(lines);
    }
  }

  lemma HasBlockRest(lines: seq<string>)
    requires lines != [] && !IsHeader(lines[0])
    ensures HasBlock(lines) <==> HasBlock(lines[1..])
  {
    hide IsHeader;
    if i :| 0 <= i < |lines| && IsHeader(lines[i]) {
      assert lines[1..][i - 1] == lines[i];
    }
  }

  lemma {:induction false} NoBlockNoEntries(st: Scan, lines: seq<string>)
    requires !HasBlock(lines) && !st.inside
    ensures var r := ScanAll(st, lines); !r.inside && r.out == st.out
  {
    hide ScanLine, IsHeader;
    if lines != [] {
      var n := |lines| - 1;
      NoBlockNoEntries(st, lines[..n]);
      assert !IsHeader(lines[n]);
      OtherLine(ScanAll(st, lines[..n]), lines[n]);
    }
  }

  /** Round trip: after the section is written, reading the file gives exactly the model that was
      written, for a file without, with one or with several sections, in whatever order the nested
      keys are printed, as long as the writer leaves no old entry behind. */
  lemma ReadAfterWrite(lines: seq<string>, ball: map<string, string>, parents: seq<string>, nested: seq<string>)
    requires Printable(ball) && Enumerates(ball, parents, nested) && FirstStale(lines, false).None?
    ensures ReadModel(Write(lines, Block(ball, parents, nested))) == ball
  {
    hide Block, Printable, FirstStale;
    var st := Scan(map[], false, None);
    var block := Block(ball, parents, nested);
    if HasBlock(lines) {
      RewriteReads(st, lines, ball, parents, nested);
    } else {
      NoBlockNoEntries(st, lines);
      ScanAppend(st, lines, block);
      BlockReads(ScanAll(st, lines), ball, parents, nested);
      OverlayAll(map[], ball);
    }
  }

  /** A file whose sections contain no first-column comment leaves nothing behind. */
  lemma {:induction false} NoCommentNoStale(lines: seq<string>, inside: bool)
    requires NoColumnZeroComment(lines) && (inside && lines != [] ==> !Comment(lines[0]) && !InBody(lines[0]))
    ensures FirstStale(lines, inside).None?
    decreases |lines|
  {
    hide Comment, Blank, Parse, Indented, IsHeader;
    if lines == [] {
    } else if IsHeader(lines[0]) {
      NoCommentNoStale(SkipBody(lines[1..]), true);
    } else {
      NoCommentNoStale(lines[1..], false);
    }
  }

  // --- an old entry left behind breaks the round trip --------------------------------------------------------

  /** A model with the single nested key p.<child>. */
  function Single(child: string): map<string, string> {
    map[SingleKey(child) := "0"]
  }

  function SingleKey(child: string): string {
    "p." + child
  }

  lemma SingleKeyParts(child: string)
    requires Word(child)
    ensures var k := SingleKey(child);
            && FirstDot(k) == 1 < |k| && '.' in k && Parent(k) == "p" && k[2..] == child
  {
    var k := SingleKey(child);
    assert k == "p" + ("." + child);
    RunPrefix(c => c != '.', "p", "." + child);
    assert k[..1] == "p" && k[2..] == child;
    assert k[1] == '.';
  }

  lemma SingleIsPrintable(child: string)
    requires Word(child)
    ensures Printable(Single(child)) && Enumerates(Single(child), ["p"], [SingleKey(child)])
  {
    SingleKeyParts(child);
    OneLetter("p");
    assert Trimmed("0");
    hide FirstDot, Word, Trimmed, SingleKey, Parent;
    var nested := [SingleKey(child)];
    assert Parent(nested[0]) == "p";
  }

  /** After its block the scanner is inside the section of parent p. */
  lemma SingleReads(st: Scan, child: string)
    requires Word(child)
    ensures var r := ScanAll(st, SingleBlock(child)); r.inside && r.parent == Some("p")
  {
    SingleIsPrintable(child);
    NoFlats(Single(child), child);
    AllAreNested(Single(child), ["p"], [SingleKey(child)]);
    hide *;
    SingleParent(st, Single(child), SingleKey(child));
    SingleBlockIs(child);
  }

  function SingleBlock(child: string): seq<string> {
    Block(Single(child), ["p"], [SingleKey(child)])
  }

  lemma SingleBlockIs(child: string)
    ensures SingleKey(child) in Single(child) && SingleBlock(child) == Block(Single(child), ["p"], [SingleKey(child)])
  {
  }

  lemma SingleParent(st: Scan, ball: map<string, string>, k: string)
    requires Printable(ball) && AllNested(ball, [k]) && Flats(ball, FLAT) == []
    ensures [k][0] in ball
    ensures var r := ScanAll(st, Block(ball, ["p"], [k])); r.inside && r.parent == Some("p")
  {
    assert [k][0] in ball;
    OneLetter("p");
    hide ScanLine, Flats, Children, ParentLine, Printable, Word, AllNested, ScanAll, FirstDot;
    var lines := Children(ball, "p", [k]);
    OneFamily(ball, k);
    HeaderReads(st);
    var a := ScanLine(st, HEADER);
    ParentReads(a, "p");
    var b := ScanLine(a, ParentLine("p"));
    ChildrenRead(b, ball, "p", [k]);
    ScanFirst(st, HEADER, [ParentLine("p")] + lines);
    ScanFirst(a, ParentLine("p"), lines);
  }

  lemma OneFamily(ball: map<string, string>, k: string)
    requires k in ball && Flats(ball, FLAT) == []
    ensures [k][0] in ball && Block(ball, ["p"], [k]) == [HEADER] + ([ParentLine("p")] + Children(ball, "p", [k]))
  {
    hide Flats, Children, ParentLine;
    assert ["p"][..0] == [];
    assert Families(ball, [], [k]) == [];
    assert Families(ball, ["p"], [k]) == [ParentLine("p")] + Children(ball, "p", [k]);
  }

  lemma OneLetter(s: string)
    requires |s| == 1 && IsWordChar(s[0])
    ensures Word(s)
  {
  }

  lemma NoFlats(ball: map<string, string>, child: string)
    requires ball == Single(child)
    ensures Flats(ball, FLAT) == []
  {
    assert SingleKey(child)[0] == 'p' && FLAT[0][0] == 'a' && FLAT[1][0] == 'a' && FLAT[2][0] == 'k';
    NothingFlat(ball, FLAT);
  }

  lemma {:induction false} NothingFlat(ball: map<string, string>, keys: seq<string>)
    requires forall i :: 0 <= i < |keys| ==> keys[i] !in ball
    ensures Flats(ball, keys) == []
  {
    if keys != [] {
      NothingFlat(ball, keys[..|keys| - 1]);
    }
  }

  lemma {:induction false} ScanGrows(st: Scan, lines: seq<string>)
    ensures st.out.Keys <= ScanAll(st, lines).out.Keys
  {
    hide Comment, Blank, Indented, Parse, IsHeader;
    if lines != [] {
      ScanGrows(st, lines[..|lines| - 1]);
    }
  }

  ghost predicate HasOtherKey(out: map<string, string>, child: string) {
    exists k :: k in out && k != SingleKey(child)
  }

  lemma StoredKey(st: Scan, line: string, e: Entry, child: string)
    requires st.inside && st.parent.Some? && Word(st.parent.value) && Stores(line) && Parse(line) == Some(e) && Word(child) && e.key != child
    ensures HasOtherKey(ScanLine(st, line).out, child)
  {
    KeyIsWord(line, e);
    hide Comment, Blank, Indented, Parse, Word;
    var k := if e.indent == 2 then e.key else st.parent.value + "." + e.key;
    assert k in ScanLine(st, line).out;
    if e.indent == 2 {
      NoDotInWord(e.key, child);
    } else {
      SameNested(st.parent.value, e.key, child);
    }
  }

  lemma KeyIsWord(line: string, e: Entry)
    requires Parse(line) == Some(e)
    ensures Word(e.key)
  {
    RunHolds(IsWordChar, line[e.indent..]);
    hide RunLength, Strip;
  }

  lemma {:induction false} RunHolds(p: char -> bool, s: string)
    ensures forall i :: 0 <= i < RunLength(p, s) ==> p(s[i])
  {
    if s != "" && p(s[0]) {
      RunHolds(p, s[1..]);
      forall i | 0 <= i < RunLength(p, s) ensures p(s[i]) {
        assert i > 0 ==> s[1..][i - 1] == s[i];
      }
    }
  }

  lemma NoDotInWord(key: string, child: string)
    requires Word(key)
    ensures key != SingleKey(child)
  {
    assert SingleKey(child)[1] == '.';
  }

  lemma SameNested(parent: string, key: string, child: string)
    requires Word(parent) && Word(child) && key != child
    ensures parent + "." + key != SingleKey(child)
  {
    var k := parent + "." + key;
    assert k == parent + ("." + key);
    RunPrefix(c => c != '.', parent, "." + key);
    assert FirstDot(k) == |parent| && k[FirstDot(k) + 1..] == key;
    SingleKeyParts(child);
  }

  ghost predicate ParentKnown(st: Scan) {
    st.inside ==> st.parent.Some? && Word(st.parent.value)
  }

  lemma OtherLineParent(st: Scan, line: string)
    requires ParentKnown(st) && !IsHeader(line) && !(st.inside && Stores(line))
    ensures ParentKnown(ScanLine(st, line))
  {
    if Parse(line).Some? {
      KeyIsWord(line, Parse(line).value);
    }
    hide Comment, Blank, Parse, Word;
  }

  lemma {:induction false} StaleAddsKey(st: Scan, lines: seq<string>, child: string, e: Entry)
    requires Word(child) && FirstStale(lines, st.inside) == Some(e) && e.key != child && ParentKnown(st)
    ensures HasOtherKey(ScanAll(st, Rewrite(lines, SingleBlock(child))).out, child)
    decreases |lines|
  {
    hide ScanLine, Stores, StaysInside, SingleBlock, IsHeader, Word, SingleKey;
    var block := SingleBlock(child);
    StoresParses(lines[0]);
    if IsHeader(lines[0]) {
      var rest := SkipBody(lines[1..]);
      SingleReads(st, child);
      OneLetter("p");
      ScanAppend(st, block, Rewrite(rest, block));
      StaleAddsKey(ScanAll(st, block), rest, child, e);
    } else {
      ScanFirst(st, lines[0], Rewrite(lines[1..], block));
      if st.inside && Stores(lines[0]) {
        StoredKey(st, lines[0], e, child);
        ScanGrows(ScanLine(st, lines[0]), Rewrite(lines[1..], block));
      } else {
        OtherLine(st, lines[0]);
        OtherLineParent(st, lines[0]);
        StaleAddsKey(ScanLine(st, lines[0]), lines[1..], child, e);
      }
    }
  }

  lemma {:induction false} StaleHasBlock(lines: seq<string>, inside: bool)
    requires FirstStale(lines, inside).Some? && !inside
    ensures HasBlock(lines)
  {
    hide Stores, StaysInside, IsHeader;
    if !IsHeader(lines[0]) {
      StaleHasBlock(lines[1..], false);
      HasBlockRest(lines);
    }
  }

  ghost predicate RoundTrips(lines: seq<string>, ball: map<string, string>) {
    ReadModel(Write(lines, Print(ball))) == ball
  }

  lemma NoStaleRoundTrips(lines: seq<string>, ball: map<string, string>)
    requires Printable(ball) && FirstStale(lines, false).None?
    ensures RoundTrips(lines, ball)
  {
    PrintIsBlock(ball);
    hide Printable, Enumerates, Block, Print, FirstStale, SortedStrings.Sorted;
    ReadAfterWrite(lines, ball, SortedStrings.Sorted(ParentKeys(ball)), SortedStrings.Sorted(NestedKeys(ball)));
  }

  /** The round trip holds for every model exactly when the writer leaves no old entry behind, which
      a first-column comment inside a section makes it do. */
  lemma RoundTripExactly(lines: seq<string>)
    ensures FirstStale(lines, false).None? <==> forall ball :: Printable(ball) ==> RoundTrips(lines, ball)
  {
    hide FirstStale, Printable, Enumerates, RoundTrips;
    if FirstStale(lines, false).None? {
      forall ball | Printable(ball) ensures RoundTrips(lines, ball) {
        NoStaleRoundTrips(lines, ball);
      }
    } else {
      var e := FirstStale(lines, false).value;
      var child := if e.key == "a" then "b" else "a";
      OneLetter(child);
      SingleIsPrintable(child);
      StaleBreaks(lines, child, e);
    }
  }

  lemma PrintSingle(child: string)
    requires Word(child)
    ensures Print(Single(child)) == SingleBlock(child)
  {
    var k := SingleKey(child);
    SingleKeyParts(child);
    PrintIsBlock(Single(child));
    SingleBlockIs(child);
    assert NestedKeys(Single(child)) == {k};
    assert ParentKeys(Single(child)) == {"p"};
    hide *;
    SortedStrings.SortedOne(k);
    SortedStrings.SortedOne("p");
  }

  lemma StaleBreaks(lines: seq<string>, child: string, e: Entry)
    requires Word(child) && FirstStale(lines, false) == Some(e) && e.key != child
    ensures !RoundTrips(lines, Single(child))
  {
    StaleHasBlock(lines, false);
    PrintSingle(child);
    hide FirstStale, Print, ScanAll, Rewrite, Word, HasBlock, SingleBlock, SingleKey;
    StaleAddsKey(Scan(map[], false, None), lines, child, e);
  }

  lemma {:induction false} BodyIsSkipped(body: seq<string>, rest: seq<string>)
    requires (forall i :: 0 <= i < |body| ==> InBody(body[i])) && (rest == [] || !InBody(rest[0]))
    ensures SkipBody(body + rest) == rest
  {
    hide InBody;
    if body == [] {
      assert body + rest == rest;
    } else {
      BodyIsSkipped(body[1..], rest);
      assert (body + rest)[1..] == body[1..] + rest;
    }
  }

  /** A header line and a body. */
  ghost predicate IsSection(block: seq<string>) {
    block != [] && IsHeader(block[0]) && !InBody(block[0]) && forall i :: 1 <= i < |block| ==> InBody(block[i])
  }

  lemma {:induction false} FlatsIndented(ball: map<string, string>, keys: seq<string>)
    ensures forall i :: 0 <= i < |Flats(ball, keys)| ==> Indented(Flats(ball, keys)[i])
  {
    if keys != [] {
      FlatsIndented(ball, keys[..|keys| - 1]);
      assert keys[|keys| - 1] in ball ==> Line(keys[|keys| - 1], ball[keys[|keys| - 1]])[0] == ' ';
    }
  }

  lemma {:induction false} ChildrenIndented(ball: map<string, string>, p: string, nested: seq<string>)
    requires forall i :: 0 <= i < |nested| ==> nested[i] in ball
    ensures forall i :: 0 <= i < |Children(ball, p, nested)| ==> Indented(Children(ball, p, nested)[i])
  {
    if nested != [] {
      var k := nested[|nested| - 1];
      ChildrenIndented(ball, p, nested[..|nested| - 1]);
      assert NestedLine(k, ball[k])[0] == ' ';
    }
  }

  lemma {:induction false} FamiliesIndented(ball: map<string, string>, parents: seq<string>, nested: seq<string>)
    requires forall i :: 0 <= i < |nested| ==> nested[i] in ball
    ensures forall i :: 0 <= i < |Families(ball, parents, nested)| ==> Indented(Families(ball, parents, nested)[i])
  {
    if parents != [] {
      var p := parents[|parents| - 1];
      FamiliesIndented(ball, parents[..|parents| - 1], nested);
      ChildrenIndented(ball, p, nested);
      assert ParentLine(p)[0] == ' ';
    }
  }

  lemma BlockIsSection(ball: map<string, string>, parents: seq<string>, nested: seq<string>)
    requires forall i :: 0 <= i < |nested| ==> nested[i] in ball
    ensures IsSection(Block(ball, parents, nested))
  {
    FlatsIndented(ball, FLAT);
    FamiliesIndented(ball, parents, nested);
    hide Flats, Families;
    StripLeftDrops("", HEADER);
    assert "" + HEADER == HEADER && HEADER[0] == 'b';
    StripRightKeeps(HEADER);
  }

  lemma RewriteStart(lines: seq<string>, block: seq<string>)
    requires IsSection(block) && (lines == [] || !InBody(lines[0]))
    ensures Rewrite(lines, block) == [] || !InBody(Rewrite(lines, block)[0])
  {
    hide InBody, IsHeader;
  }

  lemma {:induction false} RewriteKeepsOutside(lines: seq<string>, block: seq<string>)
    requires IsSection(block)
    ensures Outside(Rewrite(lines, block)) == Outside(lines)
    decreases |lines|
  {
    hide InBody, IsHeader;
    if lines == [] {
    } else if IsHeader(lines[0]) {
      var rest := SkipBody(lines[1..]);
      var tail := Rewrite(rest, block);
      RewriteKeepsOutside(rest, block);
      RewriteStart(rest, block);
      SectionIsSkipped(block, tail);
    } else {
      RewriteKeepsOutside(lines[1..], block);
      assert Rewrite(lines, block)[1..] == Rewrite(lines[1..], block);
    }
  }

  lemma SectionIsSkipped(block: seq<string>, tail: seq<string>)
    requires IsSection(block) && (tail == [] || !InBody(tail[0]))
    ensures (block + tail)[0] == block[0] && SkipBody((block + tail)[1..]) == tail
  {
    hide InBody, IsHeader;
    BodyIsSkipped(block[1..], tail);
    assert (block + tail)[1..] == block[1..] + tail;
  }

  lemma {:induction false} NoBlockIsOutside(lines: seq<string>, more: seq<string>)
    requires !HasBlock(lines)
    ensures Outside(lines + more) == lines + Outside(more)
  {
    hide InBody, IsHeader;
    if lines == [] {
      assert lines + more == more;
    } else {
      assert !IsHeader(lines[0]);
      HasBlockRest(lines);
      NoBlockIsOutside(lines[1..], more);
      assert (lines + more)[1..] == lines[1..] + more;
    }
  }

  /** Frame: writing keeps every line outside the section, in order, comments or not. */
  lemma WriteKeepsOutside(lines: seq<string>, ball: map<string, string>, parents: seq<string>, nested: seq<string>)
    requires Enumerates(ball, parents, nested)
    ensures Outside(Write(lines, Block(ball, parents, nested))) == Outside(lines)
  {
    BlockIsSection(ball, parents, nested);
    hide InBody, IsHeader, Block;
    var block := Block(ball, parents, nested);
    if HasBlock(lines) {
      RewriteKeepsOutside(lines, block);
    } else {
      SectionIsSkipped(block, []);
      assert block + [] == block && lines + [] == lines;
      NoBlockIsOutside(lines, block);
      NoBlockIsOutside(lines, []);
    }
  }

  lemma {:induction false} RewriteAgain(lines: seq<string>, first: seq<string>, second: seq<string>)
    requires IsSection(first)
    ensures Rewrite(Rewrite(lines, first), second) == Rewrite(lines, second)
    decreases |lines|
  {
    hide InBody, IsHeader;
    if lines == [] {
    } else if IsHeader(lines[0]) {
      var rest := SkipBody(lines[1..]);
      var tail := Rewrite(rest, first);
      RewriteAgain(rest, first, second);
      RewriteStart(rest, first);
      SectionIsSkipped(first, tail);
    } else {
      RewriteAgain(lines[1..], first, second);
      assert Rewrite(lines, first)[1..] == Rewrite(lines[1..], first);
    }
  }

  lemma {:induction false} RewriteAppended(lines: seq<string>, more: seq<string>, block: seq<string>)
    requires !HasBlock(lines)
    ensures Rewrite(lines + more, block) == lines + Rewrite(more, block)
  {
    hide InBody, IsHeader;
    if lines == [] {
      assert lines + more == more;
    } else {
      assert !IsHeader(lines[0]);
      HasBlockRest(lines);
      RewriteAppended(lines[1..], more, block);
      assert (lines + more)[1..] == lines[1..] + more;
    }
  }

  lemma {:induction false} RewriteHasBlock(lines: seq<string>, block: seq<string>)
    requires IsSection(block) && HasBlock(lines)
    ensures HasBlock(Rewrite(lines, block))
    decreases |lines|
  {
    hide InBody, IsHeader;
    if IsHeader(lines[0]) {
      assert IsHeader(Rewrite(lines, block)[0]);
    } else {
      HasBlockRest(lines);
      RewriteHasBlock(lines[1..], block);
      assert Rewrite(lines, block)[1..] == Rewrite(lines[1..], block);
      HasBlockRest(Rewrite(lines, block));
    }
  }

  /** The last write wins: a write leaves no trace of an earlier one. */
  lemma LastWriteWins(lines: seq<string>, first: seq<string>, second: seq<string>)
    requires IsSection(first)
    ensures Write(Write(lines, first), second) == Write(lines, second)
  {
    hide InBody, IsHeader;
    if HasBlock(lines) {
      RewriteHasBlock(lines, first);
      RewriteAgain(lines, first, second);
    } else {
      assert IsHeader((lines + first)[|lines|]);
      RewriteAppended(lines, first, second);
      SectionIsSkipped(first, []);
      assert first + [] == first && second + [] == second;
    }
  }

  // --- the program's loops --------------------------------------------------------------------------------------

  method ReadBallModel(lines: seq<string>) returns (out: map<string, string>)
    ensures out == ReadModel(lines)
  {
    hide Comment, Blank, Indented, Parse;
    out := map[];
    var inside := false;
    var parent: Option<string> := None;
    var i := 0;
    while i < |lines|
      invariant 0 <= i <= |lines|
      invariant Scan(out, inside, parent) == ScanAll(Scan(map[], false, None), lines[..i])
    {
      var line := lines[i];
      assert lines[..i + 1][..i] == lines[..i];
      i := i + 1;
      if Comment(line) || Blank(line) {
        continue;
      }
      if !Indented(line) {
        inside := StartsWith(line, HEADER);
        parent := None;
        continue;
      }
      if !inside {
        continue;
      }
      var m := Parse(line);
      if m.None? {
        continue;
      }
      var entry := m.value;
      if entry.indent == 2 {
        parent := None;
        if entry.value != "" {
          out := out[entry.key := entry.value];
        } else {
          parent := Some(entry.key);
        }
      } else if entry.indent == 4 && parent.Some? && entry.value != "" {
        out := out[parent.value + "." + entry.key := entry.value];
      }
    }
    assert lines[..i] == lines;
  }

  method PrintFlats(ball: map<string, string>, keys: seq<string>) returns (lines: seq<string>)
    ensures lines == Flats(ball, keys)
  {
    lines := [];
    var i := 0;
    while i < |keys|
      invariant 0 <= i <= |keys| && lines == Flats(ball, keys[..i])
    {
      FlatsStep(ball, keys, i);
      hide Line, Flats;
      if keys[i] in ball {
        lines := lines + [Line(keys[i], ball[keys[i]])];
      }
      i := i + 1;
    }
    assert keys[..i] == keys;
  }

  lemma ChildrenStep(ball: map<string, string>, p: string, nested: seq<string>, n: nat)
    requires n < |nested| && forall i :: 0 <= i < |nested| ==> nested[i] in ball
    ensures Children(ball, p, nested[..n + 1]) == Children(ball, p, nested[..n]) + ChildLine(ball, p, nested[n])
  {
    hide ChildLine;
    assert nested[..n + 1][..n] == nested[..n];
  }

  method PrintChildren(ball: map<string, string>, p: string, nested: seq<string>) returns (lines: seq<string>)
    requires forall i :: 0 <= i < |nested| ==> nested[i] in ball
    ensures lines == Children(ball, p, nested)
  {
    hide NestedLine, Under;
    lines := [];
    var n := 0;
    while n < |nested|
      invariant 0 <= n <= |nested| && lines == Children(ball, p, nested[..n])
    {
      ChildrenStep(ball, p, nested, n);
      hide Children;
      if Under(nested[n], p) {
        lines := lines + [NestedLine(nested[n], ball[nested[n]])];
      }
      n := n + 1;
    }
    assert nested[..n] == nested;
  }

  lemma FamiliesStep(ball: map<string, string>, parents: seq<string>, nested: seq<string>, j: nat)
    requires j < |parents| && forall i :: 0 <= i < |nested| ==> nested[i] in ball
    ensures Families(ball, parents[..j + 1], nested)
         == Families(ball, parents[..j], nested) + [ParentLine(parents[j])] + Children(ball, parents[j], nested)
  {
    hide ParentLine, Children;
    assert parents[..j + 1][..j] == parents[..j];
  }

  method BallYamlBlock(ball: map<string, string>) returns (lines: seq<string>)
    ensures lines == Print(ball)
  {
    PrintIsBlock(ball);
    hide ParentLine, Flats, Children, SortedStrings.Sorted, NestedKeys, ParentKeys, Print, FirstDot;
    var keys := NestedKeys(ball);
    var parents := SortedStrings.Sort(ParentKeys(ball));
    var flats := PrintFlats(ball, FLAT);
    lines := [HEADER] + flats;
    ghost var top, sorted := lines, SortedStrings.Sorted(keys);
    EnumeratedInBall(ball, parents, sorted);
    var j := 0;
    while j < |parents|
      invariant 0 <= j <= |parents| && lines == top + Families(ball, parents[..j], sorted)
    {
      FamiliesStep(ball, parents, sorted, j);
      hide Families;
      var nested := SortedStrings.Sort(keys);
      var children := PrintChildren(ball, parents[j], nested);
      lines := lines + [ParentLine(parents[j])] + children;
      j := j + 1;
    }
    assert parents[..j] == parents;
  }

  lemma RewriteAt(lines: seq<string>, i: nat, block: seq<string>)
    requires i < |lines|
    ensures Rewrite(lines[i..], block) == if IsHeader(lines[i]) then block + Rewrite(SkipBody(lines[i + 1..]), block)
                                          else [lines[i]] + Rewrite(lines[i + 1..], block)
  {
    hide IsHeader, SkipBody;
    assert lines[i..][1..] == lines[i + 1..];
  }

  lemma SkipAt(lines: seq<string>, i: nat)
    requires i <= |lines|
    ensures SkipBody(lines[i..])
         == if i < |lines| && (Indented(lines[i]) || Blank(lines[i])) then SkipBody(lines[i + 1..]) else lines[i..]
  {
    hide Indented, Blank;
    if i < |lines| {
      assert lines[i..][1..] == lines[i + 1..];
    }
  }

  method WriteBallModel(lines: seq<string>, ball: map<string, string>) returns (out: seq<string>)
    ensures out == Write(lines, Print(ball))
  {
    hide *;
    var block := BallYamlBlock(ball);
    NothingYet(lines, block);
    out := [];
    var i := 0;
    var replaced := false;
    while i < |lines|
      invariant 0 <= i <= |lines|
      invariant out + Rewrite(lines[i..], block) == Rewrite(lines, block)
      invariant replaced <==> HasBlock(lines[..i])
      invariant !replaced ==> out == lines[..i]
      decreases |lines| - i
    {
      RewriteAt(lines, i, block);
      if IsHeader(lines[i]) {
        out := out + block;
        ghost var start := i;
        i := i + 1;
        while i < |lines| && (Indented(lines[i]) || Blank(lines[i]))
          invariant start < i <= |lines| && SkipBody(lines[i..]) == SkipBody(lines[start + 1..])
        {
          SkipAt(lines, i);
          i := i + 1;
        }
        SkipAt(lines, i);
        NowReplaced(lines, start, i);
        replaced := true;
      } else {
        StillReplaced(lines, i);
        out := out + [lines[i]];
        i := i + 1;
      }
    }
    AllDone(lines, i, block);
    if !replaced {
      out := out + block;
    }
  }

  lemma NothingYet(lines: seq<string>, block: seq<string>)
    ensures lines[0..] == lines && lines[..0] == [] && !HasBlock(lines[..0])
  {
  }

  lemma AllDone(lines: seq<string>, i: nat, block: seq<string>)
    requires i == |lines|
    ensures lines[..i] == lines && Rewrite(lines[i..], block) == []
    ensures Write(lines, block) == if HasBlock(lines) then Rewrite(lines, block) else lines + block
  {
    hide HasBlock;
  }

  lemma NowReplaced(lines: seq<string>, start: nat, i: nat)
    requires start < i <= |lines| && IsHeader(lines[start])
    ensures HasBlock(lines[..i])
  {
    hide IsHeader;
    assert lines[..i][start] == lines[start];
  }

  lemma StillReplaced(lines: seq<string>, i: nat)
    requires i < |lines| && !IsHeader(lines[i])
    ensures HasBlock(lines[..i + 1]) <==> HasBlock(lines[..i])
  {
    hide IsHeader;
    var before, after := lines[..i], lines[..i + 1];
    assert after == before + [lines[i]];
    if j :| 0 <= j < |after| && IsHeader(after[j]) {
      assert before[j] == after[j];
    }
    if j :| 0 <= j < |before| && IsHeader(before[j]) {
      assert after[j] == before[j];
    }
  }
}

/**
 Keeping the model entries of a TOML file in step with a list of models. The file is cut into
 blocks at its header lines; a model's block is replaced, inserted or left alone; everything
 else stays as it is. The text has been read with its line ends translated, so a carriage
 return never stands before a line feed.
 */
module ConfigSync {
  import opened Prelude

  const SUFFIX := "-222"

  // ------------------------------------------------------------------ lines --

  // Where `splitlines` ends a line.
  predicate IsBreak(c: char) {
    0x0A <= c as int <= 0x0D || 0x1C <= c as int <= 0x1E || c as int == 0x85 || 0x2028 <= c as int <= 0x2029
  }

  // The same characters, one by one.
  predicate LineBoundary(c: char) {
    || c == '\n' || c == '\r' || c == '\U{000B}' || c == '\U{000C}' || c == '\U{001C}' || c == '\U{001D}'
    || c == '\U{001E}' || c == '\U{0085}' || c == '\U{2028}' || c == '\U{2029}'
  }

  // What `strip` removes.
  predicate IsSpace(c: char) {
    || 0x09 <= c as int <= 0x0D || 0x1C <= c as int <= 0x20 || c as int == 0x85 || c as int == 0xA0
    || c as int == 0x1680 || 0x2000 <= c as int <= 0x200A || 0x2028 <= c as int <= 0x2029
    || c as int == 0x202F || c as int == 0x205F || c as int == 0x3000
  }

  predicate Whitespace(c: char) {
    || LineBoundary(c) || c == ' ' || c == '\t' || c == '\U{001F}' || c == '\U{00A0}' || c == '\U{1680}'
    || c == '\U{2000}' || c == '\U{2001}' || c == '\U{2002}' || c == '\U{2003}' || c == '\U{2004}'
    || c == '\U{2005}' || c == '\U{2006}' || c == '\U{2007}' || c == '\U{2008}' || c == '\U{2009}'
    || c == '\U{200A}' || c == '\U{202F}' || c == '\U{205F}' || c == '\U{3000}'
  }

  lemma BreaksAre(c: char)
    ensures IsBreak(c) <==> LineBoundary(c)
    ensures IsSpace(c) <==> Whitespace(c)
  {
  }

  // A line ends right after the first line boundary, and nowhere else.
  lemma LinesEndAtBoundaries(front: string, c: char, rest: string)
    requires forall k :: 0 <= k < |front| ==> !LineBoundary(front[k])
    ensures LineBoundary(c) ==> Lines(front + [c] + rest) == [front + [c]] + Lines(rest)
    ensures front != [] ==> Lines(front) == [front]
  {
    forall k | 0 <= k < |front| ensures !IsBreak(front[k]) {
      BreaksAre(front[k]);
    }
    BreaksAre(c);
    hide LineBoundary, IsBreak;
    if LineBoundary(c) {
      LinesCons(front + [c], rest);
    }
    if front != [] {
      LinesOfOne(front);
    }
  }

  function LineEnd(text: string): (k: nat)
    requires text != []
    ensures 1 <= k <= |text|
  {
    if IsBreak(text[0]) || |text| == 1 then 1 else 1 + LineEnd(text[1..])
  }

  // The lines of a text, breaks kept.
  function Lines(text: string): seq<string>
    decreases |text|
  {
    if text == [] then [] else [text[..LineEnd(text)]] + Lines(text[LineEnd(text)..])
  }

  predicate Ended(text: string) {
    text == [] || IsBreak(text[|text| - 1])
  }

  // One line, with its break or the last one without.
  predicate LineLike(line: string) {
    line != [] && forall k :: 0 <= k < |line| - 1 ==> !IsBreak(line[k])
  }

  // One line with its break and no other.
  predicate IsLine(line: string) {
    LineLike(line) && IsBreak(line[|line| - 1])
  }

  lemma {:induction false} LineEndOfLine(line: string, rest: string)
    requires LineLike(line) && (rest == [] || IsBreak(line[|line| - 1]))
    ensures LineEnd(line + rest) == |line|
  {
    assert (line + rest)[0] == line[0];
    if |line| > 1 {
      assert !IsBreak(line[0]);
      assert (line + rest)[1..] == line[1..] + rest;
      LineEndOfLine(line[1..], rest);
    }
  }

  lemma LinesOfOne(line: string)
    requires LineLike(line)
    ensures Lines(line) == [line]
  {
    LineEndOfLine(line, []);
    assert line + [] == line && line[..|line|] == line && line[|line|..] == [];
    assert Lines(line) == [line] + [];
  }

  lemma LinesCons(line: string, rest: string)
    requires IsLine(line)
    ensures Lines(line + rest) == [line] + Lines(rest)
  {
    LineEndOfLine(line, rest);
    assert (line + rest)[..|line|] == line && (line + rest)[|line|..] == rest;
  }

  lemma {:induction false} FirstLineIsLine(text: string)
    requires text != [] && Ended(text)
    ensures IsLine(text[..LineEnd(text)]) && Ended(text[LineEnd(text)..])
  {
    if !IsBreak(text[0]) {
      FirstLineIsLine(text[1..]);
      var k := LineEnd(text[1..]);
      assert text[..1 + k] == [text[0]] + text[1..][..k];
      assert text[1 + k..] == text[1..][k..];
    }
  }

  ghost predicate AllLines(lines: seq<string>) {
    forall k :: 0 <= k < |lines| ==> IsLine(lines[k])
  }

  lemma {:induction false} LinesOfEnded(text: string)
    requires Ended(text)
    ensures AllLines(Lines(text))
    decreases |text|
  {
    if text != [] {
      FirstLineIsLine(text);
      var k := LineEnd(text);
      LinesOfEnded(text[k..]);
      hide IsLine, Ended, LineEnd;
    }
  }

  lemma {:induction false} LinesOfLines(lines: seq<string>)
    requires AllLines(lines)
    ensures Lines(Flatten(lines)) == lines && Ended(Flatten(lines))
  {
    if lines != [] {
      assert IsLine(lines[0]) && AllLines(lines[1..]);
      LinesOfLines(lines[1..]);
      LinesCons(lines[0], Flatten(lines[1..]));
      EndedConcat(lines[0], Flatten(lines[1..]));
      assert lines == [lines[0]] + lines[1..];
    }
  }

  lemma EndedConcat(a: string, b: string)
    requires Ended(a) && Ended(b)
    ensures Ended(a + b)
  {
  }

  // Cutting is lossless, whatever the text.
  lemma {:induction false} LinesAreLossless(text: string)
    ensures Flatten(Lines(text)) == text
    decreases |text|
  {
    if text != [] {
      var k := LineEnd(text);
      LinesAreLossless(text[k..]);
      assert text[..k] + text[k..] == text;
    }
  }

  // ---------------------------------------------------------------- headers --

  function TrimLeft(s: string): string {
    if s != [] && IsSpace(s[0]) then TrimLeft(s[1..]) else s
  }

  function TrimRight(s: string): string {
    if s != [] && IsSpace(s[|s| - 1]) then TrimRight(s[..|s| - 1]) else s
  }

  function Strip(s: string): string {
    TrimRight(TrimLeft(s))
  }

  predicate AllWhitespace(s: string) {
    forall k :: 0 <= k < |s| ==> Whitespace(s[k])
  }

  lemma TrimLeftStep(s: string)
    requires s != []
    ensures TrimLeft(s) == (if Whitespace(s[0]) then TrimLeft(s[1..]) else s)
  {
    BreaksAre(s[0]);
    hide Whitespace, IsSpace, LineBoundary, IsBreak;
  }

  lemma TrimRightStep(s: string)
    requires s != []
    ensures TrimRight(s) == (if Whitespace(s[|s| - 1]) then TrimRight(s[..|s| - 1]) else s)
  {
    BreaksAre(s[|s| - 1]);
    hide Whitespace, IsSpace, LineBoundary, IsBreak;
  }

  lemma WhitespaceConcat(a: string, b: string)
    requires AllWhitespace(a) && AllWhitespace(b)
    ensures AllWhitespace(a + b)
  {
    hide Whitespace;
  }

  lemma OneOfWhitespace(c: char)
    requires Whitespace(c)
    ensures AllWhitespace([c])
  {
    hide Whitespace;
  }

  lemma NoneOfWhitespace()
    ensures AllWhitespace([]) && TrimLeft([]) == TrimRight([]) == []
  {
  }

  lemma {:induction false} TrimLeftIs(s: string) returns (n: nat)
    ensures n <= |s| && AllWhitespace(s[..n]) && TrimLeft(s) == s[n..]
    ensures TrimLeft(s) != [] ==> !Whitespace(TrimLeft(s)[0])
  {
    hide *;
    n := 0;
    NoneOfWhitespace();
    assert s[..0] == [] && s[0..] == s;
    if s != [] {
      TrimLeftStep(s);
      if Whitespace(s[0]) {
        var m := TrimLeftIs(s[1..]);
        n := m + 1;
        OneOfWhitespace(s[0]);
        WhitespaceConcat([s[0]], s[1..][..m]);
        assert s[..n] == [s[0]] + s[1..][..m] && s[n..] == s[1..][m..];
      }
    }
  }

  lemma {:induction false} TrimRightIs(s: string) returns (n: nat)
    ensures n <= |s| && AllWhitespace(s[n..]) && TrimRight(s) == s[..n]
    ensures TrimRight(s) != [] ==> !Whitespace(TrimRight(s)[|TrimRight(s)| - 1])
  {
    hide *;
    n := |s|;
    NoneOfWhitespace();
    assert s[n..] == [] && s[..n] == s;
    if s != [] {
      var front, c := s[..|s| - 1], s[|s| - 1];
      TrimRightStep(s);
      FrontAndLast(s);
      if Whitespace(c) {
        n := TrimRightIs(front);
        OneOfWhitespace(c);
        WhitespaceConcat(front[n..], [c]);
        assert s[n..] == front[n..] + [c] && s[..n] == front[..n];
      }
    }
  }

  // Stripping takes the whitespace off both ends and nothing else.
  lemma StripIs(s: string) returns (a: string, b: string)
    ensures s == a + Strip(s) + b && AllWhitespace(a) && AllWhitespace(b)
    ensures Strip(s) != [] ==> !Whitespace(Strip(s)[0]) && !Whitespace(Strip(s)[|Strip(s)| - 1])
  {
    hide Whitespace, AllWhitespace, TrimLeft, TrimRight;
    var n := TrimLeftIs(s);
    var t := TrimLeft(s);
    var m := TrimRightIs(t);
    a, b := s[..n], t[m..];
    assert t == t[..m] + t[m..];
    ConcatAssociates(a, t[..m], b);
  }

  predicate IsHeader(line: string) {
    var t := Strip(line);
    t != [] && t[0] == '[' && t[|t| - 1] == ']'
  }

  // One quote off each end, as long as something is left.
  function Unquoted(s: string): string {
    var t := if |s| >= 2 && s[0] == '"' then s[1..] else s;
    if |t| >= 2 && t[|t| - 1] == '"' then t[..|t| - 1] else t
  }

  // The name in `[model.name]` or `[model."name"]`.
  function KeyOfHeader(line: string): Option<string> {
    var t := Strip(line);
    if |t| >= 9 && "[model." <= t && t[|t| - 1] == ']' && ']' !in t[7..|t| - 1]
    then Some(Strip(Unquoted(t[7..|t| - 1])))
    else None
  }

  ghost predicate HeaderOf(line: string, inner: string) {
    Strip(line) == "[model." + inner + "]" && inner != "" && ']' !in inner
  }

  // A line has a key exactly when it is `[model.` and `]` around something without a bracket, with
  // whitespace around it or not.
  lemma HeadersAre(line: string, key: string)
    ensures KeyOfHeader(line) == Some(key) <==> exists inner :: HeaderOf(line, inner) && key == Strip(Unquoted(inner))
  {
    var t := Strip(line);
    hide Strip, Unquoted;
    if KeyOfHeader(line) == Some(key) {
      assert t == "[model." + t[7..|t| - 1] + "]";
      assert HeaderOf(line, t[7..|t| - 1]);
    }
    forall inner | HeaderOf(line, inner) ensures t[7..|t| - 1] == inner && "[model." <= t && |t| >= 9 {
    }
  }

  // The key may be quoted or not, on either side.
  lemma QuotesComeOff(core: string)
    requires core != "" && core[0] != '"' && core[|core| - 1] != '"'
    ensures Unquoted(core) == Unquoted(Quoted(core)) == core
    ensures Unquoted("\"" + core) == Unquoted(core + "\"") == core
    ensures Unquoted("\"") == Unquoted("\"\"") == "\""
  {
    assert ("\"" + core)[1..] == core && (core + "\"")[..|core|] == core;
    assert Quoted(core)[1..] == core + "\"";
  }

  // ----------------------------------------------------------------- blocks --

  datatype Block = Block(key: Option<string>, text: string)

  // A header line begins a block; any other line belongs to the block before it.
  function Grouped(lines: seq<string>): seq<Block> {
    if lines == [] then []
    else
      var before, line := Grouped(lines[..|lines| - 1]), lines[|lines| - 1];
      if IsHeader(line) then before + [Block(KeyOfHeader(line), line)]
      else if before == [] then [Block(None, line)]
      else before[|before| - 1 := before[|before| - 1].(text := before[|before| - 1].text + line)]
  }

  function Text(blocks: seq<Block>): string {
    if blocks == [] then [] else Text(blocks[..|blocks| - 1]) + blocks[|blocks| - 1].text
  }

  function BlocksOf(text: string): seq<Block> {
    Grouped(Lines(text))
  }

  // Where the loop stands after `lines`: the finished blocks and the one in progress.
  ghost predicate Scanned(lines: seq<string>, blocks: seq<Block>, curKey: Option<string>, curText: string) {
    if lines == [] then blocks == [] && curKey == None && curText == ""
    else Grouped(lines) == blocks + [Block(curKey, curText)]
  }

  lemma HeaderScanned(lines: seq<string>, line: string, blocks: seq<Block>, curKey: Option<string>, curText: string)
    requires Scanned(lines, blocks, curKey, curText) && IsHeader(line)
    ensures Scanned(lines + [line], if lines == [] then blocks else blocks + [Block(curKey, curText)],
                    KeyOfHeader(line), line)
  {
    GroupedSnoc(lines, line);
    assert lines == [] ==> Grouped(lines) == [];
    hide IsHeader, KeyOfHeader, Grouped;
  }

  lemma OtherScanned(lines: seq<string>, line: string, blocks: seq<Block>, curKey: Option<string>, curText: string)
    requires Scanned(lines, blocks, curKey, curText) && !IsHeader(line)
    ensures Scanned(lines + [line], blocks, curKey, curText + line)
  {
    var so := Grouped(lines);
    GroupedSnoc(lines, line);
    assert lines == [] ==> so == [] && curText + line == line;
    hide IsHeader, KeyOfHeader, Grouped;
    if lines != [] {
      assert so[|so| - 1] == Block(curKey, curText) && |so| - 1 == |blocks|;
      LastReplaced(blocks, Block(curKey, curText), Block(curKey, curText + line));
    }
  }

  method SplitBlocks(text: string) returns (blocks: seq<Block>)
    ensures blocks == BlocksOf(text)
  {
    var lines := Lines(text);
    var curKey: Option<string>, curText := None, "";
    blocks := [];
    for i := 0 to |lines|
      invariant Scanned(lines[..i], blocks, curKey, curText)
    {
      hide Scanned, IsHeader, KeyOfHeader;
      var line := lines[i];
      assert lines[..i + 1] == lines[..i] + [line];
      if IsHeader(line) {
        HeaderScanned(lines[..i], line, blocks, curKey, curText);
        if i > 0 {
          blocks := blocks + [Block(curKey, curText)];
        }
        curKey, curText := KeyOfHeader(line), line;
      } else {
        OtherScanned(lines[..i], line, blocks, curKey, curText);
        curText := curText + line;
      }
    }
    assert lines[..|lines|] == lines;
    if lines != [] {
      blocks := blocks + [Block(curKey, curText)];
    }
  }

  lemma LastReplaced(blocks: seq<Block>, last: Block, other: Block)
    ensures (blocks + [last])[|blocks| := other] == blocks + [other]
  {
  }

  lemma GroupedStep(lines: seq<string>, i: nat)
    requires i < |lines|
    ensures Grouped(lines[..i + 1])
            == var line, so := lines[i], Grouped(lines[..i]);
               if IsHeader(line) then so + [Block(KeyOfHeader(line), line)]
               else if so == [] then [Block(None, line)]
               else so[|so| - 1 := so[|so| - 1].(text := so[|so| - 1].text + line)]
  {
    assert lines[..i + 1][..i] == lines[..i];
  }

  lemma GroupedSnoc(lines: seq<string>, line: string)
    ensures Grouped(lines + [line])
            == var so := Grouped(lines);
               if IsHeader(line) then so + [Block(KeyOfHeader(line), line)]
               else if so == [] then [Block(None, line)]
               else so[|so| - 1 := so[|so| - 1].(text := so[|so| - 1].text + line)]
  {
    var all := lines + [line];
    assert all[..|lines|] == lines && all[..|lines| + 1] == all;
    GroupedStep(all, |lines|);
    hide Grouped, IsHeader, KeyOfHeader;
  }

  lemma {:induction false} GroupedText(lines: seq<string>)
    ensures Text(Grouped(lines)) == Flatten(lines)
  {
    if lines != [] {
      var front, line := lines[..|lines| - 1], lines[|lines| - 1];
      GroupedText(front);
      assert lines == front + [line];
      FlattenSnoc(front, line);
      var before := Grouped(front);
      TextSnoc(before, line);
      hide Flatten, IsHeader, KeyOfHeader;
    }
  }

  lemma TextSnoc(blocks: seq<Block>, line: string)
    ensures forall key :: Text(blocks + [Block(key, line)]) == Text(blocks) + line
    ensures blocks == [] ==> Text(blocks) + line == line
    ensures blocks != [] ==>
              var last := blocks[|blocks| - 1];
              Text(blocks[|blocks| - 1 := last.(text := last.text + line)]) == Text(blocks) + line
  {
    forall key ensures Text(blocks + [Block(key, line)]) == Text(blocks) + line {
      assert (blocks + [Block(key, line)])[..|blocks|] == blocks;
    }
    if blocks != [] {
      var n, last := |blocks| - 1, blocks[|blocks| - 1];
      assert blocks[n := last.(text := last.text + line)][..n] == blocks[..n];
      ConcatAssociates(Text(blocks[..n]), last.text, line);
    }
  }

  // The blocks put back together are the text.
  lemma BlocksAreLossless(text: string)
    ensures Text(BlocksOf(text)) == text
  {
    GroupedText(Lines(text));
    LinesAreLossless(text);
  }

  // ------------------------------------------------- cutting a text again --

  lemma {:induction false} LinesAppend(a: string, b: string)
    requires Ended(a)
    ensures Lines(a + b) == Lines(a) + Lines(b)
    decreases |a|
  {
    if a == [] {
      assert a + b == b;
    } else {
      FirstLineIsLine(a);
      var x, y := a[..LineEnd(a)], a[LineEnd(a)..];
      assert a == x + y && Lines(a) == [x] + Lines(y);
      hide IsLine, LineEnd, Lines;
      LinesAppend(y, b);
      LinesCons(x, y + b);
      ConcatAssociates(x, y, b);
      ConcatAssociates([x], Lines(y), Lines(b));
    }
  }

  lemma {:induction false} SomeBlock(lines: seq<string>)
    ensures Grouped(lines) == [] <==> lines == []
  {
  }

  lemma {:induction false} GroupedAppend(a: seq<string>, b: seq<string>)
    requires b == [] || IsHeader(b[0])
    ensures Grouped(a + b) == Grouped(a) + Grouped(b)
    decreases |b|
  {
    if b == [] {
      assert a + b == a;
    } else {
      var front, line := b[..|b| - 1], b[|b| - 1];
      assert (a + b)[..|a + b| - 1] == a + front && (a + b)[..|a + b|] == a + b && b[..|b|] == b;
      GroupedStep(a + b, |a + b| - 1);
      GroupedStep(b, |b| - 1);
      SomeBlock(front);
      hide IsHeader, KeyOfHeader, Grouped;
      GroupedAppend(a, front);
      var x, y := Grouped(a), Grouped(front);
      if IsHeader(line) {
        ConcatAssociates(x, y, [Block(KeyOfHeader(line), line)]);
      } else {
        UpdateLast(x, y, y[|y| - 1].(text := y[|y| - 1].text + line));
      }
    }
  }

  lemma UpdateLast(x: seq<Block>, y: seq<Block>, b: Block)
    requires y != []
    ensures (x + y)[|x + y| - 1] == y[|y| - 1] && (x + y)[|x + y| - 1 := b] == x + y[|y| - 1 := b]
  {
  }

  // A block that is cut off by itself, one that ends its last line, and one that begins with a header.
  ghost predicate SelfCut(b: Block) {
    b.text != [] && BlocksOf(b.text) == [b]
  }

  ghost predicate WellCut(b: Block) {
    SelfCut(b) && Ended(b.text)
  }

  ghost predicate Headed(b: Block) {
    b.text != [] && IsHeader(Lines(b.text)[0])
  }

  ghost predicate Cut(blocks: seq<Block>) {
    && (forall k :: 0 <= k < |blocks| ==> WellCut(blocks[k]))
    && (forall k :: 1 <= k < |blocks| ==> Headed(blocks[k]))
  }

  lemma TextOfSnoc(blocks: seq<Block>)
    requires blocks != []
    ensures Text(blocks) == Text(blocks[..|blocks| - 1]) + blocks[|blocks| - 1].text
  {
  }

  lemma RecutStep(text: string, blocks: seq<Block>, last: Block)
    requires BlocksOf(text) == blocks && Ended(text) && SelfCut(last)
    requires if blocks == [] then text == [] else Headed(last)
    ensures BlocksOf(text + last.text) == blocks + [last] && (Ended(last.text) ==> Ended(text + last.text))
  {
    if Ended(last.text) {
      EndedConcat(text, last.text);
    }
    hide Grouped, Lines, IsHeader;
    LinesAppend(text, last.text);
    if blocks != [] {
      GroupedAppend(Lines(text), Lines(last.text));
    } else {
      assert text + last.text == last.text;
    }
  }

  lemma CutFront(blocks: seq<Block>)
    requires Cut(blocks) && blocks != []
    ensures var front, last := blocks[..|blocks| - 1], blocks[|blocks| - 1];
            Cut(front) && WellCut(last) && SelfCut(last) && Ended(last.text) && (front != [] ==> Headed(last))
  {
    assert WellCut(blocks[|blocks| - 1]);
    hide SelfCut, Headed;
  }

  lemma CutSnoc(blocks: seq<Block>, b: Block)
    requires Cut(blocks) && WellCut(b) && (blocks != [] ==> Headed(b))
    ensures Cut(blocks + [b])
  {
    hide WellCut, Headed;
  }

  lemma CutUpdate(blocks: seq<Block>, i: nat, b: Block)
    requires Cut(blocks) && i < |blocks| && WellCut(b) && (Headed(blocks[i]) ==> Headed(b))
    ensures Cut(blocks[i := b])
  {
    hide WellCut, Headed;
  }

  lemma TextOfNone()
    ensures Text([]) == [] && BlocksOf([]) == [] && Ended([])
  {
  }

  // Blocks that are cut properly come back when their text is cut again.
  lemma {:induction false} Recut(blocks: seq<Block>)
    requires Cut(blocks)
    ensures BlocksOf(Text(blocks)) == blocks && Ended(Text(blocks))
  {
    hide *;
    TextOfNone();
    if blocks != [] {
      CutFront(blocks);
      TextOfSnoc(blocks);
      var front, last := blocks[..|blocks| - 1], blocks[|blocks| - 1];
      Recut(front);
      RecutStep(Text(front), front, last);
      assert blocks == front + [last];
    }
  }

  lemma OneLineBlock(line: string)
    requires LineLike(line)
    ensures Lines(line) == [line]
    ensures Grouped([line]) == [Block(if IsHeader(line) then KeyOfHeader(line) else None, line)]
  {
    LinesOfOne(line);
    assert [line][..0] == [];
    hide IsHeader, KeyOfHeader;
  }

  lemma FreshBlock(line: string)
    requires LineLike(line)
    ensures var b := Block(if IsHeader(line) then KeyOfHeader(line) else None, line);
            SelfCut(b) && (IsLine(line) ==> WellCut(b)) && (IsHeader(line) ==> Headed(b))
  {
    OneLineBlock(line);
    hide IsHeader, KeyOfHeader, Lines, Grouped;
  }

  lemma ExtendedBlock(b: Block, line: string)
    requires WellCut(b) && LineLike(line) && !IsHeader(line)
    ensures var c := b.(text := b.text + line);
            SelfCut(c) && (IsLine(line) ==> WellCut(c)) && (Headed(b) ==> Headed(c))
  {
    LinesAppend(b.text, line);
    OneLineBlock(line);
    assert Lines(b.text) != [];
    assert IsLine(line) ==> Ended(b.text + line);
    hide IsHeader, KeyOfHeader, Lines, Grouped, IsLine, Ended;
    GroupedSnoc(Lines(b.text), line);
    assert [b][0 := b.(text := b.text + line)] == [b.(text := b.text + line)];
  }

  lemma {:induction false} GroupedIsCut(lines: seq<string>)
    requires AllLines(lines)
    ensures Cut(Grouped(lines))
  {
    if lines != [] {
      var front, line := lines[..|lines| - 1], lines[|lines| - 1];
      assert AllLines(front) && IsLine(line);
      GroupedStep(lines, |lines| - 1);
      assert lines[..|lines|] == lines;
      hide IsHeader, KeyOfHeader, IsLine, AllLines, Grouped, WellCut, Headed, Cut;
      GroupedIsCut(front);
      var before := Grouped(front);
      FreshBlock(line);
      if IsHeader(line) {
        CutSnoc(before, Block(KeyOfHeader(line), line));
      } else if before == [] {
        CutSnoc(before, Block(None, line));
      } else {
        LastOfCut(before);
        ExtendedBlock(before[|before| - 1], line);
        CutUpdate(before, |before| - 1, before[|before| - 1].(text := before[|before| - 1].text + line));
      }
    }
  }

  lemma LastOfCut(blocks: seq<Block>)
    requires Cut(blocks) && blocks != []
    ensures WellCut(blocks[|blocks| - 1])
  {
  }

  lemma BlocksAreCut(text: string)
    requires Ended(text)
    ensures Cut(BlocksOf(text))
  {
    LinesOfEnded(text);
    GroupedIsCut(Lines(text));
  }

  // ----------------------------------------------------------------- upsert --

  // The first block of a key.
  function FirstWith(blocks: seq<Block>, key: string): Option<Block> {
    if blocks == [] then None
    else
      var before, b := FirstWith(blocks[..|blocks| - 1], key), blocks[|blocks| - 1];
      if before.Some? then before else if b.key == Some(key) then Some(b) else None
  }

  function Without(blocks: seq<Block>, key: string): seq<Block> {
    if blocks == [] then []
    else
      var before, b := Without(blocks[..|blocks| - 1], key), blocks[|blocks| - 1];
      if b.key == Some(key) then before else before + [b]
  }

  function ReplaceAll(blocks: seq<Block>, b: Block): (r: seq<Block>)
    ensures |r| == |blocks|
  {
    if blocks == [] then []
    else
      ReplaceAll(blocks[..|blocks| - 1], b)
      + [if blocks[|blocks| - 1].key == b.key then b else blocks[|blocks| - 1]]
  }

  // The last block of `[model.ui]`. The header `[ui]` has no key, so a plain `[ui]` block is
  // never found here.
  function UiIndex(blocks: seq<Block>): (at: Option<nat>)
    ensures at.Some? ==> at.value < |blocks| && blocks[at.value].key == Some("ui")
  {
    if blocks == [] then None
    else if blocks[|blocks| - 1].key == Some("ui") then Some(|blocks| - 1)
    else UiIndex(blocks[..|blocks| - 1])
  }

  // The blocks after an upsert of `b`.
  function Placed(blocks: seq<Block>, b: Block): seq<Block>
    requires b.key.Some?
  {
    if FirstWith(blocks, b.key.value).Some? then ReplaceAll(blocks, b)
    else
      var at := UiIndex(blocks);
      if at.Some? then blocks[..at.value] + [b] + blocks[at.value..] else blocks + [b]
  }

  function Texts(blocks: seq<Block>): seq<string> {
    seq(|blocks|, k requires 0 <= k < |blocks| => blocks[k].text)
  }

  lemma {:induction false} TextIsJoined(blocks: seq<Block>)
    ensures Flatten(Texts(blocks)) == Text(blocks)
  {
    if blocks != [] {
      var front, last := blocks[..|blocks| - 1], blocks[|blocks| - 1];
      TextIsJoined(front);
      assert Texts(blocks) == Texts(front) + [last.text];
      FlattenSnoc(Texts(front), last.text);
      hide Flatten;
    }
  }

  lemma {:induction false} NothingToReplace(blocks: seq<Block>, b: Block)
    requires b.key.Some? && FirstWith(blocks, b.key.value).None?
    ensures ReplaceAll(blocks, b) == blocks && Without(blocks, b.key.value) == blocks
  {
    if blocks != [] {
      NothingToReplace(blocks[..|blocks| - 1], b);
    }
  }

  function EndingInNewline(block: string): string {
    if block != [] && block[|block| - 1] == '\n' then block else block + "\n"
  }

  // A written block ends in a line feed; one is added only where it is missing.
  lemma EndsInNewline(block: string)
    ensures var written := EndingInNewline(block);
            && written != [] && written[|written| - 1] == '\n'
            && (written == block || (written == block + ['\n'] && (block == [] || block[|block| - 1] != '\n')))
  {
  }

  function UpsertedText(text: string, key: string, block: string): string {
    Text(Placed(BlocksOf(text), Block(Some(key), EndingInNewline(block))))
  }

  method UpsertConfig(text: string, key: string, block: string) returns (result: string)
    ensures result == UpsertedText(text, key, block)
  {
    var blocks := SplitBlocks(text);
    var out: seq<string> := [];
    var replaced, uiIdx: Option<nat> := false, None;
    ghost var b := Block(Some(key), EndingInNewline(block));
    hide BlocksOf, EndingInNewline, Text;
    for i := 0 to |blocks|
      invariant out == Texts(ReplaceAll(blocks[..i], b))
      invariant replaced == FirstWith(blocks[..i], key).Some? && uiIdx == UiIndex(blocks[..i])
    {
      ScanStep(blocks, i, b);
      hide Texts, ReplaceAll, FirstWith, UiIndex;
      if blocks[i].key == Some(key) {
        out := out + [EndingInNewline(block)];
        replaced := true;
      } else {
        out := out + [blocks[i].text];
      }
      if blocks[i].key == Some("ui") {
        uiIdx := Some(i);
      }
    }
    assert blocks[..|blocks|] == blocks;
    PlacedTexts(blocks, b);
    hide Texts, ReplaceAll, FirstWith, UiIndex, Placed;
    if !replaced {
      if uiIdx.Some? {
        out := out[..uiIdx.value] + [EndingInNewline(block)] + out[uiIdx.value..];
      } else {
        out := out + [EndingInNewline(block)];
      }
    }
    TextIsJoined(Placed(blocks, b));
    result := Flatten(out);
  }

  lemma ScanStep(blocks: seq<Block>, i: nat, b: Block)
    requires i < |blocks| && b.key.Some?
    ensures Texts(ReplaceAll(blocks[..i + 1], b))
            == Texts(ReplaceAll(blocks[..i], b)) + [if blocks[i].key == b.key then b.text else blocks[i].text]
    ensures FirstWith(blocks[..i + 1], b.key.value).Some?
            == (FirstWith(blocks[..i], b.key.value).Some? || blocks[i].key == b.key)
    ensures UiIndex(blocks[..i + 1]) == if blocks[i].key == Some("ui") then Some(i) else UiIndex(blocks[..i])
  {
    assert blocks[..i + 1][..i] == blocks[..i];
    var now := ReplaceAll(blocks[..i + 1], b);
    assert now == ReplaceAll(blocks[..i], b) + [if blocks[i].key == b.key then b else blocks[i]];
    hide ReplaceAll, UiIndex;
  }

  lemma PlacedTexts(blocks: seq<Block>, b: Block)
    requires b.key.Some?
    ensures var out, at := Texts(ReplaceAll(blocks, b)), UiIndex(blocks);
            |out| == |blocks|
            && Texts(Placed(blocks, b))
               == if FirstWith(blocks, b.key.value).Some? then out
                  else if at.Some? then out[..at.value] + [b.text] + out[at.value..] else out + [b.text]
  {
    if FirstWith(blocks, b.key.value).None? {
      NothingToReplace(blocks, b);
      var at := UiIndex(blocks);
      TextsInserted(blocks, b, if at.Some? then at.value else |blocks|);
      hide ReplaceAll, FirstWith, UiIndex, Texts;
      assert blocks[..|blocks|] == blocks && blocks[|blocks|..] == [];
    }
  }

  lemma TextsInserted(blocks: seq<Block>, b: Block, at: nat)
    requires at <= |blocks|
    ensures |Texts(blocks)| == |blocks|
    ensures Texts(blocks[..at] + [b] + blocks[at..]) == Texts(blocks)[..at] + [b.text] + Texts(blocks)[at..]
    ensures at == |blocks| ==> Texts(blocks + [b]) == Texts(blocks) + [b.text]
  {
  }

  // ------------------------------------------------------- what an upsert keeps --

  lemma {:induction false} FirstWithAppend(a: seq<Block>, b: seq<Block>, key: string)
    ensures FirstWith(a + b, key) == if FirstWith(a, key).Some? then FirstWith(a, key) else FirstWith(b, key)
    decreases |b|
  {
    if b == [] {
      assert a + b == a;
    } else {
      assert (a + b)[..|a + b| - 1] == a + b[..|b| - 1];
      FirstWithAppend(a, b[..|b| - 1], key);
    }
  }

  lemma {:induction false} WithoutAppend(a: seq<Block>, b: seq<Block>, key: string)
    ensures Without(a + b, key) == Without(a, key) + Without(b, key)
    decreases |b|
  {
    if b == [] {
      assert a + b == a;
    } else {
      var front, last := b[..|b| - 1], b[|b| - 1];
      assert (a + b)[..|a + b| - 1] == a + front && (a + b)[|a + b| - 1] == last;
      WithoutAppend(a, front, key);
      ConcatAssociates(Without(a, key), Without(front, key), [last]);
    }
  }

  lemma {:induction false} ReplacedKeys(blocks: seq<Block>, b: Block, key: string)
    requires b.key.Some?
    ensures Without(ReplaceAll(blocks, b), b.key.value) == Without(blocks, b.key.value)
    ensures key != b.key.value ==> FirstWith(ReplaceAll(blocks, b), key) == FirstWith(blocks, key)
    ensures FirstWith(blocks, b.key.value).Some? ==> FirstWith(ReplaceAll(blocks, b), b.key.value) == Some(b)
    ensures FirstWith(blocks, b.key.value).None? ==> FirstWith(ReplaceAll(blocks, b), b.key.value) == None
  {
    if blocks != [] {
      var front, last := blocks[..|blocks| - 1], blocks[|blocks| - 1];
      ReplacedKeys(front, b, key);
      var now, x := ReplaceAll(front, b), if last.key == b.key then b else last;
      assert ReplaceAll(blocks, b) == now + [x];
      hide ReplaceAll;
      assert (now + [x])[..|now|] == now;
    }
  }

  lemma InsertedKeys(blocks: seq<Block>, b: Block, at: nat, key: string)
    requires b.key.Some? && FirstWith(blocks, b.key.value).None? && at <= |blocks|
    ensures var now := blocks[..at] + [b] + blocks[at..];
            && Without(now, b.key.value) == Without(blocks, b.key.value)
            && (key != b.key.value ==> FirstWith(now, key) == FirstWith(blocks, key))
            && FirstWith(now, b.key.value) == Some(b)
  {
    var k := b.key.value;
    var x, y := blocks[..at], blocks[at..];
    assert blocks == x + y;
    OneBlock(b, key);
    OneBlock(b, k);
    hide FirstWith, Without;
    FirstWithAppend(x, y, key);
    FirstWithAppend(x, [b], key);
    FirstWithAppend(x + [b], y, key);
    FirstWithAppend(x, y, k);
    FirstWithAppend(x, [b], k);
    FirstWithAppend(x + [b], y, k);
    WithoutAppend(x, y, k);
    WithoutAppend(x, [b], k);
    WithoutAppend(x + [b], y, k);
    assert Without(x, k) + [] == Without(x, k);
  }

  lemma OneBlock(b: Block, key: string)
    ensures FirstWith([b], key) == (if b.key == Some(key) then Some(b) else None)
    ensures Without([b], key) == if b.key == Some(key) then [] else [b]
  {
    assert [b][..0] == [];
  }

  // An upsert touches no other block, and afterwards the block is the first of its key.
  lemma PlacedKeys(blocks: seq<Block>, b: Block, key: string)
    requires b.key.Some?
    ensures Without(Placed(blocks, b), b.key.value) == Without(blocks, b.key.value)
    ensures key != b.key.value ==> FirstWith(Placed(blocks, b), key) == FirstWith(blocks, key)
    ensures FirstWith(Placed(blocks, b), b.key.value) == Some(b)
  {
    if FirstWith(blocks, b.key.value).Some? {
      ReplacedKeys(blocks, b, key);
    } else {
      var at := UiIndex(blocks);
      var n := if at.Some? then at.value else |blocks|;
      InsertedKeys(blocks, b, n, key);
      assert at.None? ==> blocks[..n] + [b] + blocks[n..] == blocks + [b];
    }
    hide FirstWith, Without, ReplaceAll, UiIndex;
  }

  lemma {:induction false} ReplacedAt(blocks: seq<Block>, b: Block)
    ensures forall k :: 0 <= k < |blocks| ==>
              ReplaceAll(blocks, b)[k] == if blocks[k].key == b.key then b else blocks[k]
  {
    if blocks != [] {
      ReplacedAt(blocks[..|blocks| - 1], b);
    }
  }

  lemma {:induction false} FirstWithIsSome(blocks: seq<Block>, key: string)
    ensures FirstWith(blocks, key).Some? <==> exists k :: 0 <= k < |blocks| && blocks[k].key == Some(key)
  {
    if blocks != [] {
      FirstWithIsSome(blocks[..|blocks| - 1], key);
    }
  }

  lemma {:induction false} UiIsLast(blocks: seq<Block>)
    ensures var at := UiIndex(blocks);
            forall k :: (if at.Some? then at.value + 1 else 0) <= k < |blocks| ==> blocks[k].key != Some("ui")
  {
    if blocks != [] {
      UiIsLast(blocks[..|blocks| - 1]);
    }
  }

  // Where an upsert puts the block: in the place of every block of its key; if there is none, right
  // before the last `[model.ui]`; and without one at the end.
  lemma PlacedAt(blocks: seq<Block>, b: Block)
    requires b.key.Some?
    ensures (exists k :: 0 <= k < |blocks| && blocks[k].key == b.key) ==>
              && |Placed(blocks, b)| == |blocks|
              && forall k :: 0 <= k < |blocks| ==> Placed(blocks, b)[k] == if blocks[k].key == b.key then b else blocks[k]
    ensures (forall k :: 0 <= k < |blocks| ==> blocks[k].key != b.key) ==>
              exists n: nat ::
                && n <= |blocks| && Placed(blocks, b) == blocks[..n] + [b] + blocks[n..]
                && (n < |blocks| ==> blocks[n].key == Some("ui"))
                && forall k :: n < k < |blocks| ==> blocks[k].key != Some("ui")
    ensures (forall k :: 0 <= k < |blocks| ==> blocks[k].key != b.key && blocks[k].key != Some("ui")) ==>
              Placed(blocks, b) == blocks + [b]
  {
    ReplacedAt(blocks, b);
    FirstWithIsSome(blocks, b.key.value);
    UiIsLast(blocks);
    hide FirstWith, ReplaceAll, UiIndex;
    var at := UiIndex(blocks);
    var n := if at.Some? then at.value else |blocks|;
    assert at.None? ==> blocks[..n] + [b] + blocks[n..] == blocks + [b];
  }

  lemma KeyedIsHeaded(b: Block)
    requires SelfCut(b) && b.key.Some?
    ensures Headed(b)
  {
    var lines := Lines(b.text);
    assert lines != [];
    KeylessStart(lines);
    hide Grouped, Lines, IsHeader;
  }

  lemma {:induction false} KeylessStart(lines: seq<string>)
    requires lines != []
    ensures Grouped(lines) != [] && (!IsHeader(lines[0]) ==> Grouped(lines)[0].key == None)
  {
    hide IsHeader, KeyOfHeader;
    if |lines| > 1 {
      KeylessStart(lines[..|lines| - 1]);
    } else {
      assert Grouped(lines[..0]) == [];
    }
  }

  lemma {:induction false} ReplacedIsCut(blocks: seq<Block>, b: Block)
    requires Cut(blocks) && WellCut(b) && Headed(b)
    ensures Cut(ReplaceAll(blocks, b))
  {
    if blocks != [] {
      CutFront(blocks);
      var front, last := blocks[..|blocks| - 1], blocks[|blocks| - 1];
      assert ReplaceAll(blocks, b) == ReplaceAll(front, b) + [if last.key == b.key then b else last];
      hide Cut, WellCut, Headed;
      ReplacedIsCut(front, b);
      CutSnoc(ReplaceAll(front, b), if last.key == b.key then b else last);
    }
  }

  lemma InsertedIsCut(blocks: seq<Block>, b: Block, at: nat)
    requires Cut(blocks) && WellCut(b) && Headed(b) && at <= |blocks|
    requires at < |blocks| ==> Headed(blocks[at])
    ensures Cut(blocks[..at] + [b] + blocks[at..])
  {
    hide WellCut, Headed;
  }

  lemma PlacedIsCut(blocks: seq<Block>, b: Block)
    requires Cut(blocks) && WellCut(b) && b.key.Some?
    ensures Cut(Placed(blocks, b))
  {
    KeyedIsHeaded(b);
    if FirstWith(blocks, b.key.value).Some? {
      hide *;
      ReplacedIsCut(blocks, b);
    } else {
      var at := UiIndex(blocks);
      if at.Some? {
        assert WellCut(blocks[at.value]);
        KeyedIsHeaded(blocks[at.value]);
        hide *;
        InsertedIsCut(blocks, b, at.value);
      } else {
        hide *;
        CutSnoc(blocks, b);
      }
    }
  }

  // Cutting the text after an upsert gives the blocks that were put together.
  lemma UpsertIsCut(text: string, b: Block)
    requires Ended(text) && WellCut(b) && b.key.Some?
    ensures var after := Text(Placed(BlocksOf(text), b));
            Ended(after) && BlocksOf(after) == Placed(BlocksOf(text), b)
  {
    BlocksAreCut(text);
    PlacedIsCut(BlocksOf(text), b);
    Recut(Placed(BlocksOf(text), b));
  }

  // ---------------------------------------------------------- the model entries --

  datatype Model = Model(id: string, title: string, baseUrl: string, contextWindow: nat)

  function Key(m: Model): string {
    m.id + SUFFIX
  }

  function Quoted(s: string): string {
    "\"" + s + "\""
  }

  function HeaderLine(key: string): string {
    "[model." + Quoted(key) + "]" + "\n"
  }

  function Field(name: string, value: string): string {
    name + value + "\n"
  }

  function EntryLines(m: Model): seq<string> {
    [HeaderLine(Key(m)),
     Field("model = ", Quoted(m.id)),
     Field("base_url = ", Quoted(m.baseUrl)),
     Field("name = ", Quoted("CodeLy " + m.title + " (LAN 222)")),
     Field("api_backend = ", Quoted("chat_completions")),
     Field("auth_scheme = ", Quoted("bearer")),
     Field("context_window = ", Decimal(m.contextWindow))]
  }

  function MakeConfigBlock(m: Model): string {
    Flatten(EntryLines(m))
  }

  // The entry as it is written, line by line.
  lemma EntryIsWritten(m: Model)
    ensures EntryLines(m)
            == ["[model.\"" + m.id + "-222" + "\"]\n",
                "model = \"" + m.id + "\"\n",
                "base_url = \"" + m.baseUrl + "\"\n",
                "name = \"" + "CodeLy " + m.title + " (LAN 222)" + "\"\n",
                "api_backend = \"chat_completions\"\n",
                "auth_scheme = \"bearer\"\n",
                "context_window = " + Decimal(m.contextWindow) + "\n"]
  {
    hide Decimal;
    assert HeaderLine(Key(m)) == "[model.\"" + m.id + "-222" + "\"]\n";
    assert Field("model = ", Quoted(m.id)) == "model = \"" + m.id + "\"\n";
    assert Field("base_url = ", Quoted(m.baseUrl)) == "base_url = \"" + m.baseUrl + "\"\n";
    assert Field("name = ", Quoted("CodeLy " + m.title + " (LAN 222)"))
           == "name = \"" + "CodeLy " + m.title + " (LAN 222)" + "\"\n";
    FixedLines();
    hide Field, Quoted, HeaderLine, Key;
  }

  lemma FixedLines()
    ensures Field("api_backend = ", Quoted("chat_completions")) == "api_backend = \"chat_completions\"\n"
    ensures Field("auth_scheme = ", Quoted("bearer")) == "auth_scheme = \"bearer\"\n"
  {
  }

  predicate OneLined(s: string) {
    forall k :: 0 <= k < |s| ==> !IsBreak(s[k])
  }

  // What the written entry needs to be read back under its key: no line break anywhere, and an id
  // that neither begins with a blank nor holds a closing bracket.
  predicate WellNamed(m: Model) {
    && OneLined(m.id) && OneLined(m.title) && OneLined(m.baseUrl)
    && m.id != [] && !IsSpace(m.id[0]) && ']' !in m.id
  }

  lemma {:induction false} TrimRightKeepsHead(s: string)
    requires s != [] && !IsSpace(s[0])
    ensures TrimRight(s) != [] && TrimRight(s)[0] == s[0]
  {
    if IsSpace(s[|s| - 1]) {
      TrimRightKeepsHead(s[..|s| - 1]);
    }
  }

  lemma StripOfTight(s: string)
    requires s != [] && !IsSpace(s[0]) && !IsSpace(s[|s| - 1])
    ensures Strip(s) == s && Strip(s + "\n") == s
  {
    assert TrimRight(s) == s;
    assert (s + "\n")[..|s|] == s;
  }

  lemma LineOf(s: string)
    requires OneLined(s)
    ensures IsLine(s + "\n")
  {
  }

  // The beginning of a field.
  predicate NamesField(name: string) {
    name != [] && 'a' <= name[0] <= 'z' && OneLined(name)
  }

  lemma FieldIsNoHeader(name: string, value: string)
    requires NamesField(name) && OneLined(value)
    ensures IsLine(Field(name, value)) && !IsHeader(Field(name, value))
  {
    OneLinedConcat(name, value);
    LineOf(name + value);
    TrimRightKeepsHead(name + value + "\n");
    hide TrimRight, OneLined, IsLine;
  }

  lemma FieldNames()
    ensures NamesField("model = ") && NamesField("base_url = ") && NamesField("name = ")
    ensures NamesField("api_backend = ") && NamesField("auth_scheme = ") && NamesField("context_window = ")
  {
  }

  lemma FieldValues()
    ensures OneLined("chat_completions") && OneLined("bearer") && OneLined("CodeLy ") && OneLined(" (LAN 222)")
  {
  }

  lemma {:induction false} DigitsOneLined(n: nat)
    ensures OneLined(Decimal(n))
  {
    if n >= 10 {
      DigitsOneLined(n / 10);
    }
  }

  lemma OneLinedConcat(a: string, b: string)
    requires OneLined(a) && OneLined(b)
    ensures OneLined(a + b)
  {
  }

  lemma QuotedOneLined(s: string)
    requires OneLined(s)
    ensures OneLined(Quoted(s))
  {
  }

  lemma UnquotedOfQuoted(key: string)
    requires |key| >= 2
    ensures Unquoted(Quoted(key)) == key
  {
    assert Quoted(key)[1..] == key + "\"";
    assert (key + "\"")[..|key|] == key;
  }

  lemma KeyIsTight(m: Model)
    requires WellNamed(m)
    ensures |Key(m)| >= 5 && Strip(Key(m)) == Key(m) && ']' !in Key(m) && OneLined(Key(m))
  {
    var key := Key(m);
    assert key[0] == m.id[0] && key[|key| - 1] == '2';
    StripOfTight(key);
  }

  lemma HeaderParts(inner: string)
    ensures var t := "[model." + inner + "]";
            "[model." <= t && t[7..|t| - 1] == inner && t[|t| - 1] == ']' && t[0] == '['
  {
  }

  // The header that is written reads back as its key.
  lemma HeaderRoundTrip(m: Model)
    requires WellNamed(m)
    ensures IsHeader(HeaderLine(Key(m))) && KeyOfHeader(HeaderLine(Key(m))) == Some(Key(m))
  {
    var key := Key(m);
    KeyIsTight(m);
    UnquotedOfQuoted(key);
    var inner := Quoted(key);
    assert ']' !in inner && |inner| >= 2;
    var t := "[model." + inner + "]";
    HeaderParts(inner);
    StripOfTight(t);
    hide Strip, Unquoted, Key, Quoted;
    assert HeaderLine(key) == t + "\n";
  }

  ghost predicate NoHeaders(lines: seq<string>) {
    forall k :: 1 <= k < |lines| ==> !IsHeader(lines[k])
  }

  lemma HeaderIsLine(m: Model)
    requires WellNamed(m)
    ensures IsLine(HeaderLine(Key(m)))
  {
    KeyIsTight(m);
    QuotedOneLined(Key(m));
    LineOf("[model." + Quoted(Key(m)) + "]");
    hide Key, Quoted;
  }

  lemma EntryBodyLines(m: Model)
    requires WellNamed(m)
    ensures AllLines(EntryLines(m)) && NoHeaders(EntryLines(m))
  {
    hide IsHeader, IsLine, OneLined, Decimal, Quoted, Field, HeaderLine, NamesField, Key;
    FieldNames();
    FieldValues();
    HeaderIsLine(m);
    DigitsOneLined(m.contextWindow);
    QuotedOneLined(m.id);
    QuotedOneLined(m.baseUrl);
    OneLinedConcat("CodeLy ", m.title);
    OneLinedConcat("CodeLy " + m.title, " (LAN 222)");
    QuotedOneLined("CodeLy " + m.title + " (LAN 222)");
    QuotedOneLined("chat_completions");
    QuotedOneLined("bearer");
    FieldIsNoHeader("model = ", Quoted(m.id));
    FieldIsNoHeader("base_url = ", Quoted(m.baseUrl));
    FieldIsNoHeader("name = ", Quoted("CodeLy " + m.title + " (LAN 222)"));
    FieldIsNoHeader("api_backend = ", Quoted("chat_completions"));
    FieldIsNoHeader("auth_scheme = ", Quoted("bearer"));
    FieldIsNoHeader("context_window = ", Decimal(m.contextWindow));
  }

  // Lines with no header after the first are one block.
  lemma {:induction false} GroupedRun(lines: seq<string>)
    requires lines != [] && NoHeaders(lines)
    ensures Grouped(lines) == [Block(if IsHeader(lines[0]) then KeyOfHeader(lines[0]) else None, Flatten(lines))]
  {
    hide *;
    var front, line := lines[..|lines| - 1], lines[|lines| - 1];
    FrontAndLast(lines);
    GroupedSnoc(front, line);
    FlattenSnoc(front, line);
    if front == [] {
      NothingGrouped();
      NothingBefore(line);
    } else {
      NoHeadersInFront(lines);
      GroupedRun(front);
    }
  }

  lemma NothingGrouped()
    ensures Grouped([]) == [] && Flatten<char>([]) == []
  {
  }

  lemma NoHeadersInFront(lines: seq<string>)
    requires |lines| > 1 && NoHeaders(lines)
    ensures NoHeaders(lines[..|lines| - 1]) && !IsHeader(lines[|lines| - 1])
  {
    hide IsHeader;
  }

  function EntryBlock(m: Model): Block {
    Block(Some(Key(m)), MakeConfigBlock(m))
  }

  // A written entry is one block of its own.
  lemma EntryIsCut(m: Model)
    requires WellNamed(m)
    ensures WellCut(EntryBlock(m)) && EndingInNewline(MakeConfigBlock(m)) == MakeConfigBlock(m)
  {
    HeaderRoundTrip(m);
    EntryBodyLines(m);
    GroupedRun(EntryLines(m));
    LinesOfLines(EntryLines(m));
    EntryEnds(m);
    hide EntryLines, Grouped, Lines, IsHeader, KeyOfHeader, Flatten, AllLines, NoHeaders;
  }

  lemma EntryEnds(m: Model)
    ensures MakeConfigBlock(m) != [] && MakeConfigBlock(m)[|MakeConfigBlock(m)| - 1] == '\n'
  {
    var lines := EntryLines(m);
    var front, last := lines[..6], lines[6];
    assert lines == front + [last];
    FlattenSnoc(front, last);
    assert last != [] && last[|last| - 1] == '\n';
    hide EntryLines, Flatten;
  }

  // -------------------------------------------------------------------- sync --

  predicate BlockEqual(blocks: seq<Block>, key: string, block: string) {
    var first := FirstWith(blocks, key);
    first.Some? && Strip(first.value.text) == Strip(block)
  }

  // One model of the list: its entry is left alone if it is there already.
  function SyncOne(text: string, m: Model): string {
    if BlockEqual(BlocksOf(text), Key(m), MakeConfigBlock(m)) then text
    else UpsertedText(text, Key(m), MakeConfigBlock(m))
  }

  function SyncAll(text: string, models: seq<Model>): string {
    if models == [] then text else SyncOne(SyncAll(text, models[..|models| - 1]), models[|models| - 1])
  }

  function RemovedText(text: string, key: string): string {
    Text(Without(BlocksOf(text), key))
  }

  function RemoveAll(text: string, keys: seq<string>): string {
    if keys == [] then text else RemovedText(RemoveAll(text, keys[..|keys| - 1]), keys[|keys| - 1])
  }

  // A synchronised entry of a model that is gone.
  predicate Stale(b: Block, wanted: set<string>) {
    b.key.Some? && EndsWith(b.key.value, SUFFIX) && b.key.value !in wanted
  }

  function StaleKeys(blocks: seq<Block>, wanted: set<string>): seq<string> {
    if blocks == [] then []
    else
      StaleKeys(blocks[..|blocks| - 1], wanted)
      + if Stale(blocks[|blocks| - 1], wanted) then [blocks[|blocks| - 1].key.value] else []
  }

  function Wanted(models: seq<Model>): set<string> {
    set m | m in models :: Key(m)
  }

  function Synced(text: string, models: seq<Model>, removeMissing: bool): string {
    var added := SyncAll(text, models);
    if removeMissing then RemoveAll(added, StaleKeys(BlocksOf(added), Wanted(models))) else added
  }

  method SyncConfig(text: string, models: seq<Model>, removeMissing: bool) returns (newText: string)
    ensures newText == Synced(text, models, removeMissing)
  {
    newText := text;
    hide BlocksOf, FirstWith, StaleKeys, UpsertedText, Without, Text, MakeConfigBlock;
    for i := 0 to |models|
      invariant newText == SyncAll(text, models[..i])
    {
      var m := models[i];
      assert models[..i + 1][..i] == models[..i];
      var blocks := SplitBlocks(newText);
      var first := FirstWith(blocks, Key(m));
      var block := MakeConfigBlock(m);
      if first.None? || Strip(first.value.text) != Strip(block) {
        newText := UpsertConfig(newText, Key(m), block);
      }
    }
    assert models[..|models|] == models;
    if removeMissing {
      var blocks := SplitBlocks(newText);
      var stale := StaleKeys(blocks, Wanted(models));
      ghost var added := newText;
      for i := 0 to |stale|
        invariant newText == RemoveAll(added, stale[..i])
      {
        assert stale[..i + 1][..i] == stale[..i];
        blocks := SplitBlocks(newText);
        newText := Text(Without(blocks, stale[i]));
      }
      assert stale[..|stale|] == stale;
    }
  }

  predicate InPlace(text: string, m: Model) {
    BlockEqual(BlocksOf(text), Key(m), MakeConfigBlock(m))
  }

  // The entry of `m` is in place, and the text ended.
  ghost predicate Settled(text: string, m: Model) {
    Ended(text) && InPlace(text, m)
  }

  ghost predicate AllWellNamed(models: seq<Model>) {
    forall m :: m in models ==> WellNamed(m)
  }

  ghost predicate DistinctIds(models: seq<Model>) {
    forall j, k :: 0 <= j < k < |models| ==> models[j].id != models[k].id
  }

  // One model's step: its entry is in place, every other block is kept byte for byte, in order,
  // and what is found under any other key is what was found before.
  lemma SyncOneSettles(text: string, m: Model, key: string)
    requires Ended(text) && WellNamed(m)
    ensures Settled(SyncOne(text, m), m)
    ensures Without(BlocksOf(SyncOne(text, m)), Key(m)) == Without(BlocksOf(text), Key(m))
    ensures key != Key(m) ==> FirstWith(BlocksOf(SyncOne(text, m)), key) == FirstWith(BlocksOf(text), key)
  {
    EntryIsCut(m);
    UpsertIsCut(text, EntryBlock(m));
    PlacedKeys(BlocksOf(text), EntryBlock(m), key);
    hide BlocksOf, FirstWith, Without, Placed, MakeConfigBlock, Strip, WellNamed, Text, Key, EndingInNewline, WellCut;
  }

  lemma DifferentKeys(a: Model, b: Model)
    requires a.id != b.id
    ensures Key(a) != Key(b)
  {
    assert Key(a)[..|a.id|] == a.id && Key(b)[..|b.id|] == b.id;
    assert |Key(a)| == |a.id| + 4 && |Key(b)| == |b.id| + 4;
  }

  lemma SettledStays(text: string, m: Model, other: Model)
    requires Settled(text, other) && WellNamed(m) && m.id != other.id
    ensures Settled(SyncOne(text, m), other)
  {
    DifferentKeys(m, other);
    SyncOneSettles(text, m, Key(other));
    hide BlocksOf, FirstWith, Without, SyncOne, MakeConfigBlock, Strip, WellNamed, Key;
  }

  // After a sync every model of the list has its entry in place.
  lemma {:induction false} AllSettled(text: string, models: seq<Model>)
    requires Ended(text) && AllWellNamed(models) && DistinctIds(models)
    ensures Ended(SyncAll(text, models))
    ensures forall m :: m in models ==> Settled(SyncAll(text, models), m)
  {
    if models != [] {
      var front, last := models[..|models| - 1], models[|models| - 1];
      assert models == front + [last];
      assert forall m :: m in front ==> m.id != last.id;
      hide Settled, SyncOne, WellNamed, Ended;
      AllSettled(text, front);
      var before := SyncAll(text, front);
      SyncOneSettles(before, last, "");
      SettledIsEnded(SyncOne(before, last), last);
      forall m | m in front ensures Settled(SyncOne(before, last), m) {
        SettledStays(before, last, m);
      }
    }
  }

  lemma SettledIsEnded(text: string, m: Model)
    requires Settled(text, m)
    ensures Ended(text) && InPlace(text, m)
  {
  }

  lemma {:induction false} NothingToSync(text: string, models: seq<Model>)
    requires forall m :: m in models ==> InPlace(text, m)
    ensures SyncAll(text, models) == text
  {
    if models != [] {
      var front, last := models[..|models| - 1], models[|models| - 1];
      assert models == front + [last];
      assert InPlace(text, last) && SyncOne(text, last) == text;
      hide InPlace, SyncOne;
      NothingToSync(text, front);
    }
  }

  lemma {:induction false} WithoutIsCut(blocks: seq<Block>, key: string)
    requires Cut(blocks)
    ensures Cut(Without(blocks, key))
  {
    if blocks != [] {
      CutFront(blocks);
      var front, last := blocks[..|blocks| - 1], blocks[|blocks| - 1];
      assert front == [] ==> Without(front, key) == [];
      hide Cut, WellCut, Headed;
      WithoutIsCut(front, key);
      if last.key != Some(key) {
        CutSnoc(Without(front, key), last);
      }
    }
  }

  lemma FirstWithSnoc(blocks: seq<Block>, b: Block, key: string)
    ensures FirstWith(blocks + [b], key)
            == if FirstWith(blocks, key).Some? then FirstWith(blocks, key)
               else if b.key == Some(key) then Some(b) else None
  {
    assert (blocks + [b])[..|blocks|] == blocks;
  }

  lemma {:induction false} WithoutKeeps(blocks: seq<Block>, key: string, other: string, b: Block)
    ensures other != key ==> FirstWith(Without(blocks, key), other) == FirstWith(blocks, other)
    ensures b in Without(blocks, key) <==> b in blocks && b.key != Some(key)
  {
    if blocks != [] {
      var front, last := blocks[..|blocks| - 1], blocks[|blocks| - 1];
      var rest := Without(front, key);
      assert Without(blocks, key) == if last.key == Some(key) then rest else rest + [last];
      assert blocks == front + [last];
      hide Without, FirstWith;
      WithoutKeeps(front, key, other, b);
      FirstWithSnoc(front, last, other);
      FirstWithSnoc(rest, last, other);
    }
  }

  lemma RemoveOne(text: string, key: string)
    requires Ended(text)
    ensures Ended(RemovedText(text, key)) && BlocksOf(RemovedText(text, key)) == Without(BlocksOf(text), key)
  {
    hide *;
    BlocksAreCut(text);
    WithoutIsCut(BlocksOf(text), key);
    Recut(Without(BlocksOf(text), key));
    RemovedIs(text, key);
  }

  lemma RemovedIs(text: string, key: string)
    ensures RemovedText(text, key) == Text(Without(BlocksOf(text), key))
  {
  }

  lemma {:induction false} RemoveAllKeeps(text: string, keys: seq<string>, m: Model, b: Block)
    requires Ended(text)
    ensures Ended(RemoveAll(text, keys))
    ensures b in BlocksOf(RemoveAll(text, keys)) <==> b in BlocksOf(text) && (b.key.Some? ==> b.key.value !in keys)
    ensures Settled(text, m) && Key(m) !in keys ==> Settled(RemoveAll(text, keys), m)
  {
    if keys != [] {
      var front, last := keys[..|keys| - 1], keys[|keys| - 1];
      assert keys == front + [last];
      RemoveAllKeeps(text, front, m, b);
      var before := RemoveAll(text, front);
      RemoveOne(before, last);
      WithoutKeeps(BlocksOf(before), last, Key(m), b);
      hide BlocksOf, FirstWith, Without, Text, Key, MakeConfigBlock, Strip, Ended, RemovedText;
    }
  }

  lemma {:induction false} StaleKeysAre(blocks: seq<Block>, wanted: set<string>, key: string)
    ensures key in StaleKeys(blocks, wanted) <==> exists b :: b in blocks && Stale(b, wanted) && b.key.value == key
  {
    if blocks != [] {
      var front, last := blocks[..|blocks| - 1], blocks[|blocks| - 1];
      StaleKeysAre(front, wanted, key);
      assert blocks == front + [last];
      hide Stale;
    }
  }

  lemma NoStaleKeys(blocks: seq<Block>, wanted: set<string>)
    requires forall b :: b in blocks ==> !Stale(b, wanted)
    ensures StaleKeys(blocks, wanted) == []
  {
    hide Stale;
    var keys := StaleKeys(blocks, wanted);
    if keys != [] {
      StaleKeysAre(blocks, wanted, keys[0]);
    }
  }

  // Synchronising twice changes nothing the second time.
  lemma SyncConverges(text: string, models: seq<Model>, removeMissing: bool)
    requires Ended(text) && AllWellNamed(models) && DistinctIds(models)
    ensures Synced(Synced(text, models, removeMissing), models, removeMissing) == Synced(text, models, removeMissing)
  {
    AllSettled(text, models);
    var added := SyncAll(text, models);
    if !removeMissing {
      NothingToSync(added, models);
    } else {
      var wanted := Wanted(models);
      var keys := StaleKeys(BlocksOf(added), wanted);
      var after := RemoveAll(added, keys);
      PruneConverges(added, models, keys);
      NothingToSync(after, models);
      NoStaleKeys(BlocksOf(after), wanted);
      hide SyncAll, StaleKeys, BlocksOf, Settled, AllWellNamed, DistinctIds, Wanted;
    }
  }

  lemma PruneConverges(added: string, models: seq<Model>, keys: seq<string>)
    requires Ended(added) && forall m :: m in models ==> Settled(added, m)
    requires keys == StaleKeys(BlocksOf(added), Wanted(models))
    ensures forall m :: m in models ==> Settled(RemoveAll(added, keys), m)
    ensures forall b :: b in BlocksOf(RemoveAll(added, keys)) ==> !Stale(b, Wanted(models))
  {
    var wanted := Wanted(models);
    forall m | m in models ensures Settled(RemoveAll(added, keys), m) {
      WantedIsNotStale(BlocksOf(added), models, m);
      RemoveAllKeeps(added, keys, m, EntryBlock(m));
    }
    hide Settled, StaleKeys, Wanted;
    forall b | b in BlocksOf(RemoveAll(added, keys)) ensures !Stale(b, wanted) {
      StaleIsRemoved(added, keys, wanted, b);
    }
  }

  lemma WantedIsNotStale(blocks: seq<Block>, models: seq<Model>, m: Model)
    requires m in models
    ensures Key(m) !in StaleKeys(blocks, Wanted(models))
  {
    StaleKeysAre(blocks, Wanted(models), Key(m));
    hide StaleKeys;
  }

  lemma StaleIsRemoved(added: string, keys: seq<string>, wanted: set<string>, b: Block)
    requires Ended(added) && keys == StaleKeys(BlocksOf(added), wanted) && b in BlocksOf(RemoveAll(added, keys))
    ensures !Stale(b, wanted)
  {
    RemoveAllKeeps(added, keys, Model("", "", "", 0), b);
    if b.key.Some? {
      StaleKeysAre(BlocksOf(added), wanted, b.key.value);
    }
    hide StaleKeys, BlocksOf, RemoveAll;
  }

  // ----------------------------------------------------------- what else happens --

  function FilterOut(blocks: seq<Block>, keys: set<string>): seq<Block> {
    if blocks == [] then []
    else
      var before, b := FilterOut(blocks[..|blocks| - 1], keys), blocks[|blocks| - 1];
      if b.key.Some? && b.key.value in keys then before else before + [b]
  }

  lemma FilterOutSnoc(blocks: seq<Block>, b: Block, keys: set<string>)
    ensures FilterOut(blocks + [b], keys)
            == if b.key.Some? && b.key.value in keys then FilterOut(blocks, keys) else FilterOut(blocks, keys) + [b]
  {
    assert (blocks + [b])[..|blocks|] == blocks;
  }

  lemma WithoutSnoc(blocks: seq<Block>, b: Block, key: string)
    ensures Without(blocks + [b], key) == if b.key == Some(key) then Without(blocks, key) else Without(blocks, key) + [b]
  {
    assert (blocks + [b])[..|blocks|] == blocks;
  }

  lemma {:induction false} FilterOneMore(blocks: seq<Block>, keys: set<string>, key: string)
    ensures Without(FilterOut(blocks, keys), key) == FilterOut(blocks, keys + {key})
    ensures key in keys ==> FilterOut(Without(blocks, key), keys) == FilterOut(blocks, keys)
  {
    if blocks != [] {
      var front, b := blocks[..|blocks| - 1], blocks[|blocks| - 1];
      FilterOneMore(front, keys, key);
      FrontAndLast(blocks);
      FilterOutSnoc(front, b, keys);
      FilterOutSnoc(front, b, keys + {key});
      WithoutSnoc(FilterOut(front, keys), b, key);
      WithoutSnoc(front, b, key);
      FilterOutSnoc(Without(front, key), b, keys);
      hide FilterOut, Without;
    }
  }

  function AsSet(keys: seq<string>): set<string> {
    set k | k in keys
  }

  lemma {:induction false} FilterNone(blocks: seq<Block>)
    ensures FilterOut(blocks, {}) == blocks
  {
    if blocks != [] {
      FilterNone(blocks[..|blocks| - 1]);
    }
  }

  lemma {:induction false} RemoveAllFilters(text: string, keys: seq<string>)
    requires Ended(text)
    ensures Ended(RemoveAll(text, keys))
    ensures BlocksOf(RemoveAll(text, keys)) == FilterOut(BlocksOf(text), AsSet(keys))
  {
    if keys == [] {
      FilterNone(BlocksOf(text));
      assert AsSet(keys) == {};
      hide FilterOut;
    } else {
      var front, last := keys[..|keys| - 1], keys[|keys| - 1];
      assert keys == front + [last] && AsSet(keys) == AsSet(front) + {last};
      hide BlocksOf, FilterOut, RemovedText, Ended;
      RemoveAllFilters(text, front);
      RemoveOne(RemoveAll(text, front), last);
      FilterOneMore(BlocksOf(text), AsSet(front), last);
    }
  }

  lemma {:induction false} SameFilter(blocks: seq<Block>, a: set<string>, b: set<string>)
    requires forall x :: x in blocks && x.key.Some? ==> (x.key.value in a <==> x.key.value in b)
    ensures FilterOut(blocks, a) == FilterOut(blocks, b)
  {
    if blocks != [] {
      assert blocks[|blocks| - 1] in blocks;
      SameFilter(blocks[..|blocks| - 1], a, b);
    }
  }

  // The keys of entries in `blocks` that no model of the list has.
  function Outdated(blocks: seq<Block>, models: seq<Model>): set<string> {
    set b | b in blocks && b.key.Some? && EndsWith(b.key.value, "-222")
            && (forall m :: m in models ==> b.key.value != m.id + "-222") :: b.key.value
  }

  lemma StaleIsOutdated(blocks: seq<Block>, models: seq<Model>, b: Block)
    requires b in blocks && b.key.Some?
    ensures b.key.value in AsSet(StaleKeys(blocks, Wanted(models))) <==> b.key.value in Outdated(blocks, models)
  {
    StaleKeysAre(blocks, Wanted(models), b.key.value);
    hide StaleKeys;
    assert b.key.value in Wanted(models) <==> exists m :: m in models && b.key.value == m.id + "-222";
  }

  // Removing takes out exactly the entries no model has, and keeps every other block, byte for byte
  // and in order.
  lemma RemovesExactly(text: string, models: seq<Model>)
    requires Ended(text) && AllWellNamed(models) && DistinctIds(models)
    ensures var blocks := BlocksOf(Synced(text, models, false));
            BlocksOf(Synced(text, models, true)) == FilterOut(blocks, Outdated(blocks, models))
  {
    AllSettled(text, models);
    var added := SyncAll(text, models);
    var keys := StaleKeys(BlocksOf(added), Wanted(models));
    assert Synced(text, models, true) == RemoveAll(added, keys) && Synced(text, models, false) == added;
    hide *;
    RemoveAllFilters(added, keys);
    forall b | b in BlocksOf(added) && b.key.Some?
      ensures b.key.value in AsSet(keys) <==> b.key.value in Outdated(BlocksOf(added), models)
    {
      StaleIsOutdated(BlocksOf(added), models, b);
    }
    SameFilter(BlocksOf(added), AsSet(keys), Outdated(BlocksOf(added), models));
  }

  // And adding leaves every block that is no model's as it was, in order.
  lemma {:induction false} OtherBlocksStay(text: string, models: seq<Model>, keys: set<string>)
    requires Ended(text) && AllWellNamed(models) && DistinctIds(models)
    requires forall m :: m in models ==> m.id + "-222" in keys
    ensures FilterOut(BlocksOf(SyncAll(text, models)), keys) == FilterOut(BlocksOf(text), keys)
  {
    if models != [] {
      var front, last := models[..|models| - 1], models[|models| - 1];
      var before := SyncAll(text, front);
      assert SyncAll(text, models) == SyncOne(before, last);
      assert Key(last) == last.id + "-222";
      hide *;
      AllInFront(models);
      OtherBlocksStay(text, front, keys);
      AllSettled(text, front);
      SyncOneSettles(before, last, "");
      FilterOneMore(BlocksOf(before), keys, Key(last));
      FilterOneMore(BlocksOf(SyncOne(before, last)), keys, Key(last));
    }
  }

  // --------------------------------------------------- texts that are not ended --

  // What follows the last line break, and what is before it.
  function LastLine(text: string): string {
    if Ended(text) then [] else LastLine(text[..|text| - 1]) + [text[|text| - 1]]
  }

  function BeforeLast(text: string): string {
    if Ended(text) then text else BeforeLast(text[..|text| - 1])
  }

  predicate Blank(s: string) {
    forall k :: 0 <= k < |s| ==> IsSpace(s[k])
  }

  lemma {:induction false} LastLineSplits(text: string)
    ensures text == BeforeLast(text) + LastLine(text)
    ensures Ended(BeforeLast(text)) && OneLined(LastLine(text))
  {
    if Ended(text) {
      assert text + [] == text;
    } else {
      var front, c := text[..|text| - 1], text[|text| - 1];
      LastLineSplits(front);
      ConcatAssociates(BeforeLast(front), LastLine(front), [c]);
      assert text == front + [c];
      OneLinedConcat(LastLine(front), [c]);
    }
  }

  ghost predicate OpenCut(blocks: seq<Block>) {
    blocks != [] ==>
      var front, last := blocks[..|blocks| - 1], blocks[|blocks| - 1];
      Cut(front) && SelfCut(last) && (front != [] ==> Headed(last))
  }

  lemma OpenCutSnoc(blocks: seq<Block>, b: Block)
    requires Cut(blocks) && SelfCut(b) && (blocks != [] ==> Headed(b))
    ensures OpenCut(blocks + [b])
  {
    assert (blocks + [b])[..|blocks|] == blocks;
    hide Cut, SelfCut, Headed;
  }

  lemma OpenCutUpdate(blocks: seq<Block>, b: Block)
    requires Cut(blocks) && blocks != [] && SelfCut(b) && (Headed(blocks[|blocks| - 1]) ==> Headed(b))
    ensures OpenCut(blocks[|blocks| - 1 := b])
  {
    CutFront(blocks);
    var front := blocks[..|blocks| - 1];
    hide Cut, SelfCut, Headed;
    OpenCutSnoc(front, b);
    assert blocks[|blocks| - 1 := b] == front + [b];
  }

  lemma OpenIsLineLike(last: string)
    requires OneLined(last)
    ensures last != [] ==> LineLike(last) && Lines(last) == [last]
    ensures last == [] ==> Lines(last) == []
  {
    if last != [] {
      LinesOfOne(last);
    }
  }

  lemma OpenTextIsCut(before: string, last: string)
    requires Ended(before) && OneLined(last) && last != []
    ensures OpenCut(BlocksOf(before + last))
  {
    hide *;
    var blocks := BlocksOf(before);
    BlocksAreCut(before);
    OpenBlocksStep(before, last);
    OpenIsLineLike(last);
    FreshBlock(last);
    if IsHeader(last) {
      OpenCutSnoc(blocks, Block(KeyOfHeader(last), last));
    } else if blocks == [] {
      OpenCutSnoc(blocks, Block(None, last));
      assert blocks + [Block(None, last)] == [Block(None, last)];
    } else {
      LastOfCut(blocks);
      ExtendedBlock(blocks[|blocks| - 1], last);
      OpenCutUpdate(blocks, blocks[|blocks| - 1].(text := blocks[|blocks| - 1].text + last));
    }
  }

  // Any text is cut into blocks of which only the last may be open.
  lemma BlocksAreOpenCut(text: string)
    ensures OpenCut(BlocksOf(text))
  {
    hide *;
    LastLineSplits(text);
    var before, last := BeforeLast(text), LastLine(text);
    if last == [] {
      assert before + last == before;
      BlocksAreCut(text);
      CutIsOpenCut(BlocksOf(text));
    } else {
      OpenTextIsCut(before, last);
    }
  }

  lemma CutIsOpenCut(blocks: seq<Block>)
    requires Cut(blocks)
    ensures OpenCut(blocks)
  {
    if blocks != [] {
      CutFront(blocks);
      hide Cut, Headed, BlocksOf;
    }
  }

  lemma OpenBlocksStep(before: string, last: string)
    requires Ended(before) && OneLined(last) && last != []
    ensures BlocksOf(before + last)
            == var so := BlocksOf(before);
               if IsHeader(last) then so + [Block(KeyOfHeader(last), last)]
               else if so == [] then [Block(None, last)]
               else so[|so| - 1 := so[|so| - 1].(text := so[|so| - 1].text + last)]
  {
    LinesAppend(before, last);
    OpenIsLineLike(last);
    GroupedSnoc(Lines(before), last);
    hide IsHeader, KeyOfHeader, Lines, Grouped;
  }

  lemma OpenCutParts(blocks: seq<Block>)
    requires OpenCut(blocks) && blocks != []
    ensures var front, last := blocks[..|blocks| - 1], blocks[|blocks| - 1];
            Cut(front) && SelfCut(last) && (front != [] ==> Headed(last))
  {
    hide Cut, SelfCut, Headed;
  }

  lemma RecutOpen(blocks: seq<Block>)
    requires OpenCut(blocks)
    ensures BlocksOf(Text(blocks)) == blocks
  {
    hide *;
    TextOfNone();
    if blocks != [] {
      var front, last := blocks[..|blocks| - 1], blocks[|blocks| - 1];
      OpenCutParts(blocks);
      TextOfSnoc(blocks);
      Recut(front);
      RecutStep(Text(front), front, last);
      assert blocks == front + [last];
    }
  }

  lemma ReplacedIsOpenCut(blocks: seq<Block>, b: Block)
    requires OpenCut(blocks) && WellCut(b) && Headed(b)
    ensures OpenCut(ReplaceAll(blocks, b))
  {
    if blocks != [] {
      var front, last := blocks[..|blocks| - 1], blocks[|blocks| - 1];
      var x := if last.key == b.key then b else last;
      assert ReplaceAll(blocks, b) == ReplaceAll(front, b) + [x];
      assert front == [] ==> ReplaceAll(front, b) == [];
      assert SelfCut(b);
      hide Cut, Headed, WellCut, SelfCut, ReplaceAll;
      ReplacedIsCut(front, b);
      OpenCutSnoc(ReplaceAll(front, b), x);
    }
  }

  lemma InsertedIsOpenCut(blocks: seq<Block>, b: Block, at: nat)
    requires OpenCut(blocks) && WellCut(b) && Headed(b) && at < |blocks| && Headed(blocks[at])
    ensures OpenCut(blocks[..at] + [b] + blocks[at..])
  {
    hide *;
    var n := |blocks| - 1;
    var front, last := blocks[..n], blocks[n];
    OpenCutParts(blocks);
    InsertedFront(blocks, b, at);
    if at < n {
      InsertedIsCut(front, b, at);
      OpenCutSnoc(front[..at] + [b] + front[at..], last);
    } else {
      CutSnoc(front, b);
      OpenCutSnoc(front + [b], last);
    }
  }

  lemma InsertedFront(blocks: seq<Block>, b: Block, at: nat)
    requires at < |blocks|
    ensures var n := |blocks| - 1;
            && (at < n ==> blocks[at] == blocks[..n][at])
            && blocks[..at] + [b] + blocks[at..]
               == (if at < n then blocks[..n][..at] + [b] + blocks[..n][at..] else blocks[..n] + [b]) + [blocks[n]]
  {
    var n := |blocks| - 1;
    assert blocks[..n][..at] == blocks[..at] && blocks[at..] == blocks[..n][at..] + [blocks[n]];
  }

  lemma OpenCutAt(blocks: seq<Block>, at: nat)
    requires OpenCut(blocks) && at < |blocks| && blocks[at].key.Some?
    ensures Headed(blocks[at])
  {
    assert at < |blocks| - 1 ==> WellCut(blocks[..|blocks| - 1][at]);
    KeyedIsHeaded(blocks[at]);
  }

  // Replacing or inserting before `[model.ui]` works on every text.
  lemma PlacedIsFinal(text: string, m: Model)
    requires WellNamed(m) && !BlockEqual(BlocksOf(text), Key(m), MakeConfigBlock(m))
    requires FirstWith(BlocksOf(text), Key(m)).Some? || UiIndex(BlocksOf(text)).Some?
    ensures SyncOne(SyncOne(text, m), m) == SyncOne(text, m)
    ensures BlocksOf(SyncOne(text, m)) == Placed(BlocksOf(text), EntryBlock(m)) && InPlace(SyncOne(text, m), m)
  {
    var blocks, b := BlocksOf(text), EntryBlock(m);
    EntryIsCut(m);
    BlocksAreOpenCut(text);
    KeyedIsHeaded(b);
    var at := UiIndex(blocks);
    if FirstWith(blocks, Key(m)).Some? {
      ReplacedIsOpenCut(blocks, b);
    } else {
      OpenCutAt(blocks, at.value);
      InsertedIsOpenCut(blocks, b, at.value);
    }
    assert OpenCut(Placed(blocks, b));
    RecutOpen(Placed(blocks, b));
    PlacedKeys(blocks, b, "");
    hide BlocksOf, FirstWith, UiIndex, Placed, Text, MakeConfigBlock, Strip, WellNamed, Key, EndingInNewline,
         WellCut, Headed, OpenCut;
  }

  // --------------------------------------------------------- an entry at the end --

  ghost predicate HasKeyLine(lines: seq<string>, key: string) {
    exists k :: 0 <= k < |lines| && KeyOfHeader(lines[k]) == Some(key)
  }

  lemma HasKeyAppend(a: seq<string>, b: seq<string>, key: string)
    ensures HasKeyLine(a + b, key) <==> HasKeyLine(a, key) || HasKeyLine(b, key)
  {
    hide KeyOfHeader;
    if HasKeyLine(a, key) {
      var k :| 0 <= k < |a| && KeyOfHeader(a[k]) == Some(key);
      assert (a + b)[k] == a[k];
    }
    if HasKeyLine(b, key) {
      var k :| 0 <= k < |b| && KeyOfHeader(b[k]) == Some(key);
      assert (a + b)[|a| + k] == b[k];
    }
  }

  lemma HasKeyOfOne(line: string, key: string)
    ensures HasKeyLine([line], key) <==> KeyOfHeader(line) == Some(key)
  {
    assert KeyOfHeader([line][0]) == KeyOfHeader(line);
    hide KeyOfHeader;
  }

  lemma KeyedIsHeader(line: string)
    ensures KeyOfHeader(line).Some? ==> IsHeader(line)
  {
    hide Strip, Unquoted;
  }

  lemma FirstWithRetext(blocks: seq<Block>, text: string, key: string)
    requires blocks != []
    ensures var n := |blocks| - 1;
            FirstWith(blocks[n := blocks[n].(text := text)], key).Some? == FirstWith(blocks, key).Some?
  {
    var n := |blocks| - 1;
    assert blocks[n := blocks[n].(text := text)][..n] == blocks[..n];
  }

  lemma KeysOfStep(before: seq<Block>, line: string, key: string)
    ensures var after :=
              if IsHeader(line) then before + [Block(KeyOfHeader(line), line)]
              else if before == [] then [Block(None, line)]
              else before[|before| - 1 := before[|before| - 1].(text := before[|before| - 1].text + line)];
            FirstWith(after, key).Some? <==> FirstWith(before, key).Some? || KeyOfHeader(line) == Some(key)
  {
    KeyedIsHeader(line);
    assert before == [] ==> FirstWith(before, key).None?;
    OneBlock(Block(None, line), key);
    hide IsHeader, KeyOfHeader, FirstWith;
    if IsHeader(line) {
      FirstWithSnoc(before, Block(KeyOfHeader(line), line), key);
    } else if before != [] {
      FirstWithRetext(before, before[|before| - 1].text + line, key);
    }
  }

  // The keys of the blocks are those of the header lines.
  lemma {:induction false} KeysOfLines(lines: seq<string>, key: string)
    ensures FirstWith(Grouped(lines), key).Some? <==> HasKeyLine(lines, key)
  {
    if lines == [] {
      assert Grouped(lines) == [];
    } else {
      hide *;
      var front, line := lines[..|lines| - 1], lines[|lines| - 1];
      FrontAndLast(lines);
      GroupedStep(lines, |lines| - 1);
      HasKeyAppend(front, [line], key);
      HasKeyOfOne(line, key);
      KeysOfLines(front, key);
      KeysOfStep(Grouped(front), line, key);
    }
  }

  lemma {:induction false} UiIsAKey(blocks: seq<Block>)
    ensures UiIndex(blocks).Some? <==> FirstWith(blocks, "ui").Some?
  {
    if blocks != [] {
      UiIsAKey(blocks[..|blocks| - 1]);
    }
  }

  // Neither the key nor `[model.ui]` is there.
  predicate Lacks(text: string, m: Model) {
    FirstWith(BlocksOf(text), Key(m)).None? && UiIndex(BlocksOf(text)).None?
  }

  lemma LacksByLines(text: string, m: Model)
    ensures Lacks(text, m) <==> !HasKeyLine(Lines(text), Key(m)) && !HasKeyLine(Lines(text), "ui")
  {
    KeysOfLines(Lines(text), Key(m));
    KeysOfLines(Lines(text), "ui");
    UiIsAKey(BlocksOf(text));
    hide Grouped, Lines, HasKeyLine, FirstWith, UiIndex, Key;
  }

  // The entry goes to the end of every such text, whatever `[ui]` blocks it has: a plain `[ui]`
  // header has no key.
  lemma AppendedWhenMissing(text: string, m: Model)
    requires Lacks(text, m)
    ensures SyncOne(text, m) == text + MakeConfigBlock(m)
  {
    var blocks, b := BlocksOf(text), EntryBlock(m);
    BlocksAreLossless(text);
    EntryEnds(m);
    TextOfSnoc(blocks + [b]);
    assert (blocks + [b])[..|blocks|] == blocks;
    assert EndingInNewline(MakeConfigBlock(m)) == MakeConfigBlock(m);
    hide BlocksOf, FirstWith, UiIndex, Text, MakeConfigBlock, Strip, Key, EndingInNewline;
  }

  lemma {:induction false} TrimLeftThrough(z: string, w: string)
    requires w != [] && !IsSpace(w[0])
    ensures TrimLeft(z + w) == TrimLeft(z) + w
    decreases |z|
  {
    if z == [] {
      assert z + w == w;
    } else {
      assert (z + w)[1..] == z[1..] + w;
      TrimLeftThrough(z[1..], w);
    }
  }

  lemma {:induction false} TrimLeftIsBlank(z: string)
    ensures TrimLeft(z) == [] <==> Blank(z)
    ensures TrimLeft(z) != [] ==> !IsSpace(TrimLeft(z)[0])
  {
    if z != [] {
      TrimLeftIsBlank(z[1..]);
      assert Blank(z) <==> IsSpace(z[0]) && Blank(z[1..]) by {
        assert forall k :: 1 <= k < |z| ==> z[k] == z[1..][k - 1];
      }
    }
  }

  // What is in front of a tight text is stripped on its left only.
  lemma StripThrough(z: string, w: string)
    requires w != [] && !IsSpace(w[0]) && !IsSpace(w[|w| - 1])
    ensures Strip(z + w) == TrimLeft(z) + w && Strip(z + w + "\n") == TrimLeft(z) + w
  {
    TrimLeftThrough(z, w);
    TrimLeftThrough(z, w + "\n");
    ConcatAssociates(z, w, "\n");
    var t := TrimLeft(z) + w;
    assert TrimRight(t) == t;
    assert TrimLeft(z) + (w + "\n") == t + "\n";
    assert (t + "\n")[..|t|] == t;
    assert TrimRight(t + "\n") == TrimRight(t);
    hide TrimLeft, TrimRight;
  }

  function HeaderText(key: string): string {
    "[model." + Quoted(key) + "]"
  }

  lemma HeaderTextParts(y: string, key: string)
    ensures var h, w := HeaderText(key), "[model.\"" + key;
            && h == w + "\"]" && h[0] == '[' && h[|h| - 1] == ']' && (y + h)[|y|] == '['
            && (|y| >= 7 ==> (y + h)[7..|y + h| - 1] == y[7..] + w + "\"")
  {
    var h, w := HeaderText(key), "[model.\"" + key;
    assert h == w + "\"]";
    if |y| >= 7 {
      assert (y + h)[7..] == y[7..] + h;
      assert (y[7..] + h)[..|y[7..] + h| - 1] == y[7..] + h[..|h| - 1];
      assert h[..|h| - 1] == w + "\"";
      ConcatAssociates(y[7..], w, "\"");
    }
  }

  lemma StrippedAtLeast(z: string, key: string)
    requires key != [] && !IsSpace(key[|key| - 1])
    ensures |Strip(z + ("[model.\"" + key))| >= 8 + |key|
  {
    StripThrough(z, "[model.\"" + key);
    hide Strip;
  }

  lemma LongInner(z: string, key: string)
    requires key != [] && !IsSpace(key[|key| - 1])
    ensures |Strip(Unquoted(z + ("[model.\"" + key) + "\""))| >= 8 + |key|
  {
    UnquotedTail(z, "[model.\"" + key);
    StrippedAtLeast(z, key);
    if z != [] {
      StrippedAtLeast(z[1..], key);
    }
    hide Strip, Unquoted;
  }

  lemma KeyOfStripped(line: string, t: string)
    requires Strip(line) == t
    ensures KeyOfHeader(line).Some? ==>
              "[model." <= t && |t| >= 9 && KeyOfHeader(line).value == Strip(Unquoted(t[7..|t| - 1]))
  {
    hide Strip, Unquoted;
  }

  // Behind other text, the header of an entry reads as a longer key, if as any.
  lemma MergedKeyIsLonger(line: string, y: string, key: string)
    requires Strip(line) == y + HeaderText(key) && y != [] && key != [] && !IsSpace(key[|key| - 1])
    ensures KeyOfHeader(line).Some? ==> |KeyOfHeader(line).value| >= 8 + |key|
  {
    hide Strip, Unquoted, HeaderText, KeyOfHeader;
    var t := y + HeaderText(key);
    HeaderTextParts(y, key);
    KeyOfStripped(line, t);
    NoInnerBracket(t, |y|);
    if |y| >= 7 {
      LongInner(y[7..], key);
    }
  }

  lemma NoInnerBracket(t: string, k: nat)
    requires 0 < k < |t| && t[k] == '['
    ensures "[model." <= t ==> k >= 7
  {
    assert "[model." <= t ==> t[1] == 'm' && t[2] == 'o' && t[3] == 'd' && t[4] == 'e' && t[5] == 'l' && t[6] == '.';
  }

  lemma UnquotedTail(z: string, w: string)
    requires |w| >= 2 && w[0] != '"'
    ensures Unquoted(z + w + "\"") == z + w
            || (z != [] && Unquoted(z + w + "\"") == z[1..] + w)
  {
    var s := z + w + "\"";
    if s[0] == '"' {
      assert z != [];
      assert s[1..] == z[1..] + w + "\"";
      assert (z[1..] + w + "\"")[..|z| - 1 + |w|] == z[1..] + w;
    } else {
      assert s[..|z| + |w|] == z + w;
    }
  }

  // The lines of a text with an entry behind it.
  function MergedLines(text: string, m: Model): seq<string> {
    [LastLine(text) + HeaderLine(Key(m))] + EntryLines(m)[1..]
  }

  lemma MergedAreLines(text: string, m: Model)
    requires WellNamed(m)
    ensures AllLines(MergedLines(text, m)) && NoHeaders(MergedLines(text, m))
  {
    var last, h := LastLine(text), HeaderText(Key(m));
    LastLineSplits(text);
    KeyIsTight(m);
    QuotedOneLined(Key(m));
    OneLinedConcat(last, h);
    LineOf(last + h);
    assert last + HeaderLine(Key(m)) == last + h + "\n";
    EntryBodyLines(m);
    hide EntryLines, IsHeader, IsLine, HeaderLine, HeaderText, Key, WellNamed, LastLine, OneLined;
  }

  lemma MergedText(text: string, m: Model)
    ensures Flatten(MergedLines(text, m)) == LastLine(text) + MakeConfigBlock(m)
  {
    var last, lines := LastLine(text), EntryLines(m);
    assert lines[0] == HeaderLine(Key(m)) && lines == [lines[0]] + lines[1..];
    ConcatAssociates(last, lines[0], Flatten(lines[1..]));
    hide EntryLines, HeaderLine, Key, LastLine;
  }

  lemma LinesWithEntry(text: string, m: Model)
    requires WellNamed(m)
    ensures Lines(text + MakeConfigBlock(m)) == Lines(BeforeLast(text)) + MergedLines(text, m)
  {
    hide *;
    var before, last := BeforeLast(text), LastLine(text);
    LastLineSplits(text);
    MergedAreLines(text, m);
    MergedText(text, m);
    LinesOfLines(MergedLines(text, m));
    LinesAppend(before, last + MakeConfigBlock(m));
    ConcatAssociates(before, last, MakeConfigBlock(m));
  }

  lemma LinesOfText(text: string)
    ensures Lines(text) == Lines(BeforeLast(text)) + if LastLine(text) == [] then [] else [LastLine(text)]
  {
    LastLineSplits(text);
    LinesAppend(BeforeLast(text), LastLine(text));
    OpenIsLineLike(LastLine(text));
    hide Lines, BeforeLast, LastLine;
  }

  lemma BodyHasNoKey(lines: seq<string>, key: string)
    requires lines != [] && NoHeaders(lines)
    ensures HasKeyLine(lines, key) <==> KeyOfHeader(lines[0]) == Some(key)
  {
    forall k | 1 <= k < |lines| ensures KeyOfHeader(lines[k]).None? {
      KeyedIsHeader(lines[k]);
    }
    hide KeyOfHeader, IsHeader;
  }

  // The last line is blank: the header keeps its key behind it, and the entry is found.
  lemma BlankEndSettles(text: string, m: Model)
    requires WellNamed(m) && Lacks(text, m) && Blank(LastLine(text))
    ensures BlocksOf(text + MakeConfigBlock(m))
            == BlocksOf(BeforeLast(text)) + [Block(Some(Key(m)), LastLine(text) + MakeConfigBlock(m))]
    ensures InPlace(text + MakeConfigBlock(m), m)
    ensures SyncOne(text + MakeConfigBlock(m), m) == text + MakeConfigBlock(m)
  {
    var last, merged := LastLine(text), MergedLines(text, m);
    var entry := MakeConfigBlock(m);
    LinesWithEntry(text, m);
    MergedAreLines(text, m);
    MergedText(text, m);
    BlankHeader(last, m);
    GroupedRun(merged);
    GroupedAppend(Lines(BeforeLast(text)), merged);
    LinesOfText(text);
    LacksByLines(text, m);
    HasKeyAppend(Lines(BeforeLast(text)), if last == [] then [] else [last], Key(m));
    KeysOfLines(Lines(BeforeLast(text)), Key(m));
    var b := Block(Some(Key(m)), last + entry);
    FirstWithSnoc(BlocksOf(BeforeLast(text)), b, Key(m));
    StripBlank(last, entry);
    assert merged[0] == last + HeaderLine(Key(m));
    hide LastLine, BeforeLast, MergedLines, MakeConfigBlock, Lines, Grouped, FirstWith, Strip, Key, HeaderLine, IsHeader,
         KeyOfHeader, Blank, WellNamed, HasKeyLine, Lacks, Flatten, NoHeaders, AllLines;
    assert BlocksOf(text + entry) == BlocksOf(BeforeLast(text)) + [b];
  }

  lemma {:induction false} StripBlank(blank: string, s: string)
    requires Blank(blank)
    ensures Strip(blank + s) == Strip(s)
    decreases |blank|
  {
    if blank == [] {
      assert blank + s == s;
    } else {
      assert IsSpace(blank[0]) && (blank + s)[1..] == blank[1..] + s;
      StripBlank(blank[1..], s);
      hide TrimRight;
    }
  }

  lemma BlankHeader(blank: string, m: Model)
    requires Blank(blank) && WellNamed(m)
    ensures IsHeader(blank + HeaderLine(Key(m))) && KeyOfHeader(blank + HeaderLine(Key(m))) == Some(Key(m))
  {
    HeaderRoundTrip(m);
    StripBlank(blank, HeaderLine(Key(m)));
    hide Strip, HeaderLine, Key, Blank;
  }

  // The last line is not blank: it swallows the header, and the entry is appended once more.
  lemma OpenEndGrows(text: string, m: Model)
    requires WellNamed(m) && Lacks(text, m) && !Blank(LastLine(text))
    ensures var once := text + MakeConfigBlock(m);
            SyncOne(once, m) == once + MakeConfigBlock(m) && Lacks(once, m)
  {
    var last, merged := LastLine(text), MergedLines(text, m);
    LinesWithEntry(text, m);
    MergedAreLines(text, m);
    LinesOfText(text);
    LacksByLines(text, m);
    LacksByLines(text + MakeConfigBlock(m), m);
    SwallowedKey(last, m);
    assert merged[0] == last + HeaderLine(Key(m));
    hide LastLine, BeforeLast, MergedLines, MakeConfigBlock, Lines, Key, HeaderLine, IsHeader, KeyOfHeader, Blank,
         WellNamed, HasKeyLine, Lacks, Flatten, NoHeaders, AllLines;
    KeyAbsent(Lines(BeforeLast(text)), last, merged, Key(m));
    KeyAbsent(Lines(BeforeLast(text)), last, merged, "ui");
    AppendedWhenMissing(text + MakeConfigBlock(m), m);
  }

  lemma KeyAbsent(before: seq<string>, last: string, merged: seq<string>, key: string)
    requires !HasKeyLine(before + (if last == [] then [] else [last]), key)
    requires merged != [] && NoHeaders(merged) && KeyOfHeader(merged[0]) != Some(key)
    ensures !HasKeyLine(before + merged, key)
  {
    HasKeyAppend(before, if last == [] then [] else [last], key);
    HasKeyAppend(before, merged, key);
    BodyHasNoKey(merged, key);
    hide HasKeyLine, KeyOfHeader, NoHeaders;
  }

  lemma SwallowedKey(last: string, m: Model)
    requires WellNamed(m) && !Blank(last)
    ensures KeyOfHeader(last + HeaderLine(Key(m))) != Some(Key(m))
    ensures KeyOfHeader(last + HeaderLine(Key(m))) != Some("ui")
  {
    var key := Key(m);
    KeyIsTight(m);
    assert key[|key| - 1] == '2';
    TrimLeftIsBlank(last);
    assert HeaderLine(key) == HeaderText(key) + "\n";
    ConcatAssociates(last, HeaderText(key), "\n");
    HeaderTextParts([], key);
    hide Key, Blank, WellNamed, HeaderLine, HeaderText, KeyOfHeader, Strip, TrimLeft;
    StripThrough(last, HeaderText(key));
    MergedKeyIsLonger(last + HeaderLine(key), TrimLeft(last), key);
  }

  // For every text: a second sync of a model changes nothing exactly when its key or `[model.ui]`
  // is there, or what follows the last line break is blank.
  lemma SecondSyncIsFinal(text: string, m: Model)
    requires WellNamed(m)
    ensures SyncOne(SyncOne(text, m), m) == SyncOne(text, m) <==> !Lacks(text, m) || Blank(LastLine(text))
    ensures Lacks(text, m) && !Blank(LastLine(text)) ==>
              SyncOne(SyncOne(text, m), m) == text + MakeConfigBlock(m) + MakeConfigBlock(m)
  {
    EntryEnds(m);
    if Lacks(text, m) {
      AppendedWhenMissing(text, m);
      if Blank(LastLine(text)) {
        BlankEndSettles(text, m);
      } else {
        OpenEndGrows(text, m);
      }
    } else if !BlockEqual(BlocksOf(text), Key(m), MakeConfigBlock(m)) {
      PlacedIsFinal(text, m);
    }
    hide BlocksOf, FirstWith, UiIndex, MakeConfigBlock, Key, WellNamed, Blank, LastLine, Strip, UpsertedText;
  }

  // ------------------------------------------------------------ a list of models --

  // The step that loses an entry: it is appended to a line that swallows its header.
  predicate Swallowed(text: string, m: Model) {
    Lacks(text, m) && !Blank(LastLine(text))
  }

  // Model by model, no entry is lost.
  predicate NoneSwallowed(text: string, models: seq<Model>) {
    models == []
    || var front, last := models[..|models| - 1], models[|models| - 1];
       NoneSwallowed(text, front) && !Swallowed(SyncAll(text, front), last)
  }

  lemma {:induction false} StripSpaceEnd(s: string, c: char)
    requires IsSpace(c)
    ensures Strip(s + [c]) == Strip(s)
  {
    if s == [] {
      assert s + [c] == [c] && [c][1..] == [];
    } else if IsSpace(s[0]) {
      assert (s + [c])[1..] == s[1..] + [c];
      StripSpaceEnd(s[1..], c);
      hide TrimRight, IsSpace;
    } else {
      assert (s + [c])[..|s|] == s;
    }
  }

  lemma {:induction false} StripBlankEnd(s: string, blank: string)
    requires Blank(blank)
    ensures Strip(s + blank) == Strip(s)
    decreases |blank|
  {
    if blank == [] {
      assert s + blank == s;
    } else {
      var front, c := blank[..|blank| - 1], blank[|blank| - 1];
      StripBlankEnd(s, front);
      StripSpaceEnd(s + front, c);
      assert s + blank == s + front + [c];
      hide Strip;
    }
  }

  lemma FirstWithSameText(blocks: seq<Block>, text: string, key: string)
    requires blocks != [] && Strip(text) == Strip(blocks[|blocks| - 1].text)
    ensures var n := |blocks| - 1;
            var was, now := FirstWith(blocks, key), FirstWith(blocks[n := blocks[n].(text := text)], key);
            was.Some? == now.Some? && (was.Some? ==> Strip(was.value.text) == Strip(now.value.text))
  {
    var n := |blocks| - 1;
    assert blocks[n := blocks[n].(text := text)][..n] == blocks[..n];
    hide Strip;
  }

  lemma BlankIsNoHeader(blank: string)
    requires Blank(blank)
    ensures !IsHeader(blank)
  {
    StripBlank(blank, []);
    assert blank + [] == blank;
    assert Strip([]) == [];
  }

  // A blank last line changes no block but for the space at its end.
  lemma BlankEndIsNothing(text: string, key: string)
    requires Blank(LastLine(text))
    ensures var was, now := FirstWith(BlocksOf(text), key), FirstWith(BlocksOf(BeforeLast(text)), key);
            was.Some? ==> now.Some? && Strip(was.value.text) == Strip(now.value.text)
  {
    var before, last := BeforeLast(text), LastLine(text);
    hide *;
    LastLineSplits(text);
    BlankIsNoHeader(last);
    if last == [] {
      assert before + last == before;
    } else {
      OpenBlocksStep(before, last);
      var so := BlocksOf(before);
      OneBlock(Block(None, last), key);
      if so != [] {
        var kept := so[|so| - 1].text;
        StripBlankEnd(kept, last);
        FirstWithSameText(so, kept + last, key);
      }
    }
  }

  // A model's step leaves the entries of others in place, unless it loses its own.
  lemma InPlaceStays(text: string, m: Model, other: Model)
    requires WellNamed(m) && !Swallowed(text, m)
    requires m.id != other.id && InPlace(text, other)
    ensures InPlace(SyncOne(text, m), other)
  {
    DifferentKeys(m, other);
    if !InPlace(text, m) {
      if Lacks(text, m) {
        AppendedWhenMissing(text, m);
        BlankEndSettles(text, m);
        BlankEndIsNothing(text, Key(other));
        FirstWithSnoc(BlocksOf(BeforeLast(text)), Block(Some(Key(m)), LastLine(text) + MakeConfigBlock(m)), Key(other));
      } else {
        PlacedIsFinal(text, m);
        PlacedKeys(BlocksOf(text), EntryBlock(m), Key(other));
      }
    }
    hide BlocksOf, FirstWith, UiIndex, Placed, MakeConfigBlock, Strip, WellNamed, Key, Blank, LastLine, BeforeLast,
         UpsertedText;
  }

  lemma InPlaceAfter(text: string, m: Model)
    requires WellNamed(m) && !Swallowed(text, m)
    ensures InPlace(SyncOne(text, m), m)
  {
    if !InPlace(text, m) {
      if Lacks(text, m) {
        AppendedWhenMissing(text, m);
        BlankEndSettles(text, m);
      } else {
        PlacedIsFinal(text, m);
      }
    }
    hide BlocksOf, FirstWith, UiIndex, Placed, MakeConfigBlock, Strip, WellNamed, Key, Blank, LastLine, BeforeLast,
         UpsertedText;
  }

  lemma AllInFront(models: seq<Model>)
    requires AllWellNamed(models) && DistinctIds(models) && models != []
    ensures var front, last := models[..|models| - 1], models[|models| - 1];
            && AllWellNamed(front) && DistinctIds(front) && WellNamed(last)
            && models == front + [last] && forall m :: m in front ==> m.id != last.id
  {
    hide WellNamed;
  }

  lemma {:induction false} AllInPlace(text: string, models: seq<Model>)
    requires AllWellNamed(models) && DistinctIds(models) && NoneSwallowed(text, models)
    ensures forall m :: m in models ==> InPlace(SyncAll(text, models), m)
  {
    if models != [] {
      var front, last := models[..|models| - 1], models[|models| - 1];
      var before := SyncAll(text, front);
      assert NoneSwallowed(text, front) && !Swallowed(before, last);
      assert SyncAll(text, models) == SyncOne(before, last);
      hide *;
      AllInFront(models);
      AllInPlace(text, front);
      InPlaceAfter(before, last);
      forall m | m in front ensures InPlace(SyncOne(before, last), m) {
        InPlaceStays(before, last, m);
      }
    }
  }

  lemma LostAtOnce(text: string, m: Model)
    requires WellNamed(m) && Swallowed(text, m)
    ensures Ended(SyncOne(text, m)) && FirstWith(BlocksOf(SyncOne(text, m)), Key(m)).None?
  {
    AppendedWhenMissing(text, m);
    OpenEndGrows(text, m);
    EntryEnds(m);
    hide BlocksOf, FirstWith, UiIndex, MakeConfigBlock, WellNamed, Key, Blank, LastLine, SyncOne;
  }

  // Once lost, an entry stays lost for the rest of the pass.
  lemma {:induction false} LostIsMissing(text: string, models: seq<Model>) returns (m: Model)
    requires AllWellNamed(models) && DistinctIds(models) && !NoneSwallowed(text, models)
    ensures m in models && Ended(SyncAll(text, models))
    ensures FirstWith(BlocksOf(SyncAll(text, models)), Key(m)).None?
  {
    var front, last := models[..|models| - 1], models[|models| - 1];
    var before := SyncAll(text, front);
    assert NoneSwallowed(text, front) ==> Swallowed(before, last);
    assert SyncAll(text, models) == SyncOne(before, last);
    hide *;
    AllInFront(models);
    if NoneSwallowed(text, front) {
      m := last;
      LostAtOnce(before, last);
    } else {
      m := LostIsMissing(text, front);
      DifferentKeys(m, last);
      SyncOneSettles(before, last, Key(m));
      SettledIsEnded(SyncOne(before, last), last);
    }
  }

  // For every text, ended or not, and every list of models: the second sync changes nothing exactly
  // when the first lost no entry.
  lemma SecondPassIsFinal(text: string, models: seq<Model>)
    requires AllWellNamed(models) && DistinctIds(models)
    ensures var once := Synced(text, models, false);
            Synced(once, models, false) == once <==> NoneSwallowed(text, models)
  {
    hide *;
    var once := SyncAll(text, models);
    AddingOnly(text, models);
    AddingOnly(once, models);
    if NoneSwallowed(text, models) {
      AllInPlace(text, models);
      NothingToSync(once, models);
    } else {
      var m := LostIsMissing(text, models);
      AllSettled(once, models);
      NotInPlace(once, m);
      SettledIsEnded(SyncAll(once, models), m);
    }
  }

  lemma AddingOnly(text: string, models: seq<Model>)
    ensures Synced(text, models, false) == SyncAll(text, models)
  {
    hide SyncAll, BlocksOf;
  }

  lemma NotInPlace(text: string, m: Model)
    requires FirstWith(BlocksOf(text), Key(m)).None?
    ensures !InPlace(text, m)
  {
    hide BlocksOf, FirstWith, Key, MakeConfigBlock;
  }

  // ------------------------------------------------------------ where it fails --

  lemma OneModel(text: string, m: Model)
    ensures Synced(text, [m], false) == SyncOne(text, m)
  {
    var none: seq<Model> := [];
    assert [m][..0] == none;
    assert SyncAll(text, none) == text;
    hide SyncOne, BlocksOf, StaleKeys, RemoveAll;
    assert SyncAll(text, [m]) == SyncOne(SyncAll(text, [m][..0]), m);
  }

  // Every text without the entry whose last line is open and not blank: the line swallows the
  // header of the appended entry, and the next sync does not find it and appends it once more.
  lemma OpenTextGrows(text: string, m: Model)
    requires WellNamed(m) && Lacks(text, m) && !Blank(LastLine(text))
    ensures Synced(text, [m], false) == text + MakeConfigBlock(m)
    ensures Synced(text + MakeConfigBlock(m), [m], false) == text + MakeConfigBlock(m) + MakeConfigBlock(m)
  {
    hide *;
    AppendedWhenMissing(text, m);
    OpenEndGrows(text, m);
    OneModel(text, m);
    OneModel(text + MakeConfigBlock(m), m);
  }

  // There are such texts: one setting without its line break is one.
  lemma OpenSetting(m: Model)
    ensures Lacks("a=1", m) && !Blank(LastLine("a=1"))
  {
    var text := "a=1";
    assert OneLined(text) && !IsSpace(text[0]);
    LastLineOfOpen(text);
    OpenIsLineLike(text);
    TrimRightKeepsHead(text);
    assert Strip(text)[0] == 'a' && KeyOfHeader(text).None?;
    LacksByLines(text, m);
    HasKeyOfOne(text, Key(m));
    HasKeyOfOne(text, "ui");
    hide KeyOfHeader, HasKeyLine, Lacks, Lines, Key;
  }

  lemma {:induction false} LastLineOfOpen(text: string)
    requires OneLined(text)
    ensures LastLine(text) == text
  {
    if text != [] {
      LastLineOfOpen(text[..|text| - 1]);
      assert text == text[..|text| - 1] + [text[|text| - 1]];
    }
  }

  // A plain `[ui]` block anywhere in a text is not found: a new entry goes to the end of the text,
  // not before the block.
  lemma PlainUiIsNotFound(before: string, after: string, m: Model)
    requires Ended(before) && Lacks(before + after, m)
    ensures var text := before + ("[ui]" + "\n" + after);
            Synced(text, [m], false) == text + MakeConfigBlock(m)
  {
    var line := "[ui]" + "\n";
    var text := before + (line + after);
    StripOfTight("[ui]");
    assert IsLine(line) && KeyOfHeader(line).None?;
    hide KeyOfHeader, Lines, IsLine, Lacks, HasKeyLine, Ended, Key;
    LinesAppend(before, line + after);
    LinesCons(line, after);
    LinesAppend(before, after);
    LacksByLines(before + after, m);
    LacksByLines(text, m);
    LineWithoutKey(Lines(before), line, Lines(after), Key(m));
    LineWithoutKey(Lines(before), line, Lines(after), "ui");
    AppendedWhenMissing(text, m);
    OneModel(text, m);
  }

  lemma LineWithoutKey(before: seq<string>, line: string, after: seq<string>, key: string)
    requires KeyOfHeader(line).None?
    ensures HasKeyLine(before + ([line] + after), key) <==> HasKeyLine(before + after, key)
  {
    hide KeyOfHeader;
    HasKeyAppend(before, [line] + after, key);
    HasKeyAppend([line], after, key);
    HasKeyAppend(before, after, key);
    HasKeyOfOne(line, key);
    hide HasKeyLine;
  }
}

/**
 Cancel-safe line stream: a producer task cuts a byte source into capped lines and queues
 them; a poll-based reader serves them in pieces of any size.
 */
module LineStream {
  import opened Prelude

  const MAX_LINE_SIZE: nat := 64 * 1024 * 1024

  // `mpsc::channel(64)` with a single sender: 64 shared slots plus the sender's own.
  const CHANNEL_SLOTS: nat := 65

  // ---------------------------------------------------------------- lines --

  // Length of the first line of `s`, its terminator included.
  function FirstLine(s: seq<Byte>): (n: nat)
    ensures n <= |s|
    ensures s != [] ==> n > 0
    ensures forall i :: 0 <= i < n - 1 ==> s[i] != NEWLINE
    ensures n < |s| ==> n > 0 && s[n - 1] == NEWLINE
  {
    if s == [] then 0 else if s[0] == NEWLINE then 1 else 1 + FirstLine(s[1..])
  }

  lemma FirstLineUnique(s: seq<Byte>, n: nat)
    requires 0 < n <= |s|
    requires forall i :: 0 <= i < n - 1 ==> s[i] != NEWLINE
    requires n == |s| || s[n - 1] == NEWLINE
    ensures FirstLine(s) == n
  {
  }

  predicate Terminated(line: seq<Byte>) {
    line != [] && line[|line| - 1] == NEWLINE
  }

  predicate NoNewline(s: seq<Byte>) {
    forall i :: 0 <= i < |s| ==> s[i] != NEWLINE
  }

  function Lines(s: seq<Byte>): (lines: seq<seq<Byte>>)
  {
    if s == [] then [] else [s[..FirstLine(s)]] + Lines(s[FirstLine(s)..])
  }

  // What "split at newlines, terminators kept" means, without saying how to do it.
  ghost predicate IsLineSplit(lines: seq<seq<Byte>>, s: seq<Byte>) {
    && Flatten(lines) == s
    && (forall i :: 0 <= i < |lines| ==> lines[i] != [] && NoNewline(lines[i][..|lines[i]| - 1]))
    && (forall i :: 0 <= i < |lines| - 1 ==> Terminated(lines[i]))
  }

  lemma {:induction false} LinesIsASplit(s: seq<Byte>)
    ensures IsLineSplit(Lines(s), s)
  {
    if s != [] {
      var n := FirstLine(s);
      var tail := Lines(s[n..]);
      LinesIsASplit(s[n..]);
      var lines := Lines(s);
      assert lines[1..] == tail;
      assert Flatten(lines) == s[..n] + s[n..] == s;
      forall i | 0 <= i < |lines|
        ensures lines[i] != [] && NoNewline(lines[i][..|lines[i]| - 1])
        ensures i < |lines| - 1 ==> Terminated(lines[i])
      {
        if i > 0 {
          assert lines[i] == tail[i - 1];
        }
      }
    }
  }

  lemma {:induction false} LinesIsTheOnlySplit(lines: seq<seq<Byte>>, s: seq<Byte>)
    ensures IsLineSplit(lines, s) <==> lines == Lines(s)
    decreases |s|
  {
    LinesIsASplit(s);
    if IsLineSplit(lines, s) {
      if s == [] {
      } else {
        HeadOfSplit(lines, s);
        TailOfSplit(lines, s);
        LinesIsTheOnlySplit(lines[1..], s[FirstLine(s)..]);
        assert lines == [lines[0]] + lines[1..];
      }
    }
  }

  lemma HeadOfSplit(lines: seq<seq<Byte>>, s: seq<Byte>)
    requires IsLineSplit(lines, s) && s != []
    ensures lines != [] && lines[0] == s[..FirstLine(s)]
  {
    var h := lines[0];
    assert s == h + Flatten(lines[1..]);
    assert s[..|h|] == h;
    forall i | 0 <= i < |h| - 1 ensures s[i] != NEWLINE {
      assert h[..|h| - 1][i] == s[i];
    }
    if |lines| > 1 {
      assert s[|h| - 1] == h[|h| - 1];
    } else {
      assert Flatten(lines[1..]) == [];
    }
    FirstLineUnique(s, |h|);
  }

  lemma TailOfSplit(lines: seq<seq<Byte>>, s: seq<Byte>)
    requires IsLineSplit(lines, s) && s != []
    ensures lines != [] && IsLineSplit(lines[1..], s[FirstLine(s)..])
  {
    HeadOfSplit(lines, s);
    var t := lines[1..];
    assert s == lines[0] + Flatten(t);
    assert forall i :: 0 <= i < |t| ==> t[i] == lines[i + 1];
  }

  ghost predicate Boundary(served: seq<Byte>, s: seq<Byte>) {
    served <= s && (served == [] || Terminated(served) || served == s)
  }

  lemma BoundaryAfterLine(line: seq<Byte>, served: seq<Byte>, rest: seq<Byte>)
    requires Boundary(served, rest)
    requires line == [] || Terminated(line) || rest == []
    ensures Boundary(line + served, line + rest)
  {
    if served == [] {
      assert line + served == line;
    }
  }

  lemma FlattenTake<T>(first: seq<T>, tail: seq<seq<T>>, k: nat)
    requires 0 < k <= |tail| + 1
    ensures Flatten(([first] + tail)[..k]) == first + Flatten(tail[..k - 1])
  {
    assert ([first] + tail)[..k] == [first] + tail[..k - 1];
    assert ([first] + tail[..k - 1])[1..] == tail[..k - 1];
  }

  // A cut after any number of whole lines is a line boundary.
  lemma {:induction false} WholeLinesEndAtBoundary(s: seq<Byte>, k: nat)
    requires k <= |Lines(s)|
    ensures Boundary(Flatten(Lines(s)[..k]), s)
  {
    if k == 0 {
      assert Lines(s)[..0] == [] && Flatten(Lines(s)[..0]) == [];
    } else {
      var line, rest := s[..FirstLine(s)], s[FirstLine(s)..];
      var tail := Lines(rest);
      assert Lines(s) == [line] + tail && s == line + rest;
      assert Terminated(line) || rest == [];
      hide Flatten, Lines, Boundary, FirstLine, Terminated;
      WholeLinesEndAtBoundary(rest, k - 1);
      FlattenTake(line, tail, k);
      BoundaryAfterLine(line, Flatten(tail[..k - 1]), rest);
    }
  }

  // ------------------------------------------------------ buffered source --

  datatype Fetch = Data(bytes: seq<Byte>) | Fault(code: int)

  function BytesBeforeFault(fetches: seq<Fetch>): seq<Byte> {
    if fetches == [] || fetches[0].Fault? then [] else fetches[0].bytes + BytesBeforeFault(fetches[1..])
  }

  function FirstFault(fetches: seq<Fetch>): Option<int> {
    if fetches == [] then None
    else if fetches[0].Fault? then Some(fetches[0].code)
    else FirstFault(fetches[1..])
  }

  function LargestFetch(fetches: seq<Fetch>): nat {
    if fetches == [] then 0
    else
      var rest := LargestFetch(fetches[1..]);
      if fetches[0].Data? && |fetches[0].bytes| > rest then |fetches[0].bytes| else rest
  }

  function Fetches(chunks: seq<seq<Byte>>): seq<Fetch> {
    if chunks == [] then [] else Fetches(chunks[..|chunks| - 1]) + [Data(chunks[|chunks| - 1])]
  }

  lemma {:induction false} DataThenRest(fetches: seq<Fetch>, rest: seq<Fetch>)
    requires forall i :: 0 <= i < |fetches| ==> fetches[i].Data?
    ensures BytesBeforeFault(fetches + rest) == BytesBeforeFault(fetches) + BytesBeforeFault(rest)
    ensures FirstFault(fetches + rest) == FirstFault(rest)
  {
    if fetches == [] {
      assert fetches + rest == rest;
    } else {
      DataThenRest(fetches[1..], rest);
      assert (fetches + rest)[1..] == fetches[1..] + rest;
      ConcatAssociates(fetches[0].bytes, BytesBeforeFault(fetches[1..]), BytesBeforeFault(rest));
    }
  }

  // A source holds the bytes of its chunks, one after the other, up to the first fault, if it has one.
  lemma {:induction false} SourceHolds(chunks: seq<seq<Byte>>, code: int, rest: seq<Fetch>)
    ensures BytesBeforeFault(Fetches(chunks)) == Flatten(chunks) && FirstFault(Fetches(chunks)) == None
    ensures BytesBeforeFault(Fetches(chunks) + ([Fault(code)] + rest)) == Flatten(chunks)
    ensures FirstFault(Fetches(chunks) + ([Fault(code)] + rest)) == Some(code)
  {
    FetchesAreData(chunks);
    DataThenRest(Fetches(chunks), [Fault(code)] + rest);
    if chunks != [] {
      var front, last := chunks[..|chunks| - 1], chunks[|chunks| - 1];
      SourceHolds(front, code, rest);
      FetchesAreData(front);
      DataThenRest(Fetches(front), [Data(last)]);
      FrontAndLast(chunks);
      FlattenSnoc(front, last);
      OneFetch(last);
      hide BytesBeforeFault, FirstFault, Flatten;
    }
  }

  lemma OneFetch(bytes: seq<Byte>)
    ensures BytesBeforeFault([Data(bytes)]) == bytes && FirstFault([Data(bytes)]) == None
  {
    assert [Data(bytes)][1..] == [];
    assert bytes + [] == bytes;
  }

  lemma {:induction false} FetchesAreData(chunks: seq<seq<Byte>>)
    ensures |Fetches(chunks)| == |chunks|
    ensures forall i :: 0 <= i < |chunks| ==> Fetches(chunks)[i] == Data(chunks[i])
  {
    if chunks != [] {
      FetchesAreData(chunks[..|chunks| - 1]);
    }
  }

  // A buffered reader over a source that will answer its reads with `upstream`, in order.
  class BufReader {
    var buffer: seq<Byte>
    var upstream: seq<Fetch>

    constructor (source: seq<Fetch>)
      ensures buffer == [] && upstream == source
    {
      buffer, upstream := [], source;
    }

    // A read that returns no bytes is the end of the source, so no fetch is empty.
    ghost predicate Valid()
      reads this
    {
      forall i :: 0 <= i < |upstream| && upstream[i].Data? ==> upstream[i].bytes != []
    }

    function Content(): seq<Byte>
      reads this
    {
      buffer + BytesBeforeFault(upstream)
    }

    function Ending(): Option<int>
      reads this
    {
      FirstFault(upstream)
    }

    function LargestChunk(): (m: nat)
      reads this
      ensures |buffer| <= m
    {
      if |buffer| >= LargestFetch(upstream) then |buffer| else LargestFetch(upstream)
    }

    method FillBuf() returns (r: Result<seq<Byte>, int>)
      requires Valid()
      modifies this
      ensures Valid()
      ensures LargestChunk() <= old(LargestChunk())
      ensures r.Ok? ==> Content() == old(Content()) && Ending() == old(Ending()) && r.value == buffer <= Content()
      ensures r.Ok? && r.value == [] ==> Content() == [] && Ending() == None
      ensures r.Err? ==> old(Content()) == [] && old(Ending()) == Some(r.error)
      ensures old(buffer) != [] || old(upstream) == [] ==> r == Ok(old(buffer)) && upstream == old(upstream)
      ensures old(buffer) == [] && old(upstream) != [] ==>
                && upstream == old(upstream)[1..]
                && r == match old(upstream)[0]
                        case Data(bytes) => Ok(bytes)
                        case Fault(code) => Err(code)
    {
      if buffer == [] && upstream != [] {
        var fetch := upstream[0];
        upstream := upstream[1..];
        match fetch
        case Data(bytes) => buffer := bytes;
        case Fault(code) => return Err(code);
      }
      r := Ok(buffer);
    }

    method Consume(n: nat)
      requires Valid() && n <= |buffer|
      modifies this
      ensures Valid() && upstream == old(upstream) && buffer == old(buffer)[n..]
      ensures Content() == old(Content())[n..]
      ensures LargestChunk() <= old(LargestChunk())
    {
      buffer := buffer[n..];
    }
  }

  datatype LineError = TooLong(read: nat) | SourceFault(code: int)

  // The first newline of a chunk ends its first line; without one the whole chunk belongs to it.
  lemma FirstLineEndsAt(available: seq<Byte>, at: Option<nat>)
    requires at.None? ==> NEWLINE !in available
    requires at.Some? ==> at.value < |available| && available[at.value] == NEWLINE && NEWLINE !in available[..at.value]
    ensures at.None? ==> NoNewline(available) && FirstLine(available) == |available|
    ensures at.Some? ==> FirstLine(available) == at.value + 1
  {
    if at.Some? {
      forall k | 0 <= k < at.value ensures available[k] != NEWLINE {
        assert available[..at.value][k] == available[k];
      }
      FirstLineUnique(available, at.value + 1);
    } else if available != [] {
      FirstLineUnique(available, |available|);
    }
  }

  // What reading a line from `content` (after which the source stops with `ending`) comes to.
  // The cases exclude each other, so each of them happens exactly when its condition holds.
  ghost predicate ReadsLine(r: Result<nat, LineError>, line: seq<Byte>, content: seq<Byte>, ending: Option<int>) {
    var n := FirstLine(content);
    && line <= content
    && match r
       case Ok(count) => count == n == |line| <= MAX_LINE_SIZE && (Terminated(line) || ending.None?)
       case Err(TooLong(read)) => n >= |line| > MAX_LINE_SIZE && read == |line|
       case Err(SourceFault(code)) =>
         n <= MAX_LINE_SIZE && !Terminated(content[..n]) && line == content && ending == Some(code)
  }

  // Reads one line, whatever chunks the source delivers it in.
  method ReadLineCapped(reader: BufReader) returns (r: Result<nat, LineError>, line: seq<Byte>)
    requires reader.Valid()
    modifies reader
    ensures reader.Valid()
    ensures ReadsLine(r, line, old(reader.Content()), old(reader.Ending()))
    ensures r.Ok? ==> reader.Content() == old(reader.Content())[|line|..] && reader.Ending() == old(reader.Ending())
    ensures |line| <= MAX_LINE_SIZE + old(reader.LargestChunk())
  {
    line := [];
    ghost var content, ending, most := reader.Content(), reader.Ending(), reader.LargestChunk();
    assert NoNewline(line) && line + content == content;
    hide BufReader.Content, BufReader.Ending, BufReader.LargestChunk, FirstLine, ReadsLine, Terminated, NoNewline;
    while true
      invariant reader.Valid()
      invariant line + reader.Content() == content
      invariant reader.Ending() == ending
      invariant NoNewline(line) && |line| <= MAX_LINE_SIZE
      invariant reader.LargestChunk() <= most
      decreases |reader.Content()|
    {
      ghost var before, left := line, reader.Content();
      var filled := reader.FillBuf();
      if filled.Err? {
        assert line + [] == line;
        UnterminatedLine(line, ending);
        return Err(SourceFault(filled.error)), line;
      }
      var available := filled.value;
      if available == [] {
        assert line + [] == line;
        UnterminatedLine(line, ending);
        return Ok(|line|), line;
      }
      var consumed, done := |available|, false;
      var at := FindNewline(available);
      FirstLineEndsAt(available, at);
      if at.Some? {
        consumed, done := at.value + 1, true;
      }
      line := line + available[..consumed];
      ChunkTaken(before, available, left, consumed, ending);
      reader.Consume(consumed);
      if |line| > MAX_LINE_SIZE {
        return Err(TooLong(|line|)), line;
      }
      if done {
        return Ok(|line|), line;
      }
    }
  }

  // Moving the first `consumed` bytes of `left` to the line in progress.
  lemma ChunkTaken(before: seq<Byte>, available: seq<Byte>, left: seq<Byte>, consumed: nat, ending: Option<int>)
    requires NoNewline(before) && available != [] && available <= left && consumed == FirstLine(available)
    ensures var line, content := before + available[..consumed], before + left;
            && line + left[consumed..] == content && content[|line|..] == left[consumed..]
            && |line| <= |before| + |available|
            && (|line| > MAX_LINE_SIZE ==> ReadsLine(Err(TooLong(|line|)), line, content, ending))
            && (|line| <= MAX_LINE_SIZE && available[consumed - 1] == NEWLINE ==>
                  ReadsLine(Ok(|line|), line, content, ending))
            && (available[consumed - 1] != NEWLINE ==> NoNewline(line))
  {
    LineSoFar(before + left, before, available, consumed);
    assert left == available[..consumed] + left[consumed..];
    ConcatAssociates(before, available[..consumed], left[consumed..]);
  }

  // The source ended inside a line: the line is all that is left.
  lemma UnterminatedLine(line: seq<Byte>, ending: Option<int>)
    requires NoNewline(line) && |line| <= MAX_LINE_SIZE
    ensures ending.None? ==> ReadsLine(Ok(|line|), line, line, ending)
    ensures ending.Some? ==> ReadsLine(Err(SourceFault(ending.value)), line, line, ending)
  {
    if line != [] {
      FirstLineUnique(line, |line|);
    }
  }

  // Adding a chunk up to its first newline keeps the accumulator a part of the first line.
  lemma LineSoFar(content: seq<Byte>, before: seq<Byte>, available: seq<Byte>, consumed: nat)
    requires NoNewline(before) && available != []
    requires before + available <= content
    requires consumed == FirstLine(available)
    ensures var line := before + available[..consumed];
            && line <= content && FirstLine(content) >= |line|
            && (Terminated(line) ==> FirstLine(content) == |line|)
            && (!Terminated(line) ==> NoNewline(line))
            && (Terminated(line) <==> available[consumed - 1] == NEWLINE)
  {
    var line := before + available[..consumed];
    assert line == (before + available)[..|line|] == content[..|line|];
    var n := FirstLine(content);
    forall i | 0 <= i < |line| - 1 ensures content[i] != NEWLINE {
      assert content[i] == line[i];
    }
    if Terminated(line) {
      assert content[|line| - 1] == line[|line| - 1];
      FirstLineUnique(content, |line|);
    }
  }
}

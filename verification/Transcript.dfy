/**
 Transcript replay: a windowed read of the tail of a JSONL file and paging towards its head,
 against the plain split of the whole file. A file is a byte sequence that does not change
 between reads; decoding and parsing one line is the arbitrary function `decode`.
 */
module Transcript {
  import opened Prelude

  const TAIL_WINDOW_BYTES: nat := 2 * 1024 * 1024
  const READ_BUFFER: nat := 65536

  type Json = string

  datatype Parsed = Blank | Bad | Message(value: Json)

  // A message with its global line number.
  datatype Entry = Entry(line: nat, value: Json)

  datatype Page = Page(messages: seq<Json>, total: nat, truncated: bool, missing: bool, loadedUpto: nat, size: nat)

  // ---------------------------------------------------- the simple reading --

  // `split('\n')`: the pieces between newlines, always at least one.
  function Split(s: seq<Byte>): (lines: seq<seq<Byte>>)
    ensures lines != []
  {
    if s == [] then [[]] else PutFirst(s[0], Split(s[1..]))
  }

  function PutFirst(b: Byte, lines: seq<seq<Byte>>): (r: seq<seq<Byte>>)
    requires lines != []
    ensures r != []
  {
    if b == NEWLINE then [[]] + lines else [[b] + lines[0]] + lines[1..]
  }

  function CountNewlines(s: seq<Byte>): nat {
    if s == [] then 0 else (if s[0] == NEWLINE then 1 else 0) + CountNewlines(s[1..])
  }

  function Parse(decode: seq<Byte> -> Parsed, lines: seq<seq<Byte>>, base: nat): seq<Entry> {
    if lines == [] then [] else EntryOf(decode(lines[0]), base) + Parse(decode, lines[1..], base + 1)
  }

  function EntryOf(line: Parsed, at: nat): seq<Entry> {
    if line.Message? then [Entry(at, line.value)] else []
  }

  function CountBad(decode: seq<Byte> -> Parsed, lines: seq<seq<Byte>>): nat {
    if lines == [] then 0 else (if decode(lines[0]).Bad? then 1 else 0) + CountBad(decode, lines[1..])
  }

  function BadLines(decode: seq<Byte> -> Parsed, lines: seq<seq<Byte>>): set<nat> {
    set i: nat | i < |lines| && decode(lines[i]).Bad?
  }

  // The count is that of the lines that could not be read.
  lemma {:induction false} CountBadIs(decode: seq<Byte> -> Parsed, lines: seq<seq<Byte>>)
    ensures CountBad(decode, lines) == |BadLines(decode, lines)|
    decreases |lines|
  {
    if lines != [] {
      CountBadSnoc(decode, lines[..|lines| - 1], lines[|lines| - 1]);
      CountBadIs(decode, lines[..|lines| - 1]);
      FrontAndLast(lines);
      var n := |lines| - 1;
      assert BadLines(decode, lines)
             == BadLines(decode, lines[..n]) + if decode(lines[n]).Bad? then {n} else {};
      hide CountBad;
    }
  }

  lemma {:induction false} CountBadSnoc(decode: seq<Byte> -> Parsed, lines: seq<seq<Byte>>, last: seq<Byte>)
    ensures CountBad(decode, lines + [last]) == CountBad(decode, lines) + if decode(last).Bad? then 1 else 0
  {
    if lines == [] {
      assert lines + [last] == [last];
    } else {
      CountBadSnoc(decode, lines[1..], last);
      assert (lines + [last])[1..] == lines[1..] + [last];
    }
  }

  // Every message of the file, in order, with its line number.
  function All(decode: seq<Byte> -> Parsed, file: seq<Byte>): seq<Entry> {
    Parse(decode, Split(file), 0)
  }

  // Byte offset at which line `i` starts.
  function LineStart(lines: seq<seq<Byte>>, i: nat): nat
    requires i < |lines|
  {
    if i == 0 then 0 else LineStart(lines, i - 1) + |lines[i - 1]| + 1
  }

  // The entries whose line starts at or after byte `cut`.
  function StartingAt(entries: seq<Entry>, lines: seq<seq<Byte>>, cut: nat): seq<Entry> {
    if entries == [] then []
    else (if StartsAt(lines, entries[0], cut) then [entries[0]] else []) + StartingAt(entries[1..], lines, cut)
  }

  predicate StartsAt(lines: seq<seq<Byte>>, e: Entry, cut: nat) {
    e.line < |lines| && LineStart(lines, e.line) >= cut
  }

  function Before(entries: seq<Entry>, line: nat): seq<Entry> {
    if entries == [] then []
    else (if entries[0].line < line then [entries[0]] else []) + Before(entries[1..], line)
  }

  function Values(entries: seq<Entry>): seq<Json> {
    if entries == [] then [] else [entries[0].value] + Values(entries[1..])
  }

  function PageOf(entries: seq<Entry>, total: nat, truncated: bool, size: nat): Page {
    Page(Values(entries), total, truncated, false, if entries == [] then 0 else entries[0].line, size)
  }

  // What a tail read should return: the last `limit` messages among the lines in the window.
  function TailEntries(decode: seq<Byte> -> Parsed, file: seq<Byte>, window: nat, limit: nat): seq<Entry> {
    var all := All(decode, file);
    Last(if |file| > window then StartingAt(all, Split(file), |file| - window) else all, limit)
  }

  function EarlierEntries(decode: seq<Byte> -> Parsed, file: seq<Byte>, before: nat, limit: nat): seq<Entry> {
    Last(Before(All(decode, file), before), limit)
  }

  // --------------------------------------------------- facts about splitting --

  lemma PutFirstAppend(b: Byte, lines: seq<seq<Byte>>, more: seq<seq<Byte>>)
    requires lines != []
    ensures PutFirst(b, lines + more) == PutFirst(b, lines) + more
  {
  }

  lemma {:induction false} SplitAtNewline(x: seq<Byte>, y: seq<Byte>)
    ensures Split(x + [NEWLINE] + y) == Split(x) + Split(y)
  {
    var s := x + [NEWLINE] + y;
    if x == [] {
      assert s[1..] == y;
    } else {
      SplitAtNewline(x[1..], y);
      assert s[1..] == x[1..] + [NEWLINE] + y;
      PutFirstAppend(x[0], Split(x[1..]), Split(y));
    }
  }

  lemma {:induction false} SplitCounts(s: seq<Byte>)
    ensures |Split(s)| == CountNewlines(s) + 1
  {
    if s != [] {
      SplitCounts(s[1..]);
    }
  }

  lemma {:induction false} CountAppend(a: seq<Byte>, b: seq<Byte>)
    ensures CountNewlines(a + b) == CountNewlines(a) + CountNewlines(b)
  {
    if a == [] {
      assert a + b == b;
    } else {
      CountAppend(a[1..], b);
      assert (a + b)[1..] == a[1..] + b;
    }
  }

  lemma {:induction false} NoneToCount(s: seq<Byte>)
    requires NEWLINE !in s
    ensures CountNewlines(s) == 0
  {
    if s != [] {
      NoneToCount(s[1..]);
    }
  }

  lemma {:induction false} ParseAppend(decode: seq<Byte> -> Parsed, a: seq<seq<Byte>>, b: seq<seq<Byte>>, base: nat)
    ensures Parse(decode, a + b, base) == Parse(decode, a, base) + Parse(decode, b, base + |a|)
  {
    if a == [] {
      assert a + b == b;
    } else {
      assert (a + b)[1..] == a[1..] + b && (a + b)[0] == a[0];
      assert Parse(decode, a + b, base) == EntryOf(decode(a[0]), base) + Parse(decode, a[1..] + b, base + 1);
      assert Parse(decode, a, base) == EntryOf(decode(a[0]), base) + Parse(decode, a[1..], base + 1);
      hide Parse, EntryOf;
      ParseAppend(decode, a[1..], b, base + 1);
      ConcatAssociates(EntryOf(decode(a[0]), base), Parse(decode, a[1..], base + 1), Parse(decode, b, base + |a|));
    }
  }

  // Line numbers increase from `lo` on and stay below `hi`.
  predicate Increasing(entries: seq<Entry>, lo: nat, hi: nat) {
    entries == [] || (lo <= entries[0].line < hi && Increasing(entries[1..], entries[0].line + 1, hi))
  }

  lemma IncreasingFromEarlier(entries: seq<Entry>, lo: nat, lo': nat, hi: nat)
    requires lo' <= lo && Increasing(entries, lo, hi)
    ensures Increasing(entries, lo', hi)
  {
  }

  lemma {:induction false} IncreasingBounds(entries: seq<Entry>, lo: nat, hi: nat)
    requires Increasing(entries, lo, hi)
    ensures forall e :: e in entries ==> lo <= e.line < hi
  {
    if entries != [] {
      IncreasingBounds(entries[1..], entries[0].line + 1, hi);
    }
  }

  lemma {:induction false} ParseIncreasing(decode: seq<Byte> -> Parsed, lines: seq<seq<Byte>>, base: nat)
    ensures Increasing(Parse(decode, lines, base), base, base + |lines|)
  {
    if lines != [] {
      var rest := Parse(decode, lines[1..], base + 1);
      ParseIncreasing(decode, lines[1..], base + 1);
      hide Parse;
      PutEntryFirst(decode(lines[0]), rest, base, base + |lines|);
    }
  }

  lemma PutEntryFirst(line: Parsed, rest: seq<Entry>, at: nat, hi: nat)
    requires at < hi && Increasing(rest, at + 1, hi)
    ensures Increasing(EntryOf(line, at) + rest, at, hi)
  {
    if line.Message? {
      assert (EntryOf(line, at) + rest)[1..] == rest;
    } else {
      IncreasingFromEarlier(rest, at + 1, at, hi);
      assert EntryOf(line, at) + rest == rest;
    }
  }

  lemma {:induction false} LineStartTail(lines: seq<seq<Byte>>, i: nat)
    requires 0 < i < |lines|
    ensures LineStart(lines, i) == |lines[0]| + 1 + LineStart(lines[1..], i - 1)
  {
    if i > 1 {
      LineStartTail(lines, i - 1);
    }
  }

  lemma {:induction false} LineStartTakes(lines: seq<seq<Byte>>, more: seq<seq<Byte>>, i: nat)
    requires i < |lines| <= |more| && forall k :: 0 <= k < i ==> |more[k]| == |lines[k]|
    ensures LineStart(more, i) == LineStart(lines, i)
  {
    if i > 0 {
      LineStartTakes(lines, more, i - 1);
    }
  }

  lemma {:induction false} StartsIncrease(lines: seq<seq<Byte>>, i: nat, j: nat)
    requires i < j < |lines|
    ensures LineStart(lines, i) + |lines[i]| < LineStart(lines, j)
  {
    if i < j - 1 {
      StartsIncrease(lines, i, j - 1);
    }
  }

  // Putting a byte in front moves every line start, but the first, by one.
  lemma PutFirstStarts(b: Byte, lines: seq<seq<Byte>>, i: nat)
    requires lines != [] && 0 < i < |PutFirst(b, lines)|
    ensures var before := if b == NEWLINE then i - 1 else i;
            LineStart(PutFirst(b, lines), i) == LineStart(lines, before) + 1
  {
    var put := PutFirst(b, lines);
    LineStartTail(put, i);
    if b == NEWLINE {
      assert put[1..] == lines;
    } else {
      LineStartTail(lines, i);
      assert put[1..] == lines[1..];
    }
  }

  // A line starts the file or right after a newline.
  lemma {:induction false} LineStartsFollowNewlines(s: seq<Byte>, i: nat)
    requires i < |Split(s)|
    ensures LineStart(Split(s), i) <= |s|
    ensures i > 0 ==> LineStart(Split(s), i) > 0 && s[LineStart(Split(s), i) - 1] == NEWLINE
  {
    if i > 0 {
      PutFirstStarts(s[0], Split(s[1..]), i);
      LineStartsFollowNewlines(s[1..], if s[0] == NEWLINE then i - 1 else i);
    }
  }

  // Where the last line ends.
  function LastEnd(lines: seq<seq<Byte>>): nat
    requires lines != []
  {
    LineStart(lines, |lines| - 1) + |lines[|lines| - 1]|
  }

  // The last line ends where the text ends.
  lemma {:induction false} LastLineEnd(s: seq<Byte>)
    ensures LastEnd(Split(s)) == |s|
  {
    if s != [] {
      LastLineEnd(s[1..]);
      var rest, lines := Split(s[1..]), Split(s);
      if |lines| > 1 {
        PutFirstStarts(s[0], rest, |lines| - 1);
      }
    }
  }

  lemma {:induction false} StartingAtAppend(a: seq<Entry>, b: seq<Entry>, lines: seq<seq<Byte>>, cut: nat)
    ensures StartingAt(a + b, lines, cut) == StartingAt(a, lines, cut) + StartingAt(b, lines, cut)
  {
    if a == [] {
      assert a + b == b;
    } else {
      StartingAtAppend(a[1..], b, lines, cut);
      assert (a + b)[1..] == a[1..] + b;
      hide StartsAt;
      var head := if StartsAt(lines, a[0], cut) then [a[0]] else [];
      ConcatAssociates(head, StartingAt(a[1..], lines, cut), StartingAt(b, lines, cut));
    }
  }

  lemma {:induction false} StartingAtNone(entries: seq<Entry>, lines: seq<seq<Byte>>, cut: nat)
    requires forall e :: e in entries ==> !StartsAt(lines, e, cut)
    ensures StartingAt(entries, lines, cut) == []
  {
    hide StartsAt;
    if entries != [] {
      StartingAtNone(entries[1..], lines, cut);
    }
  }

  lemma {:induction false} StartingAtAll(entries: seq<Entry>, lines: seq<seq<Byte>>, cut: nat)
    requires forall e :: e in entries ==> StartsAt(lines, e, cut)
    ensures StartingAt(entries, lines, cut) == entries
  {
    hide StartsAt;
    if entries != [] {
      StartingAtAll(entries[1..], lines, cut);
    }
  }

  // The cut falls inside the lines of `x`, or right after them: the window keeps those of `y`.
  lemma WindowKeepsTail(decode: seq<Byte> -> Parsed, x: seq<Byte>, y: seq<Byte>, cut: nat)
    requires cut <= |x| + 1
    requires forall i :: 0 <= i < |Split(x)| ==> LineStart(Split(x), i) < cut
    ensures var file := x + [NEWLINE] + y;
            var kept := Parse(decode, Split(y), CountNewlines(x) + 1);
            && StartingAt(All(decode, file), Split(file), cut) == kept
            && All(decode, file) == All(decode, x) + kept
  {
    hide Split, Parse, StartingAt, LineStart, Increasing, CountNewlines;
    SplitAtNewline(x, y);
    SplitCounts(x);
    ParseAppend(decode, Split(x), Split(y), 0);
    LastLineEnd(x);
    ParseIncreasing(decode, Split(x), 0);
    ParseIncreasing(decode, Split(y), |Split(x)|);
    CutBetween(All(decode, x), Parse(decode, Split(y), |Split(x)|), Split(x), Split(y), cut);
  }

  lemma CutBetween(head: seq<Entry>, tail: seq<Entry>, a: seq<seq<Byte>>, b: seq<seq<Byte>>, cut: nat)
    requires a != [] && Increasing(head, 0, |a|) && Increasing(tail, |a|, |a| + |b|)
    requires cut <= LastEnd(a) + 1 && forall i :: 0 <= i < |a| ==> LineStart(a, i) < cut
    ensures StartingAt(head + tail, a + b, cut) == tail
  {
    StartingAtAppend(head, tail, a + b, cut);
    IncreasingBounds(head, 0, |a|);
    IncreasingBounds(tail, |a|, |a| + |b|);
    hide LineStart, Increasing, StartingAt;
    forall e | e in head ensures !StartsAt(a + b, e, cut) {
      LineStartTakes(a, a + b, e.line);
    }
    forall e | e in tail ensures StartsAt(a + b, e, cut) {
      LineStartTakes(a, a + b, |a| - 1);
      StartsIncrease(a + b, |a| - 1, e.line);
    }
    StartingAtNone(head, a + b, cut);
    StartingAtAll(tail, a + b, cut);
  }

  // No newline at or after the byte before the cut: every line starts before the cut.
  lemma NoLineStartsAfter(s: seq<Byte>, cut: nat)
    requires 0 < cut <= |s| && NEWLINE !in s[cut - 1..]
    ensures forall i :: 0 <= i < |Split(s)| ==> LineStart(Split(s), i) < cut
  {
    forall i | 0 <= i < |Split(s)| ensures LineStart(Split(s), i) < cut {
      LineStartsFollowNewlines(s, i);
      assert forall k :: cut - 1 <= k < |s| ==> s[k] == s[cut - 1..][k - (cut - 1)];
    }
  }

  // ------------------------------------------------------------ the window --

  // The byte before the window is a newline: the window starts on a line.
  lemma WindowAtLineStart(decode: seq<Byte> -> Parsed, file: seq<Byte>, cut: nat)
    requires 0 < cut <= |file| && file[cut - 1] == NEWLINE
    ensures StartingAt(All(decode, file), Split(file), cut)
            == Parse(decode, Split(file[cut..]), CountNewlines(file[..cut]))
  {
    hide Parse, Split, StartingAt, LineStart;
    var x, tail := file[..cut - 1], file[cut..];
    assert CountNewlines(file[..cut]) == CountNewlines(x) + 1 by {
      assert file[..cut] == x + [NEWLINE];
      CountAppend(x, [NEWLINE]);
    }
    forall i | 0 <= i < |Split(x)| ensures LineStart(Split(x), i) < cut {
      LineStartsFollowNewlines(x, i);
    }
    WindowKeepsTail(decode, x, tail, cut);
    assert file == x + [NEWLINE] + tail;
  }

  // The window starts inside a line that ends in it, at its byte `i`.
  lemma WindowInsideLine(decode: seq<Byte> -> Parsed, file: seq<Byte>, cut: nat, i: nat)
    requires 0 < cut <= |file| && file[cut - 1] != NEWLINE
    requires i < |file| - cut && file[cut + i] == NEWLINE && NEWLINE !in file[cut..][..i]
    ensures StartingAt(All(decode, file), Split(file), cut)
            == Parse(decode, Split(file[cut..][i + 1..]), CountNewlines(file[..cut]) + 1)
  {
    hide Parse, Split, StartingAt, LineStart;
    var tail := file[cut..];
    var x := file[..cut] + tail[..i];
    assert file == x + [NEWLINE] + tail[i + 1..];
    assert x[cut - 1..] == [file[cut - 1]] + tail[..i];
    NoLineStartsAfter(x, cut);
    CountAppend(file[..cut], tail[..i]);
    NoneToCount(tail[..i]);
    WindowKeepsTail(decode, x, tail[i + 1..], cut);
  }

  // The window lies inside one line: no line starts in it.
  lemma WindowInsideLastLine(decode: seq<Byte> -> Parsed, file: seq<Byte>, cut: nat)
    requires 0 < cut <= |file| && file[cut - 1] != NEWLINE && NEWLINE !in file[cut..]
    ensures StartingAt(All(decode, file), Split(file), cut) == []
  {
    assert file[cut - 1..] == [file[cut - 1]] + file[cut..];
    NoLineStartsAfter(file, cut);
    hide LineStart, Split, All;
    StartingAtNone(All(decode, file), Split(file), cut);
  }

  ghost predicate IsSuffix(t: seq<Entry>, all: seq<Entry>) {
    |t| <= |all| && t == all[|all| - |t|..]
  }

  function Cut(file: seq<Byte>, window: nat): nat {
    if |file| > window then |file| - window else 0
  }

  // A tail page is always the end of the full reading: of the last `limit` entries, those from the
  // first that starts in the window on.
  lemma TailIsASuffix(decode: seq<Byte> -> Parsed, file: seq<Byte>, window: nat, limit: nat) returns (m: nat)
    ensures IsSuffix(TailEntries(decode, file, window, limit), All(decode, file))
    ensures var all := All(decode, file);
            && |all| - limit <= m <= |all| && TailEntries(decode, file, window, limit) == all[m..]
            && forall k :: |all| - limit <= k < |all| && 0 <= k ==>
                 (StartsAt(Split(file), all[k], Cut(file, window)) <==> k >= m)
  {
    var all := All(decode, file);
    ParseIncreasing(decode, Split(file), 0);
    var n := SuffixOfStarts(all, Split(file), Cut(file, window), 0);
    IncreasingBounds(all, 0, |Split(file)|);
    hide Split, Parse, Increasing, All, StartingAt;
    if |file| <= window {
      StartingAtAll(all, Split(file), 0);
    }
    hide StartsAt, Last;
    m := LastOfSuffix(all, n, limit);
  }

  lemma LastOfSuffix(all: seq<Entry>, n: nat, limit: nat) returns (m: nat)
    requires n <= |all|
    ensures |all| - limit <= m <= |all| && m == (if |all| - n > limit then |all| - limit else n)
    ensures Last(all[n..], limit) == all[m..] && IsSuffix(all[m..], all)
  {
    m := if |all| - n > limit then |all| - limit else n;
  }

  lemma LaterEntriesStart(first: Entry, later: seq<Entry>, lines: seq<seq<Byte>>, cut: nat)
    requires StartsAt(lines, first, cut) && Increasing(later, first.line + 1, |lines|)
    ensures StartingAt(later, lines, cut) == later && forall e :: e in later ==> StartsAt(lines, e, cut)
  {
    IncreasingBounds(later, first.line + 1, |lines|);
    hide LineStart, StartingAt, Increasing;
    forall e | e in later ensures StartsAt(lines, e, cut) {
      StartsIncrease(lines, first.line, e.line);
    }
    StartingAtAll(later, lines, cut);
  }

  lemma StartingAtStep(entries: seq<Entry>, lines: seq<seq<Byte>>, cut: nat)
    requires entries != []
    ensures StartingAt(entries, lines, cut)
            == if StartsAt(lines, entries[0], cut) then [entries[0]] + StartingAt(entries[1..], lines, cut)
               else StartingAt(entries[1..], lines, cut)
  {
    hide StartsAt;
  }

  lemma IncreasingTail(entries: seq<Entry>, lo: nat, hi: nat)
    requires entries != [] && Increasing(entries, lo, hi)
    ensures Increasing(entries[1..], entries[0].line + 1, hi)
  {
  }

  lemma NothingStarts(lines: seq<seq<Byte>>, cut: nat)
    ensures StartingAt([], lines, cut) == []
  {
  }

  lemma {:induction false} SuffixOfStarts(entries: seq<Entry>, lines: seq<seq<Byte>>, cut: nat, lo: nat)
    returns (m: nat)
    requires Increasing(entries, lo, |lines|)
    ensures m <= |entries| && StartingAt(entries, lines, cut) == entries[m..]
    ensures forall k :: 0 <= k < |entries| ==> (StartsAt(lines, entries[k], cut) <==> k >= m)
  {
    hide *;
    m := 0;
    NothingStarts(lines, cut);
    if entries != [] {
      var head, rest := entries[0], entries[1..];
      StartingAtStep(entries, lines, cut);
      IncreasingTail(entries, lo, |lines|);
      if StartsAt(lines, head, cut) {
        LaterEntriesStart(head, rest, lines, cut);
        assert forall k :: 0 < k < |entries| ==> entries[k] in rest;
      } else {
        var r := SuffixOfStarts(rest, lines, cut, head.line + 1);
        m := r + 1;
        assert entries[m..] == rest[r..];
        assert forall k :: 0 < k < |entries| ==> entries[k] == rest[k - 1];
      }
    }
  }

  // -------------------------------------------------------------- the code --

  // An open file; a read may return fewer bytes than asked for.
  class File {
    const content: seq<Byte>
    var at: nat

    constructor (content: seq<Byte>)
      ensures this.content == content && at == 0
    {
      this.content := content;
      at := 0;
    }

    method Seek(to: nat)
      modifies this
      ensures at == to
    {
      at := to;
    }

    method Read(want: nat) returns (bytes: seq<Byte>)
      requires at <= |content|
      modifies this
      ensures |bytes| <= want && old(at) + |bytes| == at <= |content| && bytes == content[old(at)..at]
      ensures bytes == [] ==> want == 0 || old(at) == |content|
    {
      var n := Min(want, |content| - at);
      if n > 1 {
        n :| 1 <= n <= Min(want, |content| - at);
      }
      bytes := content[at..at + n];
      at := at + n;
    }

    method ReadToEnd() returns (bytes: seq<Byte>)
      requires at <= |content|
      modifies this
      ensures bytes == content[old(at)..] && at == |content|
    {
      bytes := content[at..];
      at := |content|;
    }
  }

  // `buf[..n].iter().filter(|&&b| b == b'\n').count()`
  method CountIn(bytes: seq<Byte>) returns (n: nat)
    ensures n == CountNewlines(bytes)
  {
    n := 0;
    for i := 0 to |bytes|
      invariant n == CountNewlines(bytes[..i])
    {
      assert bytes[..i + 1] == bytes[..i] + [bytes[i]];
      CountAppend(bytes[..i], [bytes[i]]);
      if bytes[i] == NEWLINE {
        n := n + 1;
      }
    }
    assert bytes[..|bytes|] == bytes;
  }

  method CountNewlinesPrefix(file: seq<Byte>, end: nat) returns (count: nat)
    ensures count == CountNewlines(file[..Min(end, |file|)])
  {
    var f := new File(file);
    var remaining := end;
    count := 0;
    while remaining > 0
      invariant f.content == file && f.at == end - remaining <= |file| && 0 <= remaining <= end
      invariant count == CountNewlines(file[..f.at])
    {
      var bytes := f.Read(Min(remaining, READ_BUFFER));
      if bytes == [] {
        break;
      }
      var here := CountIn(bytes);
      CountAppend(file[..f.at - |bytes|], bytes);
      assert file[..f.at] == file[..f.at - |bytes|] + bytes;
      count := count + here;
      remaining := remaining - |bytes|;
    }
    assert f.at == Min(end, |file|);
  }

  lemma ParseSnoc(decode: seq<Byte> -> Parsed, lines: seq<seq<Byte>>, base: nat, i: nat)
    requires i < |lines|
    ensures Parse(decode, lines[..i + 1], base)
            == Parse(decode, lines[..i], base) + EntryOf(decode(lines[i]), base + i)
  {
    ParseAppend(decode, lines[..i], [lines[i]], base);
    assert lines[..i + 1] == lines[..i] + [lines[i]];
  }

  method ParseJsonl(decode: seq<Byte> -> Parsed, text: seq<Byte>, base: nat) returns (out: seq<Entry>, bad: nat)
    ensures out == Parse(decode, Split(text), base)
    ensures bad == CountBad(decode, Split(text))
  {
    var lines := Split(text);
    out, bad := [], 0;
    for i := 0 to |lines|
      invariant out == Parse(decode, lines[..i], base)
      invariant bad + CountBad(decode, lines[i..]) == CountBad(decode, lines)
    {
      ParseSnoc(decode, lines, base, i);
      var line := decode(lines[i]);
      if line.Message? {
        out := out + [Entry(base + i, line.value)];
      } else if line.Bad? {
        bad := bad + 1;
      }
    }
    assert lines[..|lines|] == lines;
  }

  lemma ParseOfNothing(decode: seq<Byte> -> Parsed, base: nat)
    requires decode([]) == Blank
    ensures Parse(decode, Split([]), base) == []
  {
  }

  // The text kept of a truncated file whose window starts at byte `cut`, and its first line number.
  method ReadWindow(ghost decode: seq<Byte> -> Parsed, file: seq<Byte>, cut: nat) returns (text: seq<Byte>, base: nat)
    requires 0 < cut <= |file| && decode([]) == Blank
    ensures Parse(decode, Split(text), base) == StartingAt(All(decode, file), Split(file), cut)
  {
    hide Parse, Split, All, StartingAt, CountNewlines;
    var prefix := CountNewlinesPrefix(file, cut);
    var f := new File(file);
    f.Seek(cut - 1);
    var prev := f.Read(1);
    assert prev[0] == file[cut - 1];
    f.Seek(cut);
    text := f.ReadToEnd();
    if prev[0] == NEWLINE {
      WindowAtLineStart(decode, file, cut);
      return text, prefix;
    }
    var nl := FindNewline(text);
    WindowCutShort(decode, file, cut, text, nl);
    if nl.Some? {
      text := text[nl.value + 1..];
    } else {
      text := [];
    }
    base := prefix + 1;
  }

  lemma CutLineEnds(decode: seq<Byte> -> Parsed, file: seq<Byte>, cut: nat, text: seq<Byte>, i: nat)
    requires 0 < cut <= |file| && file[cut - 1] != NEWLINE && text == file[cut..]
    requires i < |text| && text[i] == NEWLINE && NEWLINE !in text[..i]
    ensures Parse(decode, Split(text[i + 1..]), CountNewlines(file[..cut]) + 1)
            == StartingAt(All(decode, file), Split(file), cut)
  {
    hide *;
    assert file[cut + i] == text[i];
    WindowInsideLine(decode, file, cut, i);
  }

  lemma CutLineDoesNotEnd(decode: seq<Byte> -> Parsed, file: seq<Byte>, cut: nat, text: seq<Byte>)
    requires 0 < cut <= |file| && decode([]) == Blank && file[cut - 1] != NEWLINE
    requires text == file[cut..] && NEWLINE !in text
    ensures Parse(decode, Split([]), CountNewlines(file[..cut]) + 1)
            == StartingAt(All(decode, file), Split(file), cut)
  {
    hide *;
    ParseOfNothing(decode, CountNewlines(file[..cut]) + 1);
    WindowInsideLastLine(decode, file, cut);
  }

  // The window starts inside a line, whose end in the window, if any, is at `nl`.
  lemma WindowCutShort(decode: seq<Byte> -> Parsed, file: seq<Byte>, cut: nat, text: seq<Byte>, nl: Option<nat>)
    requires 0 < cut <= |file| && decode([]) == Blank && file[cut - 1] != NEWLINE && text == file[cut..]
    requires nl.None? ==> NEWLINE !in text
    requires nl.Some? ==> nl.value < |text| && text[nl.value] == NEWLINE && NEWLINE !in text[..nl.value]
    ensures Parse(decode, Split(if nl.Some? then text[nl.value + 1..] else []), CountNewlines(file[..cut]) + 1)
            == StartingAt(All(decode, file), Split(file), cut)
  {
    hide *;
    if nl.Some? {
      CutLineEnds(decode, file, cut, text, nl.value);
    } else {
      CutLineDoesNotEnd(decode, file, cut, text);
    }
  }

  // `TAIL_WINDOW_BYTES` is the window the program uses.
  method TailPage(decode: seq<Byte> -> Parsed, file: seq<Byte>, limit: nat, total: nat,
                  window: nat := TAIL_WINDOW_BYTES) returns (page: Page)
    requires decode([]) == Blank
    ensures page == PageOf(TailEntries(decode, file, window, limit), total, |file| > window, |file|)
    ensures page.messages == Values(TailEntries(decode, file, window, limit)) && !page.missing
    ensures page.total == total && (page.truncated <==> |file| > window) && page.size == |file|
  {
    hide Parse, Split, StartingAt, LineStart, Values;
    var size := |file|;
    var truncated := size > window;
    var text, base := file, 0;
    if truncated {
      text, base := ReadWindow(decode, file, size - window);
    } else {
      var f := new File(file);
      text := f.ReadToEnd();
    }
    var msgs, _ := ParseJsonl(decode, text, base);
    var start := if |msgs| > limit then |msgs| - limit else 0;
    var pageMsgs := msgs[start..];
    assert pageMsgs == Last(msgs, limit);
    page := PageOf(pageMsgs, total, truncated, size);
  }

  // The entries before the line of entry `i` are the first `i`, and there are no more of them
  // than line numbers below its own.
  lemma {:induction false} BeforeSplits(entries: seq<Entry>, lo: nat, hi: nat, i: nat)
    requires Increasing(entries, lo, hi) && i < |entries|
    ensures Before(entries, entries[i].line) == entries[..i]
    ensures lo + i <= entries[i].line
  {
    if i == 0 {
      IncreasingBounds(entries[1..], entries[0].line + 1, hi);
      BeforeNone(entries[1..], entries[0].line);
    } else {
      BeforeSplits(entries[1..], entries[0].line + 1, hi, i - 1);
      assert entries[..i] == [entries[0]] + entries[1..][..i - 1];
    }
  }

  lemma {:induction false} BeforeNone(entries: seq<Entry>, line: nat)
    requires forall e :: e in entries ==> e.line >= line
    ensures Before(entries, line) == []
  {
    if entries != [] {
      BeforeNone(entries[1..], line);
    }
  }

  lemma BeforeStep(head: Parsed, rest: seq<Entry>, at: nat, line: nat)
    requires at < line
    ensures Before(EntryOf(head, at) + rest, line) == EntryOf(head, at) + Before(rest, line)
  {
    if head.Message? {
      assert (EntryOf(head, at) + rest)[1..] == rest;
    } else {
      assert EntryOf(head, at) + rest == rest;
    }
  }

  lemma {:induction false} BeforeIsParseOfPrefix(decode: seq<Byte> -> Parsed, lines: seq<seq<Byte>>, base: nat, line: nat)
    requires base <= line
    ensures Before(Parse(decode, lines, base), line) == Parse(decode, lines[..Min(line - base, |lines|)], base)
  {
    var k := Min(line - base, |lines|);
    if k == 0 {
      ParseIncreasing(decode, lines, base);
      IncreasingBounds(Parse(decode, lines, base), base, base + |lines|);
      BeforeNone(Parse(decode, lines, base), line);
      assert lines[..k] == [];
    } else {
      BeforeIsParseOfPrefix(decode, lines[1..], base + 1, line);
      BeforeStep(decode(lines[0]), Parse(decode, lines[1..], base + 1), base, line);
      hide EntryOf, Before;
      assert lines[..k][1..] == lines[1..][..k - 1] && lines[..k][0] == lines[0];
    }
  }

  // One turn of the loop below: a line's entry, if it has one, goes into the ring.
  lemma RingAfterEntry(was: seq<Entry>, line: Parsed, at: nat, limit: nat)
    ensures Last(was + EntryOf(line, at), limit)
            == if !line.Message? then Last(was, limit)
               else if |Last(was, limit)| < limit then Last(was, limit) + [Entry(at, line.value)]
               else (Last(was, limit) + [Entry(at, line.value)])[1..]
  {
    if line.Message? {
      LastPush(was, limit, Entry(at, line.value));
    } else {
      assert was + [] == was;
    }
  }

  // The ring buffer of the loop after the lines before `before`.
  method EarlierRing(decode: seq<Byte> -> Parsed, lines: seq<seq<Byte>>, before: nat, limit: nat)
    returns (ring: seq<Entry>)
    ensures ring == Last(Parse(decode, lines[..Min(before, |lines|)], 0), limit)
  {
    ring := [];
    ghost var seen: seq<Entry> := [];
    var i := 0;
    while i < |lines| && i < before
      invariant i <= |lines| && i <= before
      invariant seen == Parse(decode, lines[..i], 0) && ring == Last(seen, limit)
    {
      ParseSnoc(decode, lines, 0, i);
      RingAfterEntry(seen, decode(lines[i]), i, limit);
      hide Last, EntryOf, Parse;
      var line := decode(lines[i]);
      seen := seen + EntryOf(line, i);
      if line.Message? {
        ring := ring + [Entry(i, line.value)];
        if |ring| > limit {
          ring := ring[1..];
        }
      }
      i := i + 1;
    }
  }

  method EarlierPage(decode: seq<Byte> -> Parsed, file: seq<Byte>, before: nat, limit: nat, total: nat)
    returns (page: Page)
    ensures page == PageOf(EarlierEntries(decode, file, before, limit), total, false, |file|)
    ensures page.messages == Values(EarlierEntries(decode, file, before, limit)) && !page.missing
    ensures page.total == total && !page.truncated && page.size == |file|
  {
    BeforeIsParseOfPrefix(decode, Split(file), 0, before);
    var ring := EarlierRing(decode, Split(file), before, limit);
    page := PageOf(ring, total, false, |file|);
  }

  // ---------------------------------------------------------------- paging --

  lemma HeadBeforeEntry(decode: seq<Byte> -> Parsed, file: seq<Byte>, i: nat)
    requires i < |All(decode, file)|
    ensures Before(All(decode, file), All(decode, file)[i].line) == All(decode, file)[..i]
    ensures i <= All(decode, file)[i].line
  {
    ParseIncreasing(decode, Split(file), 0);
    hide Parse, Split, Increasing, Before;
    BeforeSplits(All(decode, file), 0, |Split(file)|, i);
  }

  // A line that holds a message starts in the window.
  ghost predicate MessageInWindow(decode: seq<Byte> -> Parsed, file: seq<Byte>, window: nat) {
    var lines := Split(file);
    exists i :: 0 <= i < |lines| && decode(lines[i]).Message? && LineStart(lines, i) + window >= |file|
  }

  lemma {:induction false} StartingAtSome(entries: seq<Entry>, lines: seq<seq<Byte>>, cut: nat)
    ensures StartingAt(entries, lines, cut) != [] <==> exists e :: e in entries && StartsAt(lines, e, cut)
  {
    hide StartsAt;
    if entries != [] {
      StartingAtSome(entries[1..], lines, cut);
      assert entries == [entries[0]] + entries[1..];
    }
  }

  lemma {:induction false} ParsedLines(decode: seq<Byte> -> Parsed, lines: seq<seq<Byte>>, base: nat, line: nat)
    ensures (exists e :: e in Parse(decode, lines, base) && e.line == line)
            <==> base <= line < base + |lines| && decode(lines[line - base]).Message?
  {
    if lines != [] {
      ParsedLines(decode, lines[1..], base + 1, line);
      var head, rest := EntryOf(decode(lines[0]), base), Parse(decode, lines[1..], base + 1);
      assert Parse(decode, lines, base) == head + rest;
      assert forall e :: e in head + rest <==> e in head || e in rest;
      assert decode(lines[0]).Message? ==> Entry(base, decode(lines[0]).value) in head;
      hide Parse;
    }
  }

  // The tail page has a message exactly when one is asked for and a message line starts in the window.
  lemma TailIsEmptyIff(decode: seq<Byte> -> Parsed, file: seq<Byte>, window: nat, limit: nat)
    ensures TailEntries(decode, file, window, limit) != [] <==> limit > 0 && MessageInWindow(decode, file, window)
  {
    var lines, all, cut := Split(file), All(decode, file), if |file| > window then |file| - window else 0;
    StartingAtSome(all, lines, cut);
    assert all == Parse(decode, lines, 0);
    hide Split, Parse, StartingAt, All, LineStart;
    forall i | 0 <= i < |lines|
      ensures decode(lines[i]).Message? <==> exists e :: e in all && e.line == i
    {
      ParsedLines(decode, lines, 0, i);
    }
    forall e | e in all ensures e.line < |lines| && decode(lines[e.line]).Message? {
      ParsedLines(decode, lines, 0, e.line);
    }
    WholeWindow(all, lines);
  }

  lemma WholeWindow(entries: seq<Entry>, lines: seq<seq<Byte>>)
    requires forall e :: e in entries ==> e.line < |lines|
    ensures StartingAt(entries, lines, 0) == entries
  {
    StartingAtAll(entries, lines, 0);
    hide StartingAt;
  }

  // A tail page and then everything before it: the whole reading, once, in order. It works
  // exactly when the tail page is not empty (or there was nothing to read).
  lemma TailThenEarlierIsEverything(decode: seq<Byte> -> Parsed, file: seq<Byte>, window: nat, limit: nat)
    ensures var tail := TailEntries(decode, file, window, limit);
            var upto := PageOf(tail, 0, false, 0).loadedUpto;
            (EarlierEntries(decode, file, upto, upto) + tail == All(decode, file))
            <==> (tail != [] || All(decode, file) == [])
    ensures TailEntries(decode, file, window, limit) != [] <==> limit > 0 && MessageInWindow(decode, file, window)
  {
    TailIsEmptyIff(decode, file, window, limit);
    hide All, TailEntries, Before, Values, MessageInWindow;
    var tail, all := TailEntries(decode, file, window, limit), All(decode, file);
    var m := TailIsASuffix(decode, file, window, limit);
    if tail != [] {
      HeadBeforeEntry(decode, file, |all| - |tail|);
      assert all == all[..|all| - |tail|] + tail;
    } else {
      assert EarlierEntries(decode, file, 0, 0) == [];
    }
  }

  // The files that fail: they hold messages, and no message line starts in the window. Their tail
  // page is empty, and loading from it gives nothing.
  lemma HistoryIsHidden(decode: seq<Byte> -> Parsed, file: seq<Byte>, window: nat, limit: nat)
    requires All(decode, file) != [] && !MessageInWindow(decode, file, window)
    ensures var tail := TailEntries(decode, file, window, limit);
            tail == [] && EarlierEntries(decode, file, 0, 0) + tail != All(decode, file)
  {
    TailIsEmptyIff(decode, file, window, limit);
    hide All, TailEntries, Before, MessageInWindow;
    assert EarlierEntries(decode, file, 0, 0) == [];
  }

  // One message line longer than the window is such a file.
  lemma OneLongLineHidesHistory(decode: seq<Byte> -> Parsed, file: seq<Byte>, limit: nat)
    requires |file| > 2_097_152 && 10 !in file && decode(file).Message?
    ensures |All(decode, file)| == 1 && TailEntries(decode, file, TAIL_WINDOW_BYTES, limit) == []
  {
    WindowInsideLastLine(decode, file, |file| - TAIL_WINDOW_BYTES);
    SplitOneLine(file);
    hide Split, StartingAt;
    assert [file][1..] == [];
    assert Parse(decode, [file], 0) == EntryOf(decode(file), 0) + Parse(decode, [file][1..], 1);
  }

  lemma {:induction false} SplitOneLine(s: seq<Byte>)
    requires NEWLINE !in s
    ensures Split(s) == [s]
  {
    if s != [] {
      SplitOneLine(s[1..]);
      assert s == [s[0]] + s[1..];
    }
  }

  lemma FirstOfPage(decode: seq<Byte> -> Parsed, file: seq<Byte>, before: nat, limit: nat)
    ensures var page := EarlierEntries(decode, file, before, limit);
            page != [] ==> page[0].line < before
  {
    hide Parse, Split, Before, Increasing;
    BeforeIsParseOfPrefix(decode, Split(file), 0, before);
    var lines := Split(file)[..Min(before, |Split(file)|)];
    ParseIncreasing(decode, lines, 0);
    var earlier := Parse(decode, lines, 0);
    IncreasingBounds(earlier, 0, |lines|);
    var page := EarlierEntries(decode, file, before, limit);
    if page != [] {
      assert page[0] == earlier[|earlier| - |page|];
    }
  }

  // Pages of at most `limit`, each asked for from where the previous one began.
  function PageThrough(decode: seq<Byte> -> Parsed, file: seq<Byte>, before: nat, limit: nat): seq<Entry>
    decreases before
  {
    var page := EarlierEntries(decode, file, before, limit);
    FirstOfPage(decode, file, before, limit);
    if page == [] then [] else PageThrough(decode, file, page[0].line, limit) + page
  }

  // Paging back leaves no gap and repeats nothing, whatever the page size.
  lemma {:induction false} PagingEnumeratesAll(decode: seq<Byte> -> Parsed, file: seq<Byte>, before: nat, limit: nat)
    requires limit > 0
    ensures PageThrough(decode, file, before, limit) == Before(All(decode, file), before)
    decreases before
  {
    hide Parse, Split, Before;
    var all, page := All(decode, file), EarlierEntries(decode, file, before, limit);
    var earlier := Before(all, before);
    if page != [] {
      FirstOfPage(decode, file, before, limit);
      PagingEnumeratesAll(decode, file, page[0].line, limit);
      BeforeIsPrefix(decode, file, before);
      var i := |earlier| - |page|;
      assert all[i] == earlier[i] == page[0];
      HeadBeforeEntry(decode, file, i);
      assert earlier == all[..i] + page;
    }
  }

  lemma BeforeIsPrefix(decode: seq<Byte> -> Parsed, file: seq<Byte>, before: nat)
    ensures Before(All(decode, file), before) <= All(decode, file)
  {
    var lines := Split(file);
    BeforeIsParseOfPrefix(decode, lines, 0, before);
    var k := Min(before, |lines|);
    assert lines == lines[..k] + lines[k..];
    ParseAppend(decode, lines[..k], lines[k..], 0);
  }

  // --------------------------------------------------------- replay in the UI --

  // `toReplayMessages`: what the page shows of the raw messages.
  function Render<C>(show: Json -> Option<C>, raws: seq<Json>): seq<C> {
    if raws == [] then []
    else
      Bubble(show(raws[0])) + Render(show, raws[1..])
  }

  function Bubble<C>(shown: Option<C>): seq<C> {
    if shown.Some? then [shown.value] else []
  }

  lemma {:induction false} RenderAppend<C>(show: Json -> Option<C>, a: seq<Entry>, b: seq<Entry>)
    ensures Render(show, Values(a + b)) == Render(show, Values(a)) + Render(show, Values(b))
  {
    if a == [] {
      assert a + b == b;
    } else {
      RenderAppend(show, a[1..], b);
      assert (a + b)[1..] == a[1..] + b;
      hide Bubble;
      ConcatAssociates(Bubble(show(a[0].value)), Render(show, Values(a[1..])), Render(show, Values(b)));
    }
  }

  lemma {:induction false} RenderIsEmptyIff<C>(show: Json -> Option<C>, entries: seq<Entry>)
    ensures Render(show, Values(entries)) == [] <==> forall e :: e in entries ==> show(e.value).None?
  {
    if entries != [] {
      RenderIsEmptyIff(show, entries[1..]);
      assert entries == [entries[0]] + entries[1..];
    }
  }

  // One of the last `limit` messages of the file has something to show and starts in the window.
  ghost predicate ShownInTail<C>(decode: seq<Byte> -> Parsed, show: Json -> Option<C>, file: seq<Byte>,
                                 window: nat, limit: nat)
  {
    var all := All(decode, file);
    exists k :: |all| - limit <= k < |all| && 0 <= k && show(all[k].value).Some?
                && StartsAt(Split(file), all[k], Cut(file, window))
  }

  ghost predicate ShowsNothing<C>(decode: seq<Byte> -> Parsed, show: Json -> Option<C>, file: seq<Byte>) {
    forall e :: e in All(decode, file) ==> show(e.value).None?
  }

  // The replayed page shows something exactly when such a message exists.
  lemma TailShowsIff<C>(decode: seq<Byte> -> Parsed, show: Json -> Option<C>, file: seq<Byte>,
                        window: nat, limit: nat)
    ensures Render(show, Values(TailEntries(decode, file, window, limit))) != []
            <==> ShownInTail(decode, show, file, window, limit)
  {
    var all, tail := All(decode, file), TailEntries(decode, file, window, limit);
    var m := TailIsASuffix(decode, file, window, limit);
    RenderIsEmptyIff(show, tail);
    hide All, TailEntries, Split, Render, Values, StartsAt, IsSuffix;
    assert forall k :: m <= k < |all| ==> all[k] in tail;
    assert forall i :: 0 <= i < |tail| ==> tail[i] == all[m + i];
  }

  // Files whose tail page has messages and that fail all the same: the last `limit` messages show
  // nothing (as results of tools do), and an earlier one would.
  lemma SilentTailHidesHistory<C>(decode: seq<Byte> -> Parsed, show: Json -> Option<C>, file: seq<Byte>,
                                  window: nat, limit: nat)
    requires var all := All(decode, file);
             forall k :: |all| - limit <= k < |all| && 0 <= k ==> show(all[k].value).None?
    requires !ShowsNothing(decode, show, file)
    requires limit > 0 && MessageInWindow(decode, file, window)
    ensures TailEntries(decode, file, window, limit) != []
    ensures Render(show, Values(TailEntries(decode, file, window, limit))) == []
    ensures Render(show, Values(All(decode, file))) != []
  {
    TailIsEmptyIff(decode, file, window, limit);
    TailShowsIff(decode, show, file, window, limit);
    RenderIsEmptyIff(show, All(decode, file));
    hide All, TailEntries, Split, Render, Values, StartsAt, MessageInWindow;
  }

  datatype Cursor = Cursor(loaded: nat, earliest: nat, fullyLoaded: bool)

  // The replay part of a session bucket; `messages` is its transcript area.
  class Replay<C> {
    var messages: seq<C>
    var cursor: Option<Cursor>

    constructor (live: seq<C>)
      ensures messages == live && cursor == None
    {
      messages, cursor := live, None;
    }

    method InjectReplay(decode: seq<Byte> -> Parsed, show: Json -> Option<C>, file: seq<Byte>, limit: nat)
      requires decode([]) == Blank
      modifies this
      ensures var tail := TailEntries(decode, file, 2_097_152, limit);
              var shown := Render(show, Values(tail));
              && messages == shown + old(messages)
              && cursor == if shown == [] then old(cursor)
                           else Some(Cursor(|tail|, tail[0].line, tail[0].line == 0))
    {
      var page := TailPage(decode, file, limit, 0);
      var msgs := Render(show, page.messages);
      if page.missing || msgs == [] {
        return;
      }
      messages := msgs + messages;
      ValuesLength(TailEntries(decode, file, TAIL_WINDOW_BYTES, limit));
      cursor := Some(Cursor(|page.messages|, page.loadedUpto, page.loadedUpto == 0));
    }

    method LoadEarlierMessages(decode: seq<Byte> -> Parsed, show: Json -> Option<C>, file: seq<Byte>)
      modifies this
      ensures old(cursor).None? || old(cursor).value.fullyLoaded ==> messages == old(messages) && cursor == old(cursor)
      ensures old(cursor).Some? && !old(cursor).value.fullyLoaded ==>
                && cursor.Some? && cursor.value.fullyLoaded
                && var r := old(cursor).value;
                   var page := EarlierEntries(decode, file, r.earliest, r.earliest);
                   && messages == Render(show, Values(page)) + old(messages)
                   && cursor.value.loaded == r.loaded + |page|
                   && cursor.value.earliest == if page == [] then 0 else page[0].line
    {
      if cursor.None? || cursor.value.fullyLoaded {
        return;
      }
      var r := cursor.value;
      if r.earliest == 0 {
        assert EarlierEntries(decode, file, 0, 0) == [];
        cursor := Some(r.(fullyLoaded := true));
        return;
      }
      var page := EarlierPage(decode, file, r.earliest, r.earliest, 0);
      messages := Render(show, page.messages) + messages;
      ValuesLength(EarlierEntries(decode, file, r.earliest, r.earliest));
      cursor := Some(Cursor(r.loaded + |page.messages|, page.loadedUpto, true));
    }
  }

  lemma {:induction false} ValuesLength(entries: seq<Entry>)
    ensures |Values(entries)| == |entries|
  {
    if entries != [] {
      ValuesLength(entries[1..]);
    }
  }

  // Replaying and then loading the rest, on an unchanged file.
  method ReplayEverything<C(0)>(decode: seq<Byte> -> Parsed, show: Json -> Option<C>, file: seq<Byte>, limit: nat)
    returns (messages: seq<C>)
    requires decode([]) == Blank
    ensures var whole := Render(show, Values(All(decode, file)));
            && messages == (if ShownInTail(decode, show, file, 2_097_152, limit) then whole else [])
            && (messages == whole <==> ShownInTail(decode, show, file, 2_097_152, limit)
                                       || ShowsNothing(decode, show, file))
  {
    var replay := new Replay<C>([]);
    replay.InjectReplay(decode, show, file, limit);
    replay.LoadEarlierMessages(decode, show, file);
    messages := replay.messages;
    TailShowsIff(decode, show, file, TAIL_WINDOW_BYTES, limit);
    RenderIsEmptyIff(show, All(decode, file));
    hide ShownInTail;
    var tail := TailEntries(decode, file, TAIL_WINDOW_BYTES, limit);
    if tail != [] {
      TailThenEarlierIsEverything(decode, file, TAIL_WINDOW_BYTES, limit);
      RenderAppend(show, EarlierEntries(decode, file, tail[0].line, tail[0].line), tail);
    }
  }
}

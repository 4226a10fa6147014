/**
 The producer task, the bounded channel and the polling reader of `LineBufferedRead`, as one
 step system: every interleaving of the actions below is a run.
 */
module LineProtocol {
  import opened Prelude
  import opened LineStream

  datatype Item = Line(bytes: seq<Byte>) | Failure(error: LineError)

  datatype PollResult = Ready(bytes: seq<Byte>) | Failed(error: LineError) | Pending

  // -------------------------------------------------------------- polling --

  // What the reader holds: the line being served, the cursor in it, and its end of the channel.
  datatype Serving = Serving(buf: seq<Byte>, pos: nat, queue: seq<Item>)

  predicate CursorInside(r: Serving) { r.pos <= |r.buf| && (r.pos == |r.buf| ==> r.buf == []) }

  // One poll with `room` bytes of output; `closed` says the sending side is gone.
  function Poll(r: Serving, closed: bool, room: nat): (PollResult, Serving)
    requires CursorInside(r)
  {
    if r.pos < |r.buf| then
      var n := Min(|r.buf| - r.pos, room);
      var bytes := r.buf[r.pos..r.pos + n];
      (Ready(bytes), if r.pos + n >= |r.buf| then r.(buf := [], pos := 0) else r.(pos := r.pos + n))
    else if r.queue == [] then
      (if closed then Ready([]) else Pending, r)
    else
      var rest := r.queue[1..];
      match r.queue[0]
      case Failure(e) => (Failed(e), r.(queue := rest))
      case Line(line) =>
        var n := Min(|line|, room);
        (Ready(line[..n]), if n < |line| then Serving(line, n, rest) else r.(queue := rest))
  }

  class Channel {
    var queue: seq<Item>
    var closed: bool

    constructor ()
      ensures queue == [] && !closed
    {
      queue, closed := [], false;
    }
  }

  class LineBufferedRead {
    var buf: seq<Byte>
    var pos: nat
    const rx: Channel

    constructor (rx: Channel)
      ensures this.rx == rx && CursorInside(Contents()) && buf == []
    {
      this.rx := rx;
      buf, pos := [], 0;
    }

    function Contents(): Serving
      reads this, rx
    {
      Serving(buf, pos, rx.queue)
    }

    // Serves into `out`; on `Ready(bytes)` those are the bytes now at its front.
    method PollRead(out: array<Byte>) returns (result: PollResult)
      requires CursorInside(Contents())
      modifies this, rx`queue, out
      ensures (result, Contents()) == Poll(old(Contents()), rx.closed, out.Length)
      ensures CursorInside(Contents())
      ensures var n := if result.Ready? then |result.bytes| else 0;
              n <= out.Length && (result.Ready? ==> out[..n] == result.bytes) && out[n..] == old(out[n..])
    {
      if pos < |buf| {
        var avail := |buf| - pos;
        var n := Min(avail, out.Length);
        forall i | 0 <= i < n {
          out[i] := buf[pos + i];
        }
        result := Ready(buf[pos..pos + n]);
        pos := pos + n;
        if pos >= |buf| {
          buf, pos := [], 0;
        }
        return;
      }
      if rx.queue == [] {
        return if rx.closed then Ready([]) else Pending;
      }
      var item := rx.queue[0];
      rx.queue := rx.queue[1..];
      match item
      case Failure(e) => result := Failed(e);
      case Line(line) =>
        var n := Min(|line|, out.Length);
        forall i | 0 <= i < n {
          out[i] := line[i];
        }
        result := Ready(line[..n]);
        if n < |line| {
          buf, pos := line, n;
        }
    }
  }

  // ------------------------------------------------------------- protocol --

  datatype Producer = Reading(line: seq<Byte>) | Sending(item: Item) | Ended

  // `unread` is the part of the source the producer has not taken and `ending` how the source
  // stops. `sent`, `delivered` and `reported` record history: the lines put on the channel,
  // the bytes handed to the consumer, the errors handed to the consumer.
  datatype State = State(
    unread: seq<Byte>, ending: Option<int>, producer: Producer, receiving: bool, reader: Serving,
    sent: seq<seq<Byte>>, delivered: seq<Byte>, reported: seq<LineError>)

  function Init(source: seq<Byte>, ending: Option<int>): State {
    State(source, ending, Reading([]), true, Serving([], 0, []), [], [], [])
  }

  datatype Action =
    | Fill(chunk: nat)  // the source delivers this many more bytes
    | FillEof
    | FillFault
    | Send
    | PollWith(room: nat)
    | DropReader

  predicate Enabled(s: State, a: Action) {
    match a
    case Fill(n) => s.producer.Reading? && 0 < n <= |s.unread|
    case FillEof => s.producer.Reading? && s.unread == [] && s.ending.None?
    case FillFault => s.producer.Reading? && s.unread == [] && s.ending.Some?
    case Send => s.producer.Sending? && (s.receiving ==> |s.reader.queue| < CHANNEL_SLOTS)
    case PollWith(_) => s.receiving && CursorInside(s.reader)
    case DropReader => s.receiving
  }

  // The loop body of `read_line_capped` on one chunk.
  function TakeChunk(line: seq<Byte>, available: seq<Byte>): Producer
    requires available != []
  {
    var used := FirstLine(available);
    var longer := line + available[..used];
    if |longer| > MAX_LINE_SIZE then Sending(Failure(TooLong(|longer|)))
    else if available[used - 1] == NEWLINE then Sending(Line(longer))
    else Reading(longer)
  }

  function Apply(s: State, a: Action): State
    requires Enabled(s, a)
  {
    match a
    case Fill(n) => ApplyFill(s, n)
    case FillEof => s.(producer := if s.producer.line == [] then Ended else Sending(Line(s.producer.line)))
    case FillFault => s.(producer := Sending(Failure(SourceFault(s.ending.value))))
    case Send => if s.receiving then ApplySend(s) else s.(producer := Ended)
    case PollWith(room) => ApplyPoll(s, room)
    case DropReader => s.(receiving := false)
  }

  function ApplyFill(s: State, n: nat): State
    requires Enabled(s, Fill(n))
  {
    s.(unread := s.unread[FirstLine(s.unread[..n])..], producer := TakeChunk(s.producer.line, s.unread[..n]))
  }

  function ApplySend(s: State): State
    requires s.producer.Sending?
  {
    var item := s.producer.item;
    s.(producer := if item.Line? then Reading([]) else Ended,
       reader := s.reader.(queue := s.reader.queue + [item]),
       sent := if item.Line? then s.sent + [item.bytes] else s.sent)
  }

  function ApplyPoll(s: State, room: nat): State
    requires CursorInside(s.reader)
  {
    var (result, reader) := Poll(s.reader, s.producer.Ended?, room);
    s.(reader := reader,
       delivered := if result.Ready? then s.delivered + result.bytes else s.delivered,
       reported := if result.Failed? then s.reported + [result.error] else s.reported)
  }

  ghost predicate Legal(s: State, run: seq<Action>)
    decreases |run|
  {
    run == [] || (Enabled(s, run[0]) && Legal(Apply(s, run[0]), run[1..]))
  }

  ghost function After(s: State, run: seq<Action>): State
    requires Legal(s, run)
    decreases |run|
  {
    if run == [] then s else After(Apply(s, run[0]), run[1..])
  }

  // ------------------------------------------------------------ invariant --

  function QueuedLines(queue: seq<Item>): seq<seq<Byte>> {
    if queue == [] then []
    else (if queue[0].Line? then [queue[0].bytes] else []) + QueuedLines(queue[1..])
  }

  lemma {:induction false} QueuedLinesSnoc(queue: seq<Item>, item: Item)
    ensures QueuedLines(queue + [item]) == QueuedLines(queue) + if item.Line? then [item.bytes] else []
  {
    if queue == [] {
      assert queue + [item] == [item];
    } else {
      QueuedLinesSnoc(queue[1..], item);
      assert (queue + [item])[1..] == queue[1..] + [item];
    }
  }

  // A line the producer may pass on: within the cap, and whole unless the source simply ended.
  predicate Deliverable(line: seq<Byte>, ending: Option<int>) {
    line != [] && |line| <= MAX_LINE_SIZE && (Terminated(line) || ending.None?)
  }

  // `sent` is exactly what the consumer should get from a source with these lines, and `error`
  // is the one reason there is no more of it.
  ghost predicate StopsWith(error: LineError, sent: seq<seq<Byte>>, lines: seq<seq<Byte>>, ending: Option<int>) {
    && sent <= lines
    && match error
       case TooLong(read) => |sent| < |lines| && |lines[|sent|]| > MAX_LINE_SIZE && read > MAX_LINE_SIZE
       case SourceFault(code) =>
         && ending == Some(code)
         && |lines| <= |sent| + 1
         && (|sent| < |lines| ==> !Terminated(lines[|sent|]) && |lines[|sent|]| <= MAX_LINE_SIZE)
  }

  ghost predicate ProducerInv(
    producer: Producer, unread: seq<Byte>, ending: Option<int>, sent: seq<seq<Byte>>, completing: bool,
    lines: seq<seq<Byte>>)
  {
    match producer
    case Reading(line) =>
      NoNewline(line) && |line| <= MAX_LINE_SIZE && lines == sent + Lines(line + unread)
    case Sending(Line(line)) =>
      Deliverable(line, ending) && lines == sent + [line] + Lines(unread)
    case Sending(Failure(error)) => StopsWith(error, sent, lines, ending)
    case Ended => completing ==> lines == sent && ending.None?
  }

  ghost predicate NoFailure(queue: seq<Item>) {
    forall i :: 0 <= i < |queue| ==> queue[i].Line?
  }

  // Errors travel last: at most one, at the back of the channel, after the producer has ended.
  ghost predicate ErrorInv(
    r: Serving, ended: bool, reported: seq<LineError>, sent: seq<seq<Byte>>, ending: Option<int>, lines: seq<seq<Byte>>)
  {
    && |reported| <= 1
    && (reported != [] ==> ended && r.queue == [] && r.buf == [] && StopsWith(reported[0], sent, lines, ending))
    && forall i :: 0 <= i < |r.queue| && r.queue[i].Failure? ==>
         i == |r.queue| - 1 && ended && StopsWith(r.queue[i].error, sent, lines, ending)
  }

  ghost predicate SentInv(sent: seq<seq<Byte>>, ending: Option<int>, lines: seq<seq<Byte>>) {
    sent <= lines && forall i :: 0 <= i < |sent| ==> Deliverable(sent[i], ending)
  }

  // The bytes already taken from the channel: the delivered ones and the rest of the current line.
  function Served(r: Serving, delivered: seq<Byte>): seq<Byte>
    requires CursorInside(r)
  {
    delivered + r.buf[r.pos..]
  }

  // Every line sent is either in the channel or wholly among the served bytes.
  ghost predicate Accounted(r: Serving, delivered: seq<Byte>, sent: seq<seq<Byte>>) {
    && CursorInside(r)
    && |r.queue| <= CHANNEL_SLOTS
    && var queued := QueuedLines(r.queue);
       && |queued| <= |sent|
       && queued == sent[|sent| - |queued|..]
       && Served(r, delivered) == Flatten(sent[..|sent| - |queued|])
  }

  ghost predicate Completing(s: State) {
    s.receiving && s.reported == [] && NoFailure(s.reader.queue)
  }

  ghost predicate Inv(s: State, lines: seq<seq<Byte>>) {
    && SentInv(s.sent, s.ending, lines)
    && Accounted(s.reader, s.delivered, s.sent)
    && ProducerInv(s.producer, s.unread, s.ending, s.sent, Completing(s), lines)
    && ErrorInv(s.reader, s.producer.Ended?, s.reported, s.sent, s.ending, lines)
  }

  lemma InitProducer(source: seq<Byte>, ending: Option<int>)
    ensures ProducerInv(Reading([]), source, ending, [], true, Lines(source))
  {
    NothingBefore(source);
    NothingBefore(Lines(source));
    hide Lines;
  }

  lemma InitReader(ending: Option<int>, lines: seq<seq<Byte>>)
    ensures SentInv([], ending, lines) && ErrorInv(Serving([], 0, []), false, [], [], ending, lines)
    ensures Accounted(Serving([], 0, []), [], []) && NoFailure([])
  {
    var r := Serving([], 0, []);
    assert Served(r, []) == [];
    assert QueuedLines([]) == [] && Flatten<Byte>([]) == [];
    hide QueuedLines, Flatten, Served, StopsWith, Deliverable;
  }

  lemma InitInv(source: seq<Byte>, ending: Option<int>, lines: seq<seq<Byte>>)
    requires ProducerInv(Reading([]), source, ending, [], true, lines)
    ensures Inv(Init(source, ending), lines)
  {
    hide ProducerInv, Lines;
    InitReader(ending, lines);
    hide SentInv, ErrorInv, Accounted, NoFailure;
  }

  // Lines of a line-in-progress followed by more of the source.
  lemma LinesOfProgress(line: seq<Byte>, rest: seq<Byte>)
    requires line != [] && NoNewline(line[..|line| - 1])
    ensures Terminated(line) || rest == [] ==> Lines(line + rest) == [line] + Lines(rest)
    ensures FirstLine(line + rest) >= |line|
  {
    var s := line + rest;
    forall i | 0 <= i < |line| - 1 ensures s[i] != NEWLINE {
      assert s[i] == line[..|line| - 1][i];
    }
    if Terminated(line) || rest == [] {
      FirstLineUnique(s, |line|);
      assert s[..|line|] == line && s[|line|..] == rest;
    }
  }

  lemma LongLineStops(error: LineError, sent: seq<seq<Byte>>, rest: seq<Byte>, lines: seq<seq<Byte>>, ending: Option<int>)
    requires error.TooLong? && error.read > MAX_LINE_SIZE && FirstLine(rest) > MAX_LINE_SIZE
    requires lines == sent + Lines(rest)
    ensures StopsWith(error, sent, lines, ending)
  {
    assert Lines(rest)[0] == rest[..FirstLine(rest)];
  }

  lemma FillProducerInv(line: seq<Byte>, unread: seq<Byte>, n: nat, ending: Option<int>, sent: seq<seq<Byte>>,
                        completing: bool, lines: seq<seq<Byte>>)
    requires ProducerInv(Reading(line), unread, ending, sent, completing, lines) && 0 < n <= |unread|
    ensures ProducerInv(TakeChunk(line, unread[..n]), unread[FirstLine(unread[..n])..], ending, sent, completing, lines)
  {
    var available := unread[..n];
    var used := FirstLine(available);
    var longer, rest := line + available[..used], unread[used..];
    assert NoNewline(line) && lines == sent + Lines(line + unread);
    hide Lines, FirstLine, StopsWith, Terminated, NoNewline;
    ChunkInProgress(line, unread, n, used);
    if |longer| > MAX_LINE_SIZE {
      LongLineStops(TooLong(|longer|), sent, longer + rest, lines, ending);
    } else if available[used - 1] == NEWLINE {
      ConcatAssociates(sent, [longer], Lines(rest));
    }
  }

  // What one chunk does to the line in progress.
  lemma ChunkInProgress(line: seq<Byte>, unread: seq<Byte>, n: nat, used: nat)
    requires NoNewline(line) && 0 < n <= |unread| && used == FirstLine(unread[..n])
    ensures var longer, rest := line + unread[..n][..used], unread[used..];
            && line + unread == longer + rest && FirstLine(longer + rest) >= |longer| > 0
            && (unread[..n][used - 1] == NEWLINE ==> Terminated(longer) && Lines(longer + rest) == [longer] + Lines(rest))
            && (unread[..n][used - 1] != NEWLINE ==> NoNewline(longer))
  {
    var longer, rest := line + unread[..n][..used], unread[used..];
    assert line + unread == longer + rest;
    LineSoFar(line + unread, line, unread[..n], used);
    LinesOfProgress(longer, rest);
    hide Lines, FirstLine;
  }

  // At the end of the source, what is in hand is the one line left.
  lemma LinesAtEnd(line: seq<Byte>)
    requires NoNewline(line)
    ensures Lines(line + []) == if line == [] then [] else [line]
  {
    assert line + [] == line;
    if line != [] {
      LinesOfProgress(line, []);
    }
  }

  lemma EndProducerInv(line: seq<Byte>, ending: Option<int>, sent: seq<seq<Byte>>, completing: bool, lines: seq<seq<Byte>>)
    requires ProducerInv(Reading(line), [], ending, sent, completing, lines)
    ensures ending.None? && line != [] ==> ProducerInv(Sending(Line(line)), [], ending, sent, completing, lines)
    ensures ending.None? && line == [] ==> ProducerInv(Ended, [], ending, sent, completing, lines)
    ensures ending.Some? ==> ProducerInv(Sending(Failure(SourceFault(ending.value))), [], ending, sent, completing, lines)
  {
    LinesAtEnd(line);
    assert Lines([]) == [];
    hide Lines;
    assert sent + [line] + [] == sent + [line];
  }

  lemma SendAccounted(r: Serving, delivered: seq<Byte>, sent: seq<seq<Byte>>, item: Item)
    requires Accounted(r, delivered, sent) && |r.queue| < CHANNEL_SLOTS
    ensures Accounted(r.(queue := r.queue + [item]), delivered, if item.Line? then sent + [item.bytes] else sent)
  {
    var queued := QueuedLines(r.queue);
    QueuedLinesSnoc(r.queue, item);
    hide QueuedLines, Flatten;
    if item.Line? {
      SuffixSnoc(sent, queued, item.bytes);
    } else {
      assert queued + [] == queued;
    }
  }

  lemma SuffixSnoc<T>(s: seq<T>, suffix: seq<T>, x: T)
    requires |suffix| <= |s| && suffix == s[|s| - |suffix|..]
    ensures suffix + [x] == (s + [x])[|s| - |suffix|..]
    ensures (s + [x])[..|s| - |suffix|] == s[..|s| - |suffix|]
  {
  }

  lemma SendErrorInv(r: Serving, reported: seq<LineError>, sent: seq<seq<Byte>>, ending: Option<int>,
                     lines: seq<seq<Byte>>, item: Item)
    requires ErrorInv(r, false, reported, sent, ending, lines)
    requires item.Failure? ==> StopsWith(item.error, sent, lines, ending)
    ensures var r' := r.(queue := r.queue + [item]);
            var sent' := if item.Line? then sent + [item.bytes] else sent;
            ErrorInv(r', item.Failure?, reported, sent', ending, lines)
            && (item.Failure? ==> !NoFailure(r'.queue))
  {
    hide StopsWith;
    var queue := r.queue + [item];
    assert forall i :: 0 <= i < |r.queue| ==> queue[i] == r.queue[i];
    assert queue[|r.queue|] == item;
  }

  lemma SendProducerInv(item: Item, unread: seq<Byte>, ending: Option<int>, sent: seq<seq<Byte>>,
                        completing: bool, completing': bool, lines: seq<seq<Byte>>)
    requires ProducerInv(Sending(item), unread, ending, sent, completing, lines) && SentInv(sent, ending, lines)
    ensures item.Line? ==>
              && ProducerInv(Reading([]), unread, ending, sent + [item.bytes], completing', lines)
              && SentInv(sent + [item.bytes], ending, lines)
    ensures item.Failure? && !completing' ==> ProducerInv(Ended, unread, ending, sent, completing', lines)
  {
    hide Lines, StopsWith;
    assert [] + unread == unread;
  }

  lemma SendKeepsInv(s: State, lines: seq<seq<Byte>>)
    requires Inv(s, lines) && Enabled(s, Send)
    ensures Inv(Apply(s, Send), lines)
  {
    if s.receiving {
      SendAccounted(s.reader, s.delivered, s.sent, s.producer.item);
      SendErrorInv(s.reader, s.reported, s.sent, s.ending, lines, s.producer.item);
      SendProducerInv(s.producer.item, s.unread, s.ending, s.sent, Completing(s), Completing(ApplySend(s)), lines);
      hide Accounted, ErrorInv, ProducerInv, Lines, StopsWith, NoFailure, SentInv;
    } else {
      hide Accounted, ErrorInv, Lines, StopsWith, SentInv;
    }
  }

  lemma PollOfCurrentLine(r: Serving, closed: bool, room: nat, delivered: seq<Byte>, sent: seq<seq<Byte>>)
    requires Accounted(r, delivered, sent) && r.pos < |r.buf|
    ensures var (result, r') := Poll(r, closed, room);
            result.Ready? && r'.queue == r.queue && Accounted(r', delivered + result.bytes, sent)
  {
    hide QueuedLines, Flatten;
    var n := Min(|r.buf| - r.pos, room);
    assert r.buf[r.pos..] == r.buf[r.pos..r.pos + n] + r.buf[r.pos + n..];
    ConcatAssociates(delivered, r.buf[r.pos..r.pos + n], r.buf[r.pos + n..]);
  }

  lemma NextLineWasSent(r: Serving, delivered: seq<Byte>, sent: seq<seq<Byte>>)
    requires Accounted(r, delivered, sent) && r.queue != [] && r.queue[0].Line?
    ensures var k := |sent| - |QueuedLines(r.queue)|;
            k < |sent| && sent[k] == r.queue[0].bytes && sent[k + 1..] == QueuedLines(r.queue[1..])
  {
    var queued := QueuedLines(r.queue);
    var k := |sent| - |queued|;
    assert queued == [r.queue[0].bytes] + QueuedLines(r.queue[1..]);
    assert sent[k] == sent[k..][0];
    assert sent[k + 1..] == sent[k..][1..];
  }

  lemma PollOfNextLine(r: Serving, closed: bool, room: nat, delivered: seq<Byte>, sent: seq<seq<Byte>>)
    requires Accounted(r, delivered, sent) && r.pos == |r.buf| && r.queue != [] && r.queue[0].Line? && [] !in sent
    ensures var (result, r') := Poll(r, closed, room);
            result.Ready? && r'.queue == r.queue[1..] && Accounted(r', delivered + result.bytes, sent)
  {
    NextLineWasSent(r, delivered, sent);
    var line := r.queue[0].bytes;
    var k := |sent| - |QueuedLines(r.queue)|;
    FlattenSnoc(sent[..k], line);
    hide QueuedLines, Flatten;
    assert sent[..k + 1] == sent[..k] + [line];
    var n := Min(|line|, room);
    assert line == line[..n] + line[n..];
    ConcatAssociates(delivered, line[..n], line[n..]);
    assert delivered + [] == delivered;
    assert line[|line|..] == [];
  }

  lemma PollErrorInv(r: Serving, queue: seq<Item>, ended: bool, reported: seq<LineError>, sent: seq<seq<Byte>>,
                     ending: Option<int>, lines: seq<seq<Byte>>, r': Serving)
    requires ErrorInv(r, ended, reported, sent, ending, lines)
    requires r.queue != [] && r.queue[0].Line? && r'.queue == r.queue[1..]
    ensures ErrorInv(r', ended, reported, sent, ending, lines)
    ensures NoFailure(r'.queue) <==> NoFailure(r.queue)
  {
    hide StopsWith;
    assert forall i :: 0 < i < |r.queue| ==> r.queue[i] == r'.queue[i - 1];
  }

  lemma PollServesLine(s: State, room: nat, lines: seq<seq<Byte>>)
    requires Inv(s, lines) && CursorInside(s.reader) && s.reader.pos < |s.reader.buf|
    ensures Inv(ApplyPoll(s, room), lines)
  {
    var r, ended := s.reader, s.producer.Ended?;
    PollOfCurrentLine(r, ended, room, s.delivered, s.sent);
    var t := ApplyPoll(s, room);
    hide Poll, Accounted, ProducerInv, SentInv, StopsWith, NoFailure;
    assert t.reported == s.reported == [] && t.reader.queue == r.queue;
    assert ErrorInv(t.reader, ended, t.reported, s.sent, s.ending, lines);
    hide ErrorInv;
    assert Completing(t) == Completing(s);
  }

  lemma PollFindsNothing(s: State, room: nat, lines: seq<seq<Byte>>)
    requires Inv(s, lines) && CursorInside(s.reader) && s.reader.pos == |s.reader.buf| && s.reader.queue == []
    ensures Inv(ApplyPoll(s, room), lines)
  {
    hide Accounted, ProducerInv, SentInv, StopsWith, ErrorInv, NoFailure;
    assert s.delivered + [] == s.delivered;
    assert ApplyPoll(s, room) == s;
  }

  lemma PollTakesLine(s: State, room: nat, lines: seq<seq<Byte>>)
    requires Inv(s, lines) && CursorInside(s.reader) && s.reader.pos == |s.reader.buf|
    requires s.reader.queue != [] && s.reader.queue[0].Line?
    ensures Inv(ApplyPoll(s, room), lines)
  {
    var r, ended := s.reader, s.producer.Ended?;
    assert [] !in s.sent;
    PollOfNextLine(r, ended, room, s.delivered, s.sent);
    var t := ApplyPoll(s, room);
    PollErrorInv(r, r.queue, ended, s.reported, s.sent, s.ending, lines, t.reader);
    hide Poll, Accounted, ProducerInv, SentInv, StopsWith, ErrorInv, NoFailure;
    assert t.reported == s.reported;
    assert Completing(t) == Completing(s);
  }

  lemma PollReportsFailure(s: State, room: nat, lines: seq<seq<Byte>>)
    requires Inv(s, lines) && CursorInside(s.reader) && s.reader.pos == |s.reader.buf|
    requires s.reader.queue != [] && s.reader.queue[0].Failure?
    ensures Inv(ApplyPoll(s, room), lines)
  {
    var r := s.reader;
    var t := ApplyPoll(s, room);
    assert r.queue[1..] == [] && t.reader.queue == [] && r.buf == [];
    assert t.reported == [r.queue[0].error] && s.producer.Ended?;
    assert ErrorInv(t.reader, true, t.reported, s.sent, s.ending, lines);
    assert Accounted(t.reader, t.delivered, t.sent) by {
      hide SentInv, ProducerInv, ErrorInv, StopsWith, Flatten;
      assert QueuedLines(r.queue) == [] + QueuedLines([]);
    }
    hide Poll, SentInv, StopsWith, ErrorInv, Accounted, Flatten;
    assert !Completing(t);
  }

  lemma PollKeepsInv(s: State, room: nat, lines: seq<seq<Byte>>)
    requires Inv(s, lines) && CursorInside(s.reader)
    ensures Inv(ApplyPoll(s, room), lines)
  {
    assert s.reader.pos <= |s.reader.buf|;
    hide *;
    if s.reader.pos < |s.reader.buf| {
      PollServesLine(s, room, lines);
    } else if s.reader.queue == [] {
      PollFindsNothing(s, room, lines);
    } else if s.reader.queue[0].Line? {
      PollTakesLine(s, room, lines);
    } else {
      PollReportsFailure(s, room, lines);
    }
  }

  lemma FillKeepsInv(s: State, n: nat, lines: seq<seq<Byte>>)
    requires Inv(s, lines) && Enabled(s, Fill(n))
    ensures Inv(ApplyFill(s, n), lines)
  {
    FillProducerInv(s.producer.line, s.unread, n, s.ending, s.sent, Completing(s), lines);
    var t := ApplyFill(s, n);
    assert !t.producer.Ended? && Completing(t) == Completing(s);
    hide ProducerInv, SentInv, Accounted, ErrorInv, Completing, TakeChunk;
  }

  lemma EndKeepsInv(s: State, a: Action, lines: seq<seq<Byte>>)
    requires Inv(s, lines) && Enabled(s, a) && (a.FillEof? || a.FillFault?)
    ensures Inv(Apply(s, a), lines)
  {
    EndProducerInv(s.producer.line, s.ending, s.sent, Completing(s), lines);
    var t := Apply(s, a);
    hide ProducerInv, SentInv, Accounted, StopsWith, NoFailure;
    assert ErrorInv(t.reader, t.producer.Ended?, t.reported, t.sent, t.ending, lines);
    hide ErrorInv;
    assert Completing(t) == Completing(s);
  }

  lemma DropKeepsInv(s: State, lines: seq<seq<Byte>>)
    requires Inv(s, lines)
    ensures Inv(s.(receiving := false), lines)
  {
    hide SentInv, Accounted, ErrorInv, StopsWith, Lines;
  }

  lemma StepKeepsInv(s: State, a: Action, lines: seq<seq<Byte>>)
    requires Inv(s, lines) && Enabled(s, a)
    ensures Inv(Apply(s, a), lines)
    ensures Apply(s, a).ending == s.ending
  {
    hide Inv, Poll, CursorInside, TakeChunk;
    match a
    case Fill(n) => FillKeepsInv(s, n, lines);
    case FillEof => EndKeepsInv(s, a, lines);
    case FillFault => EndKeepsInv(s, a, lines);
    case Send => SendKeepsInv(s, lines);
    case PollWith(room) => PollKeepsInv(s, room, lines);
    case DropReader => DropKeepsInv(s, lines);
  }

  lemma {:induction false} RunKeepsInv(s: State, run: seq<Action>, lines: seq<seq<Byte>>)
    requires Inv(s, lines) && Legal(s, run)
    ensures Inv(After(s, run), lines) && After(s, run).ending == s.ending
    decreases |run|
  {
    hide Inv, Apply;
    if run != [] {
      StepKeepsInv(s, run[0], lines);
      RunKeepsInv(Apply(s, run[0]), run[1..], lines);
    }
  }

  // --------------------------------------------------------------- theorems --

  ghost predicate Reachable(s: State, source: seq<Byte>, ending: Option<int>) {
    exists run :: Legal(Init(source, ending), run) && After(Init(source, ending), run) == s
  }

  lemma ReachableInv(s: State, source: seq<Byte>, ending: Option<int>)
    requires Reachable(s, source, ending)
    ensures Inv(s, Lines(source)) && s.ending == ending
  {
    hide Inv;
    var run :| Legal(Init(source, ending), run) && After(Init(source, ending), run) == s;
    InitProducer(source, ending);
    InitInv(source, ending, Lines(source));
    RunKeepsInv(Init(source, ending), run, Lines(source));
  }

  function InHand(p: Producer): seq<Byte> {
    match p
    case Reading(line) => line
    case Sending(Line(line)) => line
    case _ => []
  }

  // Until an error item is made or the reader is dropped, nothing is lost, doubled or reordered.
  lemma BytesAreConserved(s: State, source: seq<Byte>, ending: Option<int>)
    requires Reachable(s, source, ending)
    requires Completing(s) && !(s.producer.Sending? && s.producer.item.Failure?)
    ensures CursorInside(s.reader)
    ensures s.delivered + s.reader.buf[s.reader.pos..] + Flatten(QueuedLines(s.reader.queue)) + InHand(s.producer)
            + (if s.producer.Ended? then [] else s.unread) == source
  {
    hide Reachable, SentInv, ErrorInv;
    ReachableInv(s, source, ending);
    var queued := QueuedLines(s.reader.queue);
    var k := |s.sent| - |queued|;
    assert s.sent == s.sent[..k] + queued;
    FlattenAppend(s.sent[..k], queued);
    LinesIsASplit(source);
    ProducedSoFar(s.producer, s.unread, s.ending, s.sent, Lines(source));
  }

  lemma ProducedSoFar(p: Producer, unread: seq<Byte>, ending: Option<int>, sent: seq<seq<Byte>>, lines: seq<seq<Byte>>)
    requires ProducerInv(p, unread, ending, sent, true, lines) && !(p.Sending? && p.item.Failure?)
    ensures Flatten(lines) == Flatten(sent) + InHand(p) + (if p.Ended? then [] else unread)
  {
    LinesIsASplit(unread);
    var past := Flatten(sent);
    match p
    case Reading(line) =>
      LinesIsASplit(line + unread);
      FlattenAppend(sent, Lines(line + unread));
      ConcatAssociates(past, line, unread);
    case Sending(Line(line)) =>
      FlattenSnoc(sent, line);
      FlattenAppend(sent + [line], Lines(unread));
    case Ended =>
      assert past + [] + [] == past;
  }

  // What has been served ends at a line boundary of the source, in every run, error or not.
  lemma ServedIsBoundary(s: State, source: seq<Byte>, ending: Option<int>)
    requires Reachable(s, source, ending)
    ensures CursorInside(s.reader) && Boundary(Served(s.reader, s.delivered), source)
  {
    hide Reachable, ErrorInv, ProducerInv;
    ReachableInv(s, source, ending);
    var k := |s.sent| - |QueuedLines(s.reader.queue)|;
    assert s.sent[..k] == Lines(source)[..k];
    WholeLinesEndAtBoundary(source, k);
  }

  lemma DeliveredIsAPrefix(s: State, source: seq<Byte>, ending: Option<int>)
    requires Reachable(s, source, ending)
    ensures s.delivered <= source
  {
    hide Reachable;
    ServedIsBoundary(s, source, ending);
  }

  // Cancel safety: a poll suspends only between lines.
  lemma PendingOnlyBetweenLines(s: State, source: seq<Byte>, ending: Option<int>, room: nat)
    requires Reachable(s, source, ending) && Enabled(s, PollWith(room))
    requires Poll(s.reader, s.producer.Ended?, room).0.Pending?
    ensures s.delivered == [] || Terminated(s.delivered) || s.delivered == source
  {
    hide Reachable;
    ServedIsBoundary(s, source, ending);
    assert Served(s.reader, s.delivered) == s.delivered;
  }

  ghost predicate AllDeliverable(source: seq<Byte>, ending: Option<int>) {
    ending.None? && forall line :: line in Lines(source) ==> |line| <= MAX_LINE_SIZE
  }

  lemma NoEmptyLineSent(s: State, lines: seq<seq<Byte>>)
    requires Inv(s, lines)
    ensures [] !in s.sent
  {
  }

  // `Ok(0)` into a nonempty buffer means the end: the consumer then has every whole line before
  // the first one that cannot be delivered, and an error was reported exactly when there is one.
  lemma ZeroBytesMeansTheEnd(s: State, source: seq<Byte>, ending: Option<int>, room: nat)
    requires Reachable(s, source, ending) && Enabled(s, PollWith(room)) && room > 0
    requires Poll(s.reader, s.producer.Ended?, room).0 == Ready([])
    ensures s.producer.Ended? && s.delivered == Flatten(s.sent)
    ensures s.reported == [] <==> AllDeliverable(source, ending)
    ensures s.reported == [] ==> s.delivered == source
    ensures s.reported != [] ==> |s.reported| == 1 && StopsWith(s.reported[0], s.sent, Lines(source), ending)
  {
    hide Reachable;
    ReachableInv(s, source, ending);
    NoEmptyLineSent(s, Lines(source));
    if s.reader.queue != [] && s.reader.queue[0].Line? {
      NextLineWasSent(s.reader, s.delivered, s.sent);
    }
    assert s.reader.queue == [];
    assert s.sent[..|s.sent|] == s.sent;
    assert Served(s.reader, s.delivered) == s.delivered;
    LinesIsASplit(source);
    hide Lines, Flatten;
    if s.reported == [] {
      assert forall line :: line in s.sent ==> Deliverable(line, ending);
    } else if s.reported[0].TooLong? {
      assert Lines(source)[|s.sent|] in Lines(source);
    }
  }

  // No deadlock: when a poll has to wait, the producer can move.
  lemma WaitingPollHasALiveProducer(s: State, source: seq<Byte>, ending: Option<int>, room: nat)
    requires Reachable(s, source, ending) && Enabled(s, PollWith(room))
    requires Poll(s.reader, s.producer.Ended?, room).0.Pending?
    ensures Enabled(s, Fill(1)) || Enabled(s, FillEof) || Enabled(s, FillFault) || Enabled(s, Send)
  {
    hide Reachable, Flatten, QueuedLines, Lines, StopsWith, SentInv;
    ReachableInv(s, source, ending);
  }

  function ItemWork(item: Item): nat {
    match item case Line(line) => 3 * |line| case Failure(_) => 1
  }

  function QueueWork(queue: seq<Item>): nat {
    if queue == [] then 0 else ItemWork(queue[0]) + QueueWork(queue[1..])
  }

  lemma {:induction false} QueueWorkSnoc(queue: seq<Item>, item: Item)
    ensures QueueWork(queue + [item]) == QueueWork(queue) + ItemWork(item)
  {
    if queue == [] {
      assert queue + [item] == [item];
    } else {
      QueueWorkSnoc(queue[1..], item);
      assert (queue + [item])[1..] == queue[1..] + [item];
    }
  }

  function ProducerWork(p: Producer): nat {
    match p
    case Reading(line) => 3 + 5 * |line|
    case Sending(Line(line)) => 3 + 4 * |line|
    case Sending(Failure(_)) => 2
    case Ended => 0
  }

  // What is still to be done, weighted by how far each byte is from the consumer.
  function Work(s: State): nat
    requires CursorInside(s.reader)
  {
    6 * |s.unread| + ProducerWork(s.producer) + QueueWork(s.reader.queue) + (|s.reader.buf| - s.reader.pos)
    + if s.receiving then 1 else 0
  }

  // A poll that moves nothing: one with no room, or `Pending`, or the zero bytes of the end.
  predicate Idle(s: State, a: Action)
    requires Enabled(s, a)
  {
    a.PollWith? && (a.room == 0 || Poll(s.reader, s.producer.Ended?, a.room).0 in {Pending, Ready([])})
  }

  lemma FillUsesUpWork(s: State, n: nat)
    requires Enabled(s, Fill(n)) && CursorInside(s.reader)
    ensures Work(ApplyFill(s, n)) < Work(s)
  {
    hide QueueWork;
    var used := FirstLine(s.unread[..n]);
    assert |s.producer.line + s.unread[..n][..used]| == |s.producer.line| + used;
  }

  lemma PollUsesUpWork(s: State, room: nat)
    requires Accounted(s.reader, s.delivered, s.sent) && [] !in s.sent && room > 0
    requires Poll(s.reader, s.producer.Ended?, room).0 !in {Pending, Ready([])}
    ensures CursorInside(ApplyPoll(s, room).reader) && Work(ApplyPoll(s, room)) < Work(s)
  {
    assert CursorInside(s.reader);
    if s.reader.pos == |s.reader.buf| && s.reader.queue[0].Line? {
      NextLineWasSent(s.reader, s.delivered, s.sent);
    }
    hide Accounted, Served, QueuedLines, ProducerWork;
  }

  lemma StepUsesUpWork(s: State, a: Action, lines: seq<seq<Byte>>)
    requires Inv(s, lines) && Enabled(s, a) && !Idle(s, a)
    ensures CursorInside(Apply(s, a).reader) && Work(Apply(s, a)) < Work(s)
  {
    NoEmptyLineSent(s, lines);
    match a
    case Fill(n) => FillUsesUpWork(s, n); hide Work, ApplyFill;
    case PollWith(room) => PollUsesUpWork(s, room); hide Work, ApplyPoll, Poll;
    case Send =>
      hide QueueWork, SentInv, ErrorInv;
      if s.receiving {
        QueueWorkSnoc(s.reader.queue, s.producer.item);
      }
    case _ => hide QueueWork, SentInv, ErrorInv;
  }

  ghost predicate NeverIdle(s: State, run: seq<Action>)
    requires Legal(s, run)
    decreases |run|
  {
    run == [] || (!Idle(s, run[0]) && NeverIdle(Apply(s, run[0]), run[1..]))
  }

  // A source of n bytes is through after at most 6n + 4 steps that are not idle polls; as a
  // waiting poll always leaves the producer able to move, the stream always completes.
  lemma RunsAreBounded(source: seq<Byte>, ending: Option<int>, run: seq<Action>)
    requires Legal(Init(source, ending), run) && NeverIdle(Init(source, ending), run)
    ensures |run| <= 6 * |source| + 4
  {
    hide Legal, NeverIdle, Inv, Lines;
    InitProducer(source, ending);
    InitInv(source, ending, Lines(source));
    WorkBoundsRun(Init(source, ending), run, Lines(source));
  }

  lemma {:induction false} WorkBoundsRun(s: State, run: seq<Action>, lines: seq<seq<Byte>>)
    requires Inv(s, lines) && Legal(s, run) && NeverIdle(s, run)
    ensures |run| <= Work(s)
    decreases |run|
  {
    hide Apply, Work;
    if run != [] {
      StepKeepsInv(s, run[0], lines);
      StepUsesUpWork(s, run[0], lines);
      hide Inv;
      WorkBoundsRun(Apply(s, run[0]), run[1..], lines);
    }
  }

  // --------------------------------------------------------- the running code --

  // Some run leads from one state to the other.
  ghost predicate Leads(s: State, t: State) {
    exists run :: Legal(s, run) && After(s, run) == t
  }

  lemma NoSteps(s: State)
    ensures Legal(s, []) && After(s, []) == s
  {
  }

  lemma LegalCons(s: State, a: Action, rest: seq<Action>)
    requires Enabled(s, a) && Legal(Apply(s, a), rest)
    ensures Legal(s, [a] + rest) && After(s, [a] + rest) == After(Apply(s, a), rest)
  {
    hide Apply, Enabled;
    assert ([a] + rest)[1..] == rest;
  }

  lemma Uncons(s: State, run: seq<Action>)
    requires Legal(s, run) && run != []
    ensures Enabled(s, run[0]) && Legal(Apply(s, run[0]), run[1..])
    ensures After(s, run) == After(Apply(s, run[0]), run[1..])
  {
    hide Apply, Enabled;
  }

  lemma {:induction false} LegalAppend(s: State, a: seq<Action>, b: seq<Action>)
    requires Legal(s, a) && Legal(After(s, a), b)
    ensures Legal(s, a + b) && After(s, a + b) == After(After(s, a), b)
    decreases |a|
  {
    hide *;
    if a == [] {
      NoSteps(s);
      assert a + b == b;
    } else {
      Uncons(s, a);
      LegalAppend(Apply(s, a[0]), a[1..], b);
      LegalCons(s, a[0], a[1..] + b);
      assert a + b == [a[0]] + (a[1..] + b);
    }
  }

  lemma LeadsOn(s: State, t: State, u: State)
    requires Leads(s, t) && Leads(t, u)
    ensures Leads(s, u)
  {
    hide Legal, After;
    var a :| Legal(s, a) && After(s, a) == t;
    var b :| Legal(t, b) && After(t, b) == u;
    LegalAppend(s, a, b);
  }

  lemma LeadsNowhere(s: State)
    ensures Leads(s, s)
  {
    NoSteps(s);
  }

  lemma LeadsByOne(s: State, a: Action)
    requires Enabled(s, a)
    ensures Leads(s, Apply(s, a))
  {
    hide Apply, Enabled, Legal, After;
    NoSteps(Apply(s, a));
    LegalCons(s, a, []);
  }

  // What the producer does with the outcome of reading a line.
  function AfterRead(r: Result<nat, LineError>, line: seq<Byte>): Producer {
    match r
    case Ok(count) => if count == 0 then Ended else Sending(Line(line))
    case Err(error) => Sending(Failure(error))
  }

  // However the source was cut into chunks, the outcome is one the protocol can reach: one fill
  // takes the bytes, and the end of the source does the rest.
  lemma ReadIsARun(s: State, r: Result<nat, LineError>, line: seq<Byte>)
    requires s.producer == Reading([]) && ReadsLine(r, line, s.unread, s.ending)
    ensures line <= s.unread
    ensures Leads(s, s.(unread := s.unread[|line|..], producer := AfterRead(r, line)))
  {
    var t := if line == [] then s else s.(unread := s.unread[|line|..], producer := TakeChunk([], line));
    TakenWhole(r, line, s.unread, s.ending);
    if line == [] {
      LeadsNowhere(s);
      assert s.unread[0..] == s.unread;
    } else {
      OneFill(s, line);
    }
    hide Legal, After, FirstLine, TakeChunk, Leads, ReadsLine;
    if t.producer.Reading? {
      var a := if s.ending.None? then FillEof else FillFault;
      LeadsByOne(t, a);
      LeadsOn(s, t, Apply(t, a));
    }
  }

  lemma OneFill(s: State, line: seq<Byte>)
    requires s.producer == Reading([]) && line != [] && line <= s.unread && FirstLine(line) == |line|
    ensures Leads(s, s.(unread := s.unread[|line|..], producer := TakeChunk([], line)))
  {
    hide FirstLine, TakeChunk, Leads, Legal, After;
    assert s.unread[..|line|] == line;
    LeadsByOne(s, Fill(|line|));
  }

  // What was read in one piece: a whole line, too much of one, or everything up to the end.
  lemma TakenWhole(r: Result<nat, LineError>, line: seq<Byte>, content: seq<Byte>, ending: Option<int>)
    requires ReadsLine(r, line, content, ending)
    ensures line != [] ==> FirstLine(line) == |line|
    ensures line != [] && TakeChunk([], line).Sending? ==> TakeChunk([], line) == AfterRead(r, line)
    ensures line != [] && TakeChunk([], line).Reading? ==> TakeChunk([], line) == Reading(line)
    ensures line == [] || TakeChunk([], line).Reading? ==>
              && content[|line|..] == []
              && match ending
                 case Some(code) => r == Err(SourceFault(code))
                 case None => r == Ok(|line|)
  {
    ReadEnds(r, line, content, ending);
    if line != [] {
      InOnePiece(line, content);
      ChunkAlone(line);
    }
    hide FirstLine, TakeChunk, Terminated, ReadsLine;
  }

  lemma ReadEnds(r: Result<nat, LineError>, line: seq<Byte>, content: seq<Byte>, ending: Option<int>)
    requires ReadsLine(r, line, content, ending)
    ensures line <= content && |line| <= FirstLine(content)
    ensures |line| > MAX_LINE_SIZE ==> r == Err(TooLong(|line|))
    ensures |line| <= MAX_LINE_SIZE && Terminated(line) ==> r == Ok(|line|) && line != []
    ensures |line| <= MAX_LINE_SIZE && !Terminated(line) ==>
              content[|line|..] == [] && r == if ending.None? then Ok(|line|) else Err(SourceFault(ending.value))
  {
    var n := FirstLine(content);
    assert content[..|line|] == line;
    assert n < |content| ==> Terminated(content[..n]);
    hide FirstLine;
  }

  lemma ChunkAlone(line: seq<Byte>)
    requires line != [] && FirstLine(line) == |line|
    ensures TakeChunk([], line)
            == if |line| > MAX_LINE_SIZE then Sending(Failure(TooLong(|line|)))
               else if Terminated(line) then Sending(Line(line)) else Reading(line)
  {
    hide FirstLine;
    assert line[..|line|] == line;
    NothingBefore(line);
  }

  lemma InOnePiece(line: seq<Byte>, content: seq<Byte>)
    requires line != [] && line <= content && |line| <= FirstLine(content)
    ensures FirstLine(line) == |line|
  {
    assert forall i :: 0 <= i < |line| ==> line[i] == content[i];
    FirstLineUnique(line, |line|);
  }

  // What the producer has in hand after reading from a source with `content` left.
  ghost predicate Fetched(p: Producer, content: seq<Byte>, ending: Option<int>) {
    var n := FirstLine(content);
    match p
    case Sending(Line(line)) =>
      && line != [] && line == content[..n] && n <= 67_108_864
      && (line[n - 1] == 10 || (ending.None? && n == |content|)) && (forall i :: 0 <= i < n - 1 ==> line[i] != 10)
    case Sending(Failure(TooLong(read))) => n >= read > 67_108_864
    case Sending(Failure(SourceFault(code))) =>
      n == |content| <= 67_108_864 && ending == Some(code) && forall i :: 0 <= i < n ==> content[i] != 10
    case Ended => content == [] && ending.None?
    case Reading(_) => false
  }

  lemma LineIsFetched(r: Result<nat, LineError>, line: seq<Byte>, content: seq<Byte>, ending: Option<int>)
    requires ReadsLine(r, line, content, ending)
    ensures Fetched(AfterRead(r, line), content, ending)
  {
    var n := FirstLine(content);
    assert line <= content ==> line == content[..|line|];
    assert n < |content| ==> Terminated(content[..n]);
    hide FirstLine;
  }

  lemma ReadUsesUpWork(r: Result<nat, LineError>, line: seq<Byte>, content: seq<Byte>, ending: Option<int>)
    requires ReadsLine(r, line, content, ending)
    ensures ProducerWork(AfterRead(r, line)) < ProducerWork(Reading([])) + 6 * |line|
  {
    hide FirstLine, Terminated;
  }

  // The producer is not at its end, and does not wait for a live receiver.
  predicate CanProduce(s: State) {
    s.producer.Reading? || (s.producer.Sending? && (s.receiving ==> |s.reader.queue| < CHANNEL_SLOTS))
  }

  // The producer task, its channel and the consumer, as they run beside each other.
  class Running {
    const source: BufReader
    const consumer: LineBufferedRead
    var producer: Producer           // where the producer stands between two awaits
    var receiving: bool
    ghost var world: State

    constructor (source: BufReader)
      requires source.Valid()
      ensures Valid() && this.source == source && fresh(consumer) && fresh(consumer.rx)
      ensures world == Init(source.Content(), source.Ending())
    {
      var tx := new Channel();
      this.source := source;
      consumer := new LineBufferedRead(tx);
      producer, receiving := Reading([]), true;
      world := Init(source.Content(), source.Ending());
    }

    ghost predicate Valid()
      reads this, source, consumer, consumer.rx
    {
      && source.Valid() && CursorInside(world.reader)
      && world.producer == producer && world.receiving == receiving && world.reader == consumer.Contents()
      && consumer.rx.closed == producer.Ended?
      && (producer.Reading? ==> producer.line == [])
      && (producer.Reading? || (producer.Sending? && producer.item.Line?) ==>
            world.unread == source.Content() && world.ending == source.Ending())
      && (producer.Sending? && producer.item.Line? ==> producer.item.bytes != [])
    }

    // The producer runs to its next await: it reads a line, or its `send` goes through. It stands
    // still only at its end and while a live receiver's channel is full.
    method Produce()
      requires Valid()
      modifies this, source, consumer.rx
      ensures Valid() && Leads(old(world), world)
      ensures world.delivered == old(world).delivered && world.reported == old(world).reported
      ensures receiving == old(receiving)
      ensures old(producer).Reading? ==> Fetched(producer, old(source.Content()), old(source.Ending()))
      ensures old(producer).Sending? && receiving && |old(consumer.rx.queue)| < 65 ==>
                && consumer.rx.queue == old(consumer.rx.queue) + [old(producer).item]
                && producer == if old(producer).item.Line? then Reading([]) else Ended
      ensures old(producer).Sending? && receiving && |old(consumer.rx.queue)| >= 65 ==>
                world == old(world) && consumer.Contents() == old(consumer.Contents())
      ensures old(producer).Sending? && !receiving ==> producer == Ended
      ensures !old(producer).Sending? || !receiving ==> consumer.rx.queue == old(consumer.rx.queue)
      ensures if CanProduce(old(world)) then Work(world) < Work(old(world)) else world == old(world)
    {
      hide Leads, ReadsLine, MAX_LINE_SIZE, QueueWork, Fetched;
      LeadsNowhere(world);
      match producer {
      case Reading(_) =>
        var r, line := ReadLineCapped(source);
        ReadIsARun(world, r, line);
        LineIsFetched(r, line, world.unread, world.ending);
        ReadUsesUpWork(r, line, world.unread, world.ending);
        producer := AfterRead(r, line);
        world := world.(unread := world.unread[|line|..], producer := producer);
      case Sending(item) =>
        if receiving && |consumer.rx.queue| >= CHANNEL_SLOTS {
          return;
        }
        LeadsByOne(world, Send);
        QueueWorkSnoc(consumer.rx.queue, item);
        world := Apply(world, Send);
        if receiving {
          consumer.rx.queue := consumer.rx.queue + [item];
        }
        producer := if receiving && item.Line? then Reading([]) else Ended;
      case Ended =>
      }
      consumer.rx.closed := producer.Ended?;
    }

    // A poll of the reader, on what it holds and what is in the channel.
    method Consume(out: array<Byte>) returns (result: PollResult)
      requires Valid() && receiving
      modifies this, consumer, consumer.rx, out
      ensures Valid() && Leads(old(world), world) && receiving
      ensures (result, consumer.Contents()) == Poll(old(consumer.Contents()), producer.Ended?, out.Length)
      ensures producer == old(producer) && world == ApplyPoll(old(world), out.Length)
      ensures world.delivered == old(world).delivered + if result.Ready? then result.bytes else []
      ensures world.reported == old(world).reported + if result.Failed? then [result.error] else []
    {
      hide Leads, Poll;
      LeadsByOne(world, PollWith(out.Length));
      world := Apply(world, PollWith(out.Length));
      result := consumer.PollRead(out);
    }

    method Quit()
      requires Valid()
      modifies this
      ensures Valid() && Leads(old(world), world) && !receiving
      ensures producer == old(producer) && consumer.Contents() == old(consumer.Contents())
      ensures world.delivered == old(world).delivered && world.reported == old(world).reported
    {
      hide Leads;
      LeadsNowhere(world);
      if receiving {
        LeadsByOne(world, DropReader);
        receiving := false;
        world := Apply(world, DropReader);
      }
    }
  }

  datatype Turn = ProducerTurn | ConsumerTurn(room: nat) | DropTurn

  // Everything sent was delivered, and nothing more will be.
  predicate Finished(s: State) {
    s.producer.Ended? && s.reader.queue == [] && s.reader.buf == []
  }

  // The producer and the consumer take turns, and every poll has room.
  predicate TakeTurns(schedule: seq<Turn>) {
    forall i :: 0 <= i < |schedule| ==>
      if i % 2 == 0 then schedule[i].ProducerTurn? else schedule[i].ConsumerTurn? && schedule[i].room > 0
  }

  // After `turns` turns: a piece of work was done in each pair of them, or there is none left.
  predicate OnTime(s: State, turns: nat, bound: nat)
    requires CursorInside(s.reader)
  {
    || Finished(s)
    || Work(s) + (turns + 1) / 2 <= bound
    || (turns % 2 == 1 && !CanProduce(s) && Work(s) + turns / 2 <= bound)
  }

  lemma PollOnTime(s: State, room: nat, turns: nat, bound: nat, lines: seq<seq<Byte>>)
    requires Inv(s, lines) && s.receiving && room > 0 && CursorInside(s.reader)
    requires turns % 2 == 1 && OnTime(s, turns, bound)
    ensures CursorInside(ApplyPoll(s, room).reader) && OnTime(ApplyPoll(s, room), turns + 1, bound)
  {
    hide Work, QueueWork, Inv;
    assert Finished(s) ==> Idle(s, PollWith(room));
    if Idle(s, PollWith(room)) {
      IdlePoll(s, room, lines);
    } else {
      StepUsesUpWork(s, PollWith(room), lines);
    }
    hide ApplyPoll, Poll;
  }

  // A poll with room that moves nothing leaves the producer able to move, or ended.
  lemma IdlePoll(s: State, room: nat, lines: seq<seq<Byte>>)
    requires Inv(s, lines) && s.receiving && room > 0 && CursorInside(s.reader) && Idle(s, PollWith(room))
    ensures ApplyPoll(s, room) == s
    ensures Finished(s) || CanProduce(s)
  {
    NoEmptyLineSent(s, lines);
    if s.reader.queue != [] && s.reader.queue[0].Line? && s.reader.pos == |s.reader.buf| {
      NextLineWasSent(s.reader, s.delivered, s.sent);
    }
    hide Accounted, SentInv, ErrorInv, ProducerInv;
    assert s.reader.queue == [] && s.reader.buf == [];
    assert s.delivered + [] == s.delivered;
  }

  lemma FinishedIsTheEnd(s: State, source: seq<Byte>, ending: Option<int>)
    requires Reachable(s, source, ending) && s.receiving && CursorInside(s.reader) && Finished(s)
    ensures s.delivered == Flatten(s.sent)
    ensures s.reported == [] <==> AllDeliverable(source, ending)
    ensures s.reported == [] ==> s.delivered == source
    ensures s.reported != [] ==> |s.reported| == 1 && StopsWith(s.reported[0], s.sent, Lines(source), ending)
  {
    hide Reachable, AllDeliverable, StopsWith, Flatten, Lines;
    ZeroBytesMeansTheEnd(s, source, ending, 1);
  }

  // Under every schedule the code stays within the reachable states, and what it delivers is a
  // prefix of the source. When the two sides take turns for long enough, everything arrives.
  method Execute(source: BufReader, schedule: seq<Turn>)
    returns (delivered: seq<Byte>, reported: seq<LineError>, ghost end: State)
    requires source.Valid()
    modifies source
    ensures Reachable(end, old(source.Content()), old(source.Ending()))
    ensures end.delivered == delivered && end.reported == reported
    ensures delivered <= old(source.Content())
    ensures TakeTurns(schedule) && |schedule| >= 12 * |old(source.Content())| + 10 ==>
              && (reported == [] <==> AllDeliverable(old(source.Content()), old(source.Ending())))
              && (reported == [] ==> delivered == old(source.Content()))
              && (reported != [] ==> |reported| == 1 && delivered == Flatten(end.sent)
                                     && StopsWith(reported[0], end.sent, Lines(old(source.Content())), old(source.Ending())))
  {
    var task := new Running(source);
    delivered, reported := [], [];
    ghost var start, content, ending := task.world, source.Content(), source.Ending();
    ghost var bound := 6 * |content| + 4;
    LeadsNowhere(start);
    assert OnTime(start, 0, bound);
    hide Leads, Poll, Work, CanProduce, Finished, AllDeliverable, StopsWith, Lines, Flatten, Reachable, Inv;
    for i := 0 to |schedule|
      invariant task.Valid() && Leads(start, task.world) && task.source == source
      invariant fresh(task.consumer) && fresh(task.consumer.rx)
      invariant task.world.delivered == delivered && task.world.reported == reported
      invariant TakeTurns(schedule) ==> task.receiving && OnTime(task.world, i, bound)
    {
      ghost var before := task.world;
      LeadsFromInit(before, content, ending);
      match schedule[i] {
        case ProducerTurn =>
          task.Produce();
        case ConsumerTurn(room) =>
          if task.receiving {
            var out := new Byte[room];
            var result := task.Consume(out);
            delivered := delivered + if result.Ready? then result.bytes else [];
            reported := reported + if result.Failed? then [result.error] else [];
            if TakeTurns(schedule) {
              ReachableInv(before, content, ending);
              PollOnTime(before, room, i, bound, LineStream.Lines(content));
            }
          } else {
            LeadsNowhere(before);
          }
        case DropTurn => task.Quit();
      }
      LeadsOn(start, before, task.world);
    }
    end := task.world;
    LeadsFromInit(end, content, ending);
    DeliveredIsAPrefix(end, content, ending);
    if TakeTurns(schedule) && |schedule| >= 12 * |content| + 10 {
      assert Finished(end);
      FinishedIsTheEnd(end, content, ending);
    }
  }

  lemma LeadsFromInit(s: State, source: seq<Byte>, ending: Option<int>)
    requires Leads(Init(source, ending), s)
    ensures Reachable(s, source, ending)
  {
  }
}

/**
 Rendering a compaction segment: the turns that fit a byte budget, whole turns only, and a
 notice when some are left out. Text is measured in bytes; the turns arrive already rendered.
 */
module SegmentRender {
  import opened Prelude
  import opened CompactionPaths

  const SEGMENT_MAX_BYTES: nat := 512 * 1024
  const NOTICE_BYTES: nat := 64          // of the notice with its two placeholders
  const PER_TURN_OVERHEAD_BYTES: nat := 64

  function SaturatingSub(a: nat, b: nat): nat {
    if a <= b then 0 else a - b
  }

  function Budget(preamble: string): nat {
    SaturatingSub(SEGMENT_MAX_BYTES, |preamble| + NOTICE_BYTES + PER_TURN_OVERHEAD_BYTES)
  }

  function Notice(omitted: nat): string {
    "\n\n[... TRUNCATED at " + Decimal(SEGMENT_MAX_BYTES) + " bytes, " + Decimal(omitted) + " turns omitted ...]\n"
  }

  lemma CapWritten()
    ensures Decimal(SEGMENT_MAX_BYTES) == "524288"
  {
    assert Decimal(52) == "52";
    assert Decimal(5242) == "5242";
  }

  lemma NoticeNames(omitted: nat)
    ensures Notice(omitted)
            == "\n\n[... TRUNCATED at " + "524288" + " bytes, " + Decimal(omitted) + " turns omitted ...]\n"
  {
    hide Decimal;
    CapWritten();
  }

  // What follows the first `k` turns.
  function Ending(blocks: seq<string>, k: nat): string
    requires k <= |blocks|
  {
    if k < |blocks| then Notice(|blocks| - k) else ""
  }

  function TotalBytes(blocks: seq<string>): nat {
    if blocks == [] then 0 else TotalBytes(blocks[..|blocks| - 1]) + |blocks[|blocks| - 1]|
  }

  function Joined(blocks: seq<string>): string {
    if |blocks| == 0 then ""
    else if |blocks| == 1 then blocks[0]
    else Joined(blocks[..|blocks| - 1]) + "\n" + blocks[|blocks| - 1]
  }

  // How many blocks go in: each further one only while all before it went in and fit.
  function Fitting(blocks: seq<string>, budget: nat): (k: nat)
    ensures k <= |blocks|
  {
    if blocks == [] then 0
    else
      var before := Fitting(blocks[..|blocks| - 1], budget);
      if before == |blocks| - 1 && TotalBytes(blocks) <= budget then |blocks| else before
  }

  function Document(preamble: string, blocks: seq<string>): string {
    var k := Fitting(blocks, Budget(preamble));
    preamble + (Joined(blocks[..k]) + Ending(blocks, k))
  }

  // `turnsHeader` is the section heading of the chosen detail; without one no turns are rendered.
  method RenderSegmentMd(preambleHead: string, turnsHeader: Option<string>, blocks: seq<string>) returns (doc: string)
    ensures doc == if turnsHeader.None? then preambleHead else Document(preambleHead + turnsHeader.value, blocks)
  {
    if turnsHeader.None? {
      return preambleHead;
    }
    var preamble := preambleHead + turnsHeader.value;
    var budget := Budget(preamble);
    var rendered: seq<string>, used, truncatedAt: Option<nat> := [], 0, None;
    for i := 0 to |blocks|
      invariant rendered == blocks[..i] && used == TotalBytes(rendered) <= budget && Fitting(rendered, budget) == i
      invariant truncatedAt.None?
    {
      var block := blocks[i];
      assert blocks[..i + 1][..i] == blocks[..i];
      if used + |block| > budget {
        truncatedAt := Some(i);
        FittingStops(blocks, budget, i);
        break;
      }
      used := used + |block|;
      rendered := rendered + [block];
    }
    assert truncatedAt.None? ==> rendered == blocks;
    assert blocks[..|blocks|] == blocks;
    var body := Joined(rendered);
    DocumentParts(preamble, blocks);
    assert Ending(blocks, |rendered|) == if truncatedAt.Some? then Notice(|blocks| - truncatedAt.value) else "";
    hide *;
    ConcatAssociates(preamble, body, Ending(blocks, |rendered|));
    if truncatedAt.Some? {
      var omitted := |blocks| - truncatedAt.value;
      body := body + Notice(omitted);
    } else {
      assert body + "" == body;
    }
    doc := preamble + body;
  }

  lemma {:induction false} FittingStops(blocks: seq<string>, budget: nat, k: nat)
    requires k < |blocks| && Fitting(blocks[..k], budget) == k && TotalBytes(blocks[..k + 1]) > budget
    ensures Fitting(blocks, budget) == k
  {
    if k + 1 == |blocks| {
      assert blocks[..k + 1] == blocks;
      assert blocks[..|blocks| - 1] == blocks[..k];
    } else {
      var front := blocks[..|blocks| - 1];
      assert front[..k] == blocks[..k] && front[..k + 1] == blocks[..k + 1];
      FittingStops(front, budget, k);
    }
  }

  // The rendered turns are the longest prefix within the budget.
  lemma {:induction false} LongestPrefixFits(blocks: seq<string>, budget: nat, j: nat)
    requires j <= |blocks|
    ensures TotalBytes(blocks[..j]) <= budget <==> j <= Fitting(blocks, budget)
  {
    if blocks != [] {
      var front := blocks[..|blocks| - 1];
      if j < |blocks| {
        assert front[..j] == blocks[..j];
        LongestPrefixFits(front, budget, j);
      } else {
        assert blocks[..j] == blocks && front[..|front|] == front;
        LongestPrefixFits(front, budget, |front|);
      }
    }
  }

  // In bytes: a prefix of the turns is rendered exactly when it and the preamble stay 128 below the cap
  // (or it is empty).
  lemma RenderedIffFits(preamble: string, blocks: seq<string>, j: nat)
    requires j <= |blocks|
    ensures j <= Fitting(blocks, Budget(preamble))
            <==> TotalBytes(blocks[..j]) == 0 || |preamble| + TotalBytes(blocks[..j]) + 128 <= 524_288
  {
    LongestPrefixFits(blocks, Budget(preamble), j);
    hide Fitting, TotalBytes;
  }

  lemma {:induction false} JoinedLength(blocks: seq<string>)
    ensures |Joined(blocks)| == TotalBytes(blocks) + (if blocks == [] then 0 else |blocks| - 1)
  {
    if |blocks| > 1 {
      JoinedLength(blocks[..|blocks| - 1]);
    } else if |blocks| == 1 {
      assert TotalBytes(blocks[..0]) == 0;
    }
  }

  lemma JoinedSnoc(front: seq<string>, last: string)
    ensures Joined(front + [last]) == if front == [] then last else Joined(front) + "\n" + last
  {
    assert (front + [last])[..|front|] == front;
  }

  lemma LastStands(front: seq<string>, last: string)
    ensures StandsAt(Joined(front + [last]), TotalBytes(front) + |front|, last)
    ensures front != [] ==> StandsAt(Joined(front + [last]), TotalBytes(front) + |front| - 1, "\n")
  {
    hide *;
    JoinedSnoc(front, last);
    JoinedLength(front);
    var joined := Joined(front);
    if front == [] {
      NoneTotal();
      StandsBetween([], last, []);
      assert [] + last + [] == last;
    } else {
      StandsBetween(joined + "\n", last, []);
      StandsBetween(joined, "\n", last);
      assert joined + "\n" + last + [] == joined + "\n" + last;
    }
  }

  lemma NoneTotal()
    ensures TotalBytes([]) == 0
  {
  }

  lemma StandsStill(front: seq<string>, last: string, at: nat, part: string)
    requires front != [] && StandsAt(Joined(front), at, part)
    ensures StandsAt(Joined(front + [last]), at, part)
  {
    hide *;
    JoinedSnoc(front, last);
    var joined := Joined(front);
    StandsInFront(joined, at, part, [], "\n" + last);
    ConcatAssociates(joined, "\n", last);
    NothingBefore(joined);
  }

  // Block `i` stands behind those before it and a line break for each of them.
  lemma {:induction false} JoinedAt(blocks: seq<string>, i: nat)
    requires i < |blocks|
    ensures StandsAt(Joined(blocks), TotalBytes(blocks[..i]) + i, blocks[i])
    ensures i > 0 ==> StandsAt(Joined(blocks), TotalBytes(blocks[..i]) + i - 1, "\n")
  {
    hide *;
    var front, last := blocks[..|blocks| - 1], blocks[|blocks| - 1];
    FrontAndLast(blocks);
    if i == |blocks| - 1 {
      LastStands(front, last);
    } else {
      JoinedAt(front, i);
      assert front[..i] == blocks[..i] && front[i] == blocks[i];
      StandsStill(front, last, TotalBytes(blocks[..i]) + i, blocks[i]);
      if i > 0 {
        StandsStill(front, last, TotalBytes(blocks[..i]) + i - 1, "\n");
      }
    }
  }

  lemma DocumentParts(preamble: string, blocks: seq<string>)
    ensures var k := Fitting(blocks, Budget(preamble));
            Document(preamble, blocks) == preamble + Joined(blocks[..k]) + Ending(blocks, k)
  {
    var k := Fitting(blocks, Budget(preamble));
    ConcatAssociates(preamble, Joined(blocks[..k]), Ending(blocks, k));
    hide Joined, Ending, Fitting, Budget;
  }

  // The document: the preamble, each rendered turn at its own place and in order, line breaks between
  // them, and at the end the notice if turns were left out.
  lemma DocumentHolds(preamble: string, blocks: seq<string>, i: nat)
    requires i < Fitting(blocks, Budget(preamble))
    ensures StandsAt(Document(preamble, blocks), 0, preamble)
    ensures StandsAt(Document(preamble, blocks), |preamble| + TotalBytes(blocks[..i]) + i, blocks[i])
    ensures i > 0 ==> StandsAt(Document(preamble, blocks), |preamble| + TotalBytes(blocks[..i]) + i - 1, "\n")
  {
    hide *;
    var k := Fitting(blocks, Budget(preamble));
    var body, tail, at := Joined(blocks[..k]), Ending(blocks, k), TotalBytes(blocks[..i]) + i;
    DocumentParts(preamble, blocks);
    JoinedAt(blocks[..k], i);
    assert blocks[..k][..i] == blocks[..i] && blocks[..k][i] == blocks[i];
    StandsInFront(body, at, blocks[i], preamble, tail);
    if i > 0 {
      StandsInFront(body, at - 1, "\n", preamble, tail);
    }
    StandsBetween([], preamble, body + tail);
    NothingBefore(preamble);
    ConcatAssociates(preamble, body, tail);
  }

  // The notice names the cap first and then the number of turns that are missing.
  lemma DocumentEnds(preamble: string, blocks: seq<string>)
    ensures var k, doc := Fitting(blocks, Budget(preamble)), Document(preamble, blocks);
            var notice := if k == |blocks| then "" else
              "\n\n[... TRUNCATED at " + "524288" + " bytes, " + Decimal(|blocks| - k) + " turns omitted ...]\n";
            var at := |preamble| + TotalBytes(blocks[..k]) + SaturatingSub(k, 1);
            StandsAt(doc, 0, preamble) && StandsAt(doc, at, notice) && |doc| == at + |notice|
  {
    hide *;
    var k := Fitting(blocks, Budget(preamble));
    var body, tail := Joined(blocks[..k]), Ending(blocks, k);
    DocumentParts(preamble, blocks);
    JoinedLength(blocks[..k]);
    EndingIs(blocks, k);
    Saturates(k, 1);
    StandsBetween(preamble + body, tail, []);
    assert preamble + body + tail + [] == preamble + body + tail;
    StandsBetween([], preamble, body + tail);
    NothingBefore(preamble);
    ConcatAssociates(preamble, body, tail);
  }

  lemma Saturates(k: nat, less: nat)
    ensures SaturatingSub(k, less) == if k <= less then 0 else k - less
  {
  }

  lemma SeparatorsAre(preamble: string, blocks: seq<string>)
    ensures var k := Fitting(blocks, Budget(preamble)); Separators(preamble, blocks) == if k == 0 then 0 else k - 1
  {
    hide Fitting, Budget;
  }

  lemma EndingIs(blocks: seq<string>, k: nat)
    requires k <= |blocks|
    ensures Ending(blocks, k) == if k == |blocks| then "" else
              "\n\n[... TRUNCATED at " + "524288" + " bytes, " + Decimal(|blocks| - k) + " turns omitted ...]\n"
  {
    hide Notice, Decimal;
    if k < |blocks| {
      NoticeNames(|blocks| - k);
    }
  }

  function Power10(k: nat): nat {
    if k == 0 then 1 else 10 * Power10(k - 1)
  }

  lemma {:induction false} DecimalLength(n: nat, k: nat)
    requires n < Power10(k) && k > 0
    ensures |Decimal(n)| <= k
  {
    if n >= 10 {
      assert Power10(1) == 10;
      DecimalLength(n / 10, k - 1);
    }
  }

  lemma NoticeLength(omitted: nat)
    requires omitted < TWO_TO_64
    ensures |Notice(omitted)| <= NOTICE_BYTES + 10
  {
    assert Power10(6) == 1_000_000 && Power10(20) == 100_000_000_000_000_000_000;
    DecimalLength(SEGMENT_MAX_BYTES, 6);
    DecimalLength(omitted, 20);
    hide Decimal;
    assert |"\n\n[... TRUNCATED at "| == 20 && |" bytes, "| == 8 && |" turns omitted ...]\n"| == 20;
  }

  // What the budget charges the document with, and what it does not: the separators.
  function ChargedBytes(preamble: string, blocks: seq<string>): nat {
    var k := Fitting(blocks, Budget(preamble));
    |preamble| + TotalBytes(blocks[..k]) + if k < |blocks| then |Notice(|blocks| - k)| else 0
  }

  function Separators(preamble: string, blocks: seq<string>): nat {
    SaturatingSub(Fitting(blocks, Budget(preamble)), 1)
  }

  // The exact size of every document, and with it when the cap holds.
  lemma DocumentLength(preamble: string, blocks: seq<string>)
    ensures |Document(preamble, blocks)| == ChargedBytes(preamble, blocks) + Separators(preamble, blocks)
    ensures |Document(preamble, blocks)| <= SEGMENT_MAX_BYTES
            <==> Separators(preamble, blocks) <= SEGMENT_MAX_BYTES - ChargedBytes(preamble, blocks)
  {
    JoinedLength(blocks[..Fitting(blocks, Budget(preamble))]);
    hide Fitting, Joined, TotalBytes, Notice;
  }

  lemma TotalOfNext(blocks: seq<string>, k: nat)
    requires k < |blocks|
    ensures TotalBytes(blocks[..k + 1]) == TotalBytes(blocks[..k]) + |blocks[k]|
  {
    assert blocks[..k + 1][..k] == blocks[..k];
  }

  predicate LeavesRoom(preamble: string) {
    |preamble| + 128 <= 524_288
  }

  // Where the preamble leaves room, what is charged is within the cap with 54 bytes to spare: the
  // separators alone can break it, and do so exactly when they outnumber what is spare.
  lemma ChargedIsWithinCap(preamble: string, blocks: seq<string>)
    requires |blocks| < TWO_TO_64 && LeavesRoom(preamble)
    ensures ChargedBytes(preamble, blocks) + 54 <= SEGMENT_MAX_BYTES
  {
    var budget := Budget(preamble);
    var k := Fitting(blocks, budget);
    LongestPrefixFits(blocks, budget, k);
    NoticeLength(|blocks| - k);
    hide Fitting, TotalBytes, Notice;
  }

  lemma NothingFits(blocks: seq<string>)
    ensures var k := Fitting(blocks, 0);
            TotalBytes(blocks[..k]) == 0 && (k < |blocks| ==> blocks[k] != "")
  {
    var k := Fitting(blocks, 0);
    hide Fitting, TotalBytes;
    LongestPrefixFits(blocks, 0, k);
    if k < |blocks| {
      LongestPrefixFits(blocks, 0, k + 1);
      TotalOfNext(blocks, k);
    }
  }

  // Where the preamble leaves no room, no turn with any text is rendered, and the cap holds exactly
  // when the preamble, the notice and the separators of empty turns fit.
  lemma NoRoom(preamble: string, blocks: seq<string>)
    requires !LeavesRoom(preamble)
    ensures var k := Fitting(blocks, Budget(preamble));
            && TotalBytes(blocks[..k]) == 0
            && (k < |blocks| ==> blocks[k] != "")
            && |Document(preamble, blocks)|
               == |preamble| + SaturatingSub(k, 1) + (if k < |blocks| then |Notice(|blocks| - k)| else 0)
    ensures |preamble| > SEGMENT_MAX_BYTES ==> |Document(preamble, blocks)| > SEGMENT_MAX_BYTES
  {
    var k := Fitting(blocks, Budget(preamble));
    assert Budget(preamble) == 0;
    hide Fitting, TotalBytes, Notice, Document;
    DocumentLength(preamble, blocks);
    NothingFits(blocks);
  }

  // So the cap holds for up to 55 rendered turns, and is exceeded by less than one byte a turn.
  // Without room, the document is as long as the preamble and little more.
  lemma SizeOfDocument(preamble: string, blocks: seq<string>)
    requires |blocks| < TWO_TO_64
    ensures var k := Fitting(blocks, Budget(preamble));
            if LeavesRoom(preamble) then |Document(preamble, blocks)| <= 524_288 + SaturatingSub(k, 55)
            else |preamble| <= |Document(preamble, blocks)| <= |preamble| + SaturatingSub(k, 1) + 74
  {
    hide Fitting, Budget, Document, Notice, TotalBytes, ChargedBytes, Separators, SaturatingSub, LeavesRoom;
    var k := Fitting(blocks, Budget(preamble));
    if LeavesRoom(preamble) {
      DocumentLength(preamble, blocks);
      ChargedIsWithinCap(preamble, blocks);
      SeparatorsAre(preamble, blocks);
      Saturates(k, 55);
    } else {
      NoRoom(preamble, blocks);
      NoticeLength(|blocks| - k);
      assert NOTICE_BYTES == 64;
    }
  }

  // A document over the cap: 5200 turns of 100 bytes.
  lemma CapIsExceeded(preamble: string, block: string)
    requires |preamble| <= 4000 && |block| == 100
    ensures var blocks := seq(5200, _ => block);
            Fitting(blocks, Budget(preamble)) == 5200 && |Document(preamble, blocks)| > SEGMENT_MAX_BYTES
  {
    var blocks := seq(5200, _ => block);
    assert blocks[..5200] == blocks;
    TotalOfEqual(blocks, 100);
    LongestPrefixFits(blocks, Budget(preamble), 5200);
    DocumentLength(preamble, blocks);
    hide Fitting, TotalBytes, Document;
  }

  lemma {:induction false} TotalOfEqual(blocks: seq<string>, size: nat)
    requires forall k :: 0 <= k < |blocks| ==> |blocks[k]| == size
    ensures TotalBytes(blocks) == |blocks| * size
  {
    if blocks != [] {
      TotalOfEqual(blocks[..|blocks| - 1], size);
      assert |blocks| * size == (|blocks| - 1) * size + size;
    }
  }

  // ------------------------------------------------------ thousands separators --

  // The number in groups of three from the right.
  function Grouped(digits: string): string {
    if |digits| <= 3 then digits
    else Grouped(digits[..|digits| - 3]) + "," + digits[|digits| - 3..]
  }

  // What the first `i` digits give while the rest is still to come.
  function Begun(digits: string, i: nat): string
    requires i <= |digits|
  {
    if i == 0 then ""
    else Begun(digits, i - 1) + (if i > 1 && (|digits| - (i - 1)) % 3 == 0 then "," else "") + [digits[i - 1]]
  }

  method WithThousands(n: nat) returns (out: string)
    ensures out == Grouped(Decimal(n))
  {
    var digits := Decimal(n);
    out := "";
    for i := 0 to |digits|
      invariant out == Begun(digits, i)
    {
      ghost var before := out;
      if i > 0 && (|digits| - i) % 3 == 0 {
        out := out + ",";
      }
      assert before + "" == before;
      out := out + [digits[i]];
    }
    BegunIsGrouped(digits);
  }

  lemma {:induction false} BegunFront(digits: string, i: nat)
    requires |digits| > 3 && i <= |digits| - 3
    ensures Begun(digits, i) == Begun(digits[..|digits| - 3], i)
  {
    if i > 0 {
      BegunFront(digits, i - 1);
      var front := digits[..|digits| - 3];
      assert |digits| - (i - 1) == |front| - (i - 1) + 3;
    }
  }

  lemma {:induction false} BegunLastGroup(digits: string, i: nat)
    requires |digits| > 3 && |digits| - 3 < i <= |digits|
    ensures Begun(digits, i) == Begun(digits, |digits| - 3) + "," + digits[|digits| - 3..i]
  {
    var n := |digits|;
    if i == n - 2 {
      assert digits[n - 3..i] == [digits[n - 3]];
    } else {
      BegunLastGroup(digits, i - 1);
      assert Begun(digits, i - 1) + "" == Begun(digits, i - 1);
      assert digits[n - 3..i] == digits[n - 3..i - 1] + [digits[i - 1]];
    }
  }

  lemma {:induction false} BegunShort(digits: string, i: nat)
    requires i <= |digits| <= 3
    ensures Begun(digits, i) == digits[..i]
  {
    if i > 0 {
      BegunShort(digits, i - 1);
      assert Begun(digits, i - 1) + "" == Begun(digits, i - 1);
      assert digits[..i] == digits[..i - 1] + [digits[i - 1]];
    }
  }

  lemma {:induction false} BegunIsGrouped(digits: string)
    ensures Begun(digits, |digits|) == Grouped(digits)
  {
    var n := |digits|;
    if n > 3 {
      BegunFront(digits, n - 3);
      BegunIsGrouped(digits[..n - 3]);
      BegunLastGroup(digits, n);
      assert digits[n - 3..n] == digits[n - 3..];
    } else {
      BegunShort(digits, n);
    }
  }

  // Counted from the right, every fourth character is a comma and no other.
  lemma {:induction false} CommaPlaces(digits: string, i: nat)
    requires AllDigits(digits) && i < |Grouped(digits)|
    ensures Grouped(digits)[i] == ',' <==> (|Grouped(digits)| - i) % 4 == 0
  {
    if |digits| > 3 {
      var front, group := digits[..|digits| - 3], digits[|digits| - 3..];
      var done := Grouped(front);
      assert Grouped(digits) == done + "," + group;
      assert AllDigits(group);
      hide Grouped;
      if i < |done| {
        CommaPlaces(front, i);
        FourFurther(|done| - i);
      } else if i > |done| {
        assert (done + "," + group)[i] == group[i - |done| - 1];
      }
    }
  }

  lemma FourFurther(n: nat)
    ensures (n + 4) % 4 == n % 4
  {
  }

  function WithoutCommas(s: string): string {
    if s == [] then [] else WithoutCommas(s[..|s| - 1]) + (if s[|s| - 1] == ',' then [] else [s[|s| - 1]])
  }

  lemma {:induction false} WithoutCommasAppend(a: string, b: string)
    ensures WithoutCommas(a + b) == WithoutCommas(a) + WithoutCommas(b)
    decreases |b|
  {
    if b == [] {
      assert a + b == a;
    } else {
      var front := b[..|b| - 1];
      assert (a + b)[..|a + b| - 1] == a + front;
      WithoutCommasAppend(a, front);
      ConcatAssociates(WithoutCommas(a), WithoutCommas(front), if b[|b| - 1] == ',' then [] else [b[|b| - 1]]);
    }
  }

  lemma {:induction false} NoCommas(s: string)
    requires AllDigits(s)
    ensures WithoutCommas(s) == s
  {
    if s != [] {
      NoCommas(s[..|s| - 1]);
    }
  }

  // Dropping the separators gives the number back.
  lemma {:induction false} SeparatorsOnly(digits: string)
    requires AllDigits(digits)
    ensures WithoutCommas(Grouped(digits)) == digits
  {
    if |digits| <= 3 {
      NoCommas(digits);
    } else {
      var front, group := digits[..|digits| - 3], digits[|digits| - 3..];
      SeparatorsOnly(front);
      NoCommas(group);
      WithoutCommasAppend(Grouped(front) + ",", group);
      WithoutCommasAppend(Grouped(front), ",");
      assert WithoutCommas(",") == [] by {
        assert ","[..0] == [];
      }
      hide WithoutCommas;
      assert front + [] + group == digits;
    }
  }
}

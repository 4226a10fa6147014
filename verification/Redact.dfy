/**
 Credential redaction: one pass over the text that replaces `sk-` keys and `Bearer ` tokens.
 Text is a sequence of Unicode scalar values; both patterns and both run classes are ASCII, so
 a run has as many bytes as characters and no match starts inside a multi-byte character.
 */
module Redact {
  import opened Prelude

  const REDACTED_SK := "sk-XXXX****REDACTED"
  const REDACTED_BEARER := "Bearer ****REDACTED"
  const SK_MIN_RUN: nat := 16
  const BEARER_MIN_RUN: nat := 16

  predicate IsAlphanumeric(c: char) {
    '0' <= c <= '9' || 'A' <= c <= 'Z' || 'a' <= c <= 'z'
  }

  predicate IsBearerChar(c: char) {
    IsAlphanumeric(c) || c == '-' || c == '_' || c == '.' || c == '~' || c == '+' || c == '/' || c == '='
  }

  // The same characters, one by one.
  predicate KeyChar(c: char) {
    c in "0123456789" + "ABCDEFGHIJKLM" + "NOPQRSTUVWXYZ" + "abcdefghijklm" + "nopqrstuvwxyz"
  }

  predicate TokenChar(c: char) {
    c in "0123456789" + "ABCDEFGHIJKLM" + "NOPQRSTUVWXYZ" + "abcdefghijklm" + "nopqrstuvwxyz" + "-_.~+/="
  }

  function Chars(first: char, n: nat): string
    requires first as int + n < 1000
  {
    if n == 0 then "" else Chars(first, n - 1) + [(first as int + n - 1) as char]
  }

  lemma {:induction false} InChars(first: char, n: nat, c: char)
    requires first as int + n < 1000
    ensures c in Chars(first, n) <==> first as int <= c as int < first as int + n
  {
    if n > 0 {
      InChars(first, n - 1, c);
    }
  }

  lemma Digits()
    ensures Chars('0', 10) == "0123456789"
  {
  }

  lemma Capitals()
    ensures Chars('A', 13) == "ABCDEFGHIJKLM" && Chars('N', 13) == "NOPQRSTUVWXYZ"
  {
    assert Chars('A', 5) == "ABCDE";
    assert Chars('A', 9) == "ABCDEFGHI";
    assert Chars('N', 5) == "NOPQR";
    assert Chars('N', 9) == "NOPQRSTUV";
  }

  lemma Letters()
    ensures Chars('a', 13) == "abcdefghijklm" && Chars('n', 13) == "nopqrstuvwxyz"
  {
    assert Chars('a', 5) == "abcde";
    assert Chars('a', 9) == "abcdefghi";
    assert Chars('n', 5) == "nopqr";
    assert Chars('n', 9) == "nopqrstuv";
  }

  lemma AlphanumericsAre(c: char)
    ensures IsAlphanumeric(c) <==> KeyChar(c)
    ensures IsBearerChar(c) <==> TokenChar(c)
  {
    Digits();
    Capitals();
    Letters();
    InChars('0', 10, c);
    InChars('A', 13, c);
    InChars('N', 13, c);
    InChars('a', 13, c);
    InChars('n', 13, c);
    hide Chars;
  }

  lemma AllAlphanumerics()
    ensures forall c :: IsAlphanumeric(c) <==> KeyChar(c)
    ensures forall c :: IsBearerChar(c) <==> TokenChar(c)
  {
    hide *;
    forall c: char
      ensures IsAlphanumeric(c) <==> KeyChar(c)
      ensures IsBearerChar(c) <==> TokenChar(c)
    {
      AlphanumericsAre(c);
    }
  }

  // Length of the longest prefix of alphanumerics.
  function AlnumRun(s: string): (n: nat)
    ensures n <= |s|
  {
    if s == "" || !IsAlphanumeric(s[0]) then 0 else 1 + AlnumRun(s[1..])
  }

  function BearerRun(s: string): (n: nat)
    ensures n <= |s|
  {
    if s == "" || !IsBearerChar(s[0]) then 0 else 1 + BearerRun(s[1..])
  }

  // A key starts here: `sk-` and at least 16 alphanumerics.
  predicate SkHit(s: string) {
    "sk-" <= s && AlnumRun(s[3..]) >= SK_MIN_RUN
  }

  predicate BearerHit(s: string) {
    "Bearer " <= s && BearerRun(s[7..]) >= BEARER_MIN_RUN
  }

  // No credential starts anywhere in the text.
  predicate Clean(s: string) {
    s == "" || (!SkHit(s) && !BearerHit(s) && Clean(s[1..]))
  }

  lemma {:induction false} CleanEverywhere(s: string)
    ensures Clean(s) <==> forall k :: 0 <= k <= |s| ==> !SkHit(s[k..]) && !BearerHit(s[k..])
  {
    assert s[0..] == s;
    if s != "" {
      assert Clean(s) <==> !SkHit(s) && !BearerHit(s) && Clean(s[1..]);
      hide SkHit, BearerHit, Clean;
      CleanEverywhere(s[1..]);
      if Clean(s) {
        forall k | 0 <= k <= |s| ensures !SkHit(s[k..]) && !BearerHit(s[k..]) {
          if k > 0 {
            assert s[1..][k - 1..] == s[k..];
          }
        }
      }
      if forall k :: 0 <= k <= |s| ==> !SkHit(s[k..]) && !BearerHit(s[k..]) {
        forall k | 0 <= k <= |s[1..]| ensures !SkHit(s[1..][k..]) && !BearerHit(s[1..][k..]) {
          assert s[1..][k..] == s[k + 1..];
        }
      }
    }
  }

  // A credential as a reader of the text would see it: the pattern, and then 16 characters.
  predicate KeyAt(s: string, k: int) {
    0 <= k && k + 19 <= |s| && s[k..k + 3] == "sk-" && forall i :: k + 3 <= i < k + 19 ==> KeyChar(s[i])
  }

  predicate TokenAt(s: string, k: int) {
    0 <= k && k + 23 <= |s| && s[k..k + 7] == "Bearer " && forall i :: k + 7 <= i < k + 23 ==> TokenChar(s[i])
  }

  lemma {:induction false} RunAtLeast(s: string, n: nat)
    ensures AlnumRun(s) >= n <==> n <= |s| && forall i :: 0 <= i < n ==> IsAlphanumeric(s[i])
    ensures BearerRun(s) >= n <==> n <= |s| && forall i :: 0 <= i < n ==> IsBearerChar(s[i])
  {
    hide IsAlphanumeric, IsBearerChar;
    if n > 0 && s != "" {
      RunAtLeast(s[1..], n - 1);
      assert forall i :: 0 < i < |s| ==> s[i] == s[1..][i - 1];
    }
  }

  lemma HitsAre(s: string, k: nat)
    requires k <= |s|
    ensures SkHit(s[k..]) <==> KeyAt(s, k)
    ensures BearerHit(s[k..]) <==> TokenAt(s, k)
  {
    AllAlphanumerics();
    hide AlnumRun, BearerRun, IsAlphanumeric, IsBearerChar, KeyChar, TokenChar;
    var t := s[k..];
    if |t| >= 3 {
      assert t[..3] == s[k..k + 3] && t[3..] == s[k + 3..];
      RunAtLeast(s[k + 3..], 16);
      assert forall i :: k + 3 <= i < |s| ==> s[i] == s[k + 3..][i - (k + 3)];
    }
    if |t| >= 7 {
      assert t[..7] == s[k..k + 7] && t[7..] == s[k + 7..];
      RunAtLeast(s[k + 7..], 16);
      assert forall i :: k + 7 <= i < |s| ==> s[i] == s[k + 7..][i - (k + 7)];
    }
  }

  lemma CleanIsNone(s: string)
    ensures Clean(s) <==> forall k :: !KeyAt(s, k) && !TokenAt(s, k)
  {
    CleanEverywhere(s);
    hide Clean, SkHit, BearerHit;
    forall k: nat | k <= |s|
      ensures (SkHit(s[k..]) <==> KeyAt(s, k)) && (BearerHit(s[k..]) <==> TokenAt(s, k))
    {
      HitsAre(s, k);
    }
    assert forall k :: KeyAt(s, k) || TokenAt(s, k) ==> 0 <= k <= |s|;
    hide KeyAt, TokenAt;
  }

  // --------------------------------------------------------------- the scan --

  // What is left to write from here on.
  function Scan(s: string): string {
    if s == "" then ""
    else if SkHit(s) then REDACTED_SK + Scan(s[3 + AlnumRun(s[3..])..])
    else if BearerHit(s) then REDACTED_BEARER + Scan(s[7 + BearerRun(s[7..])..])
    else [s[0]] + Scan(s[1..])
  }

  lemma {:induction false} RunEnds(s: string, i: nat, j: nat)
    requires i <= j <= |s|
    requires forall k :: i <= k < j ==> IsAlphanumeric(s[k])
    requires j == |s| || !IsAlphanumeric(s[j])
    ensures AlnumRun(s[i..]) == j - i
    decreases j - i
  {
    if i < j {
      RunEnds(s, i + 1, j);
      assert s[i..][1..] == s[i + 1..];
    }
  }

  lemma {:induction false} BearerRunEnds(s: string, i: nat, j: nat)
    requires i <= j <= |s|
    requires forall k :: i <= k < j ==> IsBearerChar(s[k])
    requires j == |s| || !IsBearerChar(s[j])
    ensures BearerRun(s[i..]) == j - i
    decreases j - i
  {
    if i < j {
      BearerRunEnds(s, i + 1, j);
      assert s[i..][1..] == s[i + 1..];
    }
  }

  lemma KeyHere(s: string, i: nat, j: nat)
    requires i + 3 <= j <= |s| && "sk-" <= s[i..]
    requires AlnumRun(s[i + 3..]) == j - (i + 3) >= SK_MIN_RUN
    ensures Scan(s[i..]) == REDACTED_SK + Scan(s[j..])
  {
    hide AlnumRun, Scan;
    assert s[i..][3..] == s[i + 3..] && s[i..][j - i..] == s[j..];
    ScanOfKey(s[i..]);
  }

  lemma TokenHere(s: string, i: nat, j: nat)
    requires i + 7 <= j <= |s| && "Bearer " <= s[i..]
    requires BearerRun(s[i + 7..]) == j - (i + 7) >= BEARER_MIN_RUN
    ensures Scan(s[i..]) == REDACTED_BEARER + Scan(s[j..])
  {
    hide BearerRun, Scan;
    assert s[i..][7..] == s[i + 7..] && s[i..][j - i..] == s[j..];
    ScanOfToken(s[i..]);
  }

  lemma NeitherAt(s: string, i: nat)
    requires i < |s|
    requires "sk-" <= s[i..] ==> AlnumRun(s[i + 3..]) < SK_MIN_RUN
    requires "Bearer " <= s[i..] ==> BearerRun(s[i + 7..]) < BEARER_MIN_RUN
    ensures Scan(s[i..]) == [s[i]] + Scan(s[i + 1..])
  {
    hide AlnumRun, BearerRun, Scan;
    assert "sk-" <= s[i..] ==> s[i..][3..] == s[i + 3..];
    assert "Bearer " <= s[i..] ==> s[i..][7..] == s[i + 7..];
    assert s[i..][1..] == s[i + 1..];
    ScanOfOther(s[i..]);
  }

  method Redact(input: string) returns (out: string)
    ensures out == Scan(input)
    ensures forall k :: !KeyAt(out, k) && !TokenAt(out, k)
  {
    out := "";
    var i := 0;
    assert input[0..] == input && out + Scan(input) == Scan(input);
    assert Scan(input[|input|..]) == "";
    hide Scan, AlnumRun, BearerRun;
    while i < |input|
      invariant i <= |input| && out + Scan(input[i..]) == Scan(input)
    {
      if "sk-" <= input[i..] {
        var j := SkipAlphanumerics(input, i + 3);
        if j - (i + 3) >= SK_MIN_RUN {
          KeyHere(input, i, j);
          ConcatAssociates(out, REDACTED_SK, Scan(input[j..]));
          out := out + REDACTED_SK;
          i := j;
          continue;
        }
      }
      if "Bearer " <= input[i..] {
        var j := SkipBearerChars(input, i + 7);
        if j - (i + 7) >= BEARER_MIN_RUN {
          TokenHere(input, i, j);
          ConcatAssociates(out, REDACTED_BEARER, Scan(input[j..]));
          out := out + REDACTED_BEARER;
          i := j;
          continue;
        }
      }
      NeitherAt(input, i);
      ConcatAssociates(out, [input[i]], Scan(input[i + 1..]));
      out := out + [input[i]];
      i := i + 1;
    }
    assert out + "" == out;
    NothingLeaks(input);
  }

  method SkipAlphanumerics(s: string, start: nat) returns (j: nat)
    requires start <= |s|
    ensures start <= j <= |s| && AlnumRun(s[start..]) == j - start
    ensures forall k :: start <= k < j ==> KeyChar(s[k])
    ensures j < |s| ==> !KeyChar(s[j])
  {
    AllAlphanumerics();
    hide KeyChar, TokenChar;
    j := start;
    while j < |s| && IsAlphanumeric(s[j])
      invariant start <= j <= |s| && forall k :: start <= k < j ==> IsAlphanumeric(s[k])
    {
      j := j + 1;
    }
    RunEnds(s, start, j);
  }

  method SkipBearerChars(s: string, start: nat) returns (j: nat)
    requires start <= |s|
    ensures start <= j <= |s| && BearerRun(s[start..]) == j - start
    ensures forall k :: start <= k < j ==> TokenChar(s[k])
    ensures j < |s| ==> !TokenChar(s[j])
  {
    AllAlphanumerics();
    hide KeyChar, TokenChar;
    j := start;
    while j < |s| && IsBearerChar(s[j])
      invariant start <= j <= |s| && forall k :: start <= k < j ==> IsBearerChar(s[k])
    {
      j := j + 1;
    }
    BearerRunEnds(s, start, j);
  }

  lemma ScanOfKey(s: string)
    requires SkHit(s)
    ensures Scan(s) == REDACTED_SK + Scan(s[3 + AlnumRun(s[3..])..])
  {
  }

  lemma ScanOfToken(s: string)
    requires BearerHit(s)
    ensures Scan(s) == REDACTED_BEARER + Scan(s[7 + BearerRun(s[7..])..])
  {
    assert s[0] == "Bearer "[0];
  }

  lemma ScanOfOther(s: string)
    requires s != "" && !SkHit(s) && !BearerHit(s)
    ensures Scan(s) == [s[0]] + Scan(s[1..])
  {
  }

  // ------------------------------------------------------- what it guarantees --

  lemma CopiedAfterHead(s: string)
    requires s != "" && !SkHit(s) && !BearerHit(s)
    ensures Scan(s)[0] == s[0] && Scan(s)[1..] == Scan(s[1..])
  {
    assert ([s[0]] + Scan(s[1..]))[1..] == Scan(s[1..]);
  }

  predicate Quiet(p: string) {
    's' !in p && 'B' !in p
  }

  // Output text that no placeholder starts in was copied from the same place of the input.
  lemma {:induction false} CopiedText(p: string, s: string)
    requires Quiet(p) && p <= Scan(s)
    ensures p <= s && Scan(s)[|p|..] == Scan(s[|p|..])
  {
    if p == "" {
      assert Scan(s)[0..] == Scan(s) && s[0..] == s;
    } else {
      assert Scan(s)[0] == p[0] && s != "";
      HeadOfScan(s);
      hide Scan;
      NoMatchHere(s);
      CopiedAfterHead(s);
      assert p[1..] <= Scan(s)[1..];
      CopiedText(p[1..], s[1..]);
      assert Scan(s)[|p|..] == Scan(s)[1..][|p| - 1..];
      assert s[1..][|p| - 1..] == s[|p|..];
    }
  }

  lemma NoMatchHere(s: string)
    requires s != "" && s[0] != 's' && s[0] != 'B'
    ensures !SkHit(s) && !BearerHit(s)
  {
  }

  lemma HeadOfScan(s: string)
    requires s != ""
    ensures Scan(s) != "" && Scan(s)[0] == s[0]
  {
    if SkHit(s) {
      ScanOfKey(s);
      assert s[0] == "sk-"[0] == REDACTED_SK[0];
    } else if BearerHit(s) {
      ScanOfToken(s);
      assert s[0] == "Bearer "[0] == REDACTED_BEARER[0];
    }
  }

  lemma RunsAtSk(s: string)
    requires "sk-" <= s
    ensures AlnumRun(s) == 2 && BearerRun(s) == 3 + BearerRun(s[3..])
  {
    RunEnds(s, 0, 2);
    assert s[0..] == s;
    assert s[1..][1..] == s[2..] && s[2..][1..] == s[3..];
    assert BearerRun(s[2..]) == 1 + BearerRun(s[3..]);
    assert BearerRun(s[1..]) == 1 + BearerRun(s[2..]);
  }

  lemma RunsAtBearer(s: string)
    requires "Bearer " <= s
    ensures AlnumRun(s) == BearerRun(s) == 6
  {
    RunEnds(s, 0, 6);
    BearerRunEnds(s, 0, 6);
    assert s[0..] == s;
  }

  lemma RunsOfPlaceholder(rest: string)
    ensures AlnumRun((REDACTED_SK + rest)[3..]) == 4 && BearerRun(REDACTED_SK + rest) == 7
    ensures BearerRun((REDACTED_BEARER + rest)[7..]) == 0
  {
    var s := REDACTED_SK + rest;
    RunEnds(s, 3, 7);
    BearerRunEnds(s, 0, 7);
    assert s[0..] == s;
    BearerRunEnds(REDACTED_BEARER + rest, 7, 7);
  }

  lemma {:induction false} AlnumWithinBearer(s: string)
    ensures AlnumRun(s) <= BearerRun(s)
  {
    if s != "" {
      AlnumWithinBearer(s[1..]);
    }
  }

  // Redaction never makes a run of either kind longer.
  lemma {:induction false} RunsShrink(s: string)
    ensures AlnumRun(Scan(s)) <= AlnumRun(s) && BearerRun(Scan(s)) <= BearerRun(s)
  {
    if s == "" {
    } else if SkHit(s) {
      ScanOfKey(s);
      RunsAtSk(s);
      RunsAtSk(Scan(s));
      AlnumWithinBearer(s[3..]);
      RunsOfPlaceholder(Scan(s[3 + AlnumRun(s[3..])..]));
    } else if BearerHit(s) {
      ScanOfToken(s);
      RunsAtBearer(s);
      RunsAtBearer(Scan(s));
    } else {
      RunsShrink(s[1..]);
      CopiedAfterHead(s);
      hide Scan;
    }
  }

  lemma CopiedPattern(p: string, s: string)
    requires p != "" && Quiet(p[1..]) && p <= Scan(s)
    requires s != "" && Scan(s)[0] == s[0] && Scan(s)[1..] == Scan(s[1..])
    ensures p <= s && Scan(s)[|p|..] == Scan(s[|p|..])
  {
    hide Scan, Quiet;
    assert p[1..] <= Scan(s)[1..];
    CopiedText(p[1..], s[1..]);
    assert Scan(s)[|p|..] == Scan(s)[1..][|p| - 1..];
    assert s[1..][|p| - 1..] == s[|p|..];
    assert p == [p[0]] + p[1..];
  }

  // Copying a character completes no match.
  lemma CopyMakesNoMatch(s: string)
    requires s != "" && !SkHit(s) && !BearerHit(s)
    ensures !SkHit(Scan(s)) && !BearerHit(Scan(s))
  {
    CopiedAfterHead(s);
    hide Scan, AlnumRun, BearerRun;
    assert "sk-"[1..] == "k-" && "Bearer "[1..] == "earer ";
    if "sk-" <= Scan(s) {
      CopiedPattern("sk-", s);
      RunsShrink(s[3..]);
    }
    if "Bearer " <= Scan(s) {
      CopiedPattern("Bearer ", s);
      RunsShrink(s[7..]);
    }
  }

  lemma {:induction false} QuietPrefix(p: string, t: string)
    requires Quiet(p) && Clean(t)
    ensures Clean(p + t)
  {
    if p == "" {
      assert p + t == t;
    } else {
      QuietPrefix(p[1..], t);
      assert (p + t)[1..] == p[1..] + t && (p + t)[0] == p[0];
      NoMatchHere(p + t);
      hide SkHit, BearerHit;
    }
  }

  lemma PlaceholdersMatchNothing(rest: string)
    ensures !SkHit(REDACTED_SK + rest) && !BearerHit(REDACTED_SK + rest)
    ensures !SkHit(REDACTED_BEARER + rest) && !BearerHit(REDACTED_BEARER + rest)
  {
    RunsOfPlaceholder(rest);
    hide AlnumRun, BearerRun;
    assert (REDACTED_SK + rest)[0] == 's' && (REDACTED_BEARER + rest)[0] == 'B';
  }

  lemma KeyPlaceholderIsClean(t: string)
    requires Clean(t)
    ensures Clean(REDACTED_SK + t)
  {
    hide Clean, SkHit, BearerHit;
    PlaceholdersMatchNothing(t);
    var tail := "k-XXXX****REDACTED";
    QuietPrefix(tail, t);
    assert REDACTED_SK == ['s'] + tail;
    CleanCons(REDACTED_SK + t, tail + t);
  }

  lemma TokenPlaceholderIsClean(t: string)
    requires Clean(t)
    ensures Clean(REDACTED_BEARER + t)
  {
    hide Clean, SkHit, BearerHit;
    PlaceholdersMatchNothing(t);
    var tail := "earer ****REDACTED";
    QuietPrefix(tail, t);
    assert REDACTED_BEARER == ['B'] + tail;
    CleanCons(REDACTED_BEARER + t, tail + t);
  }

  lemma CleanCons(s: string, rest: string)
    requires s != "" && s[1..] == rest && Clean(rest) && !SkHit(s) && !BearerHit(s)
    ensures Clean(s)
  {
  }

  // No credential is left anywhere in the output.
  lemma {:induction false} OutputIsClean(s: string)
    ensures Clean(Scan(s))
  {
    if s == "" {
    } else if SkHit(s) {
      var rest := s[3 + AlnumRun(s[3..])..];
      OutputIsClean(rest);
      KeyPlaceholderIsClean(Scan(rest));
      ScanOfKey(s);
      hide Scan, Clean;
    } else if BearerHit(s) {
      var rest := s[7 + BearerRun(s[7..])..];
      OutputIsClean(rest);
      TokenPlaceholderIsClean(Scan(rest));
      ScanOfToken(s);
      hide Scan, Clean;
    } else {
      OutputIsClean(s[1..]);
      CopyMakesNoMatch(s);
      CopiedAfterHead(s);
      HeadOfScan(s);
      hide Scan, Clean, SkHit, BearerHit;
      CleanCons(Scan(s), Scan(s[1..]));
    }
  }

  // Said of the characters: no output holds either pattern followed by 16 characters of its kind.
  lemma NothingLeaks(s: string)
    ensures forall k :: !KeyAt(Scan(s), k) && !TokenAt(Scan(s), k)
  {
    hide *;
    OutputIsClean(s);
    CleanIsNone(Scan(s));
  }

  // No credential starts in the first `n` characters.
  predicate QuietStart(s: string, n: nat)
    requires n <= |s|
  {
    n == 0 || (!SkHit(s) && !BearerHit(s) && QuietStart(s[1..], n - 1))
  }

  // Text in front of the first credential is kept as it is.
  lemma {:induction false} TextBeforeIsKept(s: string, n: nat)
    requires n <= |s| && QuietStart(s, n)
    ensures Scan(s) == s[..n] + Scan(s[n..])
  {
    hide SkHit, BearerHit;
    if n == 0 {
      assert s[0..] == s && s[..0] == "";
    } else {
      ScanOfOther(s);
      TextBeforeIsKept(s[1..], n - 1);
      hide Scan, QuietStart;
      assert s[1..][n - 1..] == s[n..];
      assert s[..n] == [s[0]] + s[1..][..n - 1];
      ConcatAssociates([s[0]], s[1..][..n - 1], Scan(s[n..]));
    }
  }

  lemma {:induction false} CleanIsQuiet(s: string)
    ensures Clean(s) ==> QuietStart(s, |s|)
  {
    if s != "" {
      CleanIsQuiet(s[1..]);
    }
  }

  // Text without credentials, and no other text, comes back unchanged.
  lemma UnchangedIffClean(s: string)
    ensures Scan(s) == s <==> Clean(s)
    ensures Scan(s) == s <==> forall k :: !KeyAt(s, k) && !TokenAt(s, k)
  {
    CleanIsNone(s);
    hide KeyAt, TokenAt;
    OutputIsClean(s);
    if Clean(s) {
      CleanIsQuiet(s);
      TextBeforeIsKept(s, |s|);
      assert s[..|s|] == s && s[|s|..] == "";
    }
  }

  lemma RedactIsIdempotent(s: string)
    ensures Scan(Scan(s)) == Scan(s)
  {
    OutputIsClean(s);
    UnchangedIffClean(Scan(s));
  }

  lemma {:induction false} NoneIsQuiet(s: string, from: nat, n: nat)
    requires from + n <= |s| && forall k :: from <= k < from + n ==> !KeyAt(s, k) && !TokenAt(s, k)
    ensures QuietStart(s[from..], n)
    decreases n
  {
    hide KeyAt, TokenAt, SkHit, BearerHit;
    if n > 0 {
      HitsAre(s, from);
      NoneIsQuiet(s, from + 1, n - 1);
      assert s[from..][1..] == s[from + 1..];
    }
  }

  // The first key of a text is masked to the end of its run, and the rest is redacted on its own.
  lemma FirstKeyIsMasked(text: string, run: string, rest: string)
    requires |run| >= 16 && (forall c :: c in run ==> KeyChar(c))
    requires rest == "" || !KeyChar(rest[0])
    requires var s := text + ("sk-" + run + rest);
             forall k :: 0 <= k < |text| ==> !KeyAt(s, k) && !TokenAt(s, k)
    ensures Scan(text + ("sk-" + run + rest)) == text + "sk-XXXX****REDACTED" + Scan(rest)
  {
    var key := "sk-" + run + rest;
    NoneIsQuiet(text + key, 0, |text|);
    assert (text + key)[0..] == text + key;
    hide KeyAt, TokenAt;
    KeyAlone(run, rest);
    hide *;
    KeptThen(text, key);
    ConcatAssociates(text, "sk-XXXX****REDACTED", Scan(rest));
  }

  lemma KeyAlone(run: string, rest: string)
    requires |run| >= 16 && (forall c :: c in run ==> KeyChar(c))
    requires rest == "" || !KeyChar(rest[0])
    ensures Scan("sk-" + run + rest) == "sk-XXXX****REDACTED" + Scan(rest)
  {
    var key := "sk-" + run + rest;
    AllAlphanumerics();
    hide IsAlphanumeric, KeyChar, Scan;
    RunEnds(key, 3, 3 + |run|);
    hide AlnumRun;
    ScanOfKey(key);
    assert key[3 + |run|..] == rest;
  }

  lemma FirstTokenIsMasked(text: string, run: string, rest: string)
    requires |run| >= 16 && (forall c :: c in run ==> TokenChar(c))
    requires rest == "" || !TokenChar(rest[0])
    requires var s := text + ("Bearer " + run + rest);
             forall k :: 0 <= k < |text| ==> !KeyAt(s, k) && !TokenAt(s, k)
    ensures Scan(text + ("Bearer " + run + rest)) == text + "Bearer ****REDACTED" + Scan(rest)
  {
    var token := "Bearer " + run + rest;
    NoneIsQuiet(text + token, 0, |text|);
    assert (text + token)[0..] == text + token;
    hide KeyAt, TokenAt;
    TokenAlone(run, rest);
    hide *;
    KeptThen(text, token);
    ConcatAssociates(text, "Bearer ****REDACTED", Scan(rest));
  }

  lemma TokenAlone(run: string, rest: string)
    requires |run| >= 16 && (forall c :: c in run ==> TokenChar(c))
    requires rest == "" || !TokenChar(rest[0])
    ensures Scan("Bearer " + run + rest) == "Bearer ****REDACTED" + Scan(rest)
  {
    var token := "Bearer " + run + rest;
    AllAlphanumerics();
    hide IsBearerChar, TokenChar, Scan;
    BearerRunEnds(token, 7, 7 + |run|);
    hide BearerRun;
    ScanOfToken(token);
    assert token[7 + |run|..] == rest;
  }

  lemma KeptThen(text: string, more: string)
    requires QuietStart(text + more, |text|)
    ensures Scan(text + more) == text + Scan(more)
  {
    TextBeforeIsKept(text + more, |text|);
    hide Scan;
    assert (text + more)[..|text|] == text && (text + more)[|text|..] == more;
  }
}

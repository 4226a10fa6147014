/**
 Names and paths of compaction segments: `segment_007.md` and back, and recognising a read of
 the segment store by its path.
 */
module CompactionPaths {
  import opened Prelude

  const COMPACTION_DIR := "compaction"
  const INDEX_FILE := "INDEX.md"
  const SEGMENT_PREFIX := "segment_"
  const SEGMENT_SUFFIX := ".md"

  // ---------------------------------------------------------------- numbers --

  predicate AllDigits(s: string) {
    forall k :: 0 <= k < |s| ==> '0' <= s[k] <= '9'
  }

  function Value(s: string): nat
    requires AllDigits(s)
  {
    if s == [] then 0 else 10 * Value(s[..|s| - 1]) + (s[|s| - 1] as int - '0' as int)
  }

  function Zeros(k: nat): string {
    if k == 0 then [] else ['0'] + Zeros(k - 1)
  }

  // The number padded to three digits.
  function SegmentLabel(index: nat): string {
    var digits := Decimal(index);
    if |digits| >= 3 then digits else Zeros(3 - |digits|) + digits
  }

  function SegmentFilename(index: nat): string {
    SEGMENT_PREFIX + SegmentLabel(index) + SEGMENT_SUFFIX
  }

  // The digits of a u64: a leading plus sign is allowed, a number too large is an error.
  function ParseU64(s: string): Option<nat> {
    var digits := if s != [] && s[0] == '+' then s[1..] else s;
    if digits == [] || !AllDigits(digits) || Value(digits) >= TWO_TO_64 then None else Some(Value(digits))
  }

  ghost predicate Writes(digits: string, n: nat) {
    digits != "" && AllDigits(digits) && Value(digits) == n
  }

  // What reads as a u64: digits, with or without a plus sign, up to the largest one.
  lemma U64Numbers(s: string, n: nat)
    ensures ParseU64(s) == Some(n)
            <==> n <= 18_446_744_073_709_551_615 && exists digits :: Writes(digits, n) && (s == digits || s == "+" + digits)
  {
    var digits := if s != [] && s[0] == '+' then s[1..] else s;
    if ParseU64(s) == Some(n) {
      assert Writes(digits, n);
      assert s == digits || s == "+" + digits;
    }
    forall d | Writes(d, n) && (s == d || s == "+" + d) ensures digits == d {
      assert s == "+" + d ==> s[0] == '+' && s[1..] == d;
      assert '0' <= d[0] <= '9';
    }
    hide Value;
  }

  function StripPrefix(s: string, prefix: string): Option<string> {
    if prefix <= s then Some(s[|prefix|..]) else None
  }

  function StripSuffix(s: string, suffix: string): Option<string> {
    if EndsWith(s, suffix) then Some(s[..|s| - |suffix|]) else None
  }

  function ParseSegmentIndex(filename: string): Option<nat> {
    var rest := StripPrefix(filename, SEGMENT_PREFIX);
    if rest.None? then None
    else
      var number := StripSuffix(rest.value, SEGMENT_SUFFIX);
      if number.None? then None else ParseU64(number.value)
  }

  lemma {:induction false} DecimalValue(n: nat)
    ensures AllDigits(Decimal(n)) && Decimal(n) != [] && Value(Decimal(n)) == n
  {
    if n >= 10 {
      DecimalValue(n / 10);
      var front := Decimal(n / 10);
      assert (front + [Digit(n % 10)])[..|front|] == front;
    }
  }

  lemma {:induction false} LeadingZero(s: string)
    requires AllDigits(s)
    ensures AllDigits(['0'] + s) && Value(['0'] + s) == Value(s)
    decreases |s|
  {
    if s != [] {
      LeadingZero(s[..|s| - 1]);
      assert (['0'] + s)[..|s|] == ['0'] + s[..|s| - 1];
    } else {
      assert Value(['0'][..0]) == 0;
    }
  }

  lemma {:induction false} LeadingZeros(k: nat, s: string)
    requires AllDigits(s)
    ensures |Zeros(k)| == k && AllDigits(Zeros(k) + s) && Value(Zeros(k) + s) == Value(s)
  {
    if k == 0 {
      assert Zeros(0) + s == s;
    } else {
      LeadingZeros(k - 1, s);
      LeadingZero(Zeros(k - 1) + s);
      ConcatAssociates(['0'], Zeros(k - 1), s);
    }
  }

  lemma LabelValue(index: nat)
    ensures AllDigits(SegmentLabel(index)) && SegmentLabel(index) != [] && Value(SegmentLabel(index)) == index
  {
    DecimalValue(index);
    var digits := Decimal(index);
    hide Decimal;
    if |digits| < 3 {
      LeadingZeros(3 - |digits|, digits);
    }
  }

  lemma ParseOfParts(number: string)
    ensures ParseSegmentIndex(SEGMENT_PREFIX + number + SEGMENT_SUFFIX) == ParseU64(number)
  {
    var name := SEGMENT_PREFIX + number + SEGMENT_SUFFIX;
    ConcatAssociates(SEGMENT_PREFIX, number, SEGMENT_SUFFIX);
    assert SEGMENT_PREFIX <= name && name[|SEGMENT_PREFIX|..] == number + SEGMENT_SUFFIX;
    var rest := number + SEGMENT_SUFFIX;
    assert rest[|rest| - |SEGMENT_SUFFIX|..] == SEGMENT_SUFFIX && rest[..|rest| - |SEGMENT_SUFFIX|] == number;
    hide ParseU64;
  }

  // Every segment that is written is found again under its index.
  lemma FilenameRoundTrip(index: nat)
    requires index < TWO_TO_64
    ensures ParseSegmentIndex(SegmentFilename(index)) == Some(index)
  {
    LabelValue(index);
    ParseOfParts(SegmentLabel(index));
    hide SegmentLabel, Value, ParseSegmentIndex;
  }

  // Which names are accepted, and for which index: the number may have any number of leading
  // zeros and a plus sign.
  lemma AcceptedNames(filename: string, index: nat)
    ensures ParseSegmentIndex(filename) == Some(index)
            <==> exists number :: filename == "segment_" + number + ".md" && ParseU64(number) == Some(index)
  {
    if ParseSegmentIndex(filename) == Some(index) {
      var rest := filename[|SEGMENT_PREFIX|..];
      var number := rest[..|rest| - |SEGMENT_SUFFIX|];
      assert rest == number + SEGMENT_SUFFIX;
      ConcatAssociates(SEGMENT_PREFIX, number, SEGMENT_SUFFIX);
      assert filename == SEGMENT_PREFIX + number + SEGMENT_SUFFIX && ParseU64(number) == Some(index);
    }
    forall number | filename == SEGMENT_PREFIX + number + SEGMENT_SUFFIX
      ensures ParseSegmentIndex(filename) == ParseU64(number)
    {
      ParseOfParts(number);
    }
    hide ParseSegmentIndex, ParseU64;
  }

  // The numbers as they are written: at least three digits, no zero in front of a longer one.
  predicate Canonical(number: string) {
    AllDigits(number) && |number| >= 3 && (|number| > 3 ==> number[0] != '0')
  }

  lemma {:induction false} NoLeadingZero(s: string)
    requires AllDigits(s) && s != [] && (|s| > 1 ==> s[0] != '0')
    ensures Decimal(Value(s)) == s && (s[0] != '0' ==> Value(s) > 0)
  {
    var front, d := s[..|s| - 1], s[|s| - 1] as int - '0' as int;
    if front != [] {
      NoLeadingZero(front);
      assert Value(s) / 10 == Value(front) && Value(s) % 10 == d;
    } else {
      assert Value(front) == 0;
      assert s == [Digit(d)];
    }
  }

  lemma {:induction false} DecimalHead(n: nat)
    ensures Decimal(n) != [] && (|Decimal(n)| > 1 ==> Decimal(n)[0] != '0')
  {
    if n >= 10 {
      DecimalHead(n / 10);
      DecimalPositive(n / 10);
    }
  }

  lemma DecimalPositive(n: nat)
    requires n > 0
    ensures |Decimal(n)| == 1 ==> Decimal(n)[0] != '0'
  {
    if n >= 10 {
      DecimalValue(n / 10);
    }
  }

  lemma {:induction false} PaddedLabel(number: string, zeros: nat)
    requires AllDigits(number) && |number| == 3 && zeros < 3
    requires forall k :: 0 <= k < zeros ==> number[k] == '0'
    requires zeros < 2 ==> number[zeros] != '0'
    ensures SegmentLabel(Value(number)) == number
  {
    var digits := number[zeros..];
    NoLeadingZero(digits);
    assert number == Zeros(zeros) + digits by {
      assert Zeros(0) == [] && Zeros(1) == ['0'] && Zeros(2) == ['0', '0'];
    }
    LeadingZeros(zeros, digits);
    hide Decimal, Value;
  }

  lemma LabelIsCanonical(index: nat)
    ensures Canonical(SegmentLabel(index))
  {
    LabelValue(index);
    DecimalHead(index);
    DecimalValue(index);
    var digits := Decimal(index);
    hide Decimal, Value;
    if |digits| < 3 {
      LeadingZeros(3 - |digits|, digits);
    }
  }

  // A written name: the canonical number of its index between the prefix and the suffix.
  lemma WrittenNames(index: nat)
    ensures var number := SegmentLabel(index);
            SegmentFilename(index) == "segment_" + number + ".md" && Canonical(number) && Value(number) == index
  {
    LabelIsCanonical(index);
    LabelValue(index);
    hide SegmentLabel, Value;
  }

  // Reading a name and writing the index back gives the same name exactly for the names this
  // code writes.
  lemma RewrittenNames(number: string)
    requires ParseU64(number).Some?
    ensures SegmentLabel(ParseU64(number).value) == number <==> Canonical(number)
  {
    var index := ParseU64(number).value;
    if Canonical(number) {
      if |number| > 3 || number[0] != '0' {
        NoLeadingZero(number);
        hide Decimal, Value;
      } else {
        PaddedLabel(number, if number[1] != '0' then 1 else 2);
        hide SegmentLabel, Value;
      }
    } else {
      LabelIsCanonical(index);
      hide SegmentLabel, Canonical;
    }
  }

  // ------------------------------------------------------------------ paths --

  datatype Artifact = Segment(index: nat) | Index | Dir

  function TrimSlashes(path: string): string {
    if path != [] && path[|path| - 1] == '/' then TrimSlashes(path[..|path| - 1]) else path
  }

  predicate OccursAt(path: string, k: int) {
    0 <= k <= |path| - |COMPACTION_DIR| && path[k..k + |COMPACTION_DIR|] == COMPACTION_DIR
  }

  // The last occurrence of `compaction` that starts before `k`.
  function LastBefore(path: string, k: nat): (at: Option<nat>)
    ensures at.Some? ==> OccursAt(path, at.value)
  {
    if k == 0 then None else if OccursAt(path, k - 1) then Some(k - 1) else LastBefore(path, k - 1)
  }

  // What follows the last occurrence.
  function AfterLast(path: string): Option<string> {
    var at := LastBefore(path, |path| + 1);
    if at.None? then None else Some(path[at.value + |COMPACTION_DIR|..])
  }

  lemma {:induction false} LastOccurs(path: string, k: nat)
    ensures var at := LastBefore(path, k);
            && (at.Some? ==> at.value < k)
            && forall j :: (if at.Some? then at.value + 1 else 0) <= j < k ==> !OccursAt(path, j)
  {
    if k > 0 && !OccursAt(path, k - 1) {
      LastOccurs(path, k - 1);
    }
  }

  predicate IsStoreDir(path: string) {
    var trimmed := TrimSlashes(path);
    trimmed == COMPACTION_DIR
    || (EndsWith(trimmed, COMPACTION_DIR) && EndsWith(trimmed[..|trimmed| - |COMPACTION_DIR|], "/"))
  }

  function ClassifyCompactionPath(path: string): Option<Artifact> {
    if IsStoreDir(path) then Some(Dir)
    else
      var after := AfterLast(path);
      if after.None? || !("/" <= after.value) then None
      else
        var rest := after.value[1..];
        var index := ParseSegmentIndex(rest);
        if index.Some? then Some(Segment(index.value)) else if rest == INDEX_FILE then Some(Index) else None
  }

  // A file name in which `compaction` cannot begin.
  predicate Plain(name: string) {
    name != [] && 'c' !in name && name[|name| - 1] != '/' && name[|name| - 1] != 'n'
  }

  lemma OccurrenceBegins(path: string, k: nat)
    ensures OccursAt(path, k) ==> path[k] == 'c' && path[k + 1] == 'o'
  {
    assert OccursAt(path, k) ==> path[k] == path[k..k + 10][0] && path[k + 1] == path[k..k + 10][1];
  }

  lemma NoLaterOccurrence(prefix: string, name: string, k: nat)
    requires 'c' !in name && k > |prefix|
    ensures !OccursAt(prefix + COMPACTION_DIR + ("/" + name), k)
  {
    var path := prefix + COMPACTION_DIR + ("/" + name);
    var n := |prefix|;
    OccurrenceBegins(path, k);
    if k < n + 10 {
      assert path[k] == COMPACTION_DIR[k - n];
      assert k == n + 5 ==> path[k + 1] == COMPACTION_DIR[6];
    } else if k == n + 10 {
      assert path[k] == '/';
    } else if k < |path| {
      assert path[k] == name[k - n - 11] && name[k - n - 11] in name;
    }
    hide OccursAt;
    assert k + 10 > |path| ==> !OccursAt(path, k) by {
      OccurrenceFits(path, k);
    }
  }

  lemma OccurrenceFits(path: string, k: nat)
    ensures OccursAt(path, k) ==> k + 10 <= |path|
  {
  }

  lemma AfterLastIs(prefix: string, name: string)
    requires 'c' !in name
    ensures AfterLast(prefix + COMPACTION_DIR + ("/" + name)) == Some("/" + name)
  {
    var path := prefix + COMPACTION_DIR + ("/" + name);
    LastOccurs(path, |path| + 1);
    assert path[|prefix|..|prefix| + 10] == COMPACTION_DIR;
    assert OccursAt(path, |prefix|);
    var at := LastBefore(path, |path| + 1);
    forall k: nat | k > |prefix| ensures !OccursAt(path, k) {
      NoLaterOccurrence(prefix, name, k);
    }
    assert at == Some(|prefix|);
    assert path[|prefix| + 10..] == "/" + name;
    hide LastBefore, OccursAt;
  }

  lemma EndOfSuffix(s: string, suffix: string)
    requires suffix != []
    ensures EndsWith(s, suffix) ==> |s| > 0 && s[|s| - 1] == suffix[|suffix| - 1]
  {
  }

  lemma PlainIsNoDir(prefix: string, name: string)
    requires Plain(name)
    ensures !IsStoreDir(prefix + COMPACTION_DIR + ("/" + name))
  {
    var path := prefix + COMPACTION_DIR + ("/" + name);
    assert path[|path| - 1] == name[|name| - 1];
    assert TrimSlashes(path) == path;
    hide TrimSlashes;
    EndOfSuffix(path, COMPACTION_DIR);
    hide EndsWith;
  }

  lemma DigitsArePlain(number: string, index: nat)
    requires ParseU64(number) == Some(index)
    ensures Plain(SEGMENT_PREFIX + number + SEGMENT_SUFFIX)
  {
    var digits := if number[0] == '+' then number[1..] else number;
    forall c | c in number ensures c != 'c' {
      if c != '+' {
        assert c == number[0] || c in number[1..];
        assert c in digits;
      }
    }
    hide ParseU64;
    var name := SEGMENT_PREFIX + number + SEGMENT_SUFFIX;
    assert 'c' !in SEGMENT_PREFIX && 'c' !in SEGMENT_SUFFIX;
    assert name[|name| - 1] == 'd';
  }

  // A file of the store below any prefix at all is classified by its name alone.
  lemma ClassifiedByName(prefix: string, name: string)
    requires Plain(name)
    ensures ClassifyCompactionPath(prefix + COMPACTION_DIR + ("/" + name))
            == if ParseSegmentIndex(name).Some? then Some(Segment(ParseSegmentIndex(name).value))
               else if name == INDEX_FILE then Some(Index) else None
  {
    PlainIsNoDir(prefix, name);
    AfterLastIs(prefix, name);
    assert ("/" + name)[1..] == name;
    hide ParseSegmentIndex, IsStoreDir, AfterLast;
  }

  lemma SplitAt(path: string, at: nat)
    requires OccursAt(path, at)
    ensures path == path[..at] + COMPACTION_DIR + path[at + |COMPACTION_DIR|..]
  {
    assert path == path[..at] + path[at..at + 10] + path[at + 10..];
  }

  lemma SplitAtLast(path: string)
    requires AfterLast(path).Some? && "/" <= AfterLast(path).value
    ensures var at := LastBefore(path, |path| + 1).value;
            at <= |path| && path == path[..at] + COMPACTION_DIR + ("/" + AfterLast(path).value[1..])
  {
    var at := LastBefore(path, |path| + 1).value;
    SplitAt(path, at);
    SlashFirst(AfterLast(path).value);
    OccurrenceFits(path, at);
    hide LastBefore, OccursAt;
  }

  lemma SlashFirst(s: string)
    requires "/" <= s
    ensures s == "/" + s[1..]
  {
  }

  // `path` is `prefix`, the directory, and `name`.
  ghost predicate InStore(path: string, prefix: string, name: string) {
    path == prefix + "compaction" + ("/" + name)
  }

  lemma SegmentParts(path: string, index: nat) returns (prefix: string, name: string)
    requires ClassifyCompactionPath(path) == Some(Segment(index))
    ensures InStore(path, prefix, name) && ParseSegmentIndex(name) == Some(index)
  {
    SplitAtLast(path);
    prefix := path[..LastBefore(path, |path| + 1).value];
    name := AfterLast(path).value[1..];
    hide ParseSegmentIndex, IsStoreDir, LastBefore, AfterLast;
  }

  // A path is taken for segment `index` exactly when it is any prefix, `compaction/`, and a name
  // that reads as that index. The prefix need not end at a directory.
  lemma SegmentPaths(path: string, index: nat)
    ensures ClassifyCompactionPath(path) == Some(Segment(index))
            <==> exists prefix, name :: InStore(path, prefix, name) && ParseSegmentIndex(name) == Some(index)
  {
    hide *;
    if ClassifyCompactionPath(path) == Some(Segment(index)) {
      var prefix, name := SegmentParts(path, index);
      assert InStore(path, prefix, name) && ParseSegmentIndex(name) == Some(index);
    }
    forall prefix, name | InStore(path, prefix, name) && ParseSegmentIndex(name) == Some(index)
      ensures ClassifyCompactionPath(path) == Some(Segment(index))
    {
      SegmentInStore(path, prefix, name, index);
    }
  }

  lemma SegmentInStore(path: string, prefix: string, name: string, index: nat)
    requires InStore(path, prefix, name) && ParseSegmentIndex(name) == Some(index)
    ensures ClassifyCompactionPath(path) == Some(Segment(index))
  {
    hide ParseSegmentIndex, ParseU64, Plain, ClassifyCompactionPath;
    AcceptedNames(name, index);
    var number :| name == SEGMENT_PREFIX + number + SEGMENT_SUFFIX && ParseU64(number) == Some(index);
    DigitsArePlain(number, index);
    ClassifiedByName(prefix, name);
  }

  // Below any directory, whatever its name, a written segment is classified as itself.
  lemma SegmentsAreRecognised(prefix: string, index: nat)
    requires index < TWO_TO_64
    ensures ClassifyCompactionPath(prefix + COMPACTION_DIR + ("/" + SegmentFilename(index))) == Some(Segment(index))
  {
    hide ParseSegmentIndex, ClassifyCompactionPath, SegmentFilename;
    FilenameRoundTrip(index);
    var path := prefix + COMPACTION_DIR + ("/" + SegmentFilename(index));
    SegmentInStore(path, prefix, SegmentFilename(index), index);
  }

  lemma IndexInStore(path: string, prefix: string)
    requires InStore(path, prefix, INDEX_FILE)
    ensures ClassifyCompactionPath(path) == Some(Index)
  {
    assert INDEX_FILE[0] == 'I' && SEGMENT_PREFIX[0] == 's';
    assert ParseSegmentIndex(INDEX_FILE).None?;
    hide ParseSegmentIndex, ClassifyCompactionPath;
    ClassifiedByName(prefix, INDEX_FILE);
  }

  lemma IndexParts(path: string) returns (prefix: string)
    requires ClassifyCompactionPath(path) == Some(Index)
    ensures InStore(path, prefix, INDEX_FILE)
  {
    SplitAtLast(path);
    prefix := path[..LastBefore(path, |path| + 1).value];
    hide ParseSegmentIndex, IsStoreDir, LastBefore, AfterLast;
  }

  // And a path is taken for the index exactly when it is any prefix and `compaction/INDEX.md`.
  lemma IndexIsRecognised(path: string)
    ensures ClassifyCompactionPath(path) == Some(Index) <==> exists prefix :: InStore(path, prefix, "INDEX.md")
  {
    assert INDEX_FILE == "INDEX.md";
    hide *;
    if ClassifyCompactionPath(path) == Some(Index) {
      var prefix := IndexParts(path);
      assert InStore(path, prefix, INDEX_FILE);
    }
    forall prefix | InStore(path, prefix, INDEX_FILE) ensures ClassifyCompactionPath(path) == Some(Index) {
      IndexInStore(path, prefix);
    }
  }

  // -------------------------------------------------------- the store itself --

  function Slashes(k: nat): string {
    if k == 0 then [] else Slashes(k - 1) + ['/']
  }

  predicate EndsInName(path: string) {
    path == [] || path[|path| - 1] != '/'
  }

  lemma {:induction false} TrimSplits(path: string)
    ensures var trimmed := TrimSlashes(path);
            |trimmed| <= |path| && path == trimmed + Slashes(|path| - |trimmed|) && EndsInName(trimmed)
  {
    if path != [] && path[|path| - 1] == '/' {
      var front := path[..|path| - 1];
      TrimSplits(front);
      var trimmed := TrimSlashes(front);
      assert path == front + ['/'];
      ConcatAssociates(trimmed, Slashes(|front| - |trimmed|), ['/']);
    } else {
      assert path + [] == path;
    }
  }

  lemma {:induction false} TrimUndoes(trimmed: string, k: nat)
    requires EndsInName(trimmed)
    ensures TrimSlashes(trimmed + Slashes(k)) == trimmed
  {
    if k == 0 {
      assert trimmed + [] == trimmed;
    } else {
      TrimUndoes(trimmed, k - 1);
      var front := trimmed + Slashes(k - 1);
      ConcatAssociates(trimmed, Slashes(k - 1), ['/']);
      assert (front + ['/'])[..|front|] == front;
    }
  }

  // `path` is a directory named `compaction`, with any number of slashes behind it.
  ghost predicate NamesStore(path: string, prefix: string, k: nat) {
    path == prefix + "compaction" + Slashes(k) && (prefix == [] || prefix[|prefix| - 1] == '/')
  }

  lemma StoreDirParts(trimmed: string)
    ensures trimmed == COMPACTION_DIR
            || (EndsWith(trimmed, COMPACTION_DIR) && EndsWith(trimmed[..|trimmed| - |COMPACTION_DIR|], "/"))
            <==> |trimmed| >= |COMPACTION_DIR| && NamesStore(trimmed, trimmed[..|trimmed| - |COMPACTION_DIR|], 0)
  {
    if |trimmed| >= |COMPACTION_DIR| {
      var prefix := trimmed[..|trimmed| - |COMPACTION_DIR|];
      assert prefix + COMPACTION_DIR + Slashes(0) == prefix + COMPACTION_DIR;
      assert trimmed == prefix + trimmed[|prefix|..];
      assert EndsWith(prefix, "/") <==> prefix != [] && prefix[|prefix| - 1] == '/';
    }
  }

  lemma StoreDirs(path: string)
    ensures ClassifyCompactionPath(path) == Some(Dir) <==> exists prefix, k :: NamesStore(path, prefix, k)
  {
    var trimmed := TrimSlashes(path);
    TrimSplits(path);
    StoreDirParts(trimmed);
    assert ClassifyCompactionPath(path) == Some(Dir) <==> IsStoreDir(path);
    if IsStoreDir(path) {
      var prefix, k := trimmed[..|trimmed| - |COMPACTION_DIR|], |path| - |trimmed|;
      assert trimmed == prefix + COMPACTION_DIR + [];
      assert NamesStore(path, prefix, k);
    }
    hide ClassifyCompactionPath;
    forall prefix, k | NamesStore(path, prefix, k) ensures IsStoreDir(path) {
      NamedIsStore(path, prefix, k);
    }
  }

  lemma NamedIsStore(path: string, prefix: string, k: nat)
    requires NamesStore(path, prefix, k)
    ensures IsStoreDir(path)
  {
    var trimmed := prefix + COMPACTION_DIR;
    assert trimmed[|trimmed| - 1] == COMPACTION_DIR[9];
    TrimUndoes(trimmed, k);
    assert trimmed[..|trimmed| - |COMPACTION_DIR|] == prefix;
    assert trimmed + Slashes(0) == trimmed;
    StoreDirParts(trimmed);
    hide TrimSlashes, Slashes;
  }
}

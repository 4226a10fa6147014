/**
 Arena string interner: one byte arena, one span per string, and hash buckets of ids. It must
 behave as the sequence of distinct strings in first-seen order, whatever the hash function.
 */
module Interner {
  import opened Prelude

  const U16: nat := 0x1_0000
  const U32: nat := 0x1_0000_0000

  // `as u16` and `as u32` drop the high bits.
  function AsU16(n: nat): (r: nat)
    ensures n < U16 ==> r == n
  {
    n % U16
  }

  function AsU32(n: nat): (r: nat)
    ensures n < U32 ==> r == n
  {
    n % U32
  }

  type Str = seq<Byte>

  type Hash = Str -> nat

  // `(start, len)` into the arena, stored as u32 and u16.
  datatype Span = Span(start: nat, len: nat)

  type Buckets = map<nat, seq<nat>>

  // `arena.get(start..start + len)`
  function Slice(arena: seq<Byte>, at: Span): Option<Str> {
    if at.start + at.len <= |arena| then Some(arena[at.start..at.start + at.len]) else None
  }

  // `get_bytes`
  function BytesAt(arena: seq<Byte>, offsets: seq<Span>, id: nat): Option<Str> {
    if id < |offsets| then Slice(arena, offsets[id]) else None
  }

  // The first of some ids whose bytes are `s`.
  function Find(arena: seq<Byte>, offsets: seq<Span>, ids: seq<nat>, s: Str): Option<nat> {
    if ids == [] then None
    else
      var before, id := Find(arena, offsets, ids[..|ids| - 1], s), ids[|ids| - 1];
      if before.Some? then before else if BytesAt(arena, offsets, id) == Some(s) then Some(id) else None
  }

  function Bucket(lookup: Buckets, h: nat): seq<nat> {
    if h in lookup then lookup[h] else []
  }

  function AddTo(lookup: Buckets, h: nat, id: nat): Buckets {
    lookup[h := Bucket(lookup, h) + [id]]
  }

  datatype Parts = Parts(arena: seq<Byte>, offsets: seq<Span>, lookup: Buckets)

  // An intern as the code does it, casts included.
  function Intern(hash: Hash, p: Parts, s: Str): (Parts, nat) {
    var known := Find(p.arena, p.offsets, Bucket(p.lookup, hash(s)), s);
    if known.Some? then (p, known.value) else (Appended(hash, p, s), AsU32(|p.offsets|))
  }

  function Appended(hash: Hash, p: Parts, s: Str): Parts {
    Parts(p.arena + s, p.offsets + [Span(AsU32(|p.arena|), AsU16(|s|))],
          AddTo(p.lookup, hash(s), AsU32(|p.offsets|)))
  }

  // ------------------------------------------------------------ abstraction --

  // The buckets of a sequence of strings whose ids are their positions.
  function Index(hash: Hash, strings: seq<Str>): Buckets {
    if strings == [] then map[]
    else AddTo(Index(hash, strings[..|strings| - 1]), hash(strings[|strings| - 1]), |strings| - 1)
  }

  // The spans that tile the arena with these strings.
  function Spans(strings: seq<Str>): seq<Span> {
    if strings == [] then []
    else
      var init, last := strings[..|strings| - 1], strings[|strings| - 1];
      Spans(init) + [Span(|Flatten(init)|, |last|)]
  }

  ghost predicate Distinct(strings: seq<Str>) {
    forall i, j :: 0 <= i < j < |strings| ==> strings[i] != strings[j]
  }

  // An arena and spans as the interner lays them out.
  ghost predicate Represents(arena: seq<Byte>, offsets: seq<Span>, strings: seq<Str>) {
    arena == Flatten(strings) && offsets == Spans(strings) && Distinct(strings)
  }

  lemma SliceMiddle(before: seq<Byte>, middle: seq<Byte>, after: seq<Byte>)
    ensures Slice(before + middle + after, Span(|before|, |middle|)) == Some(middle)
  {
    assert (before + middle + after)[|before|..|before| + |middle|] == middle;
  }

  lemma SliceGrows(arena: seq<Byte>, more: seq<Byte>, at: Span)
    requires at.start + at.len <= |arena|
    ensures Slice(arena + more, at) == Slice(arena, at)
  {
    assert (arena + more)[at.start..at.start + at.len] == arena[at.start..at.start + at.len];
  }

  lemma {:induction false} SpanAt(strings: seq<Str>, id: nat)
    ensures |Spans(strings)| == |strings|
    ensures id < |strings| ==> Slice(Flatten(strings), Spans(strings)[id]) == Some(strings[id])
  {
    if strings != [] {
      var init, last := strings[..|strings| - 1], strings[|strings| - 1];
      SpanAt(init, id);
      FlattenSnoc(init, last);
      assert strings == init + [last];
      hide Flatten;
      if id < |init| {
        SliceGrows(Flatten(init), last, Spans(init)[id]);
      } else {
        SliceMiddle(Flatten(init), last, []);
        assert Flatten(init) + last + [] == Flatten(init) + last;
      }
    }
  }

  // A bucket holds the ids of exactly the strings with its hash, in increasing order.
  ghost predicate BucketOf(ids: seq<nat>, hash: Hash, strings: seq<Str>, h: nat) {
    && (forall k :: 0 <= k < |ids| ==> ids[k] < |strings| && hash(strings[ids[k]]) == h)
    && (forall j, k :: 0 <= j < k < |ids| ==> ids[j] < ids[k])
    && (forall i :: 0 <= i < |strings| && hash(strings[i]) == h ==> i in ids)
  }

  lemma BucketSnoc(ids: seq<nat>, hash: Hash, strings: seq<Str>, last: Str, h: nat)
    requires BucketOf(ids, hash, strings, h)
    ensures BucketOf(if hash(last) == h then ids + [|strings|] else ids, hash, strings + [last], h)
  {
    var more := strings + [last];
    var ids' := if hash(last) == h then ids + [|strings|] else ids;
    forall i | 0 <= i < |more| && hash(more[i]) == h ensures i in ids' {
      if i < |strings| {
        assert hash(strings[i]) == h;
      } else {
        assert ids'[|ids|] == i;
      }
    }
  }

  lemma {:induction false} IndexIsExact(hash: Hash, strings: seq<Str>, h: nat)
    ensures BucketOf(Bucket(Index(hash, strings), h), hash, strings, h)
  {
    if strings != [] {
      var init, last := strings[..|strings| - 1], strings[|strings| - 1];
      var before := Bucket(Index(hash, init), h);
      assert Bucket(Index(hash, strings), h) == if hash(last) == h then before + [|init|] else before;
      assert strings == init + [last];
      hide BucketOf, Bucket, Index;
      IndexIsExact(hash, init, h);
      BucketSnoc(before, hash, init, last, h);
    }
  }

  lemma {:induction false} FindStays(arena: seq<Byte>, offsets: seq<Span>, ids: seq<nat>, s: Str, k: nat)
    requires k <= |ids| && Find(arena, offsets, ids[..k], s).Some?
    ensures Find(arena, offsets, ids, s) == Find(arena, offsets, ids[..k], s)
  {
    if k == |ids| {
      assert ids[..k] == ids;
    } else {
      assert ids[..|ids| - 1][..k] == ids[..k];
      FindStays(arena, offsets, ids[..|ids| - 1], s, k);
    }
  }

  // Ids whose bytes are known.
  ghost predicate Read(arena: seq<Byte>, offsets: seq<Span>, strings: seq<Str>, ids: seq<nat>) {
    forall k :: 0 <= k < |ids| ==> ids[k] < |strings| && BytesAt(arena, offsets, ids[k]) == Some(strings[ids[k]])
  }

  lemma {:induction false} FindAmong(arena: seq<Byte>, offsets: seq<Span>, strings: seq<Str>, ids: seq<nat>, s: Str)
    requires Read(arena, offsets, strings, ids)
    ensures var found := Find(arena, offsets, ids, s);
            && (found.Some? ==> found.value < |strings| && strings[found.value] == s)
            && (found.None? ==> forall k :: 0 <= k < |ids| ==> strings[ids[k]] != s)
  {
    hide BytesAt;
    if ids != [] {
      FindAmong(arena, offsets, strings, ids[..|ids| - 1], s);
    }
  }

  lemma RepresentedCount(arena: seq<Byte>, offsets: seq<Span>, strings: seq<Str>)
    requires Represents(arena, offsets, strings)
    ensures |offsets| == |strings|
  {
    SpanAt(strings, 0);
    hide Spans, Flatten;
  }

  lemma OneReads(arena: seq<Byte>, offsets: seq<Span>, strings: seq<Str>, more: seq<Byte>, tail: seq<Span>, id: nat)
    requires Represents(arena, offsets, strings) && id < |strings|
    ensures BytesAt(arena + more, offsets + tail, id) == Some(strings[id])
  {
    SpanAt(strings, id);
    SliceGrows(arena, more, offsets[id]);
    hide Spans, Flatten;
  }

  lemma IdsRead(hash: Hash, arena: seq<Byte>, offsets: seq<Span>, strings: seq<Str>, ids: seq<nat>, h: nat)
    requires BucketOf(ids, hash, strings, h)
    requires forall id :: 0 <= id < |strings| ==> BytesAt(arena, offsets, id) == Some(strings[id])
    ensures Read(arena, offsets, strings, ids)
  {
    hide BytesAt;
  }

  // The ids of a bucket read their strings, also after one more string was appended.
  lemma BucketReads(hash: Hash, arena: seq<Byte>, offsets: seq<Span>, strings: seq<Str>, h: nat,
                    more: seq<Byte>, tail: seq<Span>)
    requires Represents(arena, offsets, strings)
    ensures Read(arena + more, offsets + tail, strings, Bucket(Index(hash, strings), h))
    ensures |offsets| == |strings|
    ensures forall id :: 0 <= id < |strings| ==> BytesAt(arena + more, offsets + tail, id) == Some(strings[id])
  {
    hide *;
    RepresentedCount(arena, offsets, strings);
    forall id | 0 <= id < |strings| ensures BytesAt(arena + more, offsets + tail, id) == Some(strings[id]) {
      OneReads(arena, offsets, strings, more, tail, id);
    }
    IndexIsExact(hash, strings, h);
    IdsRead(hash, arena + more, offsets + tail, strings, Bucket(Index(hash, strings), h), h);
  }

  lemma FindIsExact(hash: Hash, arena: seq<Byte>, offsets: seq<Span>, strings: seq<Str>, s: Str)
    requires Represents(arena, offsets, strings)
    ensures var found := Find(arena, offsets, Bucket(Index(hash, strings), hash(s)), s);
            && (found.Some? <==> s in strings)
            && (found.Some? ==> found.value < |strings| && strings[found.value] == s)
  {
    var ids := Bucket(Index(hash, strings), hash(s));
    IndexIsExact(hash, strings, hash(s));
    BucketReads(hash, arena, offsets, strings, hash(s), [], []);
    assert arena + [] == arena && offsets + [] == offsets;
    FindAmong(arena, offsets, strings, ids, s);
    hide Index, Bucket, Find, Represents, Read;
    assert forall i :: 0 <= i < |strings| && strings[i] == s ==> i in ids;
  }

  // The search after a new string was appended: it is found, and nothing else is, exactly when no
  // cast cut it off.
  lemma FoundAgain(hash: Hash, arena: seq<Byte>, offsets: seq<Span>, strings: seq<Str>, s: Str)
    requires Represents(arena, offsets, strings) && s !in strings
    ensures var span, id := Span(AsU32(|arena|), AsU16(|s|)), AsU32(|offsets|);
            var ids := Bucket(AddTo(Index(hash, strings), hash(s), id), hash(s));
            Find(arena + s, offsets + [span], ids, s)
            == if |offsets| < U32 && ReadsBack(arena, s) then Some(|offsets|) else None
  {
    var span, id := Span(AsU32(|arena|), AsU16(|s|)), AsU32(|offsets|);
    var ids := Bucket(Index(hash, strings), hash(s));
    hide *;
    BucketAdd(Index(hash, strings), hash(s), id);
    NotAmongOld(hash, arena, offsets, strings, s, span, id);
    LengthCastIsExact(arena, s);
    CastIds(|offsets|);
    FindSnoc(arena + s, offsets + [span], ids, id, s);
    LastBytes(arena + s, offsets, span);
  }

  // None of the old ids reads a string that is not there.
  lemma NotAmongOld(hash: Hash, arena: seq<Byte>, offsets: seq<Span>, strings: seq<Str>, s: Str, span: Span, id: nat)
    requires Represents(arena, offsets, strings) && s !in strings
    ensures Find(arena + s, offsets + [span], Bucket(Index(hash, strings), hash(s)), s).None?
    ensures id < |offsets| ==> BytesAt(arena + s, offsets + [span], id) != Some(s)
  {
    hide *;
    BucketReads(hash, arena, offsets, strings, hash(s), s, [span]);
    FindAmong(arena + s, offsets + [span], strings, Bucket(Index(hash, strings), hash(s)), s);
    assert id < |offsets| ==> strings[id] in strings;
  }

  lemma BucketAdd(lookup: Buckets, h: nat, id: nat)
    ensures Bucket(AddTo(lookup, h, id), h) == Bucket(lookup, h) + [id]
  {
  }

  lemma LastBytes(arena: seq<Byte>, offsets: seq<Span>, span: Span)
    ensures BytesAt(arena, offsets + [span], |offsets|) == Slice(arena, span)
  {
    hide Slice;
  }

  lemma FindSnoc(arena: seq<Byte>, offsets: seq<Span>, ids: seq<nat>, id: nat, s: Str)
    requires Find(arena, offsets, ids, s).None?
    ensures Find(arena, offsets, ids + [id], s)
            == if BytesAt(arena, offsets, id) == Some(s) then Some(id) else None
  {
    assert (ids + [id])[..|ids|] == ids;
    hide BytesAt;
  }

  lemma CastIds(n: nat)
    ensures AsU32(n) <= n && (AsU32(n) == n <==> n < U32)
    ensures AsU32(n + 1) != AsU32(n)
  {
  }

  // Interning a new string twice gives one id exactly when no cast cuts it off: its length fits a
  // u16, its id a u32, and its bytes stand where the cast offset points.
  lemma InternTwice(hash: Hash, p: Parts, strings: seq<Str>, s: Str)
    requires Represents(p.arena, p.offsets, strings) && p.lookup == Index(hash, strings) && s !in strings
    ensures var (once, first) := Intern(hash, p, s);
            var (_, second) := Intern(hash, once, s);
            && (first == second <==> |p.offsets| < 4_294_967_296 && ReadsBack(p.arena, s))
            && (|p.offsets| < 4_294_967_296 && |p.arena| < 4_294_967_296 ==> (first == second <==> |s| < 65_536))
  {
    LengthCastIsExact(p.arena, s);
    FindIsExact(hash, p.arena, p.offsets, strings, s);
    FoundAgain(hash, p.arena, p.offsets, strings, s);
    CastIds(|p.offsets|);
    hide Represents, Index, Find, Bucket, AddTo, ReadsBack, AsU32, AsU16;
  }

  // The specification: intern a string into a sequence of distinct strings.
  function IndexOf(strings: seq<Str>, s: Str): nat {
    if strings == [] || strings[0] == s then 0 else 1 + IndexOf(strings[1..], s)
  }

  lemma {:induction false} IndexOfIs(strings: seq<Str>, s: Str, id: nat)
    requires Distinct(strings) && id < |strings| && strings[id] == s
    ensures IndexOf(strings, s) == id
  {
    if id > 0 {
      assert strings[0] != strings[id];
      assert strings[1..][id - 1] == s;
      IndexOfIs(strings[1..], s, id - 1);
    }
  }

  function Interned(strings: seq<Str>, s: Str): seq<Str> {
    if s in strings then strings else strings + [s]
  }

  // ------------------------------------------------------------------- code --

  class StringInterner {
    const hash: Hash
    var arena: seq<Byte>
    var lookup: Buckets
    var offsets: seq<Span>
    ghost var strings: seq<Str>

    constructor (hash: Hash)
      ensures this.hash == hash && Valid() && strings == []
    {
      this.hash := hash;
      arena, lookup, offsets, strings := [], map[], [], [];
    }

    ghost predicate Valid()
      reads this
    {
      Represents(arena, offsets, strings) && lookup == Index(hash, strings)
    }

    // Room for one more string of this length before an integer cast would cut something off.
    predicate Fits(s: Str)
      reads this
    {
      |s| < U16 && |arena| < U32 && |offsets| < U32
    }

    function GetBytes(id: nat): Option<Str>
      reads this
    {
      BytesAt(arena, offsets, id)
    }

    lemma GetBytesIs(id: nat)
      requires Valid()
      ensures GetBytes(id) == if id < |strings| then Some(strings[id]) else None
    {
      SpanAt(strings, id);
    }

    // The search both lookups share. In a valid interner it finds the interned strings.
    method FindInBucket(s: Str) returns (found: Option<nat>)
      ensures found == Find(arena, offsets, Bucket(lookup, hash(s)), s)
      ensures Valid() ==> (found.Some? <==> s in strings)
      ensures Valid() && found.Some? ==> found.value < |strings| && strings[found.value] == s
    {
      var ids := Bucket(lookup, hash(s));
      if Valid() {
        FindIsExact(hash, arena, offsets, strings, s);
      }
      hide Represents, Index, Bucket;
      found := None;
      for k := 0 to |ids|
        invariant found.None? && Find(arena, offsets, ids[..k], s).None?
      {
        assert ids[..k + 1][..k] == ids[..k];
        if GetBytes(ids[k]) == Some(s) {
          found := Some(ids[k]);
          FindStays(arena, offsets, ids, s, k + 1);
          return;
        }
      }
      assert ids[..|ids|] == ids;
    }

    method GetBytesId(s: Str) returns (id: Option<nat>)
      requires Valid()
      ensures id == if s in strings then Some(IndexOf(strings, s)) else None
    {
      id := FindInBucket(s);
      if id.Some? {
        IndexOfIs(strings, s, id.value);
      }
    }

    function Contents(): Parts
      reads this
    {
      Parts(arena, offsets, lookup)
    }

    // The second half of an intern: `s` was not found.
    method Append(s: Str) returns (id: nat)
      modifies this
      ensures Contents() == Appended(hash, old(Contents()), s) && strings == old(strings) + [s]
      ensures id == AsU32(|old(offsets)|)
      ensures old(Valid() && s !in strings && Fits(s)) ==> Valid() && id == IndexOf(strings, s)
    {
      if Valid() && s !in strings {
        SpanAt(strings, 0);
        Snoc(hash, strings, s);
      }
      hide Index, Spans, Flatten, IndexOf, Distinct, AddTo, AsU16, AsU32;
      var start, len := AsU32(|arena|), AsU16(|s|);
      arena := arena + s;
      id := AsU32(|offsets|);
      offsets := offsets + [Span(start, len)];
      lookup := AddTo(lookup, hash(s), id);
      strings := strings + [s];
    }

    // In any state the code does what `Intern` says; in a valid one that is to intern the string.
    method InternBytes(s: Str) returns (id: nat)
      modifies this
      ensures (Contents(), id) == Intern(hash, old(Contents()), s)
      ensures old(Valid() && (s in strings || Fits(s))) ==>
                Valid() && strings == Interned(old(strings), s) && id == IndexOf(strings, s)
    {
      var known := FindInBucket(s);
      if known.Some? {
        if Valid() {
          IndexOfIs(strings, s, known.value);
        }
        return known.value;
      }
      hide IndexOf, Find, Bucket, Represents, Appended;
      id := Append(s);
    }

    // A run of interns. Each answer is the id of its string at the end of the run as well.
    method InternList(inputs: seq<Str>) returns (ids: seq<nat>)
      requires Valid() && AllShort(inputs)
      requires |arena| + |Flatten(inputs)| < U32 && |offsets| + |inputs| <= U32
      modifies this
      ensures Valid() && strings == InternAll(old(strings), inputs)
      ensures |ids| == |inputs| && AreIds(ids, strings, inputs)
    {
      ids := [];
      ghost var first, bytes, count := strings, |arena|, |offsets|;
      StartOfRun(first, inputs);
      hide InternAll, Flatten, IndexOf, Index, Spans, Represents, AreIds, AllShort;
      for i := 0 to |inputs|
        invariant Valid() && strings == InternAll(first, inputs[..i])
        invariant |arena| <= bytes + |Flatten(inputs[..i])| && |offsets| <= count + i
        invariant |ids| == i && AreIds(ids, strings, inputs)
      {
        InternAllSnoc(first, inputs, i);
        BytesSoFar(inputs, i);
        IdsStay(ids, strings, inputs);
        ShortAt(inputs, i);
        var id := InternBytes(inputs[i]);
        ids := ids + [id];
      }
      assert inputs[..|inputs|] == inputs;
    }

    method Clear()
      modifies this
      ensures Valid() && strings == []
    {
      arena, lookup, offsets, strings := [], map[], [], [];
    }

    // Rebuilds the lookup of stored parts. Parts saved from a valid interner give that interner.
    constructor FromParts(hash: Hash, arena: seq<Byte>, offsets: seq<Span>, ghost saved: seq<Str>)
      ensures this.hash == hash && this.arena == arena && this.offsets == offsets
      ensures lookup == Rebuild(hash, arena, offsets)
      ensures Represents(arena, offsets, saved) ==> Valid() && strings == saved
    {
      this.hash := hash;
      this.arena, this.offsets, this.strings := arena, offsets, saved;
      var table: Buckets := map[];
      for idx := 0 to |offsets|
        invariant table == Rebuild(hash, arena, offsets[..idx])
      {
        assert offsets[..idx + 1][..idx] == offsets[..idx];
        var bytes := Slice(arena, offsets[idx]);
        if bytes.Some? {
          table := AddTo(table, hash(bytes.value), idx);
        }
      }
      assert offsets[..|offsets|] == offsets;
      this.lookup := table;
      if Represents(arena, offsets, saved) {
        RebuildIsIndex(hash, saved, []);
        assert arena + [] == arena;
      }
    }
  }

  lemma Snoc(hash: Hash, strings: seq<Str>, s: Str)
    requires Distinct(strings) && s !in strings
    ensures Flatten(strings + [s]) == Flatten(strings) + s
    ensures Spans(strings + [s]) == Spans(strings) + [Span(|Flatten(strings)|, |s|)]
    ensures Index(hash, strings + [s]) == AddTo(Index(hash, strings), hash(s), |strings|)
    ensures Distinct(strings + [s]) && IndexOf(strings + [s], s) == |strings|
  {
    assert (strings + [s])[..|strings|] == strings;
    FlattenSnoc(strings, s);
    IndexOfIs(strings + [s], s, |strings|);
  }

  // The lookup `from_parts` builds: spans outside the arena are skipped.
  function Rebuild(hash: Hash, arena: seq<Byte>, offsets: seq<Span>): Buckets {
    if offsets == [] then map[]
    else
      var rest, last := Rebuild(hash, arena, offsets[..|offsets| - 1]), Slice(arena, offsets[|offsets| - 1]);
      if last.Some? then AddTo(rest, hash(last.value), |offsets| - 1) else rest
  }

  lemma {:induction false} RebuildIsIndex(hash: Hash, strings: seq<Str>, more: seq<Byte>)
    ensures Rebuild(hash, Flatten(strings) + more, Spans(strings)) == Index(hash, strings)
  {
    if strings != [] {
      var init, last := strings[..|strings| - 1], strings[|strings| - 1];
      var front, spans := Flatten(init), Spans(init);
      FlattenSnoc(init, last);
      assert strings == init + [last];
      RebuildIsIndex(hash, init, last + more);
      SpanAt(init, 0);
      hide Flatten;
      ConcatAssociates(front, last, more);
      SliceMiddle(front, last, more);
      assert (spans + [Span(|front|, |last|)])[..|init|] == spans;
    }
  }

  // ------------------------------------------------------------- what it means --

  // A run of interns, from the strings already there.
  function InternAll(strings: seq<Str>, inputs: seq<Str>): seq<Str>
    decreases |inputs|
  {
    if inputs == [] then strings else InternAll(Interned(strings, inputs[0]), inputs[1..])
  }

  lemma {:induction false} InternAllSnoc(strings: seq<Str>, inputs: seq<Str>, i: nat)
    requires i < |inputs|
    ensures InternAll(strings, inputs[..i + 1]) == Interned(InternAll(strings, inputs[..i]), inputs[i])
    decreases i
  {
    if i == 0 {
      assert inputs[..1] == [inputs[0]] && inputs[..1][1..] == [];
    } else {
      assert inputs[..i + 1][1..] == inputs[1..][..i] && inputs[..i][1..] == inputs[1..][..i - 1];
      hide Interned;
      InternAllSnoc(Interned(strings, inputs[0]), inputs[1..], i - 1);
    }
  }

  lemma BytesSoFar(inputs: seq<Str>, i: nat)
    requires i < |inputs|
    ensures |Flatten(inputs[..i + 1])| == |Flatten(inputs[..i])| + |inputs[i]| <= |Flatten(inputs)|
  {
    hide *;
    var front, back := inputs[..i + 1], inputs[i + 1..];
    assert front == inputs[..i] + [inputs[i]];
    FlattenSnoc(inputs[..i], inputs[i]);
    assert inputs == front + back;
    FlattenAppend(front, back);
  }

  lemma {:induction false} IndexOfKept(strings: seq<Str>, more: Str, s: Str)
    requires s in strings
    ensures IndexOf(strings + [more], s) == IndexOf(strings, s)
  {
    if strings[0] != s {
      assert (strings + [more])[1..] == strings[1..] + [more];
      IndexOfKept(strings[1..], more, s);
    }
  }

  predicate AllShort(inputs: seq<Str>) {
    forall k :: 0 <= k < |inputs| ==> |inputs[k]| < U16
  }

  lemma ShortAt(inputs: seq<Str>, i: nat)
    requires AllShort(inputs) && i < |inputs|
    ensures |inputs[i]| < U16
  {
  }

  // The ids of the first inputs.
  predicate AreIds(ids: seq<nat>, strings: seq<Str>, inputs: seq<Str>) {
    |ids| <= |inputs| && forall k :: 0 <= k < |ids| ==> inputs[k] in strings && ids[k] == IndexOf(strings, inputs[k])
  }

  lemma StartOfRun(strings: seq<Str>, inputs: seq<Str>)
    ensures InternAll(strings, inputs[..0]) == strings && |Flatten(inputs[..0])| == 0 && AreIds([], strings, inputs)
  {
  }

  lemma IdsStay(ids: seq<nat>, strings: seq<Str>, inputs: seq<Str>)
    requires |ids| < |inputs| && AreIds(ids, strings, inputs)
    ensures var s := inputs[|ids|];
            AreIds(ids + [IndexOf(Interned(strings, s), s)], Interned(strings, s), inputs)
  {
    hide IndexOf;
    var s := inputs[|ids|];
    forall k | 0 <= k < |ids| ensures IndexOf(Interned(strings, s), inputs[k]) == IndexOf(strings, inputs[k]) {
      if s !in strings {
        IndexOfKept(strings, s, inputs[k]);
      }
    }
  }

  // Ids never change meaning: later interns only add strings at the end.
  lemma {:induction false} RunsOnlyAppend(strings: seq<Str>, inputs: seq<Str>)
    ensures strings <= InternAll(strings, inputs)
    decreases |inputs|
  {
    if inputs != [] {
      RunsOnlyAppend(Interned(strings, inputs[0]), inputs[1..]);
    }
  }

  // The strings after a run: distinct, the ones there before and the inputs, and nothing else.
  lemma {:induction false} RunKeepsDistinct(strings: seq<Str>, inputs: seq<Str>)
    requires Distinct(strings)
    ensures Distinct(InternAll(strings, inputs))
    ensures forall s :: s in InternAll(strings, inputs) <==> s in strings || s in inputs
    decreases |inputs|
  {
    if inputs != [] {
      InternedIs(strings, inputs[0]);
      HeadOrTail(inputs);
      hide Interned, Distinct;
      RunKeepsDistinct(Interned(strings, inputs[0]), inputs[1..]);
    }
  }

  lemma InternedIs(strings: seq<Str>, s: Str)
    requires Distinct(strings)
    ensures Distinct(Interned(strings, s))
    ensures forall x :: x in Interned(strings, s) <==> x in strings || x == s
  {
  }

  lemma HeadOrTail(inputs: seq<Str>)
    requires inputs != []
    ensures forall x :: x in inputs <==> x == inputs[0] || x in inputs[1..]
  {
    assert inputs == [inputs[0]] + inputs[1..];
  }

  // Equal strings share an id and different strings do not, whenever each was interned.
  lemma IdsIdentifyStrings(inputs: seq<Str>, i: nat, j: nat)
    requires i < |inputs| && j < |inputs|
    ensures var all := InternAll([], inputs);
            && IndexOf(all, inputs[i]) < |all| && all[IndexOf(all, inputs[i])] == inputs[i]
            && (IndexOf(all, inputs[i]) == IndexOf(all, inputs[j]) <==> inputs[i] == inputs[j])
  {
    RunKeepsDistinct([], inputs);
    var all := InternAll([], inputs);
    hide InternAll;
    assert inputs[i] in all && inputs[j] in all;
    var a :| 0 <= a < |all| && all[a] == inputs[i];
    var b :| 0 <= b < |all| && all[b] == inputs[j];
    IndexOfIs(all, inputs[i], a);
    IndexOfIs(all, inputs[j], b);
  }

  // The id handed out at the time of an intern is still the string's id at the end of the run.
  lemma IdIsFinal(strings: seq<Str>, s: Str, later: seq<Str>)
    requires Distinct(strings) && s in strings
    ensures IndexOf(InternAll(strings, later), s) == IndexOf(strings, s)
  {
    var id :| 0 <= id < |strings| && strings[id] == s;
    RunsOnlyAppend(strings, later);
    RunKeepsDistinct(strings, later);
    hide InternAll;
    IndexOfIs(strings, s, id);
    IndexOfIs(InternAll(strings, later), s, id);
  }

  // Strings keep the order in which they were first seen.
  lemma {:induction false} FirstSeenOrder(strings: seq<Str>, inputs: seq<Str>, i: nat, j: nat)
    requires Distinct(strings)
    requires |strings| <= i < j < |InternAll(strings, inputs)|
    ensures var all := InternAll(strings, inputs);
            IndexOf(inputs, all[i]) < IndexOf(inputs, all[j])
    decreases |inputs|
  {
    var next := Interned(strings, inputs[0]);
    var all := InternAll(strings, inputs);
    assert all == InternAll(next, inputs[1..]);
    RunsOnlyAppend(next, inputs[1..]);
    RunKeepsDistinct(next, inputs[1..]);
    hide InternAll;
    assert inputs[0] in next;
    var at :| 0 <= at < |next| && next[at] == inputs[0];
    assert all[at] == inputs[0];
    if i >= |next| {
      FirstSeenOrder(next, inputs[1..], i, j);
      assert all[i] != all[at] && all[j] != all[at];
    } else {
      assert next[i] == inputs[0];
      assert all[j] != all[i];
    }
  }

  // Where the casts bite, for any arena: a string is read back exactly when its length fits a u16 and
  // its bytes stand where the cast offset points, as they do while the arena's length fits a u32.
  ghost predicate ReadsBack(arena: seq<Byte>, s: Str) {
    |s| < 65_536 && (arena + s)[|arena| % 4_294_967_296..][..|s|] == s
  }

  lemma LengthCastIsExact(arena: seq<Byte>, s: Str)
    ensures Slice(arena + s, Span(AsU32(|arena|), AsU16(|s|))) == Some(s) <==> ReadsBack(arena, s)
    ensures |arena| < 4_294_967_296 ==> (ReadsBack(arena, s) <==> |s| < 65_536)
  {
    var at, len := AsU32(|arena|), AsU16(|s|);
    assert at <= |arena| && len <= |s|;
    assert (arena + s)[at..][..len] == (arena + s)[at..at + len];
    if |arena| < U32 {
      assert (arena + s)[|arena|..] == s;
    }
  }
}

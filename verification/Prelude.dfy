/** Small shared vocabulary: bytes, optional values, decimal numbers, and a few facts about sequences. */
module Prelude {
  type Byte = bv8

  const NEWLINE: Byte := 10

  datatype Option<+T> = None | Some(value: T)

  datatype Result<+T, +E> = Ok(value: T) | Err(error: E)

  function Min(a: nat, b: nat): nat { if a <= b then a else b }

  function Flatten<T>(parts: seq<seq<T>>): seq<T> {
    if parts == [] then [] else parts[0] + Flatten(parts[1..])
  }

  lemma ConcatAssociates<T>(a: seq<T>, b: seq<T>, c: seq<T>)
    ensures a + (b + c) == (a + b) + c
  {
  }

  lemma NothingBefore<T>(s: seq<T>)
    ensures [] + s == s
  {
  }

  lemma FrontAndLast<T>(s: seq<T>)
    requires s != []
    ensures s == s[..|s| - 1] + [s[|s| - 1]] && s[..|s|] == s
  {
  }

  lemma {:induction false} FlattenAppend<T>(a: seq<seq<T>>, b: seq<seq<T>>)
    ensures Flatten(a + b) == Flatten(a) + Flatten(b)
  {
    if a == [] {
      assert a + b == b;
    } else {
      FlattenAppend(a[1..], b);
      assert (a + b)[1..] == a[1..] + b;
      ConcatAssociates(a[0], Flatten(a[1..]), Flatten(b));
    }
  }

  lemma FlattenSnoc<T>(a: seq<seq<T>>, last: seq<T>)
    ensures Flatten(a + [last]) == Flatten(a) + last
  {
    FlattenAppend(a, [last]);
  }

  // The last `k` elements of `s`, or all of them when there are fewer.
  function Last<T>(s: seq<T>, k: nat): (r: seq<T>)
    ensures |r| == Min(|s|, k)
  {
    if |s| <= k then s else s[|s| - k..]
  }

  // A bounded ring: push at the back, drop from the front when over the limit.
  lemma LastPush<T>(s: seq<T>, k: nat, x: T)
    ensures var ring := Last(s, k) + [x];
            Last(s + [x], k) == if |ring| > k then ring[1..] else ring
  {
  }

  const TWO_TO_64: nat := 0x1_0000_0000_0000_0000

  function Digit(d: nat): char
    requires d < 10
  {
    ('0' as int + d) as char
  }

  function Decimal(n: nat): string {
    if n < 10 then [Digit(n)] else Decimal(n / 10) + [Digit(n % 10)]
  }

  predicate EndsWith(s: string, suffix: string) {
    |suffix| <= |s| && s[|s| - |suffix|..] == suffix
  }

  // The position of the first newline.
  method FindNewline(s: seq<Byte>) returns (at: Option<nat>)
    ensures at.None? ==> NEWLINE !in s
    ensures at.Some? ==> at.value < |s| && s[at.value] == NEWLINE && NEWLINE !in s[..at.value]
  {
    for i := 0 to |s|
      invariant NEWLINE !in s[..i]
    {
      if s[i] == NEWLINE {
        return Some(i);
      }
    }
    return None;
  }

  // `part` stands at position `at` of `whole`.
  predicate StandsAt<T(==)>(whole: seq<T>, at: nat, part: seq<T>) {
    at + |part| <= |whole| && whole[at..at + |part|] == part
  }

  lemma StandsBetween<T>(before: seq<T>, part: seq<T>, after: seq<T>)
    ensures StandsAt(before + part + after, |before|, part)
  {
  }

  lemma StandsInFront<T>(whole: seq<T>, at: nat, part: seq<T>, before: seq<T>, after: seq<T>)
    requires StandsAt(whole, at, part)
    ensures StandsAt(before + whole + after, |before| + at, part)
  {
    var n := |before| + at;
    assert (before + whole + after)[n..n + |part|] == whole[at..at + |part|];
  }

  function Back<T>(s: seq<T>): T
    requires s != []
  {
    s[|s| - 1]
  }

  // `s` is what is left of `of` when some of its elements are taken out.
  ghost predicate Subsequence<T>(s: seq<T>, of: seq<T>)
    decreases |of|
  {
    || s == []
    || (of != [] && (|| (Back(s) == Back(of) && Subsequence(s[..|s| - 1], of[..|of| - 1]))
                     || Subsequence(s, of[..|of| - 1])))
  }

  lemma SubsequenceSnoc<T>(s: seq<T>, of: seq<T>, x: T)
    requires Subsequence(s, of)
    ensures Subsequence(s + [x], of + [x]) && Subsequence(s, of + [x])
  {
    assert (of + [x])[..|of|] == of && (s + [x])[..|s|] == s;
  }

  lemma {:induction false} SubsequenceRefl<T>(s: seq<T>)
    ensures Subsequence(s, s)
  {
    if s != [] {
      SubsequenceRefl(s[..|s| - 1]);
    }
  }

  lemma {:induction false} SubsequenceTrans<T>(a: seq<T>, b: seq<T>, c: seq<T>)
    requires Subsequence(a, b) && Subsequence(b, c)
    ensures Subsequence(a, c)
    decreases |c|
  {
    if a != [] && b != [] {
      var c' := c[..|c| - 1];
      if Subsequence(b, c') {
        SubsequenceTrans(a, b, c');
      } else {
        var b' := b[..|b| - 1];
        if Subsequence(a, b') {
          SubsequenceTrans(a, b', c');
        } else {
          SubsequenceTrans(a[..|a| - 1], b', c');
        }
      }
    }
  }

  lemma FrontOfConcat<T>(s: seq<T>, t: seq<T>)
    requires t != []
    ensures (s + t)[..|s + t| - 1] == s + t[..|t| - 1] && Back(s + t) == Back(t)
  {
  }

  lemma {:induction false} SubsequenceParts<T>(s: seq<T>, t: seq<T>)
    ensures Subsequence(s, s + t) && Subsequence(t, s + t)
    decreases |t|
  {
    if t == [] {
      assert s + t == s;
      SubsequenceRefl(s);
    } else {
      SubsequenceParts(s, t[..|t| - 1]);
      FrontOfConcat(s, t);
    }
  }
}

/** What the list handlers share: the newest-first order on `createdAt`
    (Python's `sort(key=..., reverse=True)` on strings), page slicing with
    Python's slice semantics, the ceiling page count, the pagination
    clamps, the response defaults and the prompt preview. */
module Listing {

  import opened Wrappers
  import opened Text
  import opened Jobs

  /** The timestamp shown for a job that lacks one. */
  const DefaultTimestamp: string := "2024-01-01T00:00:00Z"
  const PreviewLength: nat := 100
  const Ellipsis: string := "..."

  /** The sort key: `createdAt`, or the empty string when missing. */
  function CreatedKey(j: Job): string {
    j.createdAt.GetOr("")
  }

  /** `a` sorts strictly before `b` newest-first: its key is greater. */
  predicate Newer(a: Job, b: Job) {
    !LexLe(CreatedKey(a), CreatedKey(b))
  }

  predicate NewestFirst(s: seq<Job>) {
    forall i, k :: 0 <= i < k < |s| ==> LexLe(CreatedKey(s[k]), CreatedKey(s[i]))
  }

  /** `x` placed into a newest-first list after every job at least as new,
      so that jobs with equal keys keep their arrival order. */
  function Insert(x: Job, s: seq<Job>): (r: seq<Job>)
    requires NewestFirst(s)
    ensures NewestFirst(r)
    ensures multiset(r) == multiset(s) + multiset{x} && |r| == |s| + 1
    ensures forall e :: e in r ==> e in s || e == x
    decreases |s|
  {
    if |s| == 0 then [x]
    else if Newer(x, s[0]) then
      NewerHeads(x, s);
      [x] + s
    else
      var rest := Insert(x, s[1..]);
      assert s == [s[0]] + s[1..];
      ConsNewestFirst(s[0], s[1..], x, rest);
      [s[0]] + rest
  }

  lemma NewerHeads(x: Job, s: seq<Job>)
    requires NewestFirst(s) && |s| > 0 && Newer(x, s[0])
    ensures NewestFirst([x] + s)
  {
    LexLeTotal(CreatedKey(x), CreatedKey(s[0]));
    forall k | 0 <= k < |s| ensures LexLe(CreatedKey(s[k]), CreatedKey(x)) {
      if k > 0 {
        LexLeTransitive(CreatedKey(s[k]), CreatedKey(s[0]), CreatedKey(x));
      }
    }
    var r := [x] + s;
    forall i, k | 0 <= i < k < |r| ensures LexLe(CreatedKey(r[k]), CreatedKey(r[i])) {
      assert r[k] == s[k - 1];
      if i > 0 { assert r[i] == s[i - 1]; }
    }
  }

  lemma ConsNewestFirst(h: Job, tail: seq<Job>, x: Job, rest: seq<Job>)
    requires NewestFirst([h] + tail) && NewestFirst(rest) && !Newer(x, h)
    requires forall e :: e in rest ==> e in tail || e == x
    ensures NewestFirst([h] + rest)
  {
    var s := [h] + tail;
    forall e | e in rest ensures LexLe(CreatedKey(e), CreatedKey(h)) {
      if e in tail {
        var j :| 0 <= j < |tail| && tail[j] == e;
        assert s[0] == h && s[j + 1] == e;
      }
    }
    var r := [h] + rest;
    forall i, k | 0 <= i < k < |r| ensures LexLe(CreatedKey(r[k]), CreatedKey(r[i])) {
      assert r[k] == rest[k - 1] && r[k] in rest;
      if i > 0 { assert r[i] == rest[i - 1]; }
    }
  }

  /** The jobs newest first, equal keys in the order given: a permutation
      of the input in newest-first order. */
  function SortNewestFirst(s: seq<Job>): (r: seq<Job>)
    ensures NewestFirst(r)
    ensures multiset(r) == multiset(s) && |r| == |s|
    decreases |s|
  {
    if |s| == 0 then []
    else
      var n := |s| - 1;
      assert s == s[..n] + [s[n]];
      Insert(s[n], SortNewestFirst(s[..n]))
  }

  /** Two newest-first orderings of the same jobs agree on every key
      position: the order is determined up to jobs with equal keys. */
  lemma {:induction false} NewestFirstKeysUnique(a: seq<Job>, b: seq<Job>)
    requires NewestFirst(a) && NewestFirst(b) && multiset(a) == multiset(b)
    ensures |a| == |b|
    ensures forall i :: 0 <= i < |a| ==> CreatedKey(a[i]) == CreatedKey(b[i])
    decreases |a|
  {
    assert |a| == |multiset(a)| == |multiset(b)| == |b|;
    if |a| > 0 {
      var k := HeadsShareKey(a, b);
      // Everything up to a[k] shares the head's key.
      forall p | 0 <= p <= k ensures CreatedKey(a[p]) == CreatedKey(a[0]) {
        SandwichedKey(a, p, k);
      }
      // Take b's head out of a and compare the rests.
      var a' := RemoveAt(a, k);
      assert b == [b[0]] + b[1..];
      assert multiset(b[1..]) == multiset(b) - multiset{b[0]};
      NewestFirstKeysUnique(a', b[1..]);
      forall p | 0 <= p < |a| ensures CreatedKey(a[p]) == CreatedKey(b[p]) {
        if 0 < p <= k {
          assert a'[p - 1] == a[p - 1] && b[1..][p - 1] == b[p];
        } else if p > k {
          assert a'[p - 1] == a[p] && b[1..][p - 1] == b[p];
        }
      }
    }
  }

  /** The heads of two newest-first orderings of the same jobs share a
      key, and b's head sits somewhere in a. */
  lemma HeadsShareKey(a: seq<Job>, b: seq<Job>) returns (k: nat)
    requires NewestFirst(a) && NewestFirst(b) && multiset(a) == multiset(b) && |a| > 0 && |b| > 0
    ensures k < |a| && a[k] == b[0] && CreatedKey(a[0]) == CreatedKey(b[0])
  {
    assert a[0] in multiset(b) && b[0] in multiset(a);
    var i :| 0 <= i < |b| && b[i] == a[0];
    k :| 0 <= k < |a| && a[k] == b[0];
    LexLeTotal(CreatedKey(a[0]), CreatedKey(a[0]));
    assert LexLe(CreatedKey(a[0]), CreatedKey(b[0])) by {
      if i > 0 { assert LexLe(CreatedKey(b[i]), CreatedKey(b[0])); }
    }
    assert LexLe(CreatedKey(b[0]), CreatedKey(a[0])) by {
      if k > 0 { assert LexLe(CreatedKey(a[k]), CreatedKey(a[0])); }
    }
    LexLeAntisymmetric(CreatedKey(a[0]), CreatedKey(b[0]));
  }

  /** A newest-first list with one entry removed stays newest-first. */
  lemma RemoveAt(a: seq<Job>, k: nat) returns (a': seq<Job>)
    requires NewestFirst(a) && k < |a|
    ensures a' == a[..k] + a[k + 1..] && |a'| == |a| - 1
    ensures NewestFirst(a')
    ensures multiset(a') == multiset(a) - multiset{a[k]}
    ensures forall p :: 0 <= p < k ==> a'[p] == a[p]
    ensures forall p :: k <= p < |a'| ==> a'[p] == a[p + 1]
  {
    a' := a[..k] + a[k + 1..];
    RemoveAtIndex(a, k);
    RemoveAtMultiset(a, k);
    forall i, j | 0 <= i < j < |a'| ensures LexLe(CreatedKey(a'[j]), CreatedKey(a'[i])) {
      var i0 := if i < k then i else i + 1;
      var j0 := if j < k then j else j + 1;
      assert a'[i] == a[i0] && a'[j] == a[j0];
    }
  }

  lemma RemoveAtIndex<T>(a: seq<T>, k: nat)
    requires k < |a|
    ensures var a' := a[..k] + a[k + 1..];
            && |a'| == |a| - 1
            && (forall p :: 0 <= p < k ==> a'[p] == a[p])
            && (forall p :: k <= p < |a'| ==> a'[p] == a[p + 1])
  {
  }

  lemma RemoveAtMultiset<T>(a: seq<T>, k: nat)
    requires k < |a|
    ensures multiset(a[..k] + a[k + 1..]) == multiset(a) - multiset{a[k]}
  {
    assert a == a[..k] + [a[k]] + a[k + 1..];
  }

  /** In a newest-first list whose entries `0` and `k` share a key, every
      entry between them shares it too. */
  lemma SandwichedKey(a: seq<Job>, p: nat, k: nat)
    requires NewestFirst(a) && p <= k < |a| && CreatedKey(a[k]) == CreatedKey(a[0])
    ensures CreatedKey(a[p]) == CreatedKey(a[0])
  {
    if 0 < p < k {
      assert LexLe(CreatedKey(a[k]), CreatedKey(a[p]));
      assert LexLe(CreatedKey(a[p]), CreatedKey(a[0]));
      LexLeAntisymmetric(CreatedKey(a[p]), CreatedKey(a[0]));
    }
  }

  /** Python's `s[(page - 1) * size : page * size]` for a valid page and size. */
  function PageOf<T>(s: seq<T>, page: int, size: int): (r: seq<T>)
    requires page >= 1 && size >= 1
    ensures |r| <= size
    ensures (page - 1) * size >= |s| ==> r == []
    ensures (page - 1) * size < |s| ==> |r| == if page * size <= |s| then size else |s| - (page - 1) * size
    ensures forall k :: 0 <= k < |r| ==> (page - 1) * size + k < |s| && r[k] == s[(page - 1) * size + k]
  {
    var start := (page - 1) * size;
    if start >= |s| then []
    else if start + size <= |s| then s[start..start + size]
    else s[start..]
  }

  /** Python's `s[:n]`: the first `n` elements, or for a negative `n` all
      but the last `-n`. */
  function Take<T>(s: seq<T>, n: int): (r: seq<T>)
    ensures |r| <= |s| && r == s[..|r|]
    ensures n >= 0 ==> |r| == (if n <= |s| then n else |s|)
    ensures n < 0 ==> |r| == (if -n <= |s| then |s| + n else 0)
  {
    if n >= 0 then (if n <= |s| then s[..n] else s)
    else if -n <= |s| then s[..|s| + n] else []
  }

  /** `(total + size - 1) // size`. */
  function TotalPages(total: nat, size: int): (r: nat)
    requires size >= 1
    ensures total <= r * size
    ensures r > 0 ==> (r - 1) * size < total
  {
    var q := (total + size - 1) / size;
    assert q * size <= total + size - 1 < q * size + size;
    q
  }

  /** Every job of a list lies on exactly one page, numbered within the
      page count, at the position its index gives. */
  lemma PageCovers<T>(s: seq<T>, size: int, i: nat)
    requires size >= 1 && i < |s|
    ensures var page := i / size + 1;
            && 1 <= page <= TotalPages(|s|, size)
            && i % size < |PageOf(s, page, size)|
            && PageOf(s, page, size)[i % size] == s[i]
  {
    var q, r := i / size, i % size;
    assert i == q * size + r && 0 <= r < size;
    var t := TotalPages(|s|, size);
    assert q * size < t * size;
    MulCancel(q, t, size);
    PageSlot(s, q, r, size);
  }

  /** Slot `r` of page `q + 1` is element `q * size + r`. */
  lemma PageSlot<T>(s: seq<T>, q: nat, r: nat, size: int)
    requires size >= 1 && r < size && q * size + r < |s|
    ensures r < |PageOf(s, q + 1, size)| && PageOf(s, q + 1, size)[r] == s[q * size + r]
  {
    assert (q + 1 - 1) * size == q * size;
    assert (q + 1) * size == q * size + size;
  }

  /** A page that starts inside the list is the run of the list from the
      page's first index. */
  lemma PageIsSlice<T>(s: seq<T>, page: int, size: int)
    requires page >= 1 && size >= 1 && (page - 1) * size < |s|
    ensures var r := PageOf(s, page, size);
            0 <= (page - 1) * size && (page - 1) * size + |r| <= |s| && r == s[(page - 1) * size..(page - 1) * size + |r|]
  {
    PageStartNonNegative(page, size);
    assert (page - 1) * size + size == page * size;
  }

  /** The first index of a page is never negative. */
  lemma PageStartNonNegative(page: int, size: int)
    requires page >= 1 && size >= 1
    ensures (page - 1) * size >= 0
  {
  }

  lemma MulCancel(a: int, b: int, c: int)
    requires c > 0 && a * c < b * c
    ensures a < b
  {
    assert (b - a) * c == b * c - a * c > 0;
  }

  /** The text of the error `int()` raises on a string it cannot read;
      the argument is shown in single quotes. */
  function IntError(text: string): string {
    "invalid literal for int() with base 10: '" + text + "'"
  }

  /** A query parameter as `int(params.get(name, default))` reads it. */
  function ReadInt(param: Option<string>, default: nat): Result<int, string> {
    var text := param.GetOr(NatToString(default));
    match ParseInt(text)
    case Some(v) => Success(v)
    case None => Failure(IntError(text))
  }

  /** A requested page number below one reads as page one. */
  function ClampPage(page: int): (r: int)
    ensures r >= 1 && (page >= 1 ==> r == page)
  {
    if page < 1 then 1 else page
  }

  /** A page size outside `1..max` reads as the default. */
  function ClampPageSize(size: int, max: int, default: int): (r: int)
    requires 1 <= default <= max
    ensures 1 <= r <= max
    ensures 1 <= size <= max ==> r == size
    ensures !(1 <= size <= max) ==> r == default
  {
    if size < 1 || size > max then default else size
  }

  /** The list preview of a prompt: the first hundred characters, with an
      ellipsis exactly when something was cut. */
  function Preview(prompt: string): (r: string)
    ensures |r| <= PreviewLength + |Ellipsis|
    ensures |prompt| <= PreviewLength ==> r == prompt
    ensures |prompt| > PreviewLength ==>
              && |r| == PreviewLength + |Ellipsis|
              && StartsWith(r, prompt[..PreviewLength]) && EndsWith(r, Ellipsis)
  {
    if |prompt| > PreviewLength then prompt[..PreviewLength] + Ellipsis else prompt
  }

  /** Previewing a preview changes nothing. */
  lemma PreviewIdempotent(prompt: string)
    ensures Preview(Preview(prompt)) == Preview(prompt)
  {
    if |prompt| > PreviewLength {
      var r := Preview(prompt);
      assert r[..PreviewLength] == prompt[..PreviewLength];
    }
  }
}

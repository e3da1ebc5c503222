/** The bounded-memory byte search of scripts/check_container_image.py. */
module ImageSearch {

  type byte = b: int | 0 <= b < 256

  /** `needle in haystack` on bytes. */
  ghost predicate OccursAt(needle: seq<byte>, haystack: seq<byte>, i: nat) {
    i + |needle| <= |haystack| && haystack[i..i + |needle|] == needle
  }

  ghost predicate Occurs(needle: seq<byte>, haystack: seq<byte>) {
    exists i: nat :: OccursAt(needle, haystack, i)
  }

  ghost predicate AnyOccurs(sentinels: seq<seq<byte>>, haystack: seq<byte>) {
    exists k :: 0 <= k < |sentinels| && Occurs(sentinels[k], haystack)
  }

  /** The whole stream, whatever pieces it was read in. */
  function Flatten(chunks: seq<seq<byte>>): seq<byte> {
    if chunks == [] then [] else chunks[0] + Flatten(chunks[1..])
  }

  /** max(len(sentinel) for sentinel in sentinels), defaulting to 1 */
  function LongestOr1(sentinels: seq<seq<byte>>): (n: nat)
    requires forall k :: 0 <= k < |sentinels| ==> sentinels[k] != []
    ensures n >= 1
    ensures forall k :: 0 <= k < |sentinels| ==> |sentinels[k]| <= n
    ensures sentinels == [] ==> n == 1
    ensures sentinels != [] ==> exists k :: 0 <= k < |sentinels| && |sentinels[k]| == n
  {
    if |sentinels| == 0 then 1
    else if |sentinels| == 1 then |sentinels[0]|
    else
      var n := LongestOr1(sentinels[1..]);
      assert exists k :: 0 <= k < |sentinels[1..]| && |sentinels[1..][k]| == n;
      assert forall k :: 0 < k < |sentinels| ==> sentinels[k] == sentinels[1..][k - 1];
      if |sentinels[0]| > n then |sentinels[0]| else
        var k :| 0 <= k < |sentinels[1..]| && |sentinels[1..][k]| == n;
        assert |sentinels[k + 1]| == n;
        n
  }

  method FindFirst(needle: seq<byte>, haystack: seq<byte>) returns (found: bool)
    ensures found <==> Occurs(needle, haystack)
  {
    var i := 0;
    while i + |needle| <= |haystack|
      invariant forall j: nat :: j < i ==> !OccursAt(needle, haystack, j)
    {
      if haystack[i..i + |needle|] == needle {
        assert OccursAt(needle, haystack, i);
        return true;
      }
      i := i + 1;
    }
    return false;
  }

  method FindAny(sentinels: seq<seq<byte>>, haystack: seq<byte>) returns (found: bool)
    ensures found <==> AnyOccurs(sentinels, haystack)
  {
    for k := 0 to |sentinels|
      invariant forall j :: 0 <= j < k ==> !Occurs(sentinels[j], haystack)
    {
      var hit := FindFirst(sentinels[k], haystack);
      if hit {
        return true;
      }
    }
    return false;
  }

  lemma {:induction false} FlattenSnoc(chunks: seq<seq<byte>>, k: nat)
    requires k < |chunks|
    ensures Flatten(chunks[..k + 1]) == Flatten(chunks[..k]) + chunks[k]
  {
    if k == 0 {
      assert chunks[..1] == [chunks[0]];
      assert Flatten(chunks[..1]) == chunks[0] + Flatten([]);
    } else {
      FlattenSnoc(chunks[1..], k - 1);
      assert chunks[..k + 1][1..] == chunks[1..][..k];
      assert chunks[..k][1..] == chunks[1..][..k - 1];
    }
  }

  /** A tail of one byte less than the needle is all that a later chunk can
      still complete. */
  lemma WindowSuffices(needle: seq<byte>, seen: seq<byte>, tail: seq<byte>, chunk: seq<byte>)
    requires needle != []
    requires |tail| <= |seen| && seen[|seen| - |tail|..] == tail
    requires |tail| >= |needle| - 1 || tail == seen
    ensures Occurs(needle, seen + chunk) <==> Occurs(needle, seen) || Occurs(needle, tail + chunk)
  {
    var cut := |seen| - |tail|;
    assert seen + chunk == seen[..cut] + (tail + chunk);
    if i: nat :| OccursAt(needle, seen + chunk, i) {
      if i + |needle| <= |seen| {
        assert OccursAt(needle, seen, i);
      } else {
        assert OccursAt(needle, tail + chunk, i - cut);
      }
    }
    if i: nat :| OccursAt(needle, seen, i) {
      assert OccursAt(needle, seen + chunk, i);
    }
    if i: nat :| OccursAt(needle, tail + chunk, i) {
      assert (seen + chunk)[cut + i..cut + i + |needle|] == (tail + chunk)[i..i + |needle|];
      assert OccursAt(needle, seen + chunk, cut + i);
    }
  }

  lemma WindowSufficesAll(sentinels: seq<seq<byte>>, seen: seq<byte>, tail: seq<byte>, chunk: seq<byte>)
    requires forall k :: 0 <= k < |sentinels| ==> sentinels[k] != []
    requires |tail| <= |seen| && seen[|seen| - |tail|..] == tail
    requires tail == seen || forall k :: 0 <= k < |sentinels| ==> |tail| >= |sentinels[k]| - 1
    ensures AnyOccurs(sentinels, seen + chunk) <==> AnyOccurs(sentinels, seen) || AnyOccurs(sentinels, tail + chunk)
  {
    forall k | 0 <= k < |sentinels|
      ensures Occurs(sentinels[k], seen + chunk) <==> Occurs(sentinels[k], seen) || Occurs(sentinels[k], tail + chunk)
    {
      WindowSuffices(sentinels[k], seen, tail, chunk);
    }
  }

  /** _contains_sentinel: for every way the stream is cut into chunks, the
      answer is that of a search of the whole stream, and size and digest are
      those of the whole stream. */
  method ContainsSentinel(chunks: seq<seq<byte>>, sentinels: seq<seq<byte>>, sha256: seq<byte> -> string)
    returns (size: nat, digest: string, found: bool)
    requires forall k :: 0 <= k < |sentinels| ==> sentinels[k] != []
    ensures found <==> AnyOccurs(sentinels, Flatten(chunks))
    ensures size == |Flatten(chunks)|
    ensures digest == sha256(Flatten(chunks))
  {
    size, found := 0, false;
    var hashed: seq<byte> := [];
    var overlap := LongestOr1(sentinels) - 1;
    var tail: seq<byte> := [];
    var k := 0;
    while k < |chunks|
      invariant k <= |chunks|
      invariant hashed == Flatten(chunks[..k]) && size == |hashed|
      invariant |tail| == (if overlap <= |hashed| then overlap else |hashed|)
      invariant tail == hashed[|hashed| - |tail|..]
      invariant found <==> AnyOccurs(sentinels, hashed)
    {
      var chunk := chunks[k];
      FlattenSnoc(chunks, k);
      WindowSufficesAll(sentinels, hashed, tail, chunk);
      hashed := hashed + chunk;
      size := size + |chunk|;
      var window := tail + chunk;
      var hit := FindAny(sentinels, window);
      if hit {
        found := true;
      }
      tail := if overlap == 0 then []
              else if overlap <= |window| then window[|window| - overlap..]
              else window;
      k := k + 1;
    }
    assert chunks[..k] == chunks;
    digest := sha256(hashed);
  }

  /** The bound is tight: with a tail one byte shorter than the longest
      sentinel needs, some stream that contains it goes unreported. */
  lemma ShorterTailMisses()
    ensures exists needle: seq<byte>, seen: seq<byte>, tail: seq<byte>, chunk: seq<byte> ::
      && |tail| == |needle| - 2 && |tail| <= |seen| && seen[|seen| - |tail|..] == tail
      && Occurs(needle, seen + chunk) && !Occurs(needle, seen) && !Occurs(needle, tail + chunk)
  {
    var needle: seq<byte>, seen: seq<byte>, tail: seq<byte>, chunk: seq<byte> := [1, 2], [1], [], [2];
    assert OccursAt(needle, seen + chunk, 0);
    assert |tail| == |needle| - 2 && seen[|seen| - |tail|..] == tail;
    assert !Occurs(needle, seen) && !Occurs(needle, tail + chunk);
  }
}

/**
 The search for the ODID marker in a raw scan buffer. `Contains` is the
 search as the source writes it; `Locate` is the whole-marker search it
 evidently means.
 */
module Marker {
  import opened CInt

  /**
   The test the source's search applies at position i: the first marker byte
   matches, and so does every later marker byte except the last one, as far as
   the buffer reaches.
   */
  predicate MarkerAt(big: seq<uint8>, small: seq<uint8>, i: int)
    requires |small| > 0
  {
    0 <= i < |big| && big[i] == small[0] &&
    forall k :: 1 <= k < |small| - 1 && i + k < |big| ==> big[i + k] == small[k]
  }

  /** The marker occurs whole at position p. */
  predicate Occurs(big: seq<uint8>, small: seq<uint8>, p: int)
  {
    0 <= p && p + |small| <= |big| && big[p..p + |small|] == small
  }

  /**
   `contains`: the first index that passes the test, or -1. A whole
   occurrence passes it, so the result is never past the first occurrence.
   */
  method Contains(big: seq<uint8>, small: seq<uint8>) returns (r: int)
    requires |big| > 0 ==> |small| > 0
    ensures -1 <= r < |big|
    ensures r == -1 ==> forall i :: 0 <= i < |big| ==> !MarkerAt(big, small, i)
    ensures r >= 0 ==> MarkerAt(big, small, r) && forall i :: 0 <= i < r ==> !MarkerAt(big, small, i)
    ensures |small| > 0 ==> forall p :: Occurs(big, small, p) ==> 0 <= r <= p
  {
    for i := 0 to |big|
      invariant forall i' :: 0 <= i' < i ==> !MarkerAt(big, small, i')
    {
      var contains := true;
      if big[i] == small[0] {
        var k := 1;
        for j := i + 1 to |big|
          invariant k == j - i
          invariant contains
          invariant forall k' :: 1 <= k' < k && k' < |small| - 1 ==> big[i + k'] == small[k']
        {
          if k >= |small| - 1 {
            break;
          }
          if big[j] != small[k] {
            contains := false;
            break;
          }
          k := k + 1;
        }
        if contains {
          OccurrencesPassTest(big, small);
          return i;
        }
      }
    }
    if |small| > 0 {
      OccurrencesPassTest(big, small);
    }
    return -1;
  }

  /** Every whole occurrence passes the source's test. */
  lemma OccurrencesPassTest(big: seq<uint8>, small: seq<uint8>)
    requires |small| > 0
    ensures forall p :: Occurs(big, small, p) ==> MarkerAt(big, small, p)
  {
    forall p | Occurs(big, small, p) ensures MarkerAt(big, small, p) {
      forall k | 0 <= k < |small| ensures big[p + k] == small[k] {
        assert big[p..p + |small|][k] == small[k];
      }
    }
  }

  /**
   The test also passes where the marker does not occur: its last byte is
   never compared, and a marker cut off by the end of the buffer counts.
   */
  lemma MarkerAtWithoutOccurrence()
    ensures MarkerAt([0x0D, 0x07, 0x00], [0x0D, 0x07, 0x09], 0)
    ensures forall p :: !Occurs([0x0D, 0x07, 0x00], [0x0D, 0x07, 0x09], p)
    ensures MarkerAt([0x0D], [0x0D, 0x07, 0x09], 0)
    ensures forall p :: !Occurs([0x0D], [0x0D, 0x07, 0x09], p)
  {
    var big: seq<uint8> := [0x0D, 0x07, 0x00];
    forall p ensures !Occurs(big, [0x0D, 0x07, 0x09], p) {
      if p == 0 {
        assert big[0..3][2] == 0x00;
      }
    }
  }

  /**
   The whole-marker search: the lowest position where the marker occurs, or
   -1 when it occurs nowhere (in particular when it is longer than the buffer).
   */
  method Locate(big: seq<uint8>, small: seq<uint8>) returns (r: int)
    ensures -1 <= r
    ensures r == -1 ==> forall p :: !Occurs(big, small, p)
    ensures r >= 0 ==> Occurs(big, small, r) && forall p :: 0 <= p < r ==> !Occurs(big, small, p)
  {
    if |small| > |big| {
      return -1;
    }
    for i := 0 to |big| - |small| + 1
      invariant forall p :: 0 <= p < i ==> !Occurs(big, small, p)
    {
      var matches := true;
      for k := 0 to |small|
        invariant matches <==> big[i..i + k] == small[..k]
      {
        if big[i + k] != small[k] {
          matches := false;
          break;
        }
        assert big[i..i + k + 1] == big[i..i + k] + [big[i + k]];
        assert small[..k + 1] == small[..k] + [small[k]];
      }
      if matches {
        assert small[..|small|] == small;
        return i;
      }
    }
    return -1;
  }

  /** The marker found in itself is found at position 0. */
  lemma LocateSelf(small: seq<uint8>)
    ensures Occurs(small, small, 0)
    ensures forall p :: Occurs(small, small, p) ==> p == 0
  {
    assert small[0..|small|] == small;
  }
}

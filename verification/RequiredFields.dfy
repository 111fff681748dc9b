/**
 The required-field check that closes every generated Decode: a bitset of the keys seen, an
 array of masks of the keys demanded, and a loop that lists the missing ones by counting and
 clearing bits of a byte.
 */
module RequiredFields {
  import opened Common

  // ---- Increasing lists of the members of a set of indices ------------------------------

  /** The members of s in [lo, hi), in increasing order. */
  function Sorted(s: set<nat>, lo: nat, hi: nat): seq<nat>
    decreases hi - lo
  {
    if lo >= hi then [] else (if lo in s then [lo] else []) + Sorted(s, lo + 1, hi)
  }

  lemma {:induction false} SortedMembers(s: set<nat>, lo: nat, hi: nat, k: nat)
    ensures k in Sorted(s, lo, hi) <==> lo <= k < hi && k in s
    decreases hi - lo
  {
    if lo < hi {
      SortedMembers(s, lo + 1, hi, k);
    }
  }

  ghost predicate Increasing(idxs: seq<nat>) {
    forall a, b :: 0 <= a < b < |idxs| ==> idxs[a] < idxs[b]
  }

  lemma {:induction false} SortedIncreasing(s: set<nat>, lo: nat, hi: nat)
    ensures Increasing(Sorted(s, lo, hi))
    decreases hi - lo
  {
    if lo < hi {
      var tail := Sorted(s, lo + 1, hi);
      SortedIncreasing(s, lo + 1, hi);
      forall a | 0 <= a < |tail|
        ensures lo < tail[a]
      {
        SortedMembers(s, lo + 1, hi, tail[a]);
      }
    }
  }

  lemma {:induction false} SortedSplit(s: set<nat>, lo: nat, mid: nat, hi: nat)
    requires lo <= mid <= hi
    ensures Sorted(s, lo, hi) == Sorted(s, lo, mid) + Sorted(s, mid, hi)
    decreases mid - lo
  {
    if lo < mid {
      SortedSplit(s, lo + 1, mid, hi);
    }
  }

  lemma {:induction false} SortedAgree(s: set<nat>, t: set<nat>, lo: nat, hi: nat)
    requires forall k :: lo <= k < hi ==> (k in s <==> k in t)
    ensures Sorted(s, lo, hi) == Sorted(t, lo, hi)
    decreases hi - lo
  {
    if lo < hi {
      SortedAgree(s, t, lo + 1, hi);
    }
  }

  lemma {:induction false} SortedEmpty(s: set<nat>, lo: nat, hi: nat)
    requires forall k :: lo <= k < hi ==> k !in s
    ensures Sorted(s, lo, hi) == []
    decreases hi - lo
  {
    if lo < hi {
      SortedEmpty(s, lo + 1, hi);
    }
  }

  lemma SortedLeast(s: set<nat>, t: nat, lo: nat, hi: nat)
    requires lo <= t < hi && t in s && forall k :: lo <= k < t ==> k !in s
    ensures Sorted(s, lo, hi) == [t] + Sorted(s - {t}, lo, hi)
  {
    SortedSplit(s, lo, t, hi);
    SortedSplit(s - {t}, lo, t, hi);
    SortedEmpty(s, lo, t);
    SortedEmpty(s - {t}, lo, t);
    SortedAgree(s, s - {t}, t + 1, hi);
  }

  // ---- Names of fields ------------------------------------------------------------------

  /** A declared field name, or the index in decimal when the table is too short. */
  function FieldName(names: seq<string>, i: nat): string {
    if i < |names| then names[i] else Decimal(i)
  }

  function NamesOf(names: seq<string>, idxs: seq<nat>): seq<string> {
    if idxs == [] then [] else [FieldName(names, idxs[0])] + NamesOf(names, idxs[1..])
  }

  lemma {:induction false} NamesOfLength(names: seq<string>, idxs: seq<nat>)
    ensures |NamesOf(names, idxs)| == |idxs|
  {
    if idxs != [] {
      NamesOfLength(names, idxs[1..]);
    }
  }

  /** Each reported index has its declared name, or its decimal text when it has none. */
  lemma {:induction false} NamesOfAt(names: seq<string>, idxs: seq<nat>, k: nat)
    requires k < |idxs|
    ensures |NamesOf(names, idxs)| == |idxs|
    ensures NamesOf(names, idxs)[k] == if idxs[k] < |names| then names[idxs[k]] else Decimal(idxs[k])
  {
    NamesOfLength(names, idxs);
    if k > 0 {
      NamesOfAt(names, idxs[1..], k - 1);
    }
  }

  lemma {:induction false} NamesOfConcat(names: seq<string>, a: seq<nat>, b: seq<nat>)
    ensures NamesOf(names, a + b) == NamesOf(names, a) + NamesOf(names, b)
  {
    if a == [] {
      assert a + b == b;
    } else {
      ConcatTail(a, b);
      NamesOfConcat(names, a[1..], b);
      ConcatAssoc([FieldName(names, a[0])], NamesOf(names, a[1..]), NamesOf(names, b));
    }
  }

  lemma NamesOfLeast(names: seq<string>, s: set<nat>, t: nat, lo: nat, hi: nat)
    requires lo <= t < hi && t in s && forall k :: lo <= k < t ==> k !in s
    ensures NamesOf(names, Sorted(s, lo, hi)) == [FieldName(names, t)] + NamesOf(names, Sorted(s - {t}, lo, hi))
  {
    SortedLeast(s, t, lo, hi);
    NamesOfConcat(names, [t], Sorted(s - {t}, lo, hi));
  }

  lemma NamesOfSplit(names: seq<string>, s: set<nat>, lo: nat, mid: nat, hi: nat)
    requires lo <= mid <= hi
    ensures NamesOf(names, Sorted(s, lo, hi)) ==
            NamesOf(names, Sorted(s, lo, mid)) + NamesOf(names, Sorted(s, mid, hi))
  {
    SortedSplit(s, lo, mid, hi);
    NamesOfConcat(names, Sorted(s, lo, mid), Sorted(s, mid, hi));
  }

  // ---- Bytes and their bits -------------------------------------------------------------

  /** 1 << i on a uint8. */
  function OneBit(i: nat): bv8
    requires i < 8
  {
    if i == 0 then 1 else if i == 1 then 2 else if i == 2 then 4 else if i == 3 then 8
    else if i == 4 then 16 else if i == 5 then 32 else if i == 6 then 64 else 128
  }

  predicate Bit(b: bv8, i: nat)
    requires i < 8
  {
    b & OneBit(i) != 0
  }

  predicate BitAt(b: bv8, base: nat, i: nat) {
    base <= i < base + 8 && Bit(b, i - base)
  }

  /** Positions of the set bits of a byte, counted from base. */
  function Bits(b: bv8, base: nat): set<nat> {
    set i | base <= i < base + 8 && BitAt(b, base, i)
  }

  /** bits.OnesCount8 */
  function OnesCount8(b: bv8): nat { |Bits(b, 0)| }

  /** bits.TrailingZeros8: the lowest set position, 8 on zero. */
  function TrailingZeros8(b: bv8): (n: nat)
    ensures n <= 8
  {
    if b & 1 != 0 then 0 else if b & 2 != 0 then 1 else if b & 4 != 0 then 2
    else if b & 8 != 0 then 3 else if b & 16 != 0 then 4 else if b & 32 != 0 then 5
    else if b & 64 != 0 then 6 else if b & 128 != 0 then 7 else 8
  }

  lemma TrailingZerosMeaning(b: bv8)
    requires b != 0
    ensures TrailingZeros8(b) < 8 && Bit(b, TrailingZeros8(b))
    ensures forall k :: 0 <= k < TrailingZeros8(b) ==> !Bit(b, k)
  {
  }

  lemma SetBit(b: bv8, i: nat, k: nat)
    requires i < 8 && k < 8
    ensures Bit(b | OneBit(i), k) <==> Bit(b, k) || k == i
  {
  }

  lemma ClearBit(b: bv8, i: nat, k: nat)
    requires i < 8 && k < 8
    ensures Bit(b & !OneBit(i), k) <==> Bit(b, k) && k != i
  {
  }

  lemma MissedBit(seen: bv8, mask: bv8, k: nat)
    requires k < 8
    ensures Bit((seen & mask) ^ mask, k) <==> Bit(mask, k) && !Bit(seen, k)
  {
  }

  lemma BitsDifference(d: bv8, mask: bv8, seen: bv8, base: nat)
    requires forall k :: 0 <= k < 8 ==> (Bit(d, k) <==> Bit(mask, k) && !Bit(seen, k))
    ensures Bits(d, base) == Bits(mask, base) - Bits(seen, base)
  {
    forall i: nat
      ensures i in Bits(d, base) <==> i in Bits(mask, base) - Bits(seen, base)
    {
      if base <= i < base + 8 {
        assert Bit(d, i - base) <==> Bit(mask, i - base) && !Bit(seen, i - base);
      }
    }
  }

  /** (seen & mask) ^ mask keeps exactly the demanded bits that were not seen. */
  lemma MissedBits(seen: bv8, mask: bv8, base: nat)
    ensures Bits((seen & mask) ^ mask, base) == Bits(mask, base) - Bits(seen, base)
  {
    forall k | 0 <= k < 8
      ensures Bit((seen & mask) ^ mask, k) <==> Bit(mask, k) && !Bit(seen, k)
    {
      MissedBit(seen, mask, k);
    }
    BitsDifference((seen & mask) ^ mask, mask, seen, base);
  }

  /** result &^= 1 << TrailingZeros8(result) removes the lowest set position and no other. */
  lemma ClearLowest(b: bv8, c: bv8, base: nat)
    requires b != 0 && c == Cleared(b)
    ensures base + TrailingZeros8(b) in Bits(b, base)
    ensures forall k :: base <= k < base + TrailingZeros8(b) ==> k !in Bits(b, base)
    ensures Bits(c, base) == Bits(b, base) - {base + TrailingZeros8(b)}
  {
    var t := TrailingZeros8(b);
    TrailingZerosMeaning(b);
    forall i | base <= i < base + 8
      ensures BitAt(c, base, i) <==> BitAt(b, base, i) && i != base + t
    {
      ClearBit(b, t, i - base);
    }
  }

  lemma ZeroHasNoBits(b: bv8, base: nat)
    ensures Bits(b, base) == {} <==> b == 0
  {
    if b != 0 {
      TrailingZerosMeaning(b);
      assert base + TrailingZeros8(b) in Bits(b, base);
    } else {
      assert forall i :: base <= i < base + 8 ==> !BitAt(b, base, i);
    }
  }

  /** What a round of the inner loop does to the bit count. */
  lemma RoundCount(b: bv8, c: bv8)
    requires b != 0 && c == Cleared(b)
    ensures OnesCount8(c) == OnesCount8(b) - 1
  {
    ClearLowest(b, c, 0);
  }

  /** What a round of the inner loop does to the names still to be reported. */
  lemma RoundNames(b: bv8, c: bv8, base: nat, names: seq<string>)
    requires b != 0 && c == Cleared(b)
    ensures BitNames(names, b, base) == [FieldName(names, base + TrailingZeros8(b))] + BitNames(names, c, base)
  {
    ClearLowest(b, c, base);
    NamesOfLeast(names, Bits(b, base), base + TrailingZeros8(b), base, base + 8);
  }

  /** The names of the set bits of a byte whose lowest bit is field number base. */
  function BitNames(names: seq<string>, b: bv8, base: nat): seq<string> {
    NamesOf(names, Sorted(Bits(b, base), base, base + 8))
  }

  lemma NoNamesOfZero(names: seq<string>, base: nat)
    ensures BitNames(names, 0, base) == []
  {
    ZeroHasNoBits(0, base);
    SortedEmpty(Bits(0, base), base, base + 8);
  }

  /** While the count is positive there is a lowest set bit to report and clear. */
  lemma Round(b: bv8, base: nat, names: seq<string>)
    requires OnesCount8(b) > 0
    ensures TrailingZeros8(b) < 8
    ensures OnesCount8(Cleared(b)) == OnesCount8(b) - 1
    ensures BitNames(names, b, base) == [FieldName(names, base + TrailingZeros8(b))] + BitNames(names, Cleared(b), base)
  {
    ZeroHasNoBits(b, 0);
    TrailingZerosMeaning(b);
    RoundCount(b, Cleared(b));
    RoundNames(b, Cleared(b), base, names);
  }

  lemma LastRound(b: bv8, base: nat, names: seq<string>)
    requires OnesCount8(b) == 0
    ensures b == 0 && BitNames(names, b, base) == []
  {
    ZeroHasNoBits(b, 0);
    NoNamesOfZero(names, base);
  }

  /** result &^= 1 << TrailingZeros8(result) */
  function Cleared(b: bv8): bv8 {
    if b == 0 then 0 else TrailingZerosMeaning(b); b & !OneBit(TrailingZeros8(b))
  }

  // ---- What the loop reports ------------------------------------------------------------

  /** The field indices whose bit is set in an array of bytes. */
  function Fields(bytes: seq<bv8>): set<nat> {
    set i | 0 <= i < 8 * |bytes| && Bit(bytes[i / 8], i % 8)
  }

  lemma FieldsInByte(bytes: seq<bv8>, b: nat, i: nat)
    requires b < |bytes| && 8 * b <= i < 8 * b + 8
    ensures i in Fields(bytes) <==> i in Bits(bytes[b], 8 * b)
  {
    assert i / 8 == b && i % 8 == i - 8 * b;
  }

  /** Indices of the demanded fields that were not seen, in increasing order. */
  function MissingFields(seen: seq<bv8>, masks: seq<bv8>): seq<nat> {
    Sorted(Fields(masks) - Fields(seen), 0, 8 * |masks|)
  }

  /** The inner loop: one name per set bit of the difference byte, lowest bit first. */
  method ReportByte(difference: bv8, base: nat, names: seq<string>) returns (failures: seq<string>)
    ensures failures == BitNames(names, difference, base)
  {
    failures := [];
    var result := difference;
    var missed := OnesCount8(result);
    for bitN := 0 to missed
      invariant OnesCount8(result) == missed - bitN
      invariant failures + BitNames(names, result, base) == BitNames(names, difference, base)
    {
      Round(result, base, names);
      var bitIdx := TrailingZeros8(result);
      var fieldIdx := base + bitIdx;
      var name;
      if fieldIdx < |names| {
        name := names[fieldIdx];
      } else {
        name := Decimal(fieldIdx);
      }
      ConcatAssoc(failures, [name], BitNames(names, Cleared(result), base));
      failures := failures + [name];
      result := Cleared(result);
    }
    LastRound(result, base, names);
    assert result == 0;
  }

  /**
   The bit-twiddling loop lists exactly the missing fields, each once, in increasing index,
   under its declared name.
   */
  method ReportMissing(seen: array<bv8>, masks: seq<bv8>, names: seq<string>) returns (failures: seq<string>)
    requires seen.Length == |masks|
    ensures failures == NamesOf(names, MissingFields(seen[..], masks))
  {
    failures := [];
    ghost var s := seen[..];
    ghost var lost := Fields(masks) - Fields(s);
    for i := 0 to |masks|
      invariant s == seen[..]
      invariant failures == NamesOf(names, Sorted(lost, 0, 8 * i))
    {
      var result := (seen[i] & masks[i]) ^ masks[i];
      MissedInByte(s, masks, i, result, names);
      NamesOfSplit(names, lost, 0, 8 * i, 8 * i + 8);
      if result != 0 {
        var byteFailures := ReportByte(result, i * 8, names);
        failures := failures + byteFailures;
      } else {
        NoNamesOfZero(names, 8 * i);
      }
    }
  }

  lemma MissedInByte(seen: seq<bv8>, masks: seq<bv8>, b: nat, result: bv8, names: seq<string>)
    requires |seen| == |masks| && b < |masks|
    requires result == (seen[b] & masks[b]) ^ masks[b]
    ensures NamesOf(names, Sorted(Fields(masks) - Fields(seen), 8 * b, 8 * b + 8)) == BitNames(names, result, 8 * b)
  {
    MissedBits(seen[b], masks[b], 8 * b);
    ByteOfFields(seen, masks, b, Bits(result, 8 * b));
  }

  /** The fields of one byte of the masks that one byte of the bitset lacks. */
  lemma ByteOfFields(seen: seq<bv8>, masks: seq<bv8>, b: nat, missed: set<nat>)
    requires |seen| == |masks| && b < |masks|
    requires missed == Bits(masks[b], 8 * b) - Bits(seen[b], 8 * b)
    ensures Sorted(Fields(masks) - Fields(seen), 8 * b, 8 * b + 8) == Sorted(missed, 8 * b, 8 * b + 8)
  {
    forall i | 8 * b <= i < 8 * b + 8
      ensures i in Fields(masks) - Fields(seen) <==> i in missed
    {
      FieldsInByte(seen, b, i);
      FieldsInByte(masks, b, i);
    }
    SortedAgree(Fields(masks) - Fields(seen), missed, 8 * b, 8 * b + 8);
  }
}

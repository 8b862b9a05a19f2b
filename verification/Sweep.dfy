/** Retention: aged recordings go, and the oldest go until the rest fits the limit (`sweep`). */
module Sweep {

  /** A recording directory: when it was last written and how large it is. */
  datatype Bundle = Bundle(dir: string, mod: int, size: nat)

  function Size(bs: seq<Bundle>): nat {
    if bs == [] then 0 else bs[0].size + Size(bs[1..])
  }

  predicate Sorted(bs: seq<Bundle>) {
    forall i, j | 0 <= i < j < |bs| :: bs[i].mod <= bs[j].mod
  }

  /** Dropping the first `k` bundles leaves nothing aged and, when there is a limit, no more than it allows. */
  ghost predicate Clean(bs: seq<Bundle>, k: nat, cutoff: int, maxBytes: int)
    requires k <= |bs|
  {
    && (forall i | k <= i < |bs| :: bs[i].mod >= cutoff)
    && (maxBytes > 0 ==> Size(bs[k..]) <= maxBytes)
  }

  /** `k` is the length of the shortest clean prefix to drop. */
  ghost predicate Shortest(bs: seq<Bundle>, k: nat, cutoff: int, maxBytes: int)
  {
    && k <= |bs| && Clean(bs, k, cutoff, maxBytes)
    && forall j | 0 <= j < k :: !Clean(bs, j, cutoff, maxBytes)
  }

  lemma {:induction false} SizeConcat(a: seq<Bundle>, b: seq<Bundle>)
    ensures Size(a + b) == Size(a) + Size(b)
  {
    if a == [] {
      assert a + b == b;
    } else {
      assert (a + b)[1..] == a[1..] + b;
      SizeConcat(a[1..], b);
    }
  }

  /** There is always exactly one shortest prefix: dropping everything is clean. */
  lemma {:induction false} ShortestFrom(bs: seq<Bundle>, from: nat, cutoff: int, maxBytes: int) returns (k: nat)
    requires from <= |bs| && forall j | 0 <= j < from :: !Clean(bs, j, cutoff, maxBytes)
    ensures Shortest(bs, k, cutoff, maxBytes)
    ensures forall k' | Shortest(bs, k', cutoff, maxBytes) :: k' == k
    decreases |bs| - from
  {
    if from == |bs| || Clean(bs, from, cutoff, maxBytes) {
      k := from;
    } else {
      k := ShortestFrom(bs, from + 1, cutoff, maxBytes);
    }
  }

  predicate AllRemovable(bs: seq<Bundle>, removable: Bundle -> bool) {
    forall i | 0 <= i < |bs| :: removable(bs[i])
  }

  /** What may stay when deletions can fail: nothing removable that is aged, and over the limit nothing
      removable at all. */
  predicate KeptRightly(kept: seq<Bundle>, cutoff: int, maxBytes: int, total: int, removable: Bundle -> bool) {
    forall i | 0 <= i < |kept| ::
      kept[i].mod < cutoff || (maxBytes > 0 && total > maxBytes) ==> !removable(kept[i])
  }

  /** One sweep over bundles in the order the sort produced. `removable` says which deletions succeed; when all
      do, exactly the shortest clean prefix goes. */
  method Sweep(bundles: seq<Bundle>, cutoff: int, maxBytes: int, removable: Bundle -> bool)
    returns (deleted: seq<Bundle>, kept: seq<Bundle>, total: int)
    requires Sorted(bundles)
    ensures total == Size(kept) && Size(deleted) + Size(kept) == Size(bundles)
    ensures AllRemovable(bundles, removable) ==>
      && Shortest(bundles, |deleted|, cutoff, maxBytes)
      && deleted == bundles[..|deleted|] && kept == bundles[|deleted|..]
    ensures KeptRightly(kept, cutoff, maxBytes, total, removable)
  {
    total := TotalSize(bundles);
    deleted, kept := [], [];
    for i := 0 to |bundles|
      invariant total == Size(kept) + Size(bundles[i..])
      invariant Size(deleted) + total == Size(bundles)
      invariant AllRemovable(bundles, removable) ==> Progress(bundles, deleted, kept, i, cutoff, maxBytes)
      invariant KeptRightly(kept, cutoff, maxBytes, total, removable)
    {
      var b := bundles[i];
      var age := b.mod < cutoff;
      var over := maxBytes > 0 && total > maxBytes;
      OneMore(bundles, kept, i);
      OneMore(bundles, deleted, i);
      if AllRemovable(bundles, removable) {
        OneBundle(bundles, deleted, kept, i, cutoff, maxBytes);
        assert removable(b);
      }
      hide Size, Progress, AllRemovable, Clean;
      if !age && !over {
        kept := kept + [b];
        continue;
      }
      if !removable(b) {
        kept := kept + [b];
        continue;
      }
      deleted := deleted + [b];
      total := total - b.size;
    }
    assert kept + [] == kept;
    if AllRemovable(bundles, removable) {
      LastBundle(bundles, deleted, kept, cutoff, maxBytes);
    }
  }

  method TotalSize(bundles: seq<Bundle>) returns (total: int)
    ensures total == Size(bundles)
  {
    total := 0;
    for i := 0 to |bundles|
      invariant total + Size(bundles[i..]) == Size(bundles)
    {
      assert bundles[i..][1..] == bundles[i + 1..];
      total := total + bundles[i].size;
    }
  }

  lemma OneMore(bs: seq<Bundle>, before: seq<Bundle>, i: nat)
    requires i < |bs|
    ensures Size(before + [bs[i]]) == Size(before) + bs[i].size
    ensures Size(bs[i..]) == bs[i].size + Size(bs[i + 1..])
  {
    SizeConcat(before, [bs[i]]);
    assert Size([bs[i]]) == bs[i].size by { assert [bs[i]][1..] == []; }
    assert bs[i..][1..] == bs[i + 1..];
  }

  /** Where a sweep without failures is before bundle `i`: a prefix is gone, none of its proper prefixes would
      do, and if it is not everything so far it is already clean. */
  ghost predicate Progress(bs: seq<Bundle>, deleted: seq<Bundle>, kept: seq<Bundle>, i: nat, cutoff: int, maxBytes: int)
  {
    var d := |deleted|;
    && d <= i <= |bs| && deleted == bs[..d] && kept == bs[d..i]
    && (forall j | 0 <= j < d :: !Clean(bs, j, cutoff, maxBytes))
    && (d == i || Clean(bs, d, cutoff, maxBytes))
  }

  /** Keeping a bundle that is neither aged nor over the limit. */
  lemma KeepOne(bs: seq<Bundle>, deleted: seq<Bundle>, kept: seq<Bundle>, i: nat, cutoff: int, maxBytes: int)
    requires Sorted(bs) && i < |bs| && Progress(bs, deleted, kept, i, cutoff, maxBytes)
    requires bs[i].mod >= cutoff && !(maxBytes > 0 && Size(kept) + Size(bs[i..]) > maxBytes)
    ensures Progress(bs, deleted, kept + [bs[i]], i + 1, cutoff, maxBytes)
  {
    hide Size;
    var d := |deleted|;
    assert bs[d..i + 1] == bs[d..i] + [bs[i]];
    if d == i {
      assert kept == [] && Size(kept) == 0 by { EmptySize(kept); }
      assert forall k | i <= k < |bs| :: bs[k].mod >= cutoff;
    }
  }

  lemma EmptySize(bs: seq<Bundle>)
    ensures bs == [] ==> Size(bs) == 0
  {
  }

  /** Deleting a bundle happens only while everything before it is gone, and it had to go. */
  lemma DeleteOne(bs: seq<Bundle>, deleted: seq<Bundle>, kept: seq<Bundle>, i: nat, cutoff: int, maxBytes: int)
    requires i < |bs| && Progress(bs, deleted, kept, i, cutoff, maxBytes)
    requires bs[i].mod < cutoff || (maxBytes > 0 && Size(kept) + Size(bs[i..]) > maxBytes)
    ensures Progress(bs, deleted + [bs[i]], kept, i + 1, cutoff, maxBytes)
  {
    var d := |deleted|;
    SizeConcat(kept, bs[i..]);
    assert kept + bs[i..] == bs[d..];
    hide Size;
    assert d == i && !Clean(bs, i, cutoff, maxBytes);
    assert bs[..i + 1] == bs[..i] + [bs[i]];
    assert kept == [] == bs[i + 1..i + 1];
  }

  lemma OneBundle(bs: seq<Bundle>, deleted: seq<Bundle>, kept: seq<Bundle>, i: nat, cutoff: int, maxBytes: int)
    requires Sorted(bs) && i < |bs| && Progress(bs, deleted, kept, i, cutoff, maxBytes)
    ensures var total := Size(kept) + Size(bs[i..]);
      if bs[i].mod >= cutoff && !(maxBytes > 0 && total > maxBytes)
      then Progress(bs, deleted, kept + [bs[i]], i + 1, cutoff, maxBytes)
      else Progress(bs, deleted + [bs[i]], kept, i + 1, cutoff, maxBytes)
  {
    hide Progress, Size;
    if bs[i].mod >= cutoff && !(maxBytes > 0 && Size(kept) + Size(bs[i..]) > maxBytes) {
      KeepOne(bs, deleted, kept, i, cutoff, maxBytes);
    } else {
      DeleteOne(bs, deleted, kept, i, cutoff, maxBytes);
    }
  }

  lemma LastBundle(bs: seq<Bundle>, deleted: seq<Bundle>, kept: seq<Bundle>, cutoff: int, maxBytes: int)
    requires Progress(bs, deleted, kept, |bs|, cutoff, maxBytes)
    ensures Shortest(bs, |deleted|, cutoff, maxBytes)
    ensures deleted == bs[..|deleted|] && kept == bs[|deleted|..]
  {
    assert bs[|bs|..] == [];
  }
}

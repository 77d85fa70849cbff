// Counting behind the erasure limit of the vertical decoder.
module HasErasures {
  import opened HasPages

  ghost predicate Distinct(pids: seq<nat>) {
    forall i, j :: 0 <= i < j < |pids| ==> pids[i] != pids[j]
  }

  ghost predicate InBlock(pids: seq<nat>) {
    forall i :: 0 <= i < |pids| ==> 1 <= pids[i] <= 255
  }

  ghost predicate Increasing(s: seq<int>) {
    forall i, j :: 0 <= i < j < |s| ==> s[i] < s[j]
  }

  // How many held page IDs lie in [lo, hi).
  function HeldIn(pids: seq<nat>, lo: nat, hi: nat): (n: nat) {
    if pids == [] then 0
    else HeldIn(pids[..|pids| - 1], lo, hi) + (if lo <= pids[|pids| - 1] < hi then 1 else 0)
  }

  lemma {:induction false} HeldSplit(pids: seq<nat>, a: nat, b: nat, c: nat)
    requires a <= b <= c
    ensures HeldIn(pids, a, c) == HeldIn(pids, a, b) + HeldIn(pids, b, c)
  {
    if pids != [] {
      HeldSplit(pids[..|pids| - 1], a, b, c);
    }
  }

  lemma {:induction false} HeldAll(pids: seq<nat>)
    requires InBlock(pids)
    ensures HeldIn(pids, 1, BLOCK + 1) == |pids|
  {
    if pids != [] {
      HeldAll(pids[..|pids| - 1]);
    }
  }

  lemma {:induction false} HeldOne(pids: seq<nat>, p: nat)
    requires Distinct(pids)
    ensures HeldIn(pids, p, p + 1) == if p in pids then 1 else 0
  {
    if pids != [] {
      var front := pids[..|pids| - 1];
      HeldOne(front, p);
      assert pids == front + [pids[|pids| - 1]];
    }
  }

  lemma {:induction false} HeldExists(pids: seq<nat>, lo: nat, hi: nat)
    ensures HeldIn(pids, lo, hi) > 0 <==> exists p :: p in pids && lo <= p < hi
  {
    if pids != [] {
      var front, last := pids[..|pids| - 1], pids[|pids| - 1];
      HeldExists(front, lo, hi);
      assert forall p :: p in pids <==> p in front || p == last;
      if p :| p in front && lo <= p < hi {
        assert p in pids;
      }
      assert last in pids;
    }
  }

  lemma {:induction false} MissingCount(pids: seq<nat>, lo: nat, hi: nat)
    requires Distinct(pids) && lo <= hi
    ensures |Missing(pids, lo, hi)| + HeldIn(pids, lo, hi) == hi - lo
    decreases hi
  {
    if lo < hi {
      MissingCount(pids, lo, hi - 1);
      HeldSplit(pids, lo, hi - 1, hi);
      HeldOne(pids, hi - 1);
    } else {
      HeldExists(pids, lo, hi);
    }
  }

  // Missing lists, in increasing order, exactly the positions of the page IDs not held.
  lemma {:induction false} MissingMembers(pids: seq<nat>, lo: nat, hi: nat)
    requires 1 <= lo <= hi
    ensures Increasing(Missing(pids, lo, hi))
    ensures forall e :: e in Missing(pids, lo, hi) <==> lo - 1 <= e < hi - 1 && (e + 1) as nat !in pids
    decreases hi
  {
    if lo < hi {
      MissingMembers(pids, lo, hi - 1);
      var front := Missing(pids, lo, hi - 1);
      assert forall i :: 0 <= i < |front| ==> front[i] in front;
    }
  }

  // With as many distinct pages held as the message has, the erasure list holds the 223 parity
  // positions' worth plus one for every held page ID strictly between the size and 33; so the
  // decoder is given up exactly when such a page ID is held.
  lemma {:induction false} ErasureCount(pids: seq<nat>, size: nat)
    requires Distinct(pids) && InBlock(pids) && |pids| == size && 1 <= size <= 32
    ensures |Erasures(pids, size)| == 223 + HeldIn(pids, size + 1, 32 + 1)
    ensures |Erasures(pids, size)| > 223 <==> exists p :: p in pids && size < p <= 32
  {
    MissingCount(pids, 1, size + 1);
    MissingCount(pids, INFORMATION + 1, BLOCK + 1);
    HeldAll(pids);
    HeldSplit(pids, 1, size + 1, BLOCK + 1);
    HeldSplit(pids, size + 1, INFORMATION + 1, BLOCK + 1);
    HeldExists(pids, size + 1, INFORMATION + 1);
    if p :| p in pids && size < p <= INFORMATION {
      assert size + 1 <= p < INFORMATION + 1;
    }
  }

  // The erasure list is strictly increasing, lies in the block, and every other position of the
  // block is a received row or one of the zero rows that pad the message to 32 rows.
  lemma {:induction false} ErasureCover(pids: seq<nat>, size: nat)
    requires InBlock(pids) && 1 <= size <= 32
    ensures Increasing(Erasures(pids, size))
    ensures forall e :: e in Erasures(pids, size) <==>
              0 <= e < 255 && (e + 1) as nat !in pids && !(size <= e < 32)
  {
    MissingMembers(pids, 1, size + 1);
    MissingMembers(pids, INFORMATION + 1, BLOCK + 1);
    var low, high := Missing(pids, 1, size + 1), Missing(pids, INFORMATION + 1, BLOCK + 1);
    forall i, j | 0 <= i < j < |low + high|
      ensures (low + high)[i] < (low + high)[j]
    {
      if i < |low| && j >= |low| {
        assert low[i] in low && high[j - |low|] in high;
      }
    }
  }
}

/** How many events one prune batch takes: the walk over delivery counts read from a
    list cut off at the budget. */
module Budget {
  import opened Store

  /** How often `x` occurs. */
  function Count(xs: seq<int>, x: int): nat {
    if xs == [] then 0 else Count(xs[..|xs| - 1], x) + if xs[|xs| - 1] == x then 1 else 0
  }

  predicate Sorted(xs: seq<int>) {
    forall i, j | 0 <= i < j < |xs| :: xs[i] <= xs[j]
  }

  /** The rows of the first `n` events: each event's own, and its deliveries, of which
      `owners` holds the event of each. */
  function Weight(ids: seq<int>, owners: seq<int>, n: nat): nat
    requires n <= |ids|
  {
    if n == 0 then 0 else Weight(ids, owners, n - 1) + 1 + Count(owners, ids[n - 1])
  }

  /** `n` events is the most that fits the budget. */
  predicate Fits(ids: seq<int>, owners: seq<int>, size: nat, n: nat) {
    n <= |ids| && Weight(ids, owners, n) <= size && (n < |ids| ==> Weight(ids, owners, n + 1) > size)
  }

  predicate OwnersIn(owners: seq<int>, ids: seq<int>) {
    owners != [] ==> OwnersIn(owners[..|owners| - 1], ids) && owners[|owners| - 1] in ids
  }

  lemma {:induction false} OwnerAt(owners: seq<int>, ids: seq<int>, i: nat)
    requires OwnersIn(owners, ids) && i < |owners|
    ensures owners[i] in ids
  {
    if i < |owners| - 1 {
      OwnerAt(owners[..|owners| - 1], ids, i);
    }
  }

  lemma {:induction false} OwnersAre(owners: seq<int>, ids: seq<int>)
    requires forall i | 0 <= i < |owners| :: owners[i] in ids
    ensures OwnersIn(owners, ids)
  {
    if owners != [] {
      OwnersAre(owners[..|owners| - 1], ids);
    }
  }

  lemma FirstIsLeast(ids: seq<int>, x: int)
    requires Increasing(ids) && x in ids
    ensures ids[0] <= x
  {
  }

  /** All of the list, or as much as a read of `size` rows brings. */
  function CutOff(owners: seq<int>, size: nat): seq<int> {
    if |owners| <= size then owners else owners[..size]
  }

  /** The first event alone fills the read: it goes to be chunked. */
  predicate NeedsChunk(ids: seq<int>, read: seq<int>, size: nat)
    requires ids != []
  {
    |read| == size && read != [] && read[size - 1] == ids[0]
  }

  lemma {:induction false} CountSplits(a: seq<int>, b: seq<int>, x: int)
    ensures Count(a + b, x) == Count(a, x) + Count(b, x)
  {
    if b == [] {
      assert a + b == a;
    } else {
      CountSplits(a, b[..|b| - 1], x);
      assert (a + b)[..|a + b| - 1] == a + b[..|b| - 1];
    }
  }

  lemma {:induction false} CountNone(xs: seq<int>, x: int)
    requires x !in xs
    ensures Count(xs, x) == 0
  {
    if xs != [] {
      CountNone(xs[..|xs| - 1], x);
    }
  }

  lemma {:induction false} CountAll(xs: seq<int>, x: int)
    requires forall i | 0 <= i < |xs| :: xs[i] == x
    ensures Count(xs, x) == |xs|
  {
    if xs != [] {
      CountAll(xs[..|xs| - 1], x);
    }
  }

  lemma {:induction false} CountAtMost(xs: seq<int>, x: int)
    ensures Count(xs, x) <= |xs|
  {
    if xs != [] {
      CountAtMost(xs[..|xs| - 1], x);
    }
  }

  /** A cut-off read never counts too many, and counts an event before the last one it
      names exactly. */
  lemma CutOffCounts(owners: seq<int>, size: nat, x: int)
    requires Sorted(owners)
    ensures Count(CutOff(owners, size), x) <= Count(owners, x)
    ensures |owners| <= size || (size > 0 && x < owners[size - 1]) ==>
              Count(CutOff(owners, size), x) == Count(owners, x)
  {
    if |owners| > size {
      assert owners == owners[..size] + owners[size..];
      CountSplits(owners[..size], owners[size..], x);
      if size > 0 && x < owners[size - 1] {
        CountNone(owners[size..], x);
      }
    }
  }

  lemma {:induction false} WeightGrows(ids: seq<int>, owners: seq<int>, m: nat, n: nat)
    requires m <= n <= |ids|
    ensures Weight(ids, owners, m) + (n - m) <= Weight(ids, owners, n)
  {
    if m < n {
      WeightGrows(ids, owners, m, n - 1);
    }
  }

  /** One more row weighs one more, if its event is among those weighed. */
  lemma {:induction false} WeightOfOneMore(ids: seq<int>, owners: seq<int>, x: int, n: nat)
    requires Increasing(ids) && n <= |ids|
    ensures Weight(ids, owners + [x], n) == Weight(ids, owners, n) + if x in ids[..n] then 1 else 0
  {
    if n > 0 {
      WeightOfOneMore(ids, owners, x, n - 1);
      assert ids[..n] == ids[..n - 1] + [ids[n - 1]];
      assert (owners + [x])[..|owners + [x]| - 1] == owners;
    }
  }

  lemma {:induction false} WeightOfNone(ids: seq<int>, n: nat)
    requires n <= |ids|
    ensures Weight(ids, [], n) == n
  {
    if n > 0 {
      WeightOfNone(ids, n - 1);
    }
  }

  /** Events that own every row read weigh the whole read. */
  lemma {:induction false} WeightOfAll(ids: seq<int>, owners: seq<int>, n: nat)
    requires Increasing(ids) && n <= |ids| && OwnersIn(owners, ids[..n])
    ensures Weight(ids, owners, n) == n + |owners|
  {
    if owners == [] {
      WeightOfNone(ids, n);
    } else {
      var rest, last := owners[..|owners| - 1], owners[|owners| - 1];
      WeightOfAll(ids, rest, n);
      assert owners == rest + [last];
      WeightOfOneMore(ids, rest, last, n);
    }
  }

  lemma {:induction false} WeightAgrees(ids: seq<int>, owners: seq<int>, read: seq<int>, n: nat)
    requires n <= |ids| && forall i | 0 <= i < n :: Count(read, ids[i]) == Count(owners, ids[i])
    ensures Weight(ids, read, n) == Weight(ids, owners, n)
  {
    if n > 0 {
      WeightAgrees(ids, owners, read, n - 1);
    }
  }

  lemma {:induction false} CutOffWeighsLess(ids: seq<int>, owners: seq<int>, size: nat, n: nat)
    requires Sorted(owners) && n <= |ids|
    ensures Weight(ids, CutOff(owners, size), n) <= Weight(ids, owners, n)
  {
    if n > 0 {
      CutOffWeighsLess(ids, owners, size, n - 1);
      CutOffCounts(owners, size, ids[n - 1]);
    }
  }

  /** Where the cut-off count says the events fit, it counted them exactly: an event it
      may have undercounted makes the events up to it overflow anyway. */
  lemma FittingIsExact(ids: seq<int>, owners: seq<int>, size: nat, n: nat)
    requires Increasing(ids) && Sorted(owners) && n <= |ids|
    requires OwnersIn(owners, ids)
    requires Weight(ids, CutOff(owners, size), n) <= size
    ensures Weight(ids, owners, n) == Weight(ids, CutOff(owners, size), n)
  {
    var read := CutOff(owners, size);
    if |owners| > size && n > 0 {
      if size > 0 && ids[n - 1] >= read[size - 1] {
        forall i | 0 <= i < |read| ensures read[i] in ids[..n] {
          OwnerAt(owners, ids, i);
          var k :| 0 <= k < |ids| && ids[k] == owners[i];
          assert ids[k] <= ids[n - 1];
          assert ids[..n][k] == ids[k];
        }
        OwnersAre(read, ids[..n]);
        WeightOfAll(ids, read, n);
      } else {
        WeightGrows(ids, read, 0, n);
        forall i | 0 <= i < n ensures Count(read, ids[i]) == Count(owners, ids[i]) {
          CutOffCounts(owners, size, ids[i]);
        }
        WeightAgrees(ids, owners, read, n);
      }
    }
  }

  lemma ReadIsFirst(ids: seq<int>, owners: seq<int>, size: nat, i: nat)
    requires Increasing(ids) && Sorted(owners) && ids != [] && OwnersIn(owners, ids)
    requires i < size <= |owners| && owners[size - 1] == ids[0]
    ensures owners[i] == ids[0]
  {
    OwnerAt(owners, ids, i);
    FirstIsLeast(ids, owners[i]);
    assert i < size - 1 ==> owners[i] <= owners[size - 1];
  }

  lemma FilledByOne(ids: seq<int>, owners: seq<int>, size: nat)
    requires Increasing(ids) && Sorted(owners) && ids != []
    requires OwnersIn(owners, ids)
    requires NeedsChunk(ids, CutOff(owners, size), size)
    ensures Count(owners, ids[0]) >= size
  {
    var read := CutOff(owners, size);
    CutOffCounts(owners, size, ids[0]);
    forall i | 0 <= i < |read| ensures read[i] == ids[0] {
      ReadIsFirst(ids, owners, size, i);
    }
    CountAll(read, ids[0]);
  }

  lemma NotFilledByOne(ids: seq<int>, owners: seq<int>, size: nat)
    requires Increasing(ids) && Sorted(owners) && ids != [] && size >= 1
    requires OwnersIn(owners, ids)
    requires !NeedsChunk(ids, CutOff(owners, size), size)
    ensures Count(owners, ids[0]) < size
  {
    if |owners| < size {
      CountAtMost(owners, ids[0]);
    } else {
      OwnerAt(owners, ids, size - 1);
      FirstIsLeast(ids, owners[size - 1]);
      assert forall i | size - 1 <= i < |owners| :: owners[i] >= owners[size - 1];
      CountNone(owners[size - 1..], ids[0]);
      assert owners == owners[..size - 1] + owners[size - 1..];
      CountSplits(owners[..size - 1], owners[size - 1..], ids[0]);
      CountAtMost(owners[..size - 1], ids[0]);
    }
  }

  /** An event is sent to be chunked exactly when it has a budget's worth of delivery
      rows, or more; otherwise it fits the budget alone. */
  lemma ChunkOrFits(ids: seq<int>, owners: seq<int>, size: nat)
    requires Increasing(ids) && Sorted(owners) && ids != [] && size >= 1
    requires OwnersIn(owners, ids)
    ensures NeedsChunk(ids, CutOff(owners, size), size) <==> Count(owners, ids[0]) >= size
    ensures !NeedsChunk(ids, CutOff(owners, size), size) ==> Weight(ids, owners, 1) <= size
  {
    if NeedsChunk(ids, CutOff(owners, size), size) {
      FilledByOne(ids, owners, size);
    } else {
      NotFilledByOne(ids, owners, size);
      assert Weight(ids, owners, 1) == Weight(ids, owners, 0) + 1 + Count(owners, ids[0]);
    }
  }

  /** The leading events whose rows fit. From a cut-off read it makes the choice the
      whole list would: the most events that fit, and at least one. */
  method Fitting(ids: seq<int>, read: seq<int>, size: nat, ghost owners: seq<int>) returns (batch: seq<int>)
    requires Increasing(ids) && Sorted(owners) && read == CutOff(owners, size)
    requires OwnersIn(owners, ids)
    ensures batch <= ids && Fits(ids, owners, size, |batch|)
    ensures ids != [] && size >= 1 && !NeedsChunk(ids, read, size) ==> batch != []
  {
    batch := [];
    var used := 0;
    var i := 0;
    while i < |ids|
      invariant i == |batch| <= |ids| && batch == ids[..i]
      invariant used == Weight(ids, read, i) <= size
    {
      used := used + 1 + Count(read, ids[i]);
      if used > size {
        break;
      }
      batch := batch + [ids[i]];
      i := i + 1;
    }
    FittingIsExact(ids, owners, size, i);
    if i < |ids| {
      CutOffWeighsLess(ids, owners, size, i + 1);
    }
    if ids != [] && size >= 1 {
      ChunkOrFits(ids, owners, size);
      if i == 0 {
        CutOffWeighsLess(ids, owners, size, 1);
      }
    }
  }
}

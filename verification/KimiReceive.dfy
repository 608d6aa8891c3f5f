/** The Kimi engine's receiver side: buckets are broadcast round by round, one from every
    receiver rank that still has one, through the two halves of a single buffer. */
module KimiReceive {
  import opened Options
  import opened Packing
  import opened PythonLists
  import opened Sequences

  /** A tensor inside a bucket: its bytes start its slot, which may be padded for alignment. */
  datatype Item = Item(name: string, size: nat, slot: nat)

  datatype Bucket = Bucket(items: seq<Item>, image: seq<Byte>) {
    predicate Valid(bucketSize: nat) {
      Slots(items) <= |image| <= bucketSize && forall it :: it in items ==> it.size <= it.slot
    }

    /** What a receiver gets out of the bucket. */
    function Contents(): seq<(string, seq<Byte>)> {
      Unpack(items, image)
    }
  }

  function Slots(items: seq<Item>): nat {
    if items == [] then 0 else items[0].slot + Slots(items[1..])
  }

  function Unpack(items: seq<Item>, image: seq<Byte>): seq<(string, seq<Byte>)> {
    if items == [] then []
    else [(items[0].name, Take(image, items[0].size))] + Unpack(items[1..], Drop(image, items[0].slot))
  }

  /** Where a tensor's slot begins. */
  function Start(items: seq<Item>, k: nat): nat
    requires k <= |items|
  {
    Slots(items[..k])
  }

  lemma StartNext(items: seq<Item>, k: nat)
    requires 0 < k <= |items|
    ensures Start(items, k) == items[0].slot + Start(items[1..], k - 1)
    ensures Slots(items) == items[0].slot + Slots(items[1..])
  {
    assert items[..k][0] == items[0] && items[..k][1..] == items[1..][..k - 1];
  }

  lemma UnpackNext(items: seq<Item>, image: seq<Byte>, k: nat)
    requires 0 < k <= |items|
    ensures |Unpack(items, image)| == 1 + |Unpack(items[1..], Drop(image, items[0].slot))|
    ensures k <= |Unpack(items[1..], Drop(image, items[0].slot))| ==>
              Unpack(items, image)[k] == Unpack(items[1..], Drop(image, items[0].slot))[k - 1]
  {
  }

  predicate UnpackedAt(items: seq<Item>, image: seq<Byte>, k: nat)
    requires k < |items|
  {
    var lo, r := Start(items, k), Unpack(items, image);
    k < |r| && lo + items[k].size <= |image| && r[k] == (items[k].name, image[lo..lo + items[k].size])
  }

  /** A tensor's bytes start behind the slots of those before it. */
  lemma {:induction false} UnpackAt(items: seq<Item>, image: seq<Byte>, k: nat)
    requires k < |items| && Slots(items) <= |image| && items[k].size <= items[k].slot
    ensures UnpackedAt(items, image, k)
    decreases k
  {
    if k == 0 {
      assert items[..0] == [] && Slots([]) == 0;
    } else {
      StartNext(items, k);
      hide Slots, Unpack, Start, UnpackedAt;
      Halves(image, items[0].slot);
      UnpackAt(items[1..], Drop(image, items[0].slot), k - 1);
      UnpackedNext(items, image, k);
    }
  }

  lemma UnpackedNext(items: seq<Item>, image: seq<Byte>, k: nat)
    requires 0 < k < |items| && items[0].slot <= |image|
    requires UnpackedAt(items[1..], Drop(image, items[0].slot), k - 1)
    ensures UnpackedAt(items, image, k)
  {
    hide Unpack, Start, Slots;
    StartNext(items, k);
    UnpackNext(items, image, k);
    var lo := Start(items[1..], k - 1);
    SliceOfRest(image, items[0].slot, lo, items[k].size);
  }

  lemma SliceOfRest(image: seq<Byte>, skip: nat, lo: nat, size: nat)
    requires skip <= |image| && lo + size <= |Drop(image, skip)|
    ensures skip + lo + size <= |image|
    ensures Drop(image, skip)[lo..lo + size] == image[skip + lo..skip + lo + size]
  {
  }

  // ----- grouping by receiver rank -----

  function IndexOf(xs: seq<int>, x: int): (k: nat)
    ensures k <= |xs| && (k < |xs| ==> xs[k] == x) && (k == |xs| ==> x !in xs)
  {
    if xs == [] then 0 else if xs[0] == x then 0 else 1 + IndexOf(xs[1..], x)
  }

  /** One more bucket of rank `rank`, at its place in the grouping. */
  function Place(ranks: seq<int>, lists: seq<seq<Bucket>>, rank: int, b: Bucket): (seq<int>, seq<seq<Bucket>>)
    requires |ranks| == |lists|
  {
    var k := IndexOf(ranks, rank);
    if k < |ranks| then (ranks, lists[k := lists[k] + [b]]) else (ranks + [rank], lists + [[b]])
  }

  /** Where a rank first appears, or the number of buckets. */
  function FirstOf(buckets: seq<(int, Bucket)>, rank: int): (k: nat)
    ensures k <= |buckets| && (k < |buckets| ==> buckets[k].0 == rank)
    ensures forall i :: 0 <= i < k ==> buckets[i].0 != rank
  {
    if buckets == [] then 0
    else
      var front := buckets[..|buckets| - 1];
      var k := FirstOf(front, rank);
      assert forall i :: 0 <= i < |front| ==> front[i] == buckets[i];
      if k < |front| || buckets[|front|].0 == rank then k else |buckets|
  }

  /** Distinct ranks in the order they first appear, each with its own buckets in order and none empty, and no
      bucket lost. */
  predicate Grouped(buckets: seq<(int, Bucket)>, ranks: seq<int>, lists: seq<seq<Bucket>>) {
    && |ranks| == |lists|
    && (forall i, j :: 0 <= i < j < |ranks| ==> FirstOf(buckets, ranks[i]) < FirstOf(buckets, ranks[j]))
    && (forall i :: 0 <= i < |ranks| ==> FirstOf(buckets, ranks[i]) < |buckets|)
    && (forall i :: 0 <= i < |buckets| ==> buckets[i].0 in ranks)
    && (forall k :: 0 <= k < |ranks| ==> lists[k] == Of(buckets, ranks[k]) && lists[k] != [])
  }

  lemma FirstAppend(buckets: seq<(int, Bucket)>, x: (int, Bucket), rank: int)
    ensures FirstOf(buckets + [x], rank) ==
            if FirstOf(buckets, rank) < |buckets| || x.0 == rank then FirstOf(buckets, rank) else |buckets| + 1
  {
    assert (buckets + [x])[..|buckets|] == buckets;
  }

  lemma PlaceKeeps(buckets: seq<(int, Bucket)>, ranks: seq<int>, lists: seq<seq<Bucket>>, rank: int, b: Bucket)
    requires Grouped(buckets, ranks, lists)
    ensures var (ranks', lists') := Place(ranks, lists, rank, b); Grouped(buckets + [(rank, b)], ranks', lists')
  {
    hide Of, FirstOf, IndexOf;
    var more := buckets + [(rank, b)];
    forall r: int
      ensures Of(more, r) == Of(buckets, r) + if r == rank then [b] else []
      ensures FirstOf(more, r) ==
              if FirstOf(buckets, r) < |buckets| || r == rank then FirstOf(buckets, r) else |buckets| + 1
    {
      OfAppend(buckets, (rank, b), r);
      FirstAppend(buckets, (rank, b), r);
    }
    if rank !in ranks {
      OfNone(buckets, rank);
    }
    PlaceOrdered(buckets, ranks, lists, rank, b);
  }

  lemma PlaceOrdered(buckets: seq<(int, Bucket)>, ranks: seq<int>, lists: seq<seq<Bucket>>, rank: int, b: Bucket)
    requires Grouped(buckets, ranks, lists)
    requires forall r: int :: FirstOf(buckets + [(rank, b)], r) ==
               if FirstOf(buckets, r) < |buckets| || r == rank then FirstOf(buckets, r) else |buckets| + 1
    ensures var ranks', more := Place(ranks, lists, rank, b).0, buckets + [(rank, b)];
            && (forall i, j :: 0 <= i < j < |ranks'| ==> FirstOf(more, ranks'[i]) < FirstOf(more, ranks'[j]))
            && (forall i :: 0 <= i < |ranks'| ==> FirstOf(more, ranks'[i]) < |more|)
  {
    hide Of, FirstOf, IndexOf;
    var more := buckets + [(rank, b)];
    forall i | 0 <= i < |ranks|
      ensures FirstOf(more, ranks[i]) == FirstOf(buckets, ranks[i]) < |buckets|
    {
      var r := ranks[i];
      assert FirstOf(more, r) == if FirstOf(buckets, r) < |buckets| || r == rank then FirstOf(buckets, r)
                                 else |buckets| + 1;
    }
    if rank !in ranks {
      NewRankLast(buckets, ranks, rank);
      assert FirstOf(more, rank) == FirstOf(buckets, rank);
    }
  }

  lemma NewRankLast(buckets: seq<(int, Bucket)>, ranks: seq<int>, rank: int)
    requires rank !in ranks && forall i :: 0 <= i < |buckets| ==> buckets[i].0 in ranks
    ensures FirstOf(buckets, rank) == |buckets|
  {
  }

  lemma PlaceCounts(ranks: seq<int>, lists: seq<seq<Bucket>>, rank: int, b: Bucket)
    requires |ranks| == |lists|
    ensures multiset(Flatten(Place(ranks, lists, rank, b).1)) == multiset(Flatten(lists)) + multiset{b}
  {
    hide Flatten;
    var k := IndexOf(ranks, rank);
    if k < |ranks| {
      FlattenGrow(lists, k, b);
    } else {
      FlattenAppend(lists, [b]);
    }
  }

  lemma NothingGrouped()
    ensures Grouped([], [], [])
    ensures multiset(Flatten<Bucket>([])) == multiset(Buckets([]))
  {
  }

  lemma GroupedAligned(buckets: seq<(int, Bucket)>, ranks: seq<int>, lists: seq<seq<Bucket>>)
    requires Grouped(buckets, ranks, lists)
    ensures |ranks| == |lists|
  {
  }

  /** Receiver ranks in order of first appearance, each with its buckets in order. */
  method GroupByReceiver(buckets: seq<(int, Bucket)>) returns (ranks: seq<int>, lists: seq<seq<Bucket>>)
    ensures Grouped(buckets, ranks, lists)
    ensures multiset(Flatten(lists)) == multiset(Buckets(buckets))
  {
    hide Of, Flatten, Buckets;
    ranks, lists := [], [];
    NothingGrouped();
    for n := 0 to |buckets|
      invariant Grouped(buckets[..n], ranks, lists)
      invariant multiset(Flatten(lists)) == multiset(Buckets(buckets[..n]))
    {
      hide Grouped;
      var (rank, b) := buckets[n];
      assert buckets[..n + 1] == buckets[..n] + [(rank, b)];
      BucketsAppend(buckets[..n], buckets[n]);
      assert |ranks| == |lists| by {
        GroupedAligned(buckets[..n], ranks, lists);
      }
      PlaceKeeps(buckets[..n], ranks, lists, rank, b);
      PlaceCounts(ranks, lists, rank, b);
      var placed := Place(ranks, lists, rank, b);
      ranks, lists := placed.0, placed.1;
    }
    assert buckets[..|buckets|] == buckets;
  }

  function Buckets(xs: seq<(int, Bucket)>): seq<Bucket> {
    if xs == [] then [] else Buckets(xs[..|xs| - 1]) + [xs[|xs| - 1].1]
  }

  function Of(xs: seq<(int, Bucket)>, rank: int): seq<Bucket> {
    if xs == [] then [] else Of(xs[..|xs| - 1], rank) + if xs[|xs| - 1].0 == rank then [xs[|xs| - 1].1] else []
  }

  lemma BucketsAppend(xs: seq<(int, Bucket)>, x: (int, Bucket))
    ensures Buckets(xs + [x]) == Buckets(xs) + [x.1]
  {
    assert (xs + [x])[..|xs|] == xs;
  }

  lemma OfAppend(xs: seq<(int, Bucket)>, x: (int, Bucket), rank: int)
    ensures Of(xs + [x], rank) == Of(xs, rank) + if x.0 == rank then [x.1] else []
  {
    assert (xs + [x])[..|xs|] == xs;
  }

  lemma {:induction false} OfNone(xs: seq<(int, Bucket)>, rank: int)
    requires forall i :: 0 <= i < |xs| ==> xs[i].0 != rank
    ensures Of(xs, rank) == []
  {
    if xs != [] {
      OfNone(xs[..|xs| - 1], rank);
    }
  }

  lemma {:induction false} FlattenGrow(lists: seq<seq<Bucket>>, k: nat, b: Bucket)
    requires k < |lists|
    ensures multiset(Flatten(lists[k := lists[k] + [b]])) == multiset(Flatten(lists)) + multiset{b}
    decreases |lists|
  {
    hide Flatten;
    var front, last := lists[..|lists| - 1], lists[|lists| - 1];
    var grown := lists[k := lists[k] + [b]];
    assert lists == front + [last];
    FlattenAppend(front, last);
    Concatenated(Flatten(front), last);
    if k < |front| {
      FlattenGrow(front, k, b);
      var front' := front[k := front[k] + [b]];
      assert grown == front' + [last];
      FlattenAppend(front', last);
      Concatenated(Flatten(front'), last);
    } else {
      assert grown == front + [last + [b]];
      FlattenAppend(front, last + [b]);
      Concatenated(Flatten(front), last + [b]);
      Concatenated(last, [b]);
    }
  }

  // ----- the order of broadcasts -----

  /** Round i: the i-th bucket of every list long enough, among the first n lists. */
  function Round(lists: seq<seq<Bucket>>, i: nat, n: nat): seq<Bucket>
    requires n <= |lists|
  {
    if n == 0 then [] else Round(lists, i, n - 1) + if i < |lists[n - 1]| then [lists[n - 1][i]] else []
  }

  function Rounds(lists: seq<seq<Bucket>>, n: nat): seq<Bucket> {
    if n == 0 then [] else Rounds(lists, n - 1) + Round(lists, n - 1, |lists|)
  }

  function LongestList(lists: seq<seq<Bucket>>): (m: nat)
    ensures forall l :: l in lists ==> |l| <= m
  {
    if lists == [] then 0
    else
      var m := LongestList(lists[..|lists| - 1]);
      var l := lists[|lists| - 1];
      assert forall x :: x in lists ==> x in lists[..|lists| - 1] || x == l;
      if |l| > m then |l| else m
  }

  /** The first i buckets of a list, or all of it. */
  function Head(l: seq<Bucket>, i: nat): seq<Bucket> {
    if i <= |l| then l[..i] else l
  }

  /** The buckets among the first i of each of the first n lists. */
  ghost function Heads(lists: seq<seq<Bucket>>, i: nat, n: nat): multiset<Bucket>
    requires n <= |lists|
  {
    if n == 0 then multiset{} else Heads(lists, i, n - 1) + multiset(Head(lists[n - 1], i))
  }

  lemma HeadExtends(l: seq<Bucket>, i: nat)
    ensures multiset(Head(l, i + 1)) == multiset(Head(l, i)) + multiset(if i < |l| then [l[i]] else [])
  {
    if i < |l| {
      assert l[..i + 1] == l[..i] + [l[i]];
    } else {
      assert i == |l| ==> l[..i] == l;
    }
  }

  lemma HeadsZero(lists: seq<seq<Bucket>>, i: nat)
    ensures Heads(lists, i, 0) == multiset{} && Round(lists, i, 0) == []
  {
  }

  lemma HeadsStep(lists: seq<seq<Bucket>>, i: nat, n: nat)
    requires 0 < n <= |lists|
    ensures Heads(lists, i, n) == Heads(lists, i, n - 1) + multiset(Head(lists[n - 1], i))
  {
  }

  lemma Concatenated(a: seq<Bucket>, b: seq<Bucket>)
    ensures multiset(a + b) == multiset(a) + multiset(b)
  {
  }

  lemma Regroup(a: multiset<Bucket>, b: multiset<Bucket>, c: multiset<Bucket>, d: multiset<Bucket>)
    ensures (a + b) + (c + d) == (a + c) + (b + d)
  {
  }

  lemma {:induction false} RoundExtends(lists: seq<seq<Bucket>>, i: nat, n: nat)
    requires n <= |lists|
    ensures Heads(lists, i + 1, n) == Heads(lists, i, n) + multiset(Round(lists, i, n))
  {
    hide Head, Heads, Round;
    if n == 0 {
      HeadsZero(lists, i);
      HeadsZero(lists, i + 1);
    } else {
      HeadsStep(lists, i, n);
      HeadsStep(lists, i + 1, n);
      RoundStep(lists, i, n - 1);
      var l := lists[n - 1];
      var more := if i < |l| then [l[i]] else [];
      RoundExtends(lists, i, n - 1);
      HeadExtends(l, i);
      Concatenated(Round(lists, i, n - 1), more);
      Regroup(Heads(lists, i, n - 1), multiset(Round(lists, i, n - 1)), multiset(Head(l, i)), multiset(more));
    }
  }

  lemma {:induction false} RoundsAreHeads(lists: seq<seq<Bucket>>, n: nat)
    ensures multiset(Rounds(lists, n)) == Heads(lists, n, |lists|)
  {
    hide Heads, Round;
    if n == 0 {
      NoHeads(lists, |lists|);
    } else {
      RoundsAreHeads(lists, n - 1);
      RoundExtends(lists, n - 1, |lists|);
    }
  }

  lemma {:induction false} NoHeads(lists: seq<seq<Bucket>>, n: nat)
    requires n <= |lists|
    ensures Heads(lists, 0, n) == multiset{}
  {
    if n > 0 {
      NoHeads(lists, n - 1);
    }
  }

  lemma {:induction false} AllHeads(lists: seq<seq<Bucket>>, i: nat, n: nat)
    requires n <= |lists| && forall l :: l in lists ==> |l| <= i
    ensures Heads(lists, i, n) == multiset(Flatten(lists[..n]))
  {
    hide Flatten, Heads, Head;
    if n == 0 {
      HeadsZero(lists, i);
      FlattenNone<Bucket>();
      assert lists[..0] == [];
    } else {
      HeadsStep(lists, i, n);
      AllHeads(lists, i, n - 1);
      assert lists[n - 1] in lists;
      WholeHead(lists[n - 1], i);
      Concatenated(Flatten(lists[..n - 1]), lists[n - 1]);
      FlattenAppend(lists[..n - 1], lists[n - 1]);
      assert lists[..n - 1] + [lists[n - 1]] == lists[..n];
    }
  }

  lemma WholeHead(l: seq<Bucket>, i: nat)
    requires |l| <= i
    ensures Head(l, i) == l
  {
  }

  /** Bucket `at.0` of list `at.1`. */
  predicate Placed(lists: seq<seq<Bucket>>, at: (nat, nat), b: Bucket) {
    at.1 < |lists| && at.0 < |lists[at.1]| && lists[at.1][at.0] == b
  }

  /** An earlier round, or an earlier list in the same one. */
  predicate Earlier(a: (nat, nat), b: (nat, nat)) {
    a.0 < b.0 || (a.0 == b.0 && a.1 < b.1)
  }

  /** These buckets, in this order. */
  predicate Lists(lists: seq<seq<Bucket>>, order: seq<(nat, nat)>, bs: seq<Bucket>) {
    && |order| == |bs|
    && (forall p :: 0 <= p < |order| ==> Placed(lists, order[p], bs[p]))
    && (forall p, q :: 0 <= p < q < |order| ==> Earlier(order[p], order[q]))
  }

  lemma ListsJoin(lists: seq<seq<Bucket>>, a: seq<(nat, nat)>, xs: seq<Bucket>, b: seq<(nat, nat)>, ys: seq<Bucket>)
    requires Lists(lists, a, xs) && Lists(lists, b, ys)
    requires forall x, y :: x in a && y in b ==> Earlier(x, y)
    ensures Lists(lists, a + b, xs + ys)
  {
    hide Placed, Earlier;
    var order := a + b;
    forall p, q | 0 <= p < q < |order|
      ensures Earlier(order[p], order[q])
    {
      if p < |a| <= q {
        assert a[p] in a && b[q - |a|] in b;
      } else if q < |a| {
        assert Earlier(a[p], a[q]);
      } else {
        assert Earlier(b[p - |a|], b[q - |a|]);
      }
    }
  }

  lemma {:induction false} RoundInOrder(lists: seq<seq<Bucket>>, i: nat, n: nat) returns (order: seq<(nat, nat)>)
    requires n <= |lists|
    ensures Lists(lists, order, Round(lists, i, n))
    ensures forall at: (nat, nat) :: at in order <==> at.0 == i && at.1 < n && i < |lists[at.1]|
  {
    hide Lists;
    if n == 0 {
      order := [];
      NoLists(lists);
    } else {
      var front := RoundInOrder(lists, i, n - 1);
      var last: seq<(nat, nat)> := if i < |lists[n - 1]| then [(i, n - 1)] else [];
      OneListed(lists, i, n - 1);
      ListsJoin(lists, front, Round(lists, i, n - 1), last, if i < |lists[n - 1]| then [lists[n - 1][i]] else []);
      order := front + last;
    }
  }

  lemma NoLists(lists: seq<seq<Bucket>>)
    ensures Lists(lists, [], [])
  {
  }

  lemma OneListed(lists: seq<seq<Bucket>>, i: nat, k: nat)
    requires k < |lists|
    ensures if i < |lists[k]| then Lists(lists, [(i, k)], [lists[k][i]]) else Lists(lists, [], [])
  {
  }

  lemma {:induction false} RoundsInOrder(lists: seq<seq<Bucket>>, n: nat) returns (order: seq<(nat, nat)>)
    ensures Lists(lists, order, Rounds(lists, n))
    ensures forall at: (nat, nat) :: at in order <==> at.0 < n && at.1 < |lists| && at.0 < |lists[at.1]|
  {
    hide Round, Lists;
    if n == 0 {
      order := [];
      NoLists(lists);
    } else {
      var front := RoundsInOrder(lists, n - 1);
      var last := RoundInOrder(lists, n - 1, |lists|);
      ListsJoin(lists, front, Rounds(lists, n - 1), last, Round(lists, n - 1, |lists|));
      order := front + last;
    }
  }

  /** The broadcasts go round by round, and within a round in the order of the lists; every bucket has its turn. */
  lemma BroadcastOrder(lists: seq<seq<Bucket>>) returns (order: seq<(nat, nat)>)
    ensures Lists(lists, order, Rounds(lists, LongestList(lists)))
    ensures forall at: (nat, nat) :: at in order <==> at.1 < |lists| && at.0 < |lists[at.1]|
  {
    hide Rounds, Lists;
    order := RoundsInOrder(lists, LongestList(lists));
    assert forall l :: 0 <= l < |lists| ==> lists[l] in lists;
  }

  /** Column by column, every bucket is broadcast exactly once. */
  lemma EveryBucketOnce(lists: seq<seq<Bucket>>)
    ensures multiset(Rounds(lists, LongestList(lists))) == multiset(Flatten(lists))
  {
    var n := LongestList(lists);
    RoundsAreHeads(lists, n);
    AllHeads(lists, n, |lists|);
    assert lists[..|lists|] == lists;
  }

  // ----- receiving through the halved buffer -----

  function ContentsOf(bs: seq<Bucket>): seq<(string, seq<Byte>)> {
    if bs == [] then [] else ContentsOf(bs[..|bs| - 1]) + bs[|bs| - 1].Contents()
  }

  lemma ContentsAppend(bs: seq<Bucket>, b: Bucket)
    ensures ContentsOf(bs + [b]) == ContentsOf(bs) + b.Contents()
  {
    assert (bs + [b])[..|bs|] == bs;
  }

  /** Where the g-th broadcast lands: the halves of the buffer take turns. */
  function Half(g: nat, bucketSize: nat): (start: nat)
    ensures start == if g % 2 == 0 then 0 else bucketSize
  {
    g % 2 * bucketSize
  }

  /** While a broadcast is in flight the range it writes may hold anything at all. */
  method StartBroadcast(buffer: array<Byte>, start: nat, size: nat)
    requires start + size <= buffer.Length
    modifies buffer
    ensures forall i :: 0 <= i < buffer.Length && !(start <= i < start + size) ==> buffer[i] == old(buffer[i])
  {
    for i := 0 to size
      invariant forall j :: 0 <= j < buffer.Length && !(start <= j < start + size) ==> buffer[j] == old(buffer[j])
    {
      buffer[start + i] := *;
    }
  }

  method CompleteBroadcast(buffer: array<Byte>, start: nat, image: seq<Byte>)
    requires start + |image| <= buffer.Length
    modifies buffer
    ensures buffer[start..start + |image|] == image
    ensures forall i :: 0 <= i < buffer.Length && !(start <= i < start + |image|) ==> buffer[i] == old(buffer[i])
  {
    forall i | 0 <= i < |image| {
      buffer[start + i] := image[i];
    }
  }

  lemma UnpackStep(items: seq<Item>, k: nat, image: seq<Byte>, at: nat)
    requires k < |items| && at + Slots(items[k..]) <= |image| && items[k].size <= items[k].slot
    ensures at + items[k].size <= |image| && at + items[k].slot + Slots(items[k + 1..]) <= |image|
    ensures Unpack(items[k..], image[at..]) ==
            [(items[k].name, image[at..at + items[k].size])] + Unpack(items[k + 1..], image[at + items[k].slot..])
  {
    assert items[k..][1..] == items[k + 1..];
    assert image[at..][..items[k].size] == image[at..at + items[k].size];
    assert image[at..][items[k].slot..] == image[at + items[k].slot..];
  }

  /** The tensors laid out from an offset on, sliced out of the buffer. */
  method YieldItems(buffer: array<Byte>, b: Bucket, start: nat, bucketSize: nat) returns (out: seq<(string, seq<Byte>)>)
    requires b.Valid(bucketSize) && start + |b.image| <= buffer.Length && buffer[start..start + |b.image|] == b.image
    ensures out == b.Contents()
  {
    hide Unpack, Slots;
    out := [];
    var at: nat := 0;
    assert b.items[0..] == b.items && b.image[0..] == b.image;
    for k := 0 to |b.items|
      invariant at + Slots(b.items[k..]) <= |b.image|
      invariant out + Unpack(b.items[k..], b.image[at..]) == b.Contents()
    {
      var it := b.items[k];
      assert it in b.items;
      UnpackStep(b.items, k, b.image, at);
      SubRange(buffer[start..start + |b.image|], buffer[..], start, at, it.size);
      assert buffer[start + at..start + at + it.size] == b.image[at..at + it.size];
      out := out + [(it.name, buffer[start + at..start + at + it.size])];
      at := at + it.slot;
    }
    UnpackEmpty(b.items[|b.items|..], b.image[at..]);
  }

  lemma SubRange(part: seq<Byte>, all: seq<Byte>, start: nat, at: nat, n: nat)
    requires start + |part| <= |all| && part == all[start..start + |part|] && at + n <= |part|
    ensures all[start + at..start + at + n] == part[at..at + n]
  {
    var sub := all[start + at..start + at + n];
    assert forall i :: 0 <= i < n ==> sub[i] == part[at + i];
  }

  lemma UnpackEmpty(items: seq<Item>, image: seq<Byte>)
    requires items == []
    ensures Unpack(items, image) == []
  {
  }

  /** All buckets so far but the last have been yielded; the last one sits in its half. */
  predicate Received(done: seq<Bucket>, bucketSize: nat, buf: seq<Byte>, metadata: Option<Bucket>, gidx: nat,
                     out: seq<(string, seq<Byte>)>)
  {
    && gidx == |done|
    && |buf| == 2 * bucketSize
    && ((done == [] && metadata == None && out == [])
        || (done != [] && metadata == Some(done[|done| - 1])
            && InHalf(done[|done| - 1], gidx - 1, bucketSize, buf) && out == ContentsOf(done[..|done| - 1])))
  }

  predicate InHalf(b: Bucket, g: nat, bucketSize: nat, buf: seq<Byte>)
    requires |buf| == 2 * bucketSize
  {
    var half := Half(g, bucketSize);
    b.Valid(bucketSize) && buf[half..half + |b.image|] == b.image
  }

  /** One broadcast: it is started in one half, the previous bucket is yielded from the other
      while it runs, and it completes. */
  method Turn(ghost done: seq<Bucket>, bucketSize: nat, buffer: array<Byte>, metadata: Option<Bucket>, gidx: nat,
              out: seq<(string, seq<Byte>)>, b: Bucket) returns (out': seq<(string, seq<Byte>)>)
    requires Received(done, bucketSize, buffer[..], metadata, gidx, out) && b.Valid(bucketSize)
    modifies buffer
    ensures Received(done + [b], bucketSize, buffer[..], Some(b), gidx + 1, out')
  {
    hide ContentsOf, InHalf, Received;
    ReceivedMeans(done, bucketSize, buffer[..], metadata, gidx, out);
    var start := Half(gidx, bucketSize);
    StartBroadcast(buffer, start, |b.image|);
    out' := out;
    if metadata.Some? {
      var half := Half(gidx - 1, bucketSize);
      var prev := metadata.value;
      HalfKept(prev, gidx - 1, bucketSize, old(buffer[..]), buffer[..], |b.image|);
      assert buffer[..][half..half + |prev.image|] == buffer[half..half + |prev.image|];
      var yielded := YieldItems(buffer, prev, half, bucketSize);
      out' := out + yielded;
      ContentsAppend(done[..|done| - 1], prev);
      assert done == done[..|done| - 1] + [prev];
    } else {
      NoContents(done);
    }
    CompleteBroadcast(buffer, start, b.image);
    assert buffer[..][start..start + |b.image|] == buffer[start..start + |b.image|];
    LandedInHalf(b, gidx, bucketSize, buffer[..]);
    NowReceived(done, b, bucketSize, buffer[..], out');
  }

  /** A broadcast writes the other half. */
  lemma HalfKept(b: Bucket, g: nat, bucketSize: nat, before: seq<Byte>, after: seq<Byte>, size: nat)
    requires |before| == |after| == 2 * bucketSize && InHalf(b, g, bucketSize, before) && size <= bucketSize
    requires var start := Half(g + 1, bucketSize); forall i :: 0 <= i < |after| && !(start <= i < start + size) ==>
               after[i] == before[i]
    ensures b.Valid(bucketSize)
    ensures var half := Half(g, bucketSize); after[half..half + |b.image|] == b.image
  {
    var half, n := Half(g, bucketSize), |b.image|;
    var a, b' := after[half..half + n], before[half..half + n];
    assert forall i :: 0 <= i < n ==> a[i] == b'[i];
  }

  lemma LandedInHalf(b: Bucket, g: nat, bucketSize: nat, buf: seq<Byte>)
    requires |buf| == 2 * bucketSize && b.Valid(bucketSize)
    requires var half := Half(g, bucketSize); buf[half..half + |b.image|] == b.image
    ensures InHalf(b, g, bucketSize, buf)
  {
  }

  lemma NowReceived(done: seq<Bucket>, b: Bucket, bucketSize: nat, buf: seq<Byte>, out: seq<(string, seq<Byte>)>)
    requires |buf| == 2 * bucketSize && InHalf(b, |done|, bucketSize, buf) && out == ContentsOf(done)
    ensures Received(done + [b], bucketSize, buf, Some(b), |done| + 1, out)
  {
    hide InHalf, ContentsOf;
    assert (done + [b])[..|done|] == done;
  }

  lemma NoContents(done: seq<Bucket>)
    requires done == []
    ensures ContentsOf(done) == []
  {
  }

  /** The rounds of broadcasts; the last bucket is still in its half when they end. */
  method BroadcastAll(lists: seq<seq<Bucket>>, bucketSize: nat, buffer: array<Byte>)
    returns (metadata: Option<Bucket>, gidx: nat, out: seq<(string, seq<Byte>)>)
    requires buffer.Length == 2 * bucketSize
    requires forall l, b :: l in lists && b in l ==> b.Valid(bucketSize)
    modifies buffer
    ensures Received(Rounds(lists, LongestList(lists)), bucketSize, buffer[..], metadata, gidx, out)
  {
    hide Received, Rounds, Round;
    out, metadata, gidx := [], None, 0;
    ghost var done: seq<Bucket> := [];
    var maxLen := LongestList(lists);
    NothingReceived(bucketSize, buffer[..]);
    NoRounds(lists);
    for i := 0 to maxLen
      invariant done == Rounds(lists, i) && Received(done, bucketSize, buffer[..], metadata, gidx, out)
    {
      RoundSteps(lists, i);
      for j := 0 to |lists|
        invariant done == Rounds(lists, i) + Round(lists, i, j)
                    && Received(done, bucketSize, buffer[..], metadata, gidx, out)
      {
        RoundStep(lists, i, j);
        if i < |lists[j]| {
          var b := lists[j][i];
          assert lists[j] in lists && b in lists[j];
          ReceivedMeans(done, bucketSize, buffer[..], metadata, gidx, out);
          out := Turn(done, bucketSize, buffer, metadata, gidx, out, b);
          metadata, gidx := Some(b), gidx + 1;
          done := done + [b];
        }
      }
    }
  }

  lemma NoRounds(lists: seq<seq<Bucket>>)
    ensures Rounds(lists, 0) == []
  {
  }

  lemma RoundSteps(lists: seq<seq<Bucket>>, i: nat)
    ensures Rounds(lists, i) + Round(lists, i, 0) == Rounds(lists, i)
    ensures Rounds(lists, i + 1) == Rounds(lists, i) + Round(lists, i, |lists|)
  {
  }

  lemma RoundStep(lists: seq<seq<Bucket>>, i: nat, j: nat)
    requires j < |lists|
    ensures Round(lists, i, j + 1) == Round(lists, i, j) + if i < |lists[j]| then [lists[j][i]] else []
  {
  }

  /** `receive_tensor` on one rank. Failure where there is no bucket at all: the last metadata is
      then read before it was ever assigned. */
  method ReceiveTensor(lists: seq<seq<Bucket>>, bucketSize: nat, buffer: array<Byte>)
    returns (r: Result<seq<(string, seq<Byte>)>, string>)
    requires buffer.Length == 2 * bucketSize
    requires forall l, b :: l in lists && b in l ==> b.Valid(bucketSize)
    modifies buffer
    ensures r.Failure? <==> Flatten(lists) == []
    ensures r.Success? ==> r.value == ContentsOf(Rounds(lists, LongestList(lists)))
  {
    hide Received, ContentsOf, Flatten, Rounds;
    var metadata, gidx, out := BroadcastAll(lists, bucketSize, buffer);
    ghost var done := Rounds(lists, LongestList(lists));
    EveryBucketOnce(lists);
    assert |multiset(done)| == |done| && |multiset(Flatten(lists))| == |Flatten(lists)|;
    ReceivedMeans(done, bucketSize, buffer[..], metadata, gidx, out);
    if metadata.None? {
      return Failure("metadata is unbound");
    }
    var b := metadata.value;
    var half := Half(gidx - 1, bucketSize);
    assert done == done[..|done| - 1] + [b];
    ContentsAppend(done[..|done| - 1], b);
    assert buffer[..][half..half + |b.image|] == buffer[half..half + |b.image|];
    var last := YieldItems(buffer, b, half, bucketSize);
    return Success(out + last);
  }

  lemma NothingReceived(bucketSize: nat, buf: seq<Byte>)
    requires |buf| == 2 * bucketSize
    ensures Received([], bucketSize, buf, None, 0, [])
  {
  }

  lemma ReceivedMeans(done: seq<Bucket>, bucketSize: nat, buf: seq<Byte>, metadata: Option<Bucket>, gidx: nat,
                      out: seq<(string, seq<Byte>)>)
    requires Received(done, bucketSize, buf, metadata, gidx, out)
    ensures gidx == |done| && |buf| == 2 * bucketSize && (metadata.None? <==> done == []) && (done == [] ==> out == [])
    ensures done != [] ==>
              && metadata == Some(done[|done| - 1])
              && InHalf(metadata.value, gidx - 1, bucketSize, buf)
              && out == ContentsOf(done[..|done| - 1])
  {
  }

  // ----- grouping and receiving together -----

  lemma {:induction false} ContentsConcat(a: seq<Bucket>, b: seq<Bucket>)
    ensures ContentsOf(a + b) == ContentsOf(a) + ContentsOf(b)
    decreases |b|
  {
    hide ContentsOf;
    if b == [] {
      assert a + b == a;
      NoContents(b);
    } else {
      var front, last := b[..|b| - 1], b[|b| - 1];
      ContentsConcat(a, front);
      assert b == front + [last] && a + b == (a + front) + [last];
      ContentsAppend(front, last);
      ContentsAppend(a + front, last);
    }
  }

  /** What is delivered does not depend on the order of the buckets, up to its own order. */
  lemma {:induction false} ContentsPermute(a: seq<Bucket>, b: seq<Bucket>)
    requires multiset(a) == multiset(b)
    ensures multiset(ContentsOf(a)) == multiset(ContentsOf(b))
    decreases |a|
  {
    hide ContentsOf;
    assert |multiset(a)| == |a| && |multiset(b)| == |b|;
    if a == [] {
      assert b == [];
    } else {
      var front, x := a[..|a| - 1], a[|a| - 1];
      assert a == front + [x];
      assert x in multiset(b);
      var i :| 0 <= i < |b| && b[i] == x;
      var lo, hi := b[..i], b[i + 1..];
      assert b == lo + [x] + hi;
      TakenOut(front, x, lo, hi);
      ContentsPermute(front, lo + hi);
      ContentsAppend(front, x);
      ContentsAppend(lo, x);
      ContentsConcat(lo, hi);
      ContentsConcat(lo + [x], hi);
    }
  }

  /** The buckets are grouped by receiver rank and received: every tensor of every bucket is yielded
      exactly once. */
  method ReceiveBuckets(buckets: seq<(int, Bucket)>, bucketSize: nat, buffer: array<Byte>)
    returns (r: Result<seq<(string, seq<Byte>)>, string>)
    requires buffer.Length == 2 * bucketSize && forall i :: 0 <= i < |buckets| ==> buckets[i].1.Valid(bucketSize)
    modifies buffer
    ensures r.Failure? <==> buckets == []
    ensures r.Success? ==> multiset(r.value) == multiset(ContentsOf(Buckets(buckets)))
  {
    hide ContentsOf, Flatten, Rounds, Of, Buckets;
    var ranks, lists := GroupByReceiver(buckets);
    BucketCount(buckets);
    assert |multiset(Flatten(lists))| == |Flatten(lists)| && |multiset(Buckets(buckets))| == |Buckets(buckets)|;
    forall l, b | l in lists && b in l
      ensures b.Valid(bucketSize)
    {
      var k :| 0 <= k < |lists| && lists[k] == l;
      OfMembers(buckets, ranks[k], b);
    }
    EveryBucketOnce(lists);
    ContentsPermute(Rounds(lists, LongestList(lists)), Buckets(buckets));
    r := ReceiveTensor(lists, bucketSize, buffer);
  }

  lemma {:induction false} BucketCount(xs: seq<(int, Bucket)>)
    ensures |Buckets(xs)| == |xs|
  {
    if xs != [] {
      BucketCount(xs[..|xs| - 1]);
    }
  }

  lemma {:induction false} OfMembers(xs: seq<(int, Bucket)>, rank: int, b: Bucket)
    requires b in Of(xs, rank)
    ensures exists i :: 0 <= i < |xs| && xs[i].1 == b
  {
    var n := |xs| - 1;
    if b in Of(xs[..n], rank) {
      OfMembers(xs[..n], rank, b);
      var i :| 0 <= i < n && xs[..n][i].1 == b;
      assert xs[i].1 == b;
    } else {
      assert xs[n].1 == b;
    }
  }
}

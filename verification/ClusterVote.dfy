/** The best-of-n vote: answers that are numerically close form a cluster, and the median of the
    largest cluster wins. Answers are real numbers. */
module ClusterVote {
  import opened Options
  import opened Reals

  /** A member remembers when it arrived. */
  datatype Member = Member(index: nat, value: real)

  datatype Cluster = Cluster(center: real, members: seq<Member>)

  datatype Tolerance = Tolerance(rel: real, abs: real)

  function Slack(tol: Tolerance, size: real): real {
    tol.abs + tol.rel * size
  }

  predicate IsClose(a: real, b: real, tol: Tolerance) {
    Abs(a - b) <= Slack(tol, Max(Max(Abs(a), Abs(b)), 1.0))
  }

  function Sum(ms: seq<Member>): real {
    if ms == [] then 0.0 else Sum(ms[..|ms| - 1]) + ms[|ms| - 1].value
  }

  function Mean(ms: seq<Member>): real
    requires ms != []
  {
    Sum(ms) / |ms| as real
  }

  // ----- the reference: clusters grow one answer at a time -----

  /** The first cluster an answer is close to, or the number of clusters. */
  function FirstClose(cs: seq<Cluster>, v: real, tol: Tolerance): (k: nat)
    ensures k <= |cs|
    ensures k < |cs| ==> IsClose(v, cs[k].center, tol)
    ensures forall j :: 0 <= j < k ==> !IsClose(v, cs[j].center, tol)
  {
    if cs == [] then 0
    else
      var k := FirstClose(cs[..|cs| - 1], v, tol);
      assert forall j :: 0 <= j < |cs| - 1 ==> cs[..|cs| - 1][j] == cs[j];
      if k < |cs| - 1 then k else if IsClose(v, cs[|cs| - 1].center, tol) then |cs| - 1 else |cs|
  }

  function Joined(c: Cluster, m: Member): Cluster {
    Cluster(Mean(c.members + [m]), c.members + [m])
  }

  function Place(cs: seq<Cluster>, m: Member, tol: Tolerance): seq<Cluster> {
    var k := FirstClose(cs, m.value, tol);
    if k < |cs| then cs[k := Joined(cs[k], m)] else cs + [Joined(Cluster(m.value, []), m)]
  }

  function Clusters(values: seq<real>, tol: Tolerance): seq<Cluster> {
    if values == [] then []
    else
      var n := |values| - 1;
      Place(Clusters(values[..n], tol), Member(n, values[n]), tol)
  }

  // ----- the clusters partition the answers -----

  /** Member number m of cluster k is answer i. */
  predicate Holds(cs: seq<Cluster>, k: int, m: int, i: nat) {
    0 <= k < |cs| && 0 <= m < |cs[k].members| && cs[k].members[m].index == i
  }

  ghost predicate Somewhere(cs: seq<Cluster>, i: nat) {
    exists k, m :: Holds(cs, k, m, i)
  }

  /** No cluster is empty, and a centre is its members' mean. */
  predicate Centred(cs: seq<Cluster>) {
    forall k :: 0 <= k < |cs| ==> cs[k].members != [] && cs[k].center == Mean(cs[k].members)
  }

  /** Every answer is in exactly one place, with its value; members keep their order of arrival, and
      clusters that of their first members. */
  ghost predicate Partition(cs: seq<Cluster>, values: seq<real>) {
    && (forall i :: 0 <= i < |values| ==> Somewhere(cs, i))
    && (forall k, m, i: nat :: Holds(cs, k, m, i) ==> Faithful(cs, values, k, m, i))
    && (forall k, m, i: nat, k', m', i': nat :: Holds(cs, k, m, i) && Holds(cs, k', m', i') ==>
      InOrder(k, m, i, k', m', i'))
  }

  predicate Faithful(cs: seq<Cluster>, values: seq<real>, k: int, m: int, i: nat) {
    0 <= k < |cs| && 0 <= m < |cs[k].members| && i < |values| && cs[k].members[m].value == values[i]
  }

  predicate InOrder(k: int, m: int, i: nat, k': int, m': int, i': nat) {
    && (i == i' ==> k == k' && m == m')
    && (k == k' && m < m' ==> i < i')
    && (k < k' && m == 0 && m' == 0 ==> i < i')
  }

  /** Where the new answer goes. */
  lemma PlaceAt(cs: seq<Cluster>, m: Member, tol: Tolerance)
    ensures var k, cs' := FirstClose(cs, m.value, tol), Place(cs, m, tol);
            && |cs'| == (if k < |cs| then |cs| else |cs| + 1)
            && (forall j :: 0 <= j < |cs| && j != k ==> cs'[j] == cs[j])
            && cs'[k].members == (if k < |cs| then cs[k].members else []) + [m]
            && cs'[k].center == Mean(cs'[k].members)
  {
  }

  lemma PlaceHolds(cs: seq<Cluster>, v: Member, tol: Tolerance, k: int, m: int, i: nat)
    ensures var at := FirstClose(cs, v.value, tol);
            var size := if at < |cs| then |cs[at].members| else 0;
            Holds(Place(cs, v, tol), k, m, i) <==> Holds(cs, k, m, i) || (k == at && m == size && i == v.index)
  {
    hide Place, FirstClose;
    PlaceAt(cs, v, tol);
  }

  lemma PlacePartitions(cs: seq<Cluster>, values: seq<real>, v: real, tol: Tolerance)
    requires Centred(cs) && Partition(cs, values)
    ensures Partition(Place(cs, Member(|values|, v), tol), values + [v])
  {
    hide Place, Mean, FirstClose, Holds, Somewhere, Faithful, InOrder;
    var n, cs' := |values|, Place(cs, Member(|values|, v), tol);
    var at := FirstClose(cs, v, tol);
    var size := if at < |cs| then |cs[at].members| else 0;
    forall k, m, i
      ensures Holds(cs', k, m, i) <==> Holds(cs, k, m, i) || (k == at && m == size && i == n)
    {
      PlaceHolds(cs, Member(n, v), tol, k, m, i);
    }
    forall i | 0 <= i < n + 1
      ensures Somewhere(cs', i)
    {
      StillSomewhere(cs, cs', i, at, size, n);
    }
    forall k, m, i: nat | Holds(cs', k, m, i)
      ensures Faithful(cs', values + [v], k, m, i)
    {
      PlaceValue(cs, values, v, tol, k, m, i);
    }
    forall k, m, i: nat, k', m', i': nat | Holds(cs', k, m, i) && Holds(cs', k', m', i')
      ensures InOrder(k, m, i, k', m', i')
    {
      PlaceOrder(cs, values, at, size, k, m, i, k', m', i');
    }
  }

  lemma StillSomewhere(cs: seq<Cluster>, cs': seq<Cluster>, i: nat, at: int, size: int, n: nat)
    requires i < n ==> Somewhere(cs, i)
    requires i <= n && forall k, m :: Holds(cs', k, m, i) <==> Holds(cs, k, m, i) || (k == at && m == size && i == n)
    ensures Somewhere(cs', i)
  {
    hide Holds;
    if i < n {
      var k, m :| Holds(cs, k, m, i);
      assert Holds(cs', k, m, i);
    } else {
      assert Holds(cs', at, size, i);
    }
  }

  lemma PlaceValue(cs: seq<Cluster>, values: seq<real>, v: real, tol: Tolerance, k: int, m: int, i: nat)
    requires Partition(cs, values) && Holds(Place(cs, Member(|values|, v), tol), k, m, i)
    ensures Faithful(Place(cs, Member(|values|, v), tol), values + [v], k, m, i)
  {
    hide Place, Mean, FirstClose, InOrder, Somewhere;
    PlaceAt(cs, Member(|values|, v), tol);
    PlaceHolds(cs, Member(|values|, v), tol, k, m, i);
  }

  lemma PlaceOrder(cs: seq<Cluster>, values: seq<real>, at: int, size: int, k: int, m: int, i: nat, k': int, m': int,
                   i': nat)
    requires Partition(cs, values) && 0 <= at <= |cs| && size == (if at < |cs| then |cs[at].members| else 0)
               && Centred(cs)
    requires Holds(cs, k, m, i) || (k == at && m == size && i == |values|)
    requires Holds(cs, k', m', i') || (k' == at && m' == size && i' == |values|)
    ensures InOrder(k, m, i, k', m', i')
  {
    hide Mean, Somewhere;
  }

  lemma PlaceCentres(cs: seq<Cluster>, m: Member, tol: Tolerance)
    requires Centred(cs)
    ensures Centred(Place(cs, m, tol))
  {
    hide Place, Mean, FirstClose;
    PlaceAt(cs, m, tol);
  }

  lemma {:induction false} ClustersPartition(values: seq<real>, tol: Tolerance)
    ensures Partition(Clusters(values, tol), values) && Centred(Clusters(values, tol))
  {
    hide Partition, Place, Centred;
    if values == [] {
      NoClusters();
    } else {
      var n := |values| - 1;
      ClustersPartition(values[..n], tol);
      PlacePartitions(Clusters(values[..n], tol), values[..n], values[n], tol);
      PlaceCentres(Clusters(values[..n], tol), Member(n, values[n]), tol);
      assert values[..n] + [values[n]] == values;
    }
  }

  lemma NoClusters()
    ensures Partition([], []) && Centred([])
  {
  }

  // ----- centres -----

  function Lowest(ms: seq<Member>): (i: nat)
    requires ms != []
    ensures i < |ms| && forall j :: 0 <= j < |ms| ==> ms[i].value <= ms[j].value
  {
    if |ms| == 1 then 0
    else
      var front := ms[..|ms| - 1];
      var i := Lowest(front);
      assert forall j :: 0 <= j < |front| ==> front[j] == ms[j];
      if ms[|ms| - 1].value < ms[i].value then |ms| - 1 else i
  }

  function Highest(ms: seq<Member>): (i: nat)
    requires ms != []
    ensures i < |ms| && forall j :: 0 <= j < |ms| ==> ms[j].value <= ms[i].value
  {
    if |ms| == 1 then 0
    else
      var front := ms[..|ms| - 1];
      var i := Highest(front);
      assert forall j :: 0 <= j < |front| ==> front[j] == ms[j];
      if ms[|ms| - 1].value > ms[i].value then |ms| - 1 else i
  }

  lemma {:induction false} SumBounds(ms: seq<Member>, lo: real, hi: real)
    requires forall j :: 0 <= j < |ms| ==> lo <= ms[j].value <= hi
    ensures lo * |ms| as real <= Sum(ms) <= hi * |ms| as real
  {
    if ms != [] {
      var front := ms[..|ms| - 1];
      assert forall j :: 0 <= j < |front| ==> front[j] == ms[j];
      SumBounds(front, lo, hi);
      var n := |front| as real;
      assert |ms| as real == n + 1.0;
      assert lo * (n + 1.0) == lo * n + lo && hi * (n + 1.0) == hi * n + hi;
    }
  }

  lemma QuotientBounds(s: real, n: real, lo: real, hi: real)
    requires n > 0.0 && lo * n <= s <= hi * n
    ensures lo <= s / n <= hi
  {
    var q := s / n;
    assert q * n == s;
    SignOf(q - lo, n);
    SignOf(hi - q, n);
  }

  lemma SignOf(x: real, n: real)
    requires n > 0.0
    ensures x * n >= 0.0 <==> x >= 0.0
  {
  }

  lemma ProductSign(a: real, b: real)
    requires a >= 0.0 && b >= 0.0
    ensures a * b >= 0.0
  {
  }

  lemma Product(a: real, b: real, c: real)
    requires a >= 0.0 && b <= c
    ensures a * b <= a * c
  {
  }

  lemma ProductLess(a: real, b: real, c: real)
    requires a > 0.0 && b < c
    ensures a * b < a * c
  {
  }

  /** A mean lies between the least and the greatest of its members. */
  lemma MeanInRange(ms: seq<Member>)
    requires ms != []
    ensures ms[Lowest(ms)].value <= Mean(ms) <= ms[Highest(ms)].value
  {
    var lo, hi := ms[Lowest(ms)].value, ms[Highest(ms)].value;
    SumBounds(ms, lo, hi);
    QuotientBounds(Sum(ms), |ms| as real, lo, hi);
  }

  // ----- groups told apart by the tolerance are found exactly -----

  /** The labels are the groups the tolerance sees: two answers have the same label exactly when they
      are close. */
  predicate Separated(values: seq<real>, labels: seq<int>, tol: Tolerance) {
    && |labels| == |values|
    && forall i, j :: 0 <= i < |values| && 0 <= j < |values| ==>
         (labels[i] == labels[j] <==> IsClose(values[i], values[j], tol))
  }

  /** The tolerances at which means respect closeness: it grows no faster than the answers, or so fast
      that any two answers are close. */
  predicate Recoverable(tol: Tolerance) {
    tol.rel <= 1.0 || (tol.rel >= 2.0 && tol.rel + tol.abs >= 2.0)
  }

  lemma AllClose(a: real, b: real, tol: Tolerance)
    requires tol.rel >= 2.0 && tol.rel + tol.abs >= 2.0
    ensures IsClose(a, b, tol)
  {
    var size := Max(Max(Abs(a), Abs(b)), 1.0);
    ProductSign(tol.rel - 2.0, size - 1.0);
    assert tol.rel * size == 2.0 * size + (tol.rel - 2.0) * (size - 1.0) + tol.rel - 2.0;
  }

  /** Closeness reaches everything in between, as long as the tolerance grows no faster than the
      answers. */
  lemma CloseBetween(v: real, x: real, y: real, tol: Tolerance)
    requires tol.rel <= 1.0 && IsClose(v, y, tol) && (v <= x <= y || y <= x <= v)
    ensures IsClose(v, x, tol)
  {
    var far, near := Max(Max(Abs(v), Abs(y)), 1.0), Max(Max(Abs(v), Abs(x)), 1.0);
    SlackShrinks(tol, far, near, Abs(x - y));
  }

  /** The tolerance for answers up to `near` is at least that up to `far` less the distance given up. */
  lemma SlackShrinks(tol: Tolerance, far: real, near: real, d: real)
    requires tol.rel <= 1.0 && d >= 0.0 && near >= far - d
    requires tol.rel <= 0.0 ==> near <= far
    ensures Slack(tol, near) >= Slack(tol, far) - d
  {
    if tol.rel <= 0.0 {
      ProductSign(-tol.rel, far - near);
      assert -tol.rel * (far - near) == tol.rel * near - tol.rel * far;
    } else {
      ProductSign(tol.rel, near - (far - d));
      ProductSign(1.0 - tol.rel, d);
      assert tol.rel * (near - (far - d)) == tol.rel * near - tol.rel * far + tol.rel * d;
    }
  }

  lemma CloseIsSymmetric(a: real, b: real, tol: Tolerance)
    ensures IsClose(a, b, tol) <==> IsClose(b, a, tol)
  {
  }

  /** An answer is close to the centre of answers that are all close to it. */
  lemma CloseToOwn(ms: seq<Member>, v: real, tol: Tolerance)
    requires ms != [] && Recoverable(tol) && forall m :: 0 <= m < |ms| ==> IsClose(v, ms[m].value, tol)
    ensures IsClose(v, Mean(ms), tol)
  {
    hide Mean, IsClose;
    if tol.rel > 1.0 {
      AllClose(v, Mean(ms), tol);
      return;
    }
    MeanInRange(ms);
    CloseBetween(v, Mean(ms), ms[if v <= Mean(ms) then Highest(ms) else Lowest(ms)].value, tol);
  }

  /** An answer close to no member of a cluster of close answers is not close to its centre. */
  lemma FarFromOther(ms: seq<Member>, v: real, tol: Tolerance)
    requires ms != [] && Recoverable(tol) && forall m :: 0 <= m < |ms| ==> !IsClose(v, ms[m].value, tol)
    requires forall m, m' :: 0 <= m < |ms| && 0 <= m' < |ms| ==> IsClose(ms[m].value, ms[m'].value, tol)
    ensures !IsClose(v, Mean(ms), tol)
  {
    hide Mean, IsClose;
    if tol.rel > 1.0 {
      AllClose(v, ms[0].value, tol);
      assert false;
    }
    MeanInRange(ms);
    var lo, hi := ms[Lowest(ms)].value, ms[Highest(ms)].value;
    assert !IsClose(v, lo, tol) && !IsClose(v, hi, tol) && IsClose(lo, hi, tol);
    if lo <= v <= hi {
      CloseBetween(lo, v, hi, tol);
      CloseIsSymmetric(lo, v, tol);
    } else if IsClose(v, Mean(ms), tol) {
      CloseBetween(v, if v < lo then lo else hi, Mean(ms), tol);
    }
  }

  /** Two answers are in the same cluster exactly when they have the same label. */
  ghost predicate ByLabel(cs: seq<Cluster>, labels: seq<int>) {
    forall k, m, i: nat, k', m', i': nat :: Holds(cs, k, m, i) && Holds(cs, k', m', i') ==>
      i < |labels| && i' < |labels| && (k == k' <==> labels[i] == labels[i'])
  }

  /** The new answer is close to exactly the clusters of its own label. */
  lemma CloseIffSameLabel(cs: seq<Cluster>, values: seq<real>, labels: seq<int>, tol: Tolerance, k: nat)
    requires values != [] && Recoverable(tol) && Separated(values, labels, tol) && k < |cs|
    requires Partition(cs, values[..|values| - 1]) && Centred(cs) && ByLabel(cs, labels[..|labels| - 1])
    ensures cs[k].members[0].index < |values| - 1
    ensures IsClose(values[|values| - 1], cs[k].center, tol) <==> labels[|values| - 1] == labels[cs[k].members[0].index]
  {
    hide Mean, Somewhere, InOrder, IsClose, Abs;
    var n := |values| - 1;
    var ms, v := cs[k].members, values[n];
    assert Holds(cs, k, 0, ms[0].index);
    forall m | 0 <= m < |ms|
      ensures ms[m].index < n && ms[m].value == values[ms[m].index] && labels[ms[m].index] == labels[ms[0].index]
    {
      assert Holds(cs, k, m, ms[m].index);
      assert labels[..n][ms[m].index] == labels[ms[m].index] && labels[..n][ms[0].index] == labels[ms[0].index];
    }
    if labels[n] == labels[ms[0].index] {
      CloseToOwn(ms, v, tol);
    } else {
      FarFromOther(ms, v, tol);
    }
  }

  lemma ByLabelStep(cs: seq<Cluster>, values: seq<real>, labels: seq<int>, tol: Tolerance)
    requires values != [] && Recoverable(tol) && Separated(values, labels, tol)
    requires Partition(cs, values[..|values| - 1]) && Centred(cs) && ByLabel(cs, labels[..|labels| - 1])
    ensures ByLabel(Place(cs, Member(|values| - 1, values[|values| - 1]), tol), labels)
  {
    hide Partition, Centred, Separated, IsClose, Place, FirstClose, Holds, ByLabel;
    var n := |values| - 1;
    var v := Member(n, values[n]);
    var cs' := Place(cs, v, tol);
    assert |labels| == n + 1 by {
      SameLength(values, labels, tol);
    }
    forall k, m, i: nat, k', m', i': nat | Holds(cs', k, m, i) && Holds(cs', k', m', i')
      ensures i < |labels| && i' < |labels| && (k == k' <==> labels[i] == labels[i'])
    {
      PlaceHolds(cs, v, tol, k, m, i);
      PlaceHolds(cs, v, tol, k', m', i');
      if Holds(cs, k, m, i) {
        if Holds(cs, k', m', i') {
          OldPair(cs, labels, k, m, i, k', m', i');
        } else {
          OldAndNew(cs, values, labels, tol, k, m, i);
        }
      } else if Holds(cs, k', m', i') {
        OldAndNew(cs, values, labels, tol, k', m', i');
      }
    }
    Labelled(cs', labels);
  }

  lemma SameLength(values: seq<real>, labels: seq<int>, tol: Tolerance)
    requires Separated(values, labels, tol)
    ensures |labels| == |values|
  {
  }

  lemma Labelled(cs: seq<Cluster>, labels: seq<int>)
    requires forall k, m, i: nat, k', m', i': nat :: Holds(cs, k, m, i) && Holds(cs, k', m', i') ==>
               i < |labels| && i' < |labels| && (k == k' <==> labels[i] == labels[i'])
    ensures ByLabel(cs, labels)
  {
    hide Holds;
  }

  lemma OldPair(cs: seq<Cluster>, labels: seq<int>, k: int, m: int, i: nat, k': int, m': int, i': nat)
    requires labels != [] && ByLabel(cs, labels[..|labels| - 1]) && Holds(cs, k, m, i) && Holds(cs, k', m', i')
    ensures i < |labels| && i' < |labels| && (k == k' <==> labels[i] == labels[i'])
  {
    hide Holds;
  }

  lemma FirstMember(cs: seq<Cluster>, k: nat)
    requires Centred(cs) && k < |cs|
    ensures cs[k].members != [] && Holds(cs, k, 0, cs[k].members[0].index)
  {
  }

  /** The new answer joins the cluster of an old one exactly when they have the same label. */
  lemma OldAndNew(cs: seq<Cluster>, values: seq<real>, labels: seq<int>, tol: Tolerance, k: int, m: int, i: nat)
    requires values != [] && Recoverable(tol) && Separated(values, labels, tol)
    requires Partition(cs, values[..|values| - 1]) && Centred(cs) && ByLabel(cs, labels[..|labels| - 1])
               && Holds(cs, k, m, i)
    ensures i < |labels| == |values|
    ensures k == FirstClose(cs, values[|values| - 1], tol) <==> labels[i] == labels[|values| - 1]
  {
    hide IsClose, Partition, Centred, Separated, ByLabel;
    SameLength(values, labels, tol);
    var n := |values| - 1;
    var at := FirstClose(cs, values[n], tol);
    CloseIffSameLabel(cs, values, labels, tol, k);
    FirstMember(cs, k);
    OldPair(cs, labels, k, m, i, k, 0, cs[k].members[0].index);
    if at < |cs| {
      CloseIffSameLabel(cs, values, labels, tol, at);
      FirstMember(cs, at);
      OldPair(cs, labels, k, m, i, at, 0, cs[at].members[0].index);
    }
  }

  /** Where closeness itself sorts the answers into groups, the clusters are those groups, in whatever
      order the answers arrive. */
  lemma {:induction false} GroupsRecovered(values: seq<real>, labels: seq<int>, tol: Tolerance)
    requires Recoverable(tol) && Separated(values, labels, tol)
    ensures ByLabel(Clusters(values, tol), labels)
  {
    hide ByLabel, Place, Partition, Centred;
    if values == [] {
      NoLabels(labels);
    } else {
      var n := |values| - 1;
      PrefixSeparated(values, labels, tol);
      GroupsRecovered(values[..n], labels[..n], tol);
      ClustersPartition(values[..n], tol);
      ByLabelStep(Clusters(values[..n], tol), values, labels, tol);
    }
  }

  // ----- at every other tolerance some groups are missed -----

  /** Answers x, y, z that are all close to each other, z not being close to the centre of the first two. */
  predicate Misses(x: real, y: real, z: real, tol: Tolerance) {
    && IsClose(x, x, tol) && IsClose(y, y, tol) && IsClose(z, z, tol)
    && IsClose(x, y, tol) && IsClose(x, z, tol) && IsClose(y, z, tol)
    && !IsClose(z, (x + y) / 2.0, tol)
  }

  lemma MeanOfTwo(a: Member, b: Member)
    ensures Mean([a, b]) == (a.value + b.value) / 2.0
  {
    assert [a, b][..1] == [a] && [a][..0] == [];
    assert Sum([a]) == a.value;
  }

  lemma TwoTogether(x: real, y: real, tol: Tolerance)
    requires IsClose(y, x, tol)
    ensures Clusters([x, y], tol) == [Cluster((x + y) / 2.0, [Member(0, x), Member(1, y)])]
  {
    hide IsClose, Mean, Place;
    var a, b := Member(0, x), Member(1, y);
    assert [x, y][..1] == [x] && [x][..0] == [];
    OneAlone(x, tol);
    var cs := [Cluster(x, [a])];
    FirstCloseIs(cs, y, tol, 0);
    PlaceAt(cs, b, tol);
    MeanOfTwo(a, b);
    assert [a] + [b] == [a, b];
    assert Place(cs, b, tol) == [Cluster((x + y) / 2.0, [a, b])];
  }

  lemma OneAlone(x: real, tol: Tolerance)
    ensures Clusters([x], tol) == [Cluster(x, [Member(0, x)])]
  {
    hide IsClose;
    var a := Member(0, x);
    assert [x][..0] == [] && [a][..0] == [] && [] + [a] == [a];
    assert Sum([a]) == x;
    assert Mean([a]) == x;
  }

  lemma ThirdApart(x: real, y: real, z: real, tol: Tolerance)
    requires IsClose(y, x, tol) && !IsClose(z, (x + y) / 2.0, tol)
    ensures !ByLabel(Clusters([x, y, z], tol), [0, 0, 0])
  {
    hide IsClose, Mean, Place;
    TwoTogether(x, y, tol);
    assert [x, y, z][..2] == [x, y];
    var cs, c := Clusters([x, y], tol), Member(2, z);
    FirstCloseIs(cs, z, tol, 1);
    PlaceAt(cs, c, tol);
    var cs' := Place(cs, c, tol);
    assert Clusters([x, y, z], tol) == cs';
    assert Holds(cs', 0, 0, 0) && Holds(cs', 1, 0, 2);
  }

  lemma GroupMissed(x: real, y: real, z: real, tol: Tolerance)
    requires Misses(x, y, z, tol)
    ensures Separated([x, y, z], [0, 0, 0], tol) && !ByLabel(Clusters([x, y, z], tol), [0, 0, 0])
  {
    CloseIsSymmetric(x, y, tol);
    CloseIsSymmetric(x, z, tol);
    CloseIsSymmetric(y, z, tol);
    hide IsClose, Clusters, ByLabel;
    ThirdApart(x, y, z, tol);
  }

  /** Two answers of opposite sign that are just close to each other, and a third one between them, across
      zero from the centre of the two and out of its reach. */
  lemma AcrossZero(m: real, y: real, z: real, tol: Tolerance)
    requires var c := (m - y) / 2.0; 1.0 <= z <= y <= m && z <= c && Slack(tol, c) < z + c
    requires Slack(tol, m) >= m + y && Slack(tol, y) >= y && Slack(tol, z) >= 0.0
    ensures Misses(m, -y, -z, tol)
  {
    hide Slack;
    assert (m + -y) / 2.0 == (m - y) / 2.0;
  }

  lemma SlackIs(tol: Tolerance, p: real, size: real)
    requires tol.rel == 1.0 + p
    ensures Slack(tol, size) == tol.abs + size + p * size
  {
  }

  /** Between 1 and 2. `big` and `small` are the parts r - 1 and 2 - r of the largest answer. */
  lemma MissedBetween(tol: Tolerance, p: real, q: real, big: real, small: real, a: real)
    requires p > 0.0 && q > 0.0 && p + q == 1.0 && tol.rel == 1.0 + p && a >= 0.0 && -a <= tol.abs <= a
    requires p * small == q * big && p * big >= 4.0 * (a + 1.0) && q * small >= 4.0 * (a + 1.0)
    ensures exists x, y, z :: Misses(x, y, z, tol)
  {
    hide Misses, Slack;
    var m, y := big + small, big + tol.abs;
    var c := (m - y) / 2.0;
    var z := Min(c, y);
    LargeParts(p, q, big, small, a);
    PartOfWhole(p, q, big, small);
    SlackIs(tol, p, m);
    SlackIs(tol, p, y);
    SlackIs(tol, p, z);
    SlackIs(tol, p, c);
    ProductSign(p, z);
    SlackOfSecond(tol.abs, p, big, a);
    SlackOfCentre(tol.abs, p, q, big, small, c, a);
    AcrossZero(m, y, z, tol);
  }

  lemma PartOfWhole(p: real, q: real, big: real, small: real)
    requires p + q == 1.0 && p * small == q * big
    ensures p * (big + small) == big
  {
    assert p * (big + small) == p * big + q * big == (p + q) * big;
  }

  lemma LargeParts(p: real, q: real, big: real, small: real, a: real)
    requires p > 0.0 && q > 0.0 && p + q == 1.0 && a >= 0.0
    requires p * big >= 4.0 * (a + 1.0) && q * small >= 4.0 * (a + 1.0)
    ensures big >= 4.0 * (a + 1.0) && small >= 4.0 * (a + 1.0)
  {
    SignOf(big, p);
    SignOf(small, q);
    ProductSign(q, big);
    ProductSign(p, small);
    WholeOfParts(p, q, big);
    WholeOfParts(p, q, small);
  }

  lemma SlackOfSecond(abs: real, p: real, big: real, a: real)
    requires 0.0 < p < 1.0 && a >= 0.0 && -a <= abs <= a && p * big >= 4.0 * (a + 1.0)
    ensures p * (big + abs) + abs >= 0.0
  {
    Product(p, -a, abs);
    ProductSign(1.0 - p, a);
  }

  lemma SlackOfCentre(abs: real, p: real, q: real, big: real, small: real, c: real, a: real)
    requires p > 0.0 && q > 0.0 && p + q == 1.0 && a >= 0.0 && -a <= abs <= a
    requires p * (big + small) == big && q * small >= 4.0 * (a + 1.0)
    requires big >= 4.0 * (a + 1.0) && small >= 4.0 * (a + 1.0) && 2.0 * c == small - abs
    ensures abs + p * c < Min(c, big + abs)
  {
    ProductLess(p, c, big + small);
    HalfOfPart(q, small, abs, c, a);
    WholeOfParts(p, q, c);
  }

  lemma WholeOfParts(p: real, q: real, x: real)
    requires p + q == 1.0
    ensures p * x + q * x == x
  {
    assert p * x + q * x == (p + q) * x;
  }

  lemma HalfOfPart(q: real, small: real, abs: real, c: real, a: real)
    requires 0.0 < q < 1.0 && a >= 0.0 && -a <= abs <= a && q * small >= 4.0 * (a + 1.0) && 2.0 * c == small - abs
    ensures q * c > abs
  {
    Product(q, abs, a);
    ProductSign(1.0 - q, a);
    assert 2.0 * (q * c) == q * (small - abs) == q * small - q * abs;
  }

  /** From 2 on, with a negative absolute tolerance: the centre is s and the third answer -s. */
  lemma MissedAbove(tol: Tolerance, s: real)
    requires tol.rel >= 2.0 && tol.abs < 0.0 && s >= 1.0
    requires 0.0 <= Slack(tol, s) < 2.0 * s
    ensures exists x, y, z :: Misses(x, y, z, tol)
  {
    hide Misses, Slack;
    var y := 2.0 * s - tol.abs;
    var m := y + 2.0 * s;
    SlackGrows(tol, s, m);
    SlackGrows(tol, s, y);
    AcrossZero(m, y, s, tol);
  }

  lemma SlackGrows(tol: Tolerance, s: real, size: real)
    requires tol.rel >= 2.0 && s <= size
    ensures Slack(tol, size) >= Slack(tol, s) + 2.0 * (size - s)
  {
    ProductSign(tol.rel - 2.0, size - s);
  }

  function Part(w: real, u: real, v: real): real {
    u * (w * (v * v))
  }

  lemma PartAtLeast(p: real, u: real, v: real, w: real)
    requires p * u == 1.0 && w > 0.0 && v >= 1.0
    ensures p * Part(w, u, v) >= w
  {
    GrowsBy(w, v);
    Undo(p, u, w * (v * v));
  }

  lemma PartsCross(p: real, q: real, u: real, v: real, w: real)
    requires p * u == 1.0 && q * v == 1.0
    ensures p * Part(w, v, u) == q * Part(w, u, v)
  {
    Undo(p, u, v * w * u);
    Undo(q, v, v * w * u);
    Regroup(u, v, w);
  }

  lemma Undo(p: real, u: real, x: real)
    requires p * u == 1.0
    ensures p * (u * x) == x
  {
    assert p * (u * x) == p * u * x;
  }

  lemma Regroup(u: real, v: real, w: real)
    ensures v * (w * (u * u)) == u * (v * w * u) && u * (w * (v * v)) == v * (v * w * u)
  {
  }

  lemma ReciprocalOf(p: real) returns (u: real)
    requires 0.0 < p < 1.0
    ensures p * u == 1.0 && u >= 1.0
  {
    u := 1.0 / p;
    SignOf(u, p);
    ProductSign(1.0 - p, u);
  }

  lemma GrowsBy(w: real, u: real)
    requires w > 0.0 && u >= 1.0
    ensures w * (u * u) >= w
  {
    Product(u, 1.0, u);
    Product(w, 1.0, u * u);
  }

  lemma SomeMissedBetween(tol: Tolerance)
    requires 1.0 < tol.rel < 2.0
    ensures exists x, y, z :: Misses(x, y, z, tol)
  {
    hide Misses;
    hide Part;
    var p, q, a := tol.rel - 1.0, 2.0 - tol.rel, Abs(tol.abs);
    var u := ReciprocalOf(p);
    var v := ReciprocalOf(q);
    var w := 4.0 * (a + 1.0);
    PartAtLeast(p, u, v, w);
    PartAtLeast(q, v, u, w);
    PartsCross(p, q, u, v, w);
    MissedBetween(tol, p, q, Part(w, u, v), Part(w, v, u), a);
  }

  lemma SomeMissedAbove(tol: Tolerance)
    requires tol.rel >= 2.0 && tol.rel + tol.abs < 2.0
    ensures exists x, y, z :: Misses(x, y, z, tol)
  {
    hide Misses;
    if tol.rel + tol.abs >= 0.0 {
      MissedAbove(tol, 1.0);
    } else {
      var s := -tol.abs / tol.rel;
      assert tol.rel * s == -tol.abs;
      SignOf(s - 1.0, tol.rel);
      MissedAbove(tol, s);
    }
  }

  lemma SomeGroupMissed(tol: Tolerance)
    requires !Recoverable(tol)
    ensures exists x, y, z :: Misses(x, y, z, tol)
  {
    hide Misses;
    if tol.rel < 2.0 {
      SomeMissedBetween(tol);
    } else {
      SomeMissedAbove(tol);
    }
  }

  /** The exact tolerances at which the clusters are always the groups that closeness sorts the answers into. */
  lemma RecoveryExact(tol: Tolerance)
    ensures (forall values, labels :: Separated(values, labels, tol) ==> ByLabel(Clusters(values, tol), labels)) <==>
            tol.rel <= 1.0 || (tol.rel >= 2.0 && tol.rel + tol.abs >= 2.0)
  {
    hide Separated, ByLabel, Clusters, Misses;
    if Recoverable(tol) {
      forall values, labels | Separated(values, labels, tol)
        ensures ByLabel(Clusters(values, tol), labels)
      {
        GroupsRecovered(values, labels, tol);
      }
    } else {
      SomeGroupMissed(tol);
      var x, y, z :| Misses(x, y, z, tol);
      GroupMissed(x, y, z, tol);
    }
  }

  lemma NoLabels(labels: seq<int>)
    ensures ByLabel([], labels)
  {
  }

  lemma PrefixSeparated(values: seq<real>, labels: seq<int>, tol: Tolerance)
    requires values != [] && Separated(values, labels, tol)
    ensures Separated(values[..|values| - 1], labels[..|labels| - 1], tol)
  {
  }

  // ----- the vote -----

  /** The order of `clusters.sort`: larger clusters first, then those that started earlier. */
  predicate Precedes(a: Cluster, b: Cluster)
    requires a.members != [] && b.members != []
  {
    |a.members| > |b.members| || (|a.members| == |b.members| && a.members[0].index < b.members[0].index)
  }

  predicate NonEmpty(cs: seq<Cluster>) {
    forall c :: c in cs ==> c.members != []
  }

  predicate Ranked(cs: seq<Cluster>)
    requires NonEmpty(cs)
  {
    forall i, j :: 0 <= i < j < |cs| ==> !Precedes(cs[j], cs[i])
  }

  function Insert(c: Cluster, cs: seq<Cluster>): (r: seq<Cluster>)
    requires c.members != [] && NonEmpty(cs)
    ensures NonEmpty(r) && multiset(r) == multiset(cs) + multiset{c}
  {
    if cs == [] then [c]
    else if Precedes(c, cs[0]) then [c] + cs
    else
      assert cs == [cs[0]] + cs[1..];
      [cs[0]] + Insert(c, cs[1..])
  }

  /** A stable sort: each cluster is put in behind those it does not precede. */
  function Sorted(cs: seq<Cluster>): (r: seq<Cluster>)
    requires NonEmpty(cs)
    ensures NonEmpty(r) && multiset(r) == multiset(cs)
  {
    if cs == [] then []
    else
      var front := cs[..|cs| - 1];
      assert cs == front + [cs[|cs| - 1]];
      Insert(cs[|cs| - 1], Sorted(front))
  }

  lemma {:induction false} InsertRanked(c: Cluster, cs: seq<Cluster>)
    requires c.members != [] && NonEmpty(cs) && Ranked(cs)
    ensures Ranked(Insert(c, cs))
  {
    if cs != [] && !Precedes(c, cs[0]) {
      var rest := Insert(c, cs[1..]);
      InsertRanked(c, cs[1..]);
      forall j | 0 <= j < |rest|
        ensures !Precedes(rest[j], cs[0])
      {
        assert rest[j] in multiset(rest);
        assert rest[j] == c || rest[j] in cs[1..];
      }
    }
  }

  lemma {:induction false} SortedRanked(cs: seq<Cluster>)
    requires NonEmpty(cs)
    ensures Ranked(Sorted(cs))
  {
    if cs != [] {
      SortedRanked(cs[..|cs| - 1]);
      InsertRanked(cs[|cs| - 1], Sorted(cs[..|cs| - 1]));
    }
  }

  /** a may stand before b: it is larger, or as large and started no later. */
  predicate InPlace(a: Cluster, b: Cluster) {
    && |b.members| <= |a.members|
    && (|b.members| == |a.members| && a.members != [] ==> a.members[0].index <= b.members[0].index)
  }

  lemma NotPreceded(a: Cluster, b: Cluster)
    requires a.members != [] && b.members != [] && !Precedes(b, a)
    ensures InPlace(a, b)
  {
  }

  lemma InPlaceItself(c: Cluster)
    ensures InPlace(c, c)
  {
  }

  /** The winner is one of the clusters, none is larger, and none as large started earlier. */
  lemma WinnerIsLargest(cs: seq<Cluster>)
    requires NonEmpty(cs) && cs != []
    ensures |Sorted(cs)| == |cs| && multiset(Sorted(cs)) == multiset(cs)
    ensures Sorted(cs)[0] in cs
    ensures forall c :: c in cs ==> InPlace(Sorted(cs)[0], c)
    ensures forall i, j :: 0 <= i < j < |Sorted(cs)| ==> InPlace(Sorted(cs)[i], Sorted(cs)[j])
  {
    hide Precedes, InPlace;
    var s := Sorted(cs);
    SortedRanked(cs);
    assert |multiset(s)| == |multiset(cs)|;
    assert s[0] in multiset(s);
    forall i, j | 0 <= i < j < |s|
      ensures InPlace(s[i], s[j])
    {
      NotPreceded(s[i], s[j]);
    }
    forall c | c in cs
      ensures InPlace(s[0], c)
    {
      assert c in multiset(s);
      var i :| 0 <= i < |s| && s[i] == c;
      if i == 0 {
        InPlaceItself(c);
      }
    }
  }

  predicate Ascending(s: seq<real>) {
    forall i, j :: 0 <= i < j < |s| ==> s[i] <= s[j]
  }

  function InsertValue(v: real, s: seq<real>): (r: seq<real>)
    ensures multiset(r) == multiset(s) + multiset{v}
  {
    if s == [] then [v]
    else if v < s[0] then [v] + s
    else
      assert s == [s[0]] + s[1..];
      [s[0]] + InsertValue(v, s[1..])
  }

  function SortedValues(vals: seq<real>): (r: seq<real>)
    ensures multiset(r) == multiset(vals) && |r| == |vals|
  {
    if vals == [] then []
    else
      var front, last := vals[..|vals| - 1], vals[|vals| - 1];
      assert vals == front + [last];
      var r := InsertValue(last, SortedValues(front));
      assert |multiset(r)| == |r|;
      r
  }

  function Values(ms: seq<Member>): (r: seq<real>)
    ensures |r| == |ms| && forall i :: 0 <= i < |ms| ==> r[i] == ms[i].value
  {
    seq(|ms|, i requires 0 <= i < |ms| => ms[i].value)
  }

  lemma {:induction false} InsertAscending(v: real, s: seq<real>)
    requires Ascending(s)
    ensures Ascending(InsertValue(v, s))
  {
    if s != [] && v >= s[0] {
      var rest := InsertValue(v, s[1..]);
      InsertAscending(v, s[1..]);
      forall j | 0 <= j < |rest|
        ensures s[0] <= rest[j]
      {
        assert rest[j] in multiset(rest);
        assert rest[j] == v || rest[j] in s[1..];
      }
    }
  }

  lemma {:induction false} SortedAscending(vals: seq<real>)
    ensures Ascending(SortedValues(vals))
  {
    if vals != [] {
      SortedAscending(vals[..|vals| - 1]);
      InsertAscending(vals[|vals| - 1], SortedValues(vals[..|vals| - 1]));
    }
  }

  function Median(ms: seq<Member>): real
    requires ms != []
  {
    var vals := SortedValues(Values(ms));
    var mid := |vals| / 2;
    if |vals| % 2 == 1 then vals[mid] else (vals[mid - 1] + vals[mid]) / 2.0
  }

  /** Half of the sorted values are at most the vote and half at least, so it lies in their range; and it is
      midway between the two middle ones, which are the same one for an odd number. */
  lemma MedianHalves(ms: seq<Member>)
    requires ms != []
    ensures var vals, n := SortedValues(Values(ms)), |ms|;
            && Ascending(vals)
            && (forall i :: 0 <= i <= (n - 1) / 2 ==> vals[i] <= Median(ms))
            && (forall i :: n / 2 <= i < n ==> Median(ms) <= vals[i])
            && vals[n / 2] - Median(ms) == Median(ms) - vals[(n - 1) / 2]
    ensures ms[Lowest(ms)].value <= Median(ms) <= ms[Highest(ms)].value
  {
    hide SortedValues, Values, Lowest, Highest;
    var vals := SortedValues(Values(ms));
    SortedAscending(Values(ms));
    MemberBounds(ms, vals[0]);
    MemberBounds(ms, vals[|vals| - 1]);
  }

  lemma MemberBounds(ms: seq<Member>, v: real)
    requires ms != [] && v in SortedValues(Values(ms))
    ensures ms[Lowest(ms)].value <= v <= ms[Highest(ms)].value
  {
    hide SortedValues, Lowest, Highest;
    assert v in multiset(SortedValues(Values(ms)));
    assert v in multiset(Values(ms));
    var i :| 0 <= i < |ms| && Values(ms)[i] == v;
  }

  /** The loop that grows the clusters. */
  method GrowClusters(values: seq<real>, tol: Tolerance) returns (clusters: seq<Cluster>)
    ensures clusters == Clusters(values, tol)
  {
    hide IsClose, Mean;
    clusters := [];
    for idx := 0 to |values|
      invariant clusters == Clusters(values[..idx], tol)
    {
      var val := values[idx];
      var matched := 0;
      while matched < |clusters| && !IsClose(val, clusters[matched].center, tol)
        invariant 0 <= matched <= |clusters|
        invariant forall j :: 0 <= j < matched ==> !IsClose(val, clusters[j].center, tol)
      {
        matched := matched + 1;
      }
      FirstCloseIs(clusters, val, tol, matched);
      assert values[..idx + 1][..idx] == values[..idx];
      if matched == |clusters| {
        clusters := clusters + [Cluster(val, [])];
      }
      var members := clusters[matched].members + [Member(idx, val)];
      clusters := clusters[matched := Cluster(Mean(members), members)];
    }
    assert values[..|values|] == values;
  }

  /** `cluster_vote`: the vote, the size of the winning cluster, and all clusters in order. */
  method Vote(values: seq<real>, tol: Tolerance) returns (voted: Option<real>, size: nat, debug: seq<Cluster>)
    ensures values == [] ==> voted == None && size == 0 && debug == []
    ensures values != [] ==>
              && NonEmpty(Clusters(values, tol)) && debug == Sorted(Clusters(values, tol))
              && debug != [] && NonEmpty(debug) && size == |debug[0].members|
              && voted == Some(Median(debug[0].members))
  {
    hide SortedValues, Sorted, Clusters, Partition, Centred;
    if values == [] {
      return None, 0, [];
    }
    var clusters := GrowClusters(values, tol);
    ClustersPartition(values, tol);
    SomeCluster(clusters, values);
    WinnerIsLargest(clusters);
    debug := Sorted(clusters);
    var winner := debug[0];
    var vals := SortedValues(Values(winner.members));
    var mid := |vals| / 2;
    voted := Some(if |vals| % 2 == 1 then vals[mid] else (vals[mid - 1] + vals[mid]) / 2.0);
    size := |winner.members|;
  }

  lemma SomeCluster(cs: seq<Cluster>, values: seq<real>)
    requires values != [] && Partition(cs, values) && Centred(cs)
    ensures cs != [] && NonEmpty(cs)
  {
    assert Somewhere(cs, 0);
  }

  lemma FirstCloseIs(cs: seq<Cluster>, v: real, tol: Tolerance, k: nat)
    requires k <= |cs| && (forall j :: 0 <= j < k ==> !IsClose(v, cs[j].center, tol))
    requires k < |cs| ==> IsClose(v, cs[k].center, tol)
    ensures FirstClose(cs, v, tol) == k
  {
    hide IsClose;
    var f := FirstClose(cs, v, tol);
  }
}

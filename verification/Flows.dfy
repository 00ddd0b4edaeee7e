/** Sums over sequences, and sums grouped by key. */
module Sums {
  import opened Basics

  function Sum<T>(s: seq<T>, p: T -> bool, w: T -> int): int {
    if s == [] then 0 else Sum(s[..|s| - 1], p, w) + (if p(s[|s| - 1]) then w(s[|s| - 1]) else 0)
  }

  lemma {:induction false} SumAlike<S, T>(s: seq<S>, p: S -> bool, v: S -> int, t: seq<T>, q: T -> bool, w: T -> int)
    requires |s| == |t|
    requires forall i :: 0 <= i < |s| ==> p(s[i]) == q(t[i]) && (p(s[i]) ==> v(s[i]) == w(t[i]))
    ensures Sum(s, p, v) == Sum(t, q, w)
  {
    if s != [] {
      SumAlike(s[..|s| - 1], p, v, t[..|t| - 1], q, w);
    }
  }

  lemma {:induction false} SumSplits<T>(s: seq<T>, p: T -> bool, f: T -> int, g: T -> int, h: T -> int)
    requires forall x :: x in s ==> h(x) == f(x) + g(x)
    ensures Sum(s, p, h) == Sum(s, p, f) + Sum(s, p, g)
  {
    if s != [] {
      assert s[|s| - 1] in s;
      SumSplits(s[..|s| - 1], p, f, g, h);
    }
  }

  /** A weight that sits on one element only. */
  lemma {:induction false} SumOfOne<T>(s: seq<T>, p: T -> bool, x: T, w: T -> int)
    requires NoRepeats(s) && forall y :: y in s && y != x ==> w(y) == 0
    ensures Sum(s, p, w) == if x in s && p(x) then w(x) else 0
  {
    if s != [] {
      var front, last := s[..|s| - 1], s[|s| - 1];
      assert s == front + [last];
      SumOfOne(front, p, x, w);
    }
  }

  function Keyed<T, K(==)>(key: T -> K, k: K): T -> bool {
    (x: T) => key(x) == k
  }

  function Through<T, K>(key: T -> K, q: K -> bool): T -> bool {
    (x: T) => q(key(x))
  }

  /** What falls to each key. */
  function PerKey<T, K(==)>(data: seq<T>, key: T -> K, w: T -> int): K -> int {
    (k: K) => Sum(data, Keyed(key, k), w)
  }

  /** Summing the groups sums the data: nothing is lost or counted twice by grouping, whatever the
      order the groups come in. */
  lemma {:induction false} GroupingConserves<T, K>(data: seq<T>, key: T -> K, w: T -> int, order: seq<K>, q: K -> bool)
    requires NoRepeats(order) && forall x :: x in data ==> key(x) in order
    ensures Sum(order, q, PerKey(data, key, w)) == Sum(data, Through(key, q), w)
    decreases |data|
  {
    if data == [] {
      NothingToSum(order, q, PerKey(data, key, w));
    } else {
      var front, last := data[..|data| - 1], data[|data| - 1];
      assert data == front + [last];
      GroupingConserves(front, key, w, order, q);
      var one := (k: K) => if key(last) == k then w(last) else 0;
      forall k | k in order
        ensures PerKey(data, key, w)(k) == PerKey(front, key, w)(k) + one(k)
      {}
      SumSplits(order, q, PerKey(front, key, w), one, PerKey(data, key, w));
      SumOfOne(order, q, key(last), one);
    }
  }

  lemma {:induction false} NothingToSum<T>(s: seq<T>, p: T -> bool, w: T -> int)
    requires forall x :: x in s ==> w(x) == 0
    ensures Sum(s, p, w) == 0
  {
    if s != [] {
      assert s[|s| - 1] in s;
      NothingToSum(s[..|s| - 1], p, w);
    }
  }
}

/** The order of a column: by volume, falling, then by key. */
module Ranking {
  import opened Basics
  import opened Sums

  /** The order of strings, character by character. */
  predicate Less(a: string, b: string) {
    b != "" && (a == "" || a[0] < b[0] || (a[0] == b[0] && Less(a[1..], b[1..])))
  }

  lemma {:induction false} LessIsTotal(a: string, b: string)
    ensures a == b || Less(a, b) || Less(b, a)
    ensures !(Less(a, b) && Less(b, a)) && !Less(a, a)
  {
    if a != "" {
      LessIsTotal(a[1..], a[1..]);
    }
    if a != "" && b != "" {
      LessIsTotal(a[1..], b[1..]);
      assert a == [a[0]] + a[1..] && b == [b[0]] + b[1..];
    }
  }

  lemma {:induction false} LessIsTransitive(a: string, b: string, c: string)
    requires Less(a, b) && Less(b, c)
    ensures Less(a, c)
  {
    if a != "" && a[0] == b[0] == c[0] {
      LessIsTransitive(a[1..], b[1..], c[1..]);
    }
  }

  type Volume = map<string, int>

  predicate Before(v: Volume, a: string, b: string)
    requires a in v && b in v
  {
    v[a] > v[b] || (v[a] == v[b] && Less(a, b))
  }

  lemma {:induction false} BeforeIsTotal(v: Volume, a: string, b: string)
    requires a in v && b in v
    ensures a == b || Before(v, a, b) || Before(v, b, a)
    ensures !(Before(v, a, b) && Before(v, b, a)) && !Before(v, a, a)
  {
    LessIsTotal(a, b);
    LessIsTotal(a, a);
  }

  lemma {:induction false} BeforeIsTransitive(v: Volume, a: string, b: string, c: string)
    requires a in v && b in v && c in v && Before(v, a, b) && Before(v, b, c)
    ensures Before(v, a, c)
  {
    if v[a] == v[b] == v[c] {
      LessIsTransitive(a, b, c);
    }
  }

  function Ahead(v: Volume, k: string): set<string>
    requires k in v
  {
    set j | j in v && Before(v, j, k)
  }

  /** The keys with fewer than `limit` keys ahead of them: it names no sorting and no hash order. */
  function Top(v: Volume, limit: nat): set<string> {
    set k | k in v && |Ahead(v, k)| < limit
  }

  predicate Ordered(v: Volume, keys: seq<string>) {
    && (forall k :: k in keys ==> k in v)
    && forall i, j :: 0 <= i < j < |keys| ==> Before(v, keys[i], keys[j])
  }

  /** Up to `i` they agree; there the one ends, or has the smaller character. */
  predicate PartsAt(a: string, b: string, i: nat) {
    i <= |a| && i < |b| && a[..i] == b[..i] && (i == |a| || a[i] < b[i])
  }

  lemma {:induction false} PartsBehind(a: string, b: string, i: nat)
    requires a != "" && b != "" && i > 0
    ensures PartsAt(a, b, i) <==> a[0] == b[0] && PartsAt(a[1..], b[1..], i - 1)
  {
    if i <= |a| && i < |b| {
      var x, y := a[1..][..i - 1], b[1..][..i - 1];
      assert a[..i] == [a[0]] + x && b[..i] == [b[0]] + y;
      assert a[..i] == b[..i] <==> a[0] == b[0] && x == y by {
        assert ([a[0]] + x)[0] == a[0] && ([b[0]] + y)[0] == b[0];
        assert ([a[0]] + x)[1..] == x && ([b[0]] + y)[1..] == y;
      }
    }
  }

  /** One string comes before another if it is a proper beginning of it, or smaller where they first differ. */
  lemma {:induction false} LessIs(a: string, b: string)
    ensures Less(a, b) <==> exists i: nat :: PartsAt(a, b, i)
  {
    assert PartsAt(a, b, 0) <==> b != "" && (a == "" || a[0] < b[0]);
    if a != "" && b != "" {
      LessIs(a[1..], b[1..]);
      forall i: nat | i > 0 ensures PartsAt(a, b, i) <==> a[0] == b[0] && PartsAt(a[1..], b[1..], i - 1) {
        PartsBehind(a, b, i);
      }
      if k: nat :| PartsAt(a[1..], b[1..], k) {
        assert PartsAt(a, b, k + 1) <==> a[0] == b[0];
      }
    } else {
      forall i: nat | i > 0 ensures !PartsAt(a, b, i) {}
    }
  }

  /** Inserts `k` where the order wants it. */
  method InsertSorted(v: Volume, keys: seq<string>, k: string) returns (r: seq<string>)
    requires Ordered(v, keys) && k in v && k !in keys
    ensures Ordered(v, r) && SetOf(r) == SetOf(keys) + {k} && |r| == |keys| + 1
  {
    var i := 0;
    while i < |keys| && Before(v, keys[i], k)
      invariant 0 <= i <= |keys|
      invariant forall j :: 0 <= j < i ==> Before(v, keys[j], k)
    {
      i := i + 1;
    }
    r := keys[..i] + [k] + keys[i..];
    forall j | i <= j < |keys| ensures Before(v, k, keys[j]) {
      assert keys[i] in keys;
      BeforeIsTotal(v, k, keys[i]);
      if i < j {
        BeforeIsTransitive(v, k, keys[i], keys[j]);
      }
    }
    InsertedOrdered(v, keys, k, i);
  }

  lemma {:induction false} InsertedOrdered(v: Volume, keys: seq<string>, k: string, i: nat)
    requires Ordered(v, keys) && k in v && i <= |keys|
    requires forall j :: 0 <= j < i ==> Before(v, keys[j], k)
    requires forall j :: i <= j < |keys| ==> Before(v, k, keys[j])
    ensures var r := keys[..i] + [k] + keys[i..];
            Ordered(v, r) && SetOf(r) == SetOf(keys) + {k} && |r| == |keys| + 1
  {}

  /** The keys of a column in order; the hash map may yield them in any. */
  method Sorted(v: Volume, among: set<string>) returns (keys: seq<string>)
    requires among <= v.Keys
    ensures Ordered(v, keys) && SetOf(keys) == among && |keys| == |among|
  {
    keys := [];
    var left := among;
    while left != {}
      invariant left <= among && Ordered(v, keys) && SetOf(keys) == among - left
      invariant |keys| + |left| == |among|
      decreases left
    {
      var k :| k in left;
      assert k !in SetOf(keys);
      keys := InsertSorted(v, keys, k);
      left := left - {k};
    }
  }

  lemma {:induction false} OrderedCounts(v: Volume, keys: seq<string>)
    requires Ordered(v, keys)
    ensures |SetOf(keys)| == |keys|
  {
    if keys != [] {
      var front, last := keys[..|keys| - 1], keys[|keys| - 1];
      assert keys == front + [last];
      OrderedCounts(v, front);
      if last in front {
        var i :| 0 <= i < |front| && front[i] == last;
        assert Before(v, keys[i], keys[|keys| - 1]);
        BeforeIsTotal(v, last, last);
      }
      assert SetOf(keys) == SetOf(front) + {last};
    }
  }

  /** In an ordered list of all keys the one at `i` has exactly `i` ahead of it. */
  lemma {:induction false} PlaceIsRank(v: Volume, keys: seq<string>, i: nat)
    requires Ordered(v, keys) && SetOf(keys) == v.Keys && i < |keys|
    ensures keys[i] in v && |Ahead(v, keys[i])| == i
  {
    assert keys[i] in keys;
    forall j: string ensures j in Ahead(v, keys[i]) <==> j in SetOf(keys[..i]) {
      if j in v {
        assert j in SetOf(keys);
        var p :| 0 <= p < |keys| && keys[p] == j;
        BeforeIsTotal(v, keys[p], keys[i]);
        if p < i {
          assert keys[..i][p] == j;
        }
      }
      if j in keys[..i] {
        var p :| 0 <= p < i && keys[..i][p] == j;
        assert keys[p] == j && keys[p] in keys;
      }
    }
    assert Ahead(v, keys[i]) == SetOf(keys[..i]);
    OrderedPrefix(v, keys, i);
    OrderedCounts(v, keys[..i]);
  }

  lemma {:induction false} OrderedPrefix(v: Volume, keys: seq<string>, i: nat)
    requires Ordered(v, keys) && i <= |keys|
    ensures Ordered(v, keys[..i])
  {}

  lemma {:induction false} PrefixIsTop(v: Volume, keys: seq<string>, limit: nat)
    requires Ordered(v, keys) && SetOf(keys) == v.Keys
    ensures var n := if limit < |keys| then limit else |keys|;
            SetOf(keys[..n]) == Top(v, limit)
  {
    var n := if limit < |keys| then limit else |keys|;
    forall k: string ensures k in SetOf(keys[..n]) <==> k in Top(v, limit) {
      if k in v {
        assert k in SetOf(keys);
        var p :| 0 <= p < |keys| && keys[p] == k;
        PlaceIsRank(v, keys, p);
        if p < n {
          assert keys[..n][p] == k;
        } else if k in keys[..n] {
          var q :| 0 <= q < n && keys[..n][q] == k;
          PlaceIsRank(v, keys, q);
        }
      }
      if k in keys[..n] {
        assert k in keys;
      }
    }
  }

  /** No key that is dropped has a larger volume than one that is kept, nor as large a one and a smaller name. */
  lemma {:induction false} KeptAreLargest(v: Volume, limit: nat, k: string, o: string)
    requires k in Top(v, limit) && o in v && o !in Top(v, limit)
    ensures v[k] > v[o] || (v[k] == v[o] && Less(k, o))
  {
    BeforeIsTotal(v, k, o);
    if Before(v, o, k) {
      forall j | j in Ahead(v, o) ensures j in Ahead(v, k) {
        BeforeIsTransitive(v, j, o, k);
      }
      SubsetIsSmaller(Ahead(v, o), Ahead(v, k));
    }
  }


  /** `top_keys`: sorts all, takes `limit`. Whatever the hash order, the outcome is the same. */
  method TopKeys(v: Volume, limit: nat) returns (top: set<string>)
    ensures top == Top(v, limit)
    ensures |top| == if limit < |v| then limit else |v|
  {
    var sorted := Sorted(v, v.Keys);
    var n := if limit < |sorted| then limit else |sorted|;
    top := set k | k in sorted[..n];
    PrefixIsTop(v, sorted, limit);
    OrderedPrefix(v, sorted, n);
    OrderedCounts(v, sorted[..n]);
    assert |v.Keys| == |v|;
  }
}

/** The flow view: traffic from source to service to destination, small nodes collapsed into one. */
module Sankey {
  import opened Basics
  import opened Text
  import opened Sums
  import opened Ranking

  datatype FlowRow = FlowRow(src: string, dst: string, service: string, cnt: int, blocked: int)

  datatype Kind = Source | Service | Destination

  function KindName(kind: Kind): string {
    match kind
    case Source => "source"
    case Service => "service"
    case Destination => "destination"
  }

  datatype Node = Node(id: string, caption: string, kind: Kind)

  datatype Link = Link(source: nat, target: nat, value: int, blocked: int)

  const OTHER := "__other__"

  function Cnt(d: FlowRow): int { d.cnt }
  function Blocked(d: FlowRow): int { d.blocked }
  function SrcOf(d: FlowRow): string { d.src }
  function SvcOf(d: FlowRow): string { d.service }
  function DstOf(d: FlowRow): string { d.dst }
  function ValueOf(l: Link): int { l.value }
  function BlockedOf(l: Link): int { l.blocked }

  function Resolve(key: string, top: set<string>): string {
    if key in top then key else OTHER
  }

  // ---- volumes

  function KeySet<K(==)>(data: seq<FlowRow>, key: FlowRow -> K): set<K> {
    if data == [] then {} else KeySet(data[..|data| - 1], key) + {key(data[|data| - 1])}
  }

  lemma {:induction false} KeySetMember<K>(data: seq<FlowRow>, key: FlowRow -> K)
    ensures forall k :: k in KeySet(data, key) <==> exists d :: d in data && key(d) == k
    ensures forall d :: d in data ==> key(d) in KeySet(data, key)
  {
    if data != [] {
      var front, last := data[..|data| - 1], data[|data| - 1];
      KeySetMember(front, key);
      assert forall d :: d in data <==> d in front || d == last;
    }
  }

  lemma {:induction false} KeySetSnoc<K>(data: seq<FlowRow>, key: FlowRow -> K, d: FlowRow)
    ensures KeySet(data + [d], key) == KeySet(data, key) + {key(d)}
  {}

  ghost predicate Totals(v: Volume, data: seq<FlowRow>, key: FlowRow -> string) {
    && v.Keys == KeySet(data, key)
    && (forall k :: k in v ==> v[k] == PerKey(data, key, Cnt)(k))
  }

  function Added(v: Volume, k: string, n: int): Volume {
    v[k := (if k in v then v[k] else 0) + n]
  }

  lemma {:induction false} AddTotals(v: Volume, data: seq<FlowRow>, key: FlowRow -> string, d: FlowRow)
    requires Totals(v, data, key)
    ensures Totals(Added(v, key(d), d.cnt), data + [d], key)
  {
    var added, all := Added(v, key(d), d.cnt), data + [d];
    KeySetSnoc(data, key, d);
    forall k | k in added ensures added[k] == PerKey(all, key, Cnt)(k) {
      PerKeySnoc(data, key, Cnt, d, k);
      if k !in v {
        NoneOfKey(data, key, Cnt, k);
      }
    }
  }

  lemma {:induction false} PerKeySnoc<K>(data: seq<FlowRow>, key: FlowRow -> K, w: FlowRow -> int, d: FlowRow, k: K)
    ensures PerKey(data + [d], key, w)(k) == PerKey(data, key, w)(k) + (if key(d) == k then w(d) else 0)
  {}

  lemma {:induction false} NoneOfKey<K>(data: seq<FlowRow>, key: FlowRow -> K, w: FlowRow -> int, k: K)
    requires k !in KeySet(data, key)
    ensures PerKey(data, key, w)(k) == 0
  {
    if data != [] {
      var front, last := data[..|data| - 1], data[|data| - 1];
      NoneOfKey(front, key, w, k);
      assert front + [last] == data;
      PerKeySnoc(front, key, w, last, k);
    }
  }

  function VolumeOf(data: seq<FlowRow>, key: FlowRow -> string): Volume {
    if data == [] then map[]
    else Added(VolumeOf(data[..|data| - 1], key), key(data[|data| - 1]), data[|data| - 1].cnt)
  }

  lemma {:induction false} VolumeSnoc(data: seq<FlowRow>, key: FlowRow -> string, d: FlowRow)
    ensures VolumeOf(data + [d], key) == Added(VolumeOf(data, key), key(d), d.cnt)
  {}

  /** Summing row by row gives, for every key there is, the sum over its rows. */
  lemma {:induction false} VolumeTotals(data: seq<FlowRow>, key: FlowRow -> string)
    ensures Totals(VolumeOf(data, key), data, key)
  {
    if data != [] {
      var front, last := data[..|data| - 1], data[|data| - 1];
      VolumeTotals(front, key);
      AddTotals(VolumeOf(front, key), front, key, last);
      assert front + [last] == data;
    }
  }

  /** What the volumes of the three columns are, column by column. */
  lemma {:induction false} VolumesAre(data: seq<FlowRow>, src: Volume, svc: Volume, dst: Volume, k: string)
    requires Totals(src, data, SrcOf) && Totals(svc, data, SvcOf) && Totals(dst, data, DstOf)
    ensures k in src <==> exists d :: d in data && d.src == k
    ensures k in svc <==> exists d :: d in data && d.service == k
    ensures k in dst <==> exists d :: d in data && d.dst == k
    ensures k in src ==> src[k] == Sum(data, (d: FlowRow) => d.src == k, (d: FlowRow) => d.cnt)
    ensures k in svc ==> svc[k] == Sum(data, (d: FlowRow) => d.service == k, (d: FlowRow) => d.cnt)
    ensures k in dst ==> dst[k] == Sum(data, (d: FlowRow) => d.dst == k, (d: FlowRow) => d.cnt)
  {
    ColumnVolume(data, src, SrcOf, (d: FlowRow) => d.src == k, k);
    ColumnVolume(data, svc, SvcOf, (d: FlowRow) => d.service == k, k);
    ColumnVolume(data, dst, DstOf, (d: FlowRow) => d.dst == k, k);
    hide Totals, Sum;
  }

  lemma {:induction false} ColumnVolume(data: seq<FlowRow>, v: Volume, key: FlowRow -> string, p: FlowRow -> bool,
                                        k: string)
    requires Totals(v, data, key) && forall d :: d in data ==> (p(d) <==> key(d) == k)
    ensures k in v <==> exists d :: d in data && p(d)
    ensures k in v ==> v[k] == Sum(data, p, (d: FlowRow) => d.cnt)
  {
    KeySetMember(data, key);
    SumAlike(data, Keyed(key, k), Cnt, data, p, (d: FlowRow) => d.cnt);
  }

  method Volumes(data: seq<FlowRow>) returns (src: Volume, svc: Volume, dst: Volume)
    ensures Totals(src, data, SrcOf) && Totals(svc, data, SvcOf) && Totals(dst, data, DstOf)
  {
    src, svc, dst := SumUp(data);
    VolumeTotals(data, SrcOf);
    VolumeTotals(data, SvcOf);
    VolumeTotals(data, DstOf);
  }

  method SumUp(data: seq<FlowRow>) returns (src: Volume, svc: Volume, dst: Volume)
    ensures src == VolumeOf(data, SrcOf) && svc == VolumeOf(data, SvcOf) && dst == VolumeOf(data, DstOf)
  {
    src, svc, dst := map[], map[], map[];
    ghost var seen: seq<FlowRow> := [];
    for i := 0 to |data|
      invariant seen == data[..i]
      invariant src == VolumeOf(seen, SrcOf) && svc == VolumeOf(seen, SvcOf) && dst == VolumeOf(seen, DstOf)
    {
      var d := data[i];
      VolumeSnoc(seen, SrcOf, d);
      VolumeSnoc(seen, SvcOf, d);
      VolumeSnoc(seen, DstOf, d);
      src := Added(src, d.src, d.cnt);
      svc := Added(svc, d.service, d.cnt);
      dst := Added(dst, d.dst, d.cnt);
      seen := seen + [d];
    }
    assert seen == data;
  }

  // ---- columns

  /** The kept keys in order, and the collecting node last if anything collapsed. */
  method ColumnKeys(v: Volume, top: set<string>) returns (keys: seq<string>)
    requires top <= v.Keys
    ensures |top| <= |keys| <= |top| + 1
    ensures Ordered(v, keys[..|top|]) && SetOf(keys[..|top|]) == top
    ensures keys[|top|..] == if |v| > |top| then [OTHER] else []
  {
    keys := Sorted(v, top);
    if |v| > |top| {
      keys := keys + [OTHER];
    }
  }

  function NodeOf(kind: Kind, key: string): Node {
    Node(KindName(kind) + ":" + key, if key == OTHER then "Weitere" else key, kind)
  }

  /** Nodes of different columns or keys have different ids. */
  lemma {:induction false} IdsDiffer(a: Kind, k: string, b: Kind, o: string)
    ensures NodeOf(a, k).id == NodeOf(b, o).id <==> a == b && k == o
    ensures NodeOf(a, k).kind == a && (k != OTHER ==> NodeOf(a, k).caption == k)
  {
    SplitOnceAt(KindName(a), ':', k);
    SplitOnceAt(KindName(b), ':', o);
  }

  /** Where a column's keys stand among the nodes. */
  ghost predicate Indexes(index: map<string, nat>, kind: Kind, keys: seq<string>, nodes: seq<Node>, from: nat) {
    && index.Keys == SetOf(keys)
    && (forall k :: k in index ==> from <= index[k] < from + |keys| <= |nodes| && nodes[index[k]] == NodeOf(kind, k))
  }

  lemma {:induction false} IndexesNothing(kind: Kind, nodes: seq<Node>)
    ensures Indexes(map[], kind, [], nodes, |nodes|)
  {}

  lemma {:induction false} IndexesOneMore(index: map<string, nat>, kind: Kind, keys: seq<string>, nodes: seq<Node>,
                                          from: nat, key: string)
    requires Indexes(index, kind, keys, nodes, from) && |nodes| == from + |keys|
    ensures Indexes(index[key := |nodes|], kind, keys + [key], nodes + [NodeOf(kind, key)], from)
  {}

  class NodeList {
    var nodes: seq<Node>

    constructor ()
      ensures nodes == []
    {
      nodes := [];
    }

    method PushNode(kind: Kind, key: string) returns (at: nat)
      modifies this
      ensures at == |old(nodes)| && nodes == old(nodes) + [NodeOf(kind, key)]
    {
      at := |nodes|;
      var id := if key == OTHER then KindName(kind) + ":" + OTHER else KindName(kind) + ":" + key;
      var caption := if key == OTHER then "Weitere" else key;
      nodes := nodes + [Node(id, caption, kind)];
    }

    method PushColumn(kind: Kind, keys: seq<string>) returns (index: map<string, nat>)
      modifies this
      ensures old(nodes) <= nodes && |nodes| == |old(nodes)| + |keys|
      ensures forall i :: 0 <= i < |keys| ==> nodes[|old(nodes)| + i] == NodeOf(kind, keys[i])
      ensures Indexes(index, kind, keys, nodes, |old(nodes)|)
    {
      hide *;
      index := map[];
      IndexesNothing(kind, nodes);
      for i := 0 to |keys|
        invariant old(nodes) <= nodes && |nodes| == |old(nodes)| + i
        invariant forall j :: 0 <= j < i ==> nodes[|old(nodes)| + j] == NodeOf(kind, keys[j])
        invariant Indexes(index, kind, keys[..i], nodes, |old(nodes)|)
      {
        IndexesOneMore(index, kind, keys[..i], nodes, |old(nodes)|, keys[i]);
        var at := PushNode(kind, keys[i]);
        index := index[keys[i] := at];
        assert keys[..i + 1] == keys[..i] + [keys[i]];
      }
      assert keys[..|keys|] == keys;
    }
  }

  // ---- hops

  type HopKey = (string, string)
  type Hops = map<HopKey, (int, int)>

  /** The key of a row once small nodes are collapsed. */
  function Kept(key: FlowRow -> string, top: set<string>): FlowRow -> string {
    (d: FlowRow) => Resolve(key(d), top)
  }

  function Pair(a: FlowRow -> string, b: FlowRow -> string): FlowRow -> HopKey {
    (d: FlowRow) => (a(d), b(d))
  }

  ghost predicate Grouped(hops: Hops, data: seq<FlowRow>, key: FlowRow -> HopKey) {
    && hops.Keys == KeySet(data, key)
    && (forall k :: k in hops ==> hops[k] == (PerKey(data, key, Cnt)(k), PerKey(data, key, Blocked)(k)))
  }

  function Grown(hops: Hops, k: HopKey, d: FlowRow): Hops {
    var e := if k in hops then hops[k] else (0, 0);
    hops[k := (e.0 + d.cnt, e.1 + d.blocked)]
  }

  lemma {:induction false} GrowGrouped(hops: Hops, data: seq<FlowRow>, key: FlowRow -> HopKey, d: FlowRow)
    requires Grouped(hops, data, key)
    ensures Grouped(Grown(hops, key(d), d), data + [d], key)
  {
    var grown, all := Grown(hops, key(d), d), data + [d];
    KeySetSnoc(data, key, d);
    forall k | k in grown ensures grown[k] == (PerKey(all, key, Cnt)(k), PerKey(all, key, Blocked)(k)) {
      PerKeySnoc(data, key, Cnt, d, k);
      PerKeySnoc(data, key, Blocked, d, k);
      if k !in hops {
        NoneOfKey(data, key, Cnt, k);
        NoneOfKey(data, key, Blocked, k);
      }
    }
  }

  /** Rows that land on the same pair of nodes add up to one link per hop. */
  method GroupHops(data: seq<FlowRow>, topSrc: set<string>, topSvc: set<string>, topDst: set<string>)
    returns (hop1: Hops, hop2: Hops)
    ensures Grouped(hop1, data, Pair(Kept(SrcOf, topSrc), Kept(SvcOf, topSvc)))
    ensures Grouped(hop2, data, Pair(Kept(SvcOf, topSvc), Kept(DstOf, topDst)))
  {
    hop1, hop2 := map[], map[];
    var key1, key2 := Pair(Kept(SrcOf, topSrc), Kept(SvcOf, topSvc)), Pair(Kept(SvcOf, topSvc), Kept(DstOf, topDst));
    for i := 0 to |data|
      invariant Grouped(hop1, data[..i], key1) && Grouped(hop2, data[..i], key2)
    {
      var d := data[i];
      assert data[..i + 1] == data[..i] + [d];
      GrowGrouped(hop1, data[..i], key1, d);
      GrowGrouped(hop2, data[..i], key2, d);
      hop1 := Grown(hop1, key1(d), d);
      hop2 := Grown(hop2, key2(d), d);
    }
    assert data[..|data|] == data;
  }

  predicate Located(hops: Hops, from: map<string, nat>, to: map<string, nat>) {
    forall k :: k in hops ==> k.0 in from && k.1 in to
  }

  /** `order` is the order the hash map yielded its pairs in. */
  predicate Emitted(links: seq<Link>, order: seq<HopKey>, hops: Hops, from: map<string, nat>, to: map<string, nat>)
    requires Located(hops, from, to)
  {
    && |links| == |order| && NoRepeats(order)
    && (forall i :: 0 <= i < |order| ==>
          order[i] in hops
          && links[i] == Link(from[order[i].0], to[order[i].1], hops[order[i]].0, hops[order[i]].1))
  }

  method EmitLinks(hops: Hops, from: map<string, nat>, to: map<string, nat>)
    returns (links: seq<Link>, ghost order: seq<HopKey>)
    requires Located(hops, from, to)
    ensures Emitted(links, order, hops, from, to) && forall k :: k in hops ==> k in order
  {
    links, order := [], [];
    var left := hops.Keys;
    while left != {}
      invariant left <= hops.Keys && Emitted(links, order, hops, from, to)
      invariant forall k :: k in hops ==> (k in order <==> k !in left)
      decreases left
    {
      var k: HopKey :| k in left;
      links := links + [Link(from[k.0], to[k.1], hops[k].0, hops[k].1)];
      order := order + [k];
      left := left - {k};
    }
  }

  lemma {:induction false} EveryRowIsEmitted(data: seq<FlowRow>, key: FlowRow -> HopKey, hops: Hops, order: seq<HopKey>)
    requires hops.Keys == KeySet(data, key) && forall k :: k in hops ==> k in order
    ensures forall d :: d in data ==> key(d) in order
  {
    KeySetMember(data, key);
    forall d | d in data ensures key(d) in order {
      assert key(d) in KeySet(data, key) && key(d) in hops;
    }
  }

  /** The links that a condition on pairs picks out carry exactly the rows it picks out. */
  lemma {:induction false} LinksCarryRows(data: seq<FlowRow>, key: FlowRow -> HopKey, hops: Hops, from: map<string,
          nat>,
                       to: map<string, nat>, links: seq<Link>, order: seq<HopKey>,
                       p: Link -> bool, q: HopKey -> bool)
    requires Grouped(hops, data, key) && Located(hops, from, to)
    requires Emitted(links, order, hops, from, to) && forall k :: k in hops ==> k in order
    requires forall i :: 0 <= i < |order| ==> p(links[i]) == q(order[i])
    ensures Sum(links, p, ValueOf) == Sum(data, Through(key, q), Cnt)
    ensures Sum(links, p, BlockedOf) == Sum(data, Through(key, q), Blocked)
  {
    EveryRowIsEmitted(data, key, hops, order);
    SumAlike(links, p, ValueOf, order, q, PerKey(data, key, Cnt));
    SumAlike(links, p, BlockedOf, order, q, PerKey(data, key, Blocked));
    GroupingConserves(data, key, Cnt, order, q);
    GroupingConserves(data, key, Blocked, order, q);
  }

  // ---- the graph

  datatype Graph = Graph(nodes: seq<Node>, hop1: seq<Link>, hop2: seq<Link>,
                         src: map<string, nat>, svc: map<string, nat>, dst: map<string, nat>)

  function Any<T>(): T -> bool {
    x => true
  }

  function LeadsTo(n: nat): Link -> bool {
    (l: Link) => l.target == n
  }

  function ComesFrom(n: nat): Link -> bool {
    (l: Link) => l.source == n
  }

  function Inflow(links: seq<Link>, n: nat): (int, int) {
    (Sum(links, LeadsTo(n), ValueOf), Sum(links, LeadsTo(n), BlockedOf))
  }

  function Outflow(links: seq<Link>, n: nat): (int, int) {
    (Sum(links, ComesFrom(n), ValueOf), Sum(links, ComesFrom(n), BlockedOf))
  }

  function Carried(links: seq<Link>): (int, int) {
    (Sum(links, Any(), ValueOf), Sum(links, Any(), BlockedOf))
  }

  /** Count and blocked count of the rows whose key resolves to `k`. */
  function Traffic(data: seq<FlowRow>, key: FlowRow -> string, k: string): (int, int) {
    (Sum(data, Keyed(key, k), Cnt), Sum(data, Keyed(key, k), Blocked))
  }

  function Total(data: seq<FlowRow>): (int, int) {
    (Sum(data, Any(), Cnt), Sum(data, Any(), Blocked))
  }

  /** A column of the graph: the top keys of its volume in order, and the collecting node. */
  ghost predicate Column(nodes: seq<Node>, from: nat, size: nat, index: map<string, nat>, kind: Kind,
                         data: seq<FlowRow>, key: FlowRow -> string, limit: nat,
                         v: Volume, keys: seq<string>) {
    && Totals(v, data, key)
    && |keys| == size && from + size <= |nodes|
    && |Top(v, limit)| <= size <= limit + 1
    && Ordered(v, keys[..|Top(v, limit)|]) && SetOf(keys[..|Top(v, limit)|]) == Top(v, limit)
    && keys[|Top(v, limit)|..] == (if |v| > |Top(v, limit)| then [OTHER] else [])
    && (forall i :: 0 <= i < size ==> nodes[from + i] == NodeOf(kind, keys[i]))
    && Indexes(index, kind, keys, nodes, from)
  }

  /** The keys of a column hold what any row's key resolves to: a kept key, or the collecting node. */
  lemma {:induction false} ColumnHolds(v: Volume, limit: nat, keys: seq<string>, k: string)
    requires k in v && |Top(v, limit)| <= |keys|
    requires SetOf(keys[..|Top(v, limit)|]) == Top(v, limit)
    requires keys[|Top(v, limit)|..] == if |v| > |Top(v, limit)| then [OTHER] else []
    ensures Resolve(k, Top(v, limit)) in keys
  {
    var top := Top(v, limit);
    assert keys == keys[..|top|] + keys[|top|..];
    if k in top {
      assert k in SetOf(keys[..|top|]);
    } else {
      assert top <= v.Keys - {k};
      SubsetIsSmaller(top, v.Keys - {k});
      assert keys[|top|..][0] == OTHER;
    }
  }

  /** The lookup of a row's node cannot miss. */
  lemma {:induction false} LookupsHit(data: seq<FlowRow>, key: FlowRow -> string, limit: nat, v: Volume,
          keys: seq<string>,
                   index: map<string, nat>)
    requires Totals(v, data, key) && index.Keys == SetOf(keys) && |Top(v, limit)| <= |keys|
    requires SetOf(keys[..|Top(v, limit)|]) == Top(v, limit)
    requires keys[|Top(v, limit)|..] == if |v| > |Top(v, limit)| then [OTHER] else []
    ensures Resolves(data, Kept(key, Top(v, limit)), index)
  {
    KeySetMember(data, key);
    forall d | d in data ensures Resolve(key(d), Top(v, limit)) in index {
      ColumnHolds(v, limit, keys, key(d));
    }
  }

  ghost predicate Resolves(data: seq<FlowRow>, key: FlowRow -> string, index: map<string, nat>) {
    forall d :: d in data ==> key(d) in index
  }

  lemma {:induction false} HopsLocated(hops: Hops, data: seq<FlowRow>, a: FlowRow -> string, b: FlowRow -> string,
                    from: map<string, nat>, to: map<string, nat>)
    requires Grouped(hops, data, Pair(a, b)) && Resolves(data, a, from) && Resolves(data, b, to)
    ensures Located(hops, from, to)
  {
    KeySetMember(data, Pair(a, b));
  }

  /** One hop of the graph: its links group the rows by the two keys. */
  ghost predicate HopOf(links: seq<Link>, order: seq<HopKey>, hops: Hops, data: seq<FlowRow>,
                        a: FlowRow -> string, b: FlowRow -> string, from: map<string, nat>, to: map<string, nat>) {
    && Grouped(hops, data, Pair(a, b)) && Located(hops, from, to)
    && Emitted(links, order, hops, from, to) && (forall k :: k in hops ==> k in order)
  }

  predicate Injective(index: map<string, nat>) {
    forall a, b :: a in index && b in index && index[a] == index[b] ==> a == b
  }

  lemma {:induction false} HopCarriesAll(links: seq<Link>, order: seq<HopKey>, hops: Hops, data: seq<FlowRow>,
                      a: FlowRow -> string, b: FlowRow -> string, from: map<string, nat>, to: map<string, nat>)
    requires HopOf(links, order, hops, data, a, b, from, to)
    ensures Carried(links) == Total(data)
  {
    LinksCarryRows(data, Pair(a, b), hops, from, to, links, order, Any(), Any());
    SumAlike(data, Through(Pair(a, b), Any()), Cnt, data, Any(), Cnt);
    SumAlike(data, Through(Pair(a, b), Any()), Blocked, data, Any(), Blocked);
  }

  lemma {:induction false} HopInflow(links: seq<Link>, order: seq<HopKey>, hops: Hops, data: seq<FlowRow>,
                  a: FlowRow -> string, b: FlowRow -> string, from: map<string, nat>, to: map<string, nat>, k: string)
    requires HopOf(links, order, hops, data, a, b, from, to) && Injective(to) && k in to
    ensures Inflow(links, to[k]) == Traffic(data, b, k)
  {
    var q := (pair: HopKey) => pair.1 == k;
    LinksCarryRows(data, Pair(a, b), hops, from, to, links, order, LeadsTo(to[k]), q);
    SumAlike(data, Through(Pair(a, b), q), Cnt, data, Keyed(b, k), Cnt);
    SumAlike(data, Through(Pair(a, b), q), Blocked, data, Keyed(b, k), Blocked);
  }

  lemma {:induction false} HopOutflow(links: seq<Link>, order: seq<HopKey>, hops: Hops, data: seq<FlowRow>,
                   a: FlowRow -> string, b: FlowRow -> string, from: map<string, nat>, to: map<string, nat>, k: string)
    requires HopOf(links, order, hops, data, a, b, from, to) && Injective(from) && k in from
    ensures Outflow(links, from[k]) == Traffic(data, a, k)
  {
    var q := (pair: HopKey) => pair.0 == k;
    LinksCarryRows(data, Pair(a, b), hops, from, to, links, order, ComesFrom(from[k]), q);
    SumAlike(data, Through(Pair(a, b), q), Cnt, data, Keyed(a, k), Cnt);
    SumAlike(data, Through(Pair(a, b), q), Blocked, data, Keyed(a, k), Blocked);
  }

  /** A node index that stands for no key has no links at that end. */
  lemma {:induction false} NoFlowElsewhere(links: seq<Link>, order: seq<HopKey>, hops: Hops,
                        from: map<string, nat>, to: map<string, nat>, n: nat)
    requires Located(hops, from, to) && Emitted(links, order, hops, from, to)
    ensures (forall k :: k in to ==> to[k] != n) ==> Inflow(links, n) == (0, 0)
    ensures (forall k :: k in from ==> from[k] != n) ==> Outflow(links, n) == (0, 0)
  {
    if forall k :: k in to ==> to[k] != n {
      NonePicked(links, LeadsTo(n), ValueOf);
      NonePicked(links, LeadsTo(n), BlockedOf);
    }
    if forall k :: k in from ==> from[k] != n {
      NonePicked(links, ComesFrom(n), ValueOf);
      NonePicked(links, ComesFrom(n), BlockedOf);
    }
  }

  lemma {:induction false} NonePicked<T>(s: seq<T>, p: T -> bool, w: T -> int)
    requires forall x :: x in s ==> !p(x)
    ensures Sum(s, p, w) == 0
  {
    if s != [] {
      assert s[|s| - 1] in s;
      NonePicked(s[..|s| - 1], p, w);
    }
  }

  /** What flows into a node of the middle column flows out of it. */
  lemma {:induction false} MiddleConserves(links1: seq<Link>, order1: seq<HopKey>, hop1: Hops, links2: seq<Link>,
          order2: seq<HopKey>,
                        hop2: Hops, data: seq<FlowRow>, a: FlowRow -> string, b: FlowRow -> string,
                        c: FlowRow -> string, src: map<string, nat>, svc: map<string, nat>,
                        dst: map<string, nat>, n: nat)
    requires HopOf(links1, order1, hop1, data, a, b, src, svc) && HopOf(links2, order2, hop2, data, b, c, svc, dst)
    requires Injective(svc)
    ensures Inflow(links1, n) == Outflow(links2, n)
  {
    if k :| k in svc && svc[k] == n {
      HopInflow(links1, order1, hop1, data, a, b, src, svc, k);
      HopOutflow(links2, order2, hop2, data, b, c, svc, dst, k);
    } else {
      NoFlowElsewhere(links1, order1, hop1, src, svc, n);
      NoFlowElsewhere(links2, order2, hop2, svc, dst, n);
    }
  }

  /** Links run from the one column to the other. */
  predicate Spans(links: seq<Link>, from: nat, middle: nat, to: nat) {
    forall i :: 0 <= i < |links| ==> from <= links[i].source < middle <= links[i].target < to
  }

  lemma {:induction false} SpansColumns(links: seq<Link>, src: map<string, nat>, dst: map<string, nat>, from: nat,
          middle: nat, to: nat)
    requires forall i :: 0 <= i < |links| ==> links[i].source in src.Values && links[i].target in dst.Values
    requires Usable(src, from, middle) && Usable(dst, middle, to)
    ensures Spans(links, from, middle, to)
  {}

  /** Both hops between the three columns of an index list. */
  method ConnectColumns(data: seq<FlowRow>, topSrc: set<string>, topSvc: set<string>, topDst: set<string>,
                        src: map<string, nat>, svc: map<string, nat>, dst: map<string, nat>)
    returns (links1: seq<Link>, links2: seq<Link>)
    requires Resolves(data, Kept(SrcOf, topSrc), src) && Resolves(data, Kept(SvcOf, topSvc), svc)
        && Resolves(data, Kept(DstOf, topDst), dst)
    requires Injective(src) && Injective(svc) && Injective(dst)
    ensures forall i :: 0 <= i < |links1| ==> links1[i].source in src.Values && links1[i].target in svc.Values
    ensures forall i :: 0 <= i < |links2| ==> links2[i].source in svc.Values && links2[i].target in dst.Values
    ensures Carried(links1) == Total(data) && Carried(links2) == Total(data)
    ensures forall n :: Inflow(links1, n) == Outflow(links2, n)
    ensures forall k :: k in src ==> Outflow(links1, src[k]) == Traffic(data, Kept(SrcOf, topSrc), k)
    ensures forall k :: k in svc ==> Inflow(links1, svc[k]) == Traffic(data, Kept(SvcOf, topSvc), k)
    ensures forall k :: k in dst ==> Inflow(links2, dst[k]) == Traffic(data, Kept(DstOf, topDst), k)
  {
    ghost var a, b, c := Kept(SrcOf, topSrc), Kept(SvcOf, topSvc), Kept(DstOf, topDst);
    var hop1, hop2 := GroupHops(data, topSrc, topSvc, topDst);
    HopsLocated(hop1, data, a, b, src, svc);
    HopsLocated(hop2, data, b, c, svc, dst);
    ghost var order1, order2;
    links1, order1 := EmitLinks(hop1, src, svc);
    links2, order2 := EmitLinks(hop2, svc, dst);
    assert HopOf(links1, order1, hop1, data, a, b, src, svc);
    assert HopOf(links2, order2, hop2, data, b, c, svc, dst);
    HopCarriesAll(links1, order1, hop1, data, a, b, src, svc);
    HopCarriesAll(links2, order2, hop2, data, b, c, svc, dst);
    forall n ensures Inflow(links1, n) == Outflow(links2, n) {
      MiddleConserves(links1, order1, hop1, links2, order2, hop2, data, a, b, c, src, svc, dst, n);
    }
    forall k | k in src ensures Outflow(links1, src[k]) == Traffic(data, a, k) {
      HopOutflow(links1, order1, hop1, data, a, b, src, svc, k);
    }
    forall k | k in svc ensures Inflow(links1, svc[k]) == Traffic(data, b, k) {
      HopInflow(links1, order1, hop1, data, a, b, src, svc, k);
    }
    forall k | k in dst ensures Inflow(links2, dst[k]) == Traffic(data, c, k) {
      HopInflow(links2, order2, hop2, data, b, c, svc, dst, k);
    }
  }

  lemma {:induction false} ValuesInRange(index: map<string, nat>, kind: Kind, keys: seq<string>, nodes: seq<Node>,
          from: nat)
    requires Indexes(index, kind, keys, nodes, from)
    ensures Injective(index) && forall n :: n in index.Values ==> from <= n < from + |keys|
  {}

  /** One column: its top keys, its nodes, its index. */
  method AddColumn(list: NodeList, v: Volume, kind: Kind, limit: nat,
                   ghost data: seq<FlowRow>, ghost key: FlowRow -> string)
    returns (top: set<string>, keys: seq<string>, index: map<string, nat>)
    requires Totals(v, data, key)
    modifies list
    ensures old(list.nodes) <= list.nodes && |list.nodes| == |old(list.nodes)| + |keys|
    ensures top == Top(v, limit)
    ensures Column(list.nodes, |old(list.nodes)|, |keys|, index, kind, data, key, limit, v, keys)
    ensures Usable(index, |old(list.nodes)|, |list.nodes|) && Resolves(data, Kept(key, top), index)
  {
    hide *;
    top := TopKeys(v, limit);
    TopIsKept(v, limit);
    keys := ColumnKeys(v, top);
    index := list.PushColumn(kind, keys);
    ColumnBuilt(list.nodes, |old(list.nodes)|, index, kind, data, key, limit, v, keys);
  }

  lemma {:induction false} TopIsKept(v: Volume, limit: nat)
    requires |Top(v, limit)| == if limit < |v| then limit else |v|
    ensures Top(v, limit) <= v.Keys && |Top(v, limit)| <= limit
    ensures |v| > |Top(v, limit)| ==> |Top(v, limit)| == limit
  {}

  /** Keys, nodes and index, put together. */
  lemma {:induction false} ColumnBuilt(nodes: seq<Node>, from: nat, index: map<string, nat>, kind: Kind,
                                       data: seq<FlowRow>, key: FlowRow -> string, limit: nat, v: Volume,
                                       keys: seq<string>)
    requires Totals(v, data, key) && |nodes| == from + |keys|
    requires |Top(v, limit)| <= limit && |Top(v, limit)| <= |keys| <= |Top(v, limit)| + 1
    requires Ordered(v, keys[..|Top(v, limit)|]) && SetOf(keys[..|Top(v, limit)|]) == Top(v, limit)
    requires keys[|Top(v, limit)|..] == if |v| > |Top(v, limit)| then [OTHER] else []
    requires forall i :: 0 <= i < |keys| ==> nodes[from + i] == NodeOf(kind, keys[i])
    requires Indexes(index, kind, keys, nodes, from)
    ensures Column(nodes, from, |keys|, index, kind, data, key, limit, v, keys)
    ensures Usable(index, from, |nodes|) && Resolves(data, Kept(key, Top(v, limit)), index)
  {
    IndexesKeys(index, kind, keys, nodes, from);
    hide Totals, Ordered, Indexes, Top, SetOf, NodeOf;
    LookupsHit(data, key, limit, v, keys, index);
    ValuesInRange(index, kind, keys, nodes, from);
  }

  lemma {:induction false} IndexesKeys(index: map<string, nat>, kind: Kind, keys: seq<string>, nodes: seq<Node>,
                                       from: nat)
    requires Indexes(index, kind, keys, nodes, from)
    ensures index.Keys == SetOf(keys)
  {}

  lemma {:induction false} UsableIsInjective(index: map<string, nat>, from: nat, to: nat)
    requires Usable(index, from, to)
    ensures Injective(index)
  {}

  /** An index that tells keys apart and points into one column. */
  predicate Usable(index: map<string, nat>, from: nat, to: nat) {
    Injective(index) && forall n :: n in index.Values ==> from <= n < to
  }

  lemma {:induction false} ColumnStays(before: seq<Node>, after: seq<Node>, from: nat, size: nat, index: map<string,
          nat>, kind: Kind,
                    data: seq<FlowRow>, key: FlowRow -> string, limit: nat, v: Volume, keys: seq<string>)
    requires before <= after && Column(before, from, size, index, kind, data, key, limit, v, keys)
    ensures Column(after, from, size, index, kind, data, key, limit, v, keys)
  {}

  /** `get_sankey`, from the fetched rows on: three columns of top keys, linked so that flow is conserved. */
  method BuildSankey(data: seq<FlowRow>, limit: nat)
    returns (g: Graph, ghost volumes: (Volume, Volume, Volume), ghost keys: (seq<string>, seq<string>, seq<string>),
             ghost services: nat, ghost destinations: nat)
    ensures services == |keys.0| && destinations == services + |keys.1| && |g.nodes| == destinations + |keys.2|
    ensures Column(g.nodes, 0, |keys.0|, g.src, Source, data, SrcOf, limit, volumes.0, keys.0)
    ensures Column(g.nodes, services, |keys.1|, g.svc, Service, data, SvcOf, limit, volumes.1, keys.1)
    ensures Column(g.nodes, destinations, |keys.2|, g.dst, Destination, data, DstOf, limit, volumes.2, keys.2)
    ensures Spans(g.hop1, 0, services, destinations) && Spans(g.hop2, services, destinations, |g.nodes|)
    ensures Carried(g.hop1) == Total(data) && Carried(g.hop2) == Total(data)
    ensures forall n :: Inflow(g.hop1, n) == Outflow(g.hop2, n)
    ensures forall k :: k in g.src ==> Outflow(g.hop1, g.src[k]) == Traffic(data, Kept(SrcOf, Top(volumes.0, limit)), k)
    ensures forall k :: k in g.svc ==> Inflow(g.hop1, g.svc[k]) == Traffic(data, Kept(SvcOf, Top(volumes.1, limit)), k)
    ensures forall k :: k in g.dst ==> Inflow(g.hop2, g.dst[k]) == Traffic(data, Kept(DstOf, Top(volumes.2, limit)), k)
  {
    hide *;
    var vSrc, vSvc, vDst := Volumes(data);
    var list := new NodeList();
    var topSrc, keysSrc, src := AddColumn(list, vSrc, Source, limit, data, SrcOf);
    ghost var nodes1 := list.nodes;
    services := |nodes1|;
    var topSvc, keysSvc, svc := AddColumn(list, vSvc, Service, limit, data, SvcOf);
    ghost var nodes2 := list.nodes;
    destinations := |nodes2|;
    var topDst, keysDst, dst := AddColumn(list, vDst, Destination, limit, data, DstOf);
    ColumnStays(nodes1, list.nodes, 0, |keysSrc|, src, Source, data, SrcOf, limit, vSrc, keysSrc);
    ColumnStays(nodes2, list.nodes, services, |keysSvc|, svc, Service, data, SvcOf, limit, vSvc, keysSvc);
    UsableIsInjective(src, 0, services);
    UsableIsInjective(svc, services, destinations);
    UsableIsInjective(dst, destinations, |list.nodes|);
    var links1, links2 := ConnectColumns(data, topSrc, topSvc, topDst, src, svc, dst);
    SpansColumns(links1, src, svc, 0, services, destinations);
    SpansColumns(links2, svc, dst, services, destinations, |list.nodes|);
    g := Graph(list.nodes, links1, links2, src, svc, dst);
    volumes, keys := (vSrc, vSvc, vDst), (keysSrc, keysSvc, keysDst);
  }
}

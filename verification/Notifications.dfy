/**
 The notification merge: deduplicate by id, newest first, capped. Merging batches as they stream in
 gives the same list as merging them all at once.
 */
module Notifications {

  /** `createdAt` orders as the ISO timestamp does; `rest` is everything else, such as the read mark. */
  datatype Notification = Notification(id: string, createdAt: int, rest: string)

  type ById = map<string, Notification>

  /** `byId.set` for each entry in turn: later entries replace earlier ones of the same id. */
  function MapOf(ns: seq<Notification>): ById
  {
    if ns == [] then map[] else MapOf(ns[..|ns| - 1])[ns[|ns| - 1].id := ns[|ns| - 1]]
  }

  /** Each id once, newest first; see NewestFirstReads for the same thing by positions. */
  ghost predicate NewestFirst(ns: seq<Notification>)
  {
    ns == [] ||
    var before, n := MapOf(ns[..|ns| - 1]), ns[|ns| - 1];
    NewestFirst(ns[..|ns| - 1]) && n.id !in before && NoOlder(before, n.createdAt)
  }

  ghost predicate NoOlder(m: ById, time: int)
  {
    forall x | x in m :: m[x].createdAt >= time
  }

  /** These entries are the newest `limit` of the map; among entries of equal time any may be meant. */
  ghost predicate IsNewest(m: ById, limit: nat, top: ById)
  {
    && |top| == (if |m| < limit then |m| else limit)
    && (forall id | id in top :: id in m && top[id] == m[id])
    && (forall id | id in m && id !in top :: NoNewer(m[id].createdAt, top))
  }

  ghost predicate NoNewer(time: int, top: ById)
  {
    forall x | x in top :: time <= top[x].createdAt
  }

  ghost predicate IsTop(m: ById, limit: nat, ns: seq<Notification>)
  {
    NewestFirst(ns) && IsNewest(m, limit, MapOf(ns))
  }

  /** An entry of the map is an entry of the list, under its own id. */
  lemma {:induction false} MapOfEntries(ns: seq<Notification>)
    ensures forall id | id in MapOf(ns) :: MapOf(ns)[id].id == id && MapOf(ns)[id] in ns
    ensures forall n | n in ns :: n.id in MapOf(ns)
  {
    if ns == [] {
    } else {
      MapOfEntries(ns[..|ns| - 1]);
      assert forall n | n in ns :: n in ns[..|ns| - 1] || n == ns[|ns| - 1];
    }
  }

  /** An ordered list shows as many entries as its map holds. */
  lemma {:induction false} OrderedSize(ns: seq<Notification>)
    requires NewestFirst(ns)
    ensures |MapOf(ns)| == |ns|
  {
    if ns == [] {
    } else {
      var before, n := MapOf(ns[..|ns| - 1]), ns[|ns| - 1];
      OrderedSize(ns[..|ns| - 1]);
      Extended(before, n);
    }
  }

  lemma Extended(m: ById, n: Notification)
    requires n.id !in m
    ensures |m[n.id := n]| == |m| + 1 && m[n.id := n] - {n.id} == m
  {
    assert m[n.id := n].Keys == m.Keys + {n.id};
    assert |m[n.id := n]| == |m[n.id := n].Keys| && |m| == |m.Keys|;
  }

  ghost predicate ByPosition(ns: seq<Notification>)
  {
    forall i, j | 0 <= i < j < |ns| :: ns[i].id != ns[j].id && ns[i].createdAt >= ns[j].createdAt
  }

  /** Read by positions: no id appears twice, and no entry stands before a newer one. */
  lemma {:induction false} NewestFirstReads(ns: seq<Notification>)
    ensures NewestFirst(ns) <==> ByPosition(ns)
  {
    if ns == [] {
    } else {
      var front, n := ns[..|ns| - 1], ns[|ns| - 1];
      NewestFirstReads(front);
      assert ByPosition(ns) <==> ByPosition(front) && AllBefore(front, n) by {
        assert forall i | 0 <= i < |front| :: front[i] == ns[i];
      }
      if NewestFirst(front) { AllBeforeReads(front, n); }
    }
  }

  ghost predicate AllBefore(ns: seq<Notification>, n: Notification)
  {
    forall i | 0 <= i < |ns| :: ns[i].id != n.id && ns[i].createdAt >= n.createdAt
  }

  lemma AllBeforeReads(ns: seq<Notification>, n: Notification)
    requires NewestFirst(ns)
    ensures AllBefore(ns, n) <==> n.id !in MapOf(ns) && NoOlder(MapOf(ns), n.createdAt)
  {
    MapOfEntries(ns);
    if AllBefore(ns, n) {
      assert forall x | x in ns :: x.id != n.id && x.createdAt >= n.createdAt;
    }
    if n.id !in MapOf(ns) && NoOlder(MapOf(ns), n.createdAt) {
      forall i | 0 <= i < |ns| ensures ns[i].id != n.id && ns[i].createdAt >= n.createdAt { LastOfItsId(ns, i); }
    }
  }

  lemma {:induction false} LastOfItsId(ns: seq<Notification>, i: nat)
    requires NewestFirst(ns) && i < |ns|
    ensures ns[i].id in MapOf(ns) && MapOf(ns)[ns[i].id] == ns[i]
  {
    if i == |ns| - 1 {
    } else {
      LastOfItsId(ns[..|ns| - 1], i);
    }
  }

  // ---------------------------------------------------------------- the merge

  method MergeNotifications(current: seq<Notification>, incoming: seq<Notification>, limit: nat)
      returns (merged: seq<Notification>)
    ensures IsTop(MapOf(current) + MapOf(incoming), limit, merged)
  {
    var byId := SetEach(map[], current);
    byId := SetEach(byId, incoming);
    assert map[] + MapOf(current) == MapOf(current);
    MapOfEntries(current);
    MapOfEntries(incoming);
    var sorted := SortNewestFirst(byId);
    merged := if |sorted| <= limit then sorted else sorted[..limit];
    HeadIsTop(byId, limit, sorted);
  }

  method SetEach(start: ById, ns: seq<Notification>) returns (byId: ById)
    ensures byId == start + MapOf(ns)
  {
    byId := start;
    for i := 0 to |ns|
      invariant byId == start + MapOf(ns[..i])
    {
      assert ns[..i + 1][..i] == ns[..i];
      byId := byId[ns[i].id := ns[i]];
    }
    assert ns[..|ns|] == ns;
  }

  /** All values of the map, sorted by insertion. */
  method SortNewestFirst(byId: ById) returns (sorted: seq<Notification>)
    requires forall id | id in byId :: byId[id].id == id
    ensures NewestFirst(sorted) && MapOf(sorted) == byId
  {
    sorted := [];
    var rest := byId.Keys;
    while rest != {}
      invariant rest <= byId.Keys && NewestFirst(sorted)
      invariant MapOf(sorted) == byId - rest
      decreases rest
    {
      var id :| id in rest;
      InsertedIsOrdered(sorted, byId[id]);
      OneMore(byId, rest, id);
      sorted := Inserted(sorted, byId[id]);
      rest := rest - {id};
    }
  }

  lemma OneMore(m: ById, rest: set<string>, id: string)
    requires id in m && id in rest
    ensures m - (rest - {id}) == (m - rest)[id := m[id]]
  {
  }

  /** Behind every entry that is at least as new. */
  function Inserted(ns: seq<Notification>, n: Notification): seq<Notification>
  {
    if ns == [] || ns[|ns| - 1].createdAt >= n.createdAt then ns + [n]
    else Inserted(ns[..|ns| - 1], n) + [ns[|ns| - 1]]
  }

  lemma {:induction false} InsertedIsOrdered(ns: seq<Notification>, n: Notification)
    requires NewestFirst(ns) && n.id !in MapOf(ns)
    ensures NewestFirst(Inserted(ns, n)) && MapOf(Inserted(ns, n)) == MapOf(ns)[n.id := n]
  {
    if ns == [] || ns[|ns| - 1].createdAt >= n.createdAt {
      Appended(ns, n);
    } else {
      var front, last := ns[..|ns| - 1], ns[|ns| - 1];
      InsertedIsOrdered(front, n);
      Appended(Inserted(front, n), last);
    }
  }

  lemma Appended(ns: seq<Notification>, n: Notification)
    ensures MapOf(ns + [n]) == MapOf(ns)[n.id := n]
    ensures NewestFirst(ns + [n]) <==> NewestFirst(ns) && n.id !in MapOf(ns) && NoOlder(MapOf(ns), n.createdAt)
  {
    assert (ns + [n])[..|ns + [n]| - 1] == ns;
  }

  lemma {:induction false} MapOfAppend(a: seq<Notification>, b: seq<Notification>)
    ensures MapOf(a + b) == MapOf(a) + MapOf(b)
  {
    if b == [] {
      assert a + b == a;
    } else {
      MapOfAppend(a, b[..|b| - 1]);
      assert (a + b)[..|a + b| - 1] == a + b[..|b| - 1];
    }
  }

  lemma {:induction false} HeadIsTop(m: ById, limit: nat, sorted: seq<Notification>)
    requires NewestFirst(sorted) && MapOf(sorted) == m
    ensures IsTop(m, limit, if |sorted| <= limit then sorted else sorted[..limit])
  {
    OrderedSize(sorted);
    if |sorted| <= limit {
    } else {
      var front, n := sorted[..|sorted| - 1], sorted[|sorted| - 1];
      HeadIsTop(MapOf(front), limit, front);
      OrderedSize(front);
      assert front[..limit] == sorted[..limit];
      assert limit == |front| ==> front[..limit] == front;
    }
  }

  // ---------------------------------------------------------------- streaming equals batch

  /** An id keeps its creation time from batch to batch. */
  ghost predicate SameTimes(a: ById, b: ById)
  {
    forall id | id in a && id in b :: a[id].createdAt == b[id].createdAt
  }

  ghost predicate DistinctTimes(m: ById)
  {
    forall x, y | x in m && y in m && x != y :: m[x].createdAt != m[y].createdAt
  }

  lemma SubsetSize<T>(a: set<T>, b: set<T>)
    requires a <= b
    ensures |a| <= |b| && (|a| == |b| ==> a == b)
  {
    assert b == a + (b - a);
    assert |b| == |a| + |b - a|;
  }

  lemma UnionSize(a: ById, b: ById)
    requires a.Keys <= b.Keys
    ensures |a| <= |b| && (|a| == |b| ==> a.Keys == b.Keys)
  {
    SubsetSize(a.Keys, b.Keys);
    assert |a| == |a.Keys| && |b| == |b.Keys|;
  }

  /** What a capped list has forgotten is too old to matter: merging a batch into it equals merging into everything. */
  lemma MergeIntoTop(all: ById, top: ById, batch: ById, limit: nat, merged: ById)
    requires SameTimes(all, batch) && IsNewest(all, limit, top) && IsNewest(top + batch, limit, merged)
    ensures IsNewest(all + batch, limit, merged)
  {
    UnionSize(top, all);
    UnionSize(top + batch, all + batch);
    UnionSize(top, top + batch);
    forall id | id in all + batch && id !in merged ensures NoNewer((all + batch)[id].createdAt, merged) {
      if id in top + batch {
        assert (top + batch)[id] == (all + batch)[id];
      } else {
        ForgottenIsOlder(all, top, batch, limit, merged, id);
      }
    }
  }

  lemma ForgottenIsOlder(all: ById, top: ById, batch: ById, limit: nat, merged: ById, id: string)
    requires SameTimes(all, batch) && IsNewest(all, limit, top) && IsNewest(top + batch, limit, merged)
    requires id in all && id !in top && id !in batch
    ensures NoNewer(all[id].createdAt, merged)
  {
    UnionSize(top, all);
    forall x | x in merged ensures all[id].createdAt <= merged[x].createdAt {
      if forall y | y in top :: y in merged && y != x {
        // Every entry of the full top list would be shown beside x: one too many.
        TooMany(top, merged, x);
      } else {
        var y :| y in top && (y !in merged || y == x);
        assert all[id].createdAt <= top[y].createdAt == (top + batch)[y].createdAt;
      }
    }
  }

  lemma TooMany(top: ById, merged: ById, x: string)
    requires (forall y | y in top :: y in merged && y != x) && x in merged
    ensures |merged| > |top|
  {
    SubsetSize(top.Keys + {x}, merged.Keys);
    assert |top| == |top.Keys| && |merged| == |merged.Keys|;
  }

  /** With distinct times the newest entries are determined, and so is their order. */
  lemma NewestIsUnique(m: ById, limit: nat, a: ById, b: ById)
    requires DistinctTimes(m) && IsNewest(m, limit, a) && IsNewest(m, limit, b)
    ensures a == b
  {
    if a.Keys <= b.Keys {
      UnionSize(a, b);
    } else if b.Keys <= a.Keys {
      UnionSize(b, a);
    }
  }

  lemma {:induction false} OrderIsUnique(a: seq<Notification>, b: seq<Notification>)
    requires NewestFirst(a) && NewestFirst(b) && MapOf(a) == MapOf(b) && DistinctTimes(MapOf(a))
    ensures a == b
  {
    OrderedSize(a);
    OrderedSize(b);
    if a == [] {
    } else {
      var n, m := a[|a| - 1], b[|b| - 1];
      Extended(MapOf(a[..|a| - 1]), n);
      Extended(MapOf(b[..|b| - 1]), m);
      SameOldest(MapOf(a[..|a| - 1]), n, MapOf(b[..|b| - 1]), m);
      OrderIsUnique(a[..|a| - 1], b[..|b| - 1]);
      assert a == a[..|a| - 1] + [n] && b == b[..|b| - 1] + [m];
    }
  }

  lemma SameOldest(a: ById, n: Notification, b: ById, m: Notification)
    requires n.id !in a && m.id !in b && a[n.id := n] == b[m.id := m] && DistinctTimes(a[n.id := n])
    requires NoOlder(a, n.createdAt) && NoOlder(b, m.createdAt)
    ensures n == m && a == b
  {
    var all := a[n.id := n];
    assert n.id in all && m.id in all && all[m.id] == m && all[n.id] == n;
    assert m.id in a || m.id == n.id;
    assert n.id in b || m.id == n.id;
    assert a == all - {n.id} && b == all - {m.id};
  }

  lemma NothingFirst(m: ById)
    ensures MapOf([]) + m == m
  {
  }

  lemma TopIsUnique(m: ById, limit: nat, a: seq<Notification>, b: seq<Notification>)
    requires DistinctTimes(m) && IsTop(m, limit, a) && IsTop(m, limit, b)
    ensures a == b
  {
    NewestIsUnique(m, limit, MapOf(a), MapOf(b));
    DistinctWithin(m, MapOf(a));
    OrderIsUnique(a, b);
  }

  lemma DistinctWithin(m: ById, part: ById)
    requires DistinctTimes(m) && forall id | id in part :: id in m && part[id] == m[id]
    ensures DistinctTimes(part)
  {
  }

  function UnionOf(batches: seq<seq<Notification>>): ById
  {
    if batches == [] then map[] else UnionOf(batches[..|batches| - 1]) + MapOf(batches[|batches| - 1])
  }

  /** shown[i] is a result of merging the first i batches one by one. */
  ghost predicate IsStream(batches: seq<seq<Notification>>, limit: nat, shown: seq<seq<Notification>>)
  {
    && |shown| == |batches| + 1 && shown[0] == []
    && forall i | 0 <= i < |batches| :: IsTop(MapOf(shown[i]) + MapOf(batches[i]), limit, shown[i + 1])
  }

  ghost predicate TimesAgree(batches: seq<seq<Notification>>)
  {
    forall i, j | 0 <= i < |batches| && 0 <= j < |batches| :: SameTimes(MapOf(batches[i]), MapOf(batches[j]))
  }

  lemma {:induction false} UnionEntries(batches: seq<seq<Notification>>, id: string)
    requires id in UnionOf(batches)
    ensures exists i :: 0 <= i < |batches| && id in MapOf(batches[i]) && UnionOf(batches)[id] == MapOf(batches[i])[id]
  {
    var n := |batches| - 1;
    if id in MapOf(batches[n]) {
      assert UnionOf(batches)[id] == MapOf(batches[n])[id];
    } else {
      UnionEntries(batches[..n], id);
      var i :| 0 <= i < n && id in MapOf(batches[..n][i]) && UnionOf(batches[..n])[id] == MapOf(batches[..n][i])[id];
      assert batches[..n][i] == batches[i];
    }
  }

  lemma UnionKeepsTimes(batches: seq<seq<Notification>>)
    requires TimesAgree(batches) && batches != []
    ensures SameTimes(UnionOf(batches[..|batches| - 1]), MapOf(batches[|batches| - 1]))
  {
    var n := |batches| - 1;
    var all, last := UnionOf(batches[..n]), MapOf(batches[n]);
    forall id | id in all && id in last ensures all[id].createdAt == last[id].createdAt {
      UnionEntries(batches[..n], id);
      var i :| 0 <= i < n && id in MapOf(batches[..n][i]) && all[id] == MapOf(batches[..n][i])[id];
      assert SameTimes(MapOf(batches[i]), MapOf(batches[n]));
    }
  }

  /** Streaming keeps the newest of everything seen so far, even when times collide. */
  lemma {:induction false} StreamKeepsTheTop(batches: seq<seq<Notification>>, limit: nat, shown: seq<seq<Notification>>)
    requires TimesAgree(batches) && IsStream(batches, limit, shown)
    ensures NewestFirst(shown[|batches|]) && IsNewest(UnionOf(batches), limit, MapOf(shown[|batches|]))
  {
    if batches == [] {
    } else {
      var n := |batches| - 1;
      StreamKeepsTheTop(batches[..n], limit, shown[..n + 1]);
      UnionKeepsTimes(batches);
      assert IsTop(MapOf(shown[n]) + MapOf(batches[n]), limit, shown[n + 1]);
      MergeIntoTop(UnionOf(batches[..n]), MapOf(shown[n]), MapOf(batches[n]), limit, MapOf(shown[n + 1]));
    }
  }

  function Concat(batches: seq<seq<Notification>>): seq<Notification>
  {
    if batches == [] then [] else Concat(batches[..|batches| - 1]) + batches[|batches| - 1]
  }

  lemma {:induction false} UnionIsMapOfConcat(batches: seq<seq<Notification>>)
    ensures UnionOf(batches) == MapOf(Concat(batches))
  {
    if batches == [] {
    } else {
      UnionIsMapOfConcat(batches[..|batches| - 1]);
      MapOfAppend(Concat(batches[..|batches| - 1]), batches[|batches| - 1]);
    }
  }

  /**
   Merging batch by batch with a cap equals one merge of everything, down to the latest version of
   each entry, when an id keeps its time and different ids have different times.
   */
  lemma StreamingEqualsBatch(batches: seq<seq<Notification>>, limit: nat, shown: seq<seq<Notification>>,
      once: seq<Notification>)
    requires TimesAgree(batches) && DistinctTimes(UnionOf(batches))
    requires IsStream(batches, limit, shown)
    requires IsTop(MapOf([]) + MapOf(Concat(batches)), limit, once)
    ensures shown[|batches|] == once
  {
    StreamKeepsTheTop(batches, limit, shown);
    UnionIsMapOfConcat(batches);
    NothingFirst(UnionOf(batches));
    TopIsUnique(UnionOf(batches), limit, shown[|batches|], once);
  }
}

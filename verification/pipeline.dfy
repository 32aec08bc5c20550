/** The deal pipeline engine: stage moves with sort-order reflow of the
    destination and source columns, the terminal moves Won and Lost with
    their outcome notifications, and deal reassignment. */
module Pipeline {
  import opened Common
  import opened Entities
  import Sorting

  const WonStageName: string := "Won"
  const LostStageName: string := "Lost"

  /** The deals table after a service call and the notifications it sent. */
  datatype Change = Change(deals: seq<Deal>, notifications: seq<Notification>)

  /** `firstOrFail` on a stage looked up by name. */
  datatype ServiceError = StageNotFound(name: string)

  // ---------------------------------------------------------------------
  // Columns and the sort-order reflow

  /** A deal of the column `stage` of `tenant`, other than `excluded`. */
  predicate InColumn(d: Deal, tenant: TenantId, stage: StageId, excluded: Option<DealId>)
  {
    d.tenant == tenant && d.stage == stage && excluded != Some(d.id)
  }

  /** The key the column queries order by. */
  function SortKey(d: Deal): (r: int)
  {
    d.sortOrder
  }

  /** The rows a column query selects, in table order. */
  function Members(deals: seq<Deal>, tenant: TenantId, stage: StageId, excluded: Option<DealId>): (r: seq<Deal>)
    ensures |r| <= |deals|
    ensures forall d :: d in r <==> d in deals && InColumn(d, tenant, stage, excluded)
  {
    if |deals| == 0 then []
    else (if InColumn(deals[0], tenant, stage, excluded) then [deals[0]] else [])
         + Members(deals[1..], tenant, stage, excluded)
  }

  /** The rows of a column of a table with unique ids have unique ids. */
  lemma {:induction false} MembersUnique(deals: seq<Deal>, tenant: TenantId, stage: StageId, excluded: Option<DealId>)
    requires UniqueDealIds(deals)
    ensures UniqueDealIds(Members(deals, tenant, stage, excluded))
    decreases |deals|
  {
    if |deals| > 0 {
      var rest := Members(deals[1..], tenant, stage, excluded);
      MembersUnique(deals[1..], tenant, stage, excluded);
      var r := Members(deals, tenant, stage, excluded);
      if InColumn(deals[0], tenant, stage, excluded) {
        assert r == [deals[0]] + rest;
        forall k | 0 <= k < |rest|
          ensures rest[k].id != deals[0].id
        {
          assert rest[k] in deals[1..];
          var p := Sorting.IndexOf(deals[1..], rest[k]);
          assert deals[p + 1] == rest[k];
        }
      } else {
        assert r == rest;
      }
    }
  }

  /** A column query ordered by `sort_order` (ties in table order). */
  function Column(deals: seq<Deal>, tenant: TenantId, stage: StageId, excluded: Option<DealId>): (r: seq<Deal>)
  {
    Sorting.SortBy(Members(deals, tenant, stage, excluded), SortKey)
  }

  /** `update(['sort_order' => v])` on the row with primary key `id`. */
  function SetSortOrder(deals: seq<Deal>, id: DealId, v: int): (r: seq<Deal>)
    ensures |r| == |deals|
    ensures forall i :: 0 <= i < |deals| ==>
      r[i] == if deals[i].id == id then deals[i].(sortOrder := v) else deals[i]
  {
    seq(|deals|, i requires 0 <= i < |deals| =>
      if deals[i].id == id then deals[i].(sortOrder := v) else deals[i])
  }

  /** The column's rows, walked in order, get the given sort orders one by one. */
  function Assign(deals: seq<Deal>, column: seq<Deal>, values: seq<int>): (r: seq<Deal>)
    requires |column| == |values|
    ensures |r| == |deals|
    ensures forall i :: 0 <= i < |deals| ==> r[i] == deals[i].(sortOrder := r[i].sortOrder)
    decreases |column|
  {
    if |column| == 0 then deals
    else Assign(SetSortOrder(deals, column[0].id, values[0]), column[1..], values[1..])
  }

  /** The sort orders the destination walk hands out to `count` deals: a
      counter from `pos`, stepped over `target` when it reaches it. */
  function Slots(count: nat, pos: int, target: int): (r: seq<int>)
    ensures |r| == count
    decreases count
  {
    if count == 0 then []
    else
      var p := if pos == target then pos + 1 else pos;
      [p] + Slots(count - 1, p + 1, target)
  }

  /** The indices 0, 1, ..., m - 1 the source walk hands out. */
  function Indices(m: nat): (r: seq<int>)
    ensures |r| == m
    ensures forall j :: 0 <= j < m ==> r[j] == j
  {
    seq(m, j requires 0 <= j < m => j)
  }

  /** The integers lo, lo + 1, ..., hi - 1. */
  function Interval(lo: int, hi: int): (r: set<int>)
    ensures forall x :: x in r <==> lo <= x < hi
    decreases hi - lo
  {
    if lo >= hi then {} else {lo} + Interval(lo + 1, hi)
  }

  predicate Increasing(v: seq<int>)
  {
    forall j, k :: 0 <= j < k < |v| ==> v[j] < v[k]
  }

  /** `recalculateSortOrder`: the other deals of the destination column, in
      sort order, get 0, 1, 2, ... with the target position skipped. */
  function RecalculateSortOrder(deals: seq<Deal>, tenant: TenantId, stage: StageId, moved: DealId, target: int): (r: seq<Deal>)
    ensures |r| == |deals|
    ensures forall i :: 0 <= i < |deals| ==> r[i] == deals[i].(sortOrder := r[i].sortOrder)
  {
    var column := Column(deals, tenant, stage, Some(moved));
    Assign(deals, column, Slots(|column|, 0, target))
  }

  /** `recalculateSortOrderAfterRemoval`: the deals of the column, in sort
      order, get 0, 1, 2, ...  (The source skips rows that already hold their
      index; writing the same value again leaves the same table.) */
  function RecalculateSortOrderAfterRemoval(deals: seq<Deal>, tenant: TenantId, stage: StageId): (r: seq<Deal>)
    ensures |r| == |deals|
    ensures forall i :: 0 <= i < |deals| ==> r[i] == deals[i].(sortOrder := r[i].sortOrder)
  {
    var column := Column(deals, tenant, stage, None);
    Assign(deals, column, Indices(|column|))
  }

  /** The first update of `moveToStage`: the moved row gets its new stage and
      the target position. */
  function PlaceDeal(deals: seq<Deal>, id: DealId, stage: StageId, position: int): (r: seq<Deal>)
    ensures |r| == |deals|
    ensures forall i :: 0 <= i < |deals| ==>
      r[i] == if deals[i].id == id then deals[i].(stage := stage, sortOrder := position) else deals[i]
  {
    seq(|deals|, i requires 0 <= i < |deals| =>
      if deals[i].id == id then deals[i].(stage := stage, sortOrder := position) else deals[i])
  }

  /** `moveToStage(deal, stage, position)` as one atomic transition.  The old
      stage is the one of the loaded `deal`; columns are those of its tenant. */
  function MoveToStage(deals: seq<Deal>, deal: Deal, stage: StageId, position: int): (r: seq<Deal>)
    ensures |r| == |deals|
    ensures forall i :: 0 <= i < |deals| && deals[i].id != deal.id ==> r[i] == deals[i].(sortOrder := r[i].sortOrder)
    ensures forall i :: 0 <= i < |deals| && deals[i].id == deal.id ==>
      r[i] == deals[i].(stage := stage, sortOrder := r[i].sortOrder)
  {
    var placed := PlaceDeal(deals, deal.id, stage, position);
    var reflowed := RecalculateSortOrder(placed, deal.tenant, stage, deal.id, position);
    if deal.stage != stage then RecalculateSortOrderAfterRemoval(reflowed, deal.tenant, deal.stage)
    else reflowed
  }

  // ---------------------------------------------------------------------
  // Proofs about the reflow

  /** Closed form of the destination walk. */
  lemma {:induction false} SlotsValue(count: nat, pos: int, target: int)
    ensures forall j :: 0 <= j < count ==>
      Slots(count, pos, target)[j] == pos + j + (if pos <= target <= pos + j then 1 else 0)
    decreases count
  {
    if count > 0 {
      var p := if pos == target then pos + 1 else pos;
      var r := Slots(count, pos, target);
      var rest := Slots(count - 1, p + 1, target);
      assert r == [p] + rest;
      SlotsValue(count - 1, p + 1, target);
      forall j | 0 <= j < count
        ensures r[j] == pos + j + (if pos <= target <= pos + j then 1 else 0)
      {
        if j > 0 {
          assert r[j] == rest[j - 1];
        }
      }
    }
  }

  /** The destination walk hands out increasing values in 0..n, never the
      target, and covers 0..n except the target when the target is in 0..n. */
  lemma DestinationSlots(n: nat, target: int)
    ensures Increasing(Slots(n, 0, target))
    ensures forall j :: 0 <= j < n ==> Slots(n, 0, target)[j] != target && 0 <= Slots(n, 0, target)[j] <= n
    ensures 0 <= target <= n ==>
      forall x :: 0 <= x <= n && x != target ==> x in Slots(n, 0, target)
    ensures !(0 <= target <= n) ==> forall j :: 0 <= j < n ==> Slots(n, 0, target)[j] == j
  {
    var v := Slots(n, 0, target);
    SlotsValue(n, 0, target);
    if 0 <= target <= n {
      forall x | 0 <= x <= n && x != target
        ensures x in v
      {
        var j := if x < target then x else x - 1;
        assert v[j] == x;
      }
    }
  }

  /** Two distinct rows with the same key occur twice in a multiset. */
  lemma CountTwice<T>(s: seq<T>, j: int, k: int)
    requires 0 <= j < k < |s| && s[j] == s[k]
    ensures multiset(s)[s[j]] >= 2
  {
    assert s == s[..k] + s[k..];
    assert s[j] in s[..k];
    assert s[k] in s[k..];
    assert multiset(s) == multiset(s[..k]) + multiset(s[k..]);
  }

  /** In a table with unique ids every row occurs at most once. */
  lemma {:induction false} CountAtMostOnce(s: seq<Deal>, x: Deal)
    requires UniqueDealIds(s)
    ensures multiset(s)[x] <= 1
    decreases |s|
  {
    if |s| > 0 {
      assert s == [s[0]] + s[1..];
      CountAtMostOnce(s[1..], x);
      if x == s[0] {
        assert x !in s[1..];
      }
    }
  }

  /** A permutation of a table with unique ids has unique ids. */
  lemma UniqueIdsPermutation(a: seq<Deal>, b: seq<Deal>)
    requires multiset(a) == multiset(b)
    requires UniqueDealIds(a)
    ensures UniqueDealIds(b)
  {
    forall j, k | 0 <= j < k < |b|
      ensures b[j].id != b[k].id
    {
      if b[j].id == b[k].id {
        assert b[j] in multiset(a) && b[k] in multiset(a);
        var p := Sorting.IndexOf(a, b[j]);
        var q := Sorting.IndexOf(a, b[k]);
        assert p == q;
        CountTwice(b, j, k);
        CountAtMostOnce(a, b[j]);
        assert false;
      }
    }
  }

  /** The ordered column holds exactly the column's rows, each once. */
  lemma ColumnFacts(deals: seq<Deal>, tenant: TenantId, stage: StageId, excluded: Option<DealId>)
    requires UniqueDealIds(deals)
    ensures |Column(deals, tenant, stage, excluded)| == |Members(deals, tenant, stage, excluded)|
    ensures UniqueDealIds(Column(deals, tenant, stage, excluded))
    ensures Sorting.SortedBy(Column(deals, tenant, stage, excluded), SortKey)
    ensures forall d :: d in Column(deals, tenant, stage, excluded) <==> d in deals && InColumn(d, tenant, stage, excluded)
  {
    var m := Members(deals, tenant, stage, excluded);
    var c := Column(deals, tenant, stage, excluded);
    MembersUnique(deals, tenant, stage, excluded);
    UniqueIdsPermutation(m, c);
    forall d
      ensures d in c <==> d in m
    {
      assert d in c <==> d in multiset(c);
      assert d in m <==> d in multiset(m);
    }
  }

  /** Walking a column with distinct ids assigns each of its rows the value
      at its position and leaves every other row alone. */
  lemma {:induction false} AssignSpec(deals: seq<Deal>, column: seq<Deal>, values: seq<int>)
    requires |column| == |values|
    requires UniqueDealIds(column)
    ensures |Assign(deals, column, values)| == |deals|
    ensures forall i :: 0 <= i < |deals| && (forall j :: 0 <= j < |column| ==> column[j].id != deals[i].id) ==>
      Assign(deals, column, values)[i] == deals[i]
    ensures forall i, j :: 0 <= i < |deals| && 0 <= j < |column| && column[j].id == deals[i].id ==>
      Assign(deals, column, values)[i] == deals[i].(sortOrder := values[j])
    decreases |column|
  {
    if |column| > 0 {
      var next := SetSortOrder(deals, column[0].id, values[0]);
      AssignSpec(next, column[1..], values[1..]);
      var r := Assign(deals, column, values);
      assert r == Assign(next, column[1..], values[1..]);
      forall i, j | 0 <= i < |deals| && 0 <= j < |column| && column[j].id == deals[i].id
        ensures r[i] == deals[i].(sortOrder := values[j])
      {
        if j == 0 {
          forall k | 0 <= k < |column[1..]|
            ensures column[1..][k].id != next[i].id
          {
            assert column[1..][k] == column[k + 1];
          }
        } else {
          assert column[1..][j - 1] == column[j];
        }
      }
      forall i | 0 <= i < |deals| && (forall j :: 0 <= j < |column| ==> column[j].id != deals[i].id)
        ensures r[i] == deals[i]
      {
        assert column[0].id != deals[i].id;
        forall k | 0 <= k < |column[1..]|
          ensures column[1..][k].id != next[i].id
        {
          assert column[1..][k] == column[k + 1];
        }
      }
    }
  }

  /** What renumbering a column with increasing values does to the table:
      only the column's rows change, and only their sort order; they take
      pairwise distinct values, all of `values`, in their old relative order. */
  ghost predicate Renumbers(deals: seq<Deal>, r: seq<Deal>, tenant: TenantId, stage: StageId,
                            excluded: Option<DealId>, values: seq<int>)
  {
    && |r| == |deals|
    && (forall i :: 0 <= i < |deals| && !InColumn(deals[i], tenant, stage, excluded) ==> r[i] == deals[i])
    && (forall i :: 0 <= i < |deals| && InColumn(deals[i], tenant, stage, excluded) ==>
          r[i] == deals[i].(sortOrder := r[i].sortOrder) && r[i].sortOrder in values)
    && (forall j :: 0 <= j < |values| ==>
          exists i :: 0 <= i < |deals| && InColumn(deals[i], tenant, stage, excluded) && r[i].sortOrder == values[j])
    && (forall i, k :: 0 <= i < |deals| && 0 <= k < |deals| && i != k
          && InColumn(deals[i], tenant, stage, excluded) && InColumn(deals[k], tenant, stage, excluded)
          ==> r[i].sortOrder != r[k].sortOrder)
    && (forall i, k :: 0 <= i < |deals| && 0 <= k < |deals|
          && InColumn(deals[i], tenant, stage, excluded) && InColumn(deals[k], tenant, stage, excluded)
          && deals[i].sortOrder < deals[k].sortOrder
          ==> r[i].sortOrder < r[k].sortOrder)
  }

  lemma RenumberColumn(deals: seq<Deal>, tenant: TenantId, stage: StageId, excluded: Option<DealId>, values: seq<int>)
    requires UniqueDealIds(deals)
    requires |values| == |Members(deals, tenant, stage, excluded)|
    requires Increasing(values)
    ensures Renumbers(deals, Assign(deals, Column(deals, tenant, stage, excluded), values), tenant, stage, excluded, values)
  {
    var c := Column(deals, tenant, stage, excluded);
    ColumnFacts(deals, tenant, stage, excluded);
    AssignSpec(deals, c, values);
    var r := Assign(deals, c, values);
    // the position in the column of a row of the column
    forall i | 0 <= i < |deals| && !InColumn(deals[i], tenant, stage, excluded)
      ensures r[i] == deals[i]
    {
      forall j | 0 <= j < |c|
        ensures c[j].id != deals[i].id
      {
        assert c[j] in c;
        var p := Sorting.IndexOf(deals, c[j]);
        assert p != i;
      }
    }
    forall i | 0 <= i < |deals| && InColumn(deals[i], tenant, stage, excluded)
      ensures r[i] == deals[i].(sortOrder := values[Sorting.IndexOf(c, deals[i])])
    {
      assert deals[i] in c;
    }
    forall j | 0 <= j < |values|
      ensures exists i :: 0 <= i < |deals| && InColumn(deals[i], tenant, stage, excluded) && r[i].sortOrder == values[j]
    {
      assert c[j] in c;
      var i := Sorting.IndexOf(deals, c[j]);
      assert r[i].sortOrder == values[j];
    }
    forall i, k | 0 <= i < |deals| && 0 <= k < |deals|
        && InColumn(deals[i], tenant, stage, excluded) && InColumn(deals[k], tenant, stage, excluded)
      ensures i != k ==> r[i].sortOrder != r[k].sortOrder
      ensures deals[i].sortOrder < deals[k].sortOrder ==> r[i].sortOrder < r[k].sortOrder
    {
      assert deals[i] in c && deals[k] in c;
      var ji := Sorting.IndexOf(c, deals[i]);
      var jk := Sorting.IndexOf(c, deals[k]);
      if i != k {
        assert deals[i].id != deals[k].id;
        assert ji != jk;
      }
      if deals[i].sortOrder < deals[k].sortOrder {
        Sorting.SmallerKeyComesFirst(c, SortKey, ji, jk);
      }
    }
  }

  /** The sort orders held by the rows of a column. */
  function ColumnSortOrders(deals: seq<Deal>, tenant: TenantId, stage: StageId, excluded: Option<DealId>): (r: set<int>)
  {
    set i | 0 <= i < |deals| && InColumn(deals[i], tenant, stage, excluded) :: deals[i].sortOrder
  }

  /** No two rows of a column share a sort order. */
  predicate DistinctSortOrders(deals: seq<Deal>, tenant: TenantId, stage: StageId, excluded: Option<DealId>)
  {
    forall i, k :: 0 <= i < |deals| && 0 <= k < |deals| && i != k
      && InColumn(deals[i], tenant, stage, excluded) && InColumn(deals[k], tenant, stage, excluded)
      ==> deals[i].sortOrder != deals[k].sortOrder
  }

  /** Rows that differ in sort order only keep their column membership. */
  lemma RenumberedColumn(deals: seq<Deal>, r: seq<Deal>, tenant: TenantId, stage: StageId,
                         excluded: Option<DealId>, values: seq<int>)
    requires Renumbers(deals, r, tenant, stage, excluded, values)
    ensures forall i :: 0 <= i < |r| ==> (InColumn(r[i], tenant, stage, excluded) <==> InColumn(deals[i], tenant, stage, excluded))
    ensures forall i :: 0 <= i < |r| ==> r[i].id == deals[i].id
    ensures ColumnSortOrders(r, tenant, stage, excluded) == set x | x in values
    ensures DistinctSortOrders(r, tenant, stage, excluded)
    ensures UniqueDealIds(deals) ==> UniqueDealIds(r)
  {
    assert forall i :: 0 <= i < |r| ==> (InColumn(r[i], tenant, stage, excluded) <==> InColumn(deals[i], tenant, stage, excluded));
    forall x | x in values
      ensures x in ColumnSortOrders(r, tenant, stage, excluded)
    {
      var j := Sorting.IndexOf(values, x);
      var i :| 0 <= i < |deals| && InColumn(deals[i], tenant, stage, excluded) && r[i].sortOrder == values[j];
      assert InColumn(r[i], tenant, stage, excluded);
    }
  }

  /** The set of values the destination walk hands out. */
  lemma SlotSet(n: nat, target: int)
    ensures (set x | x in Slots(n, 0, target))
      == if 0 <= target <= n then Interval(0, n + 1) - {target} else Interval(0, n)
  {
    var v := Slots(n, 0, target);
    DestinationSlots(n, target);
    if !(0 <= target <= n) {
      forall x | 0 <= x < n
        ensures x in v
      {
        assert v[x] == x;
      }
    }
  }

  /** `recalculateSortOrder` (DealService.php:69-84): only the other deals of
      the destination column change, and only their sort order; they keep
      their relative order, none takes the target, no two share a value, and
      with n of them they hold 0..n minus the target when the target lies in
      0..n, and 0..n-1 otherwise. */
  lemma DestinationReflow(deals: seq<Deal>, tenant: TenantId, stage: StageId, moved: DealId, target: int)
    requires UniqueDealIds(deals)
    ensures var r := RecalculateSortOrder(deals, tenant, stage, moved, target);
      && |r| == |deals|
      && UniqueDealIds(r)
      && (forall i :: 0 <= i < |deals| && !InColumn(deals[i], tenant, stage, Some(moved)) ==> r[i] == deals[i])
      && (forall i :: 0 <= i < |deals| && InColumn(deals[i], tenant, stage, Some(moved)) ==>
            r[i] == deals[i].(sortOrder := r[i].sortOrder))
      && (forall i, k :: 0 <= i < |deals| && 0 <= k < |deals|
            && InColumn(deals[i], tenant, stage, Some(moved)) && InColumn(deals[k], tenant, stage, Some(moved))
            && deals[i].sortOrder < deals[k].sortOrder
            ==> r[i].sortOrder < r[k].sortOrder)
      && DistinctSortOrders(r, tenant, stage, Some(moved))
      && target !in ColumnSortOrders(r, tenant, stage, Some(moved))
      && (var n := |Members(deals, tenant, stage, Some(moved))|;
          ColumnSortOrders(r, tenant, stage, Some(moved))
            == if 0 <= target <= n then Interval(0, n + 1) - {target} else Interval(0, n))
  {
    var n := |Members(deals, tenant, stage, Some(moved))|;
    var v := Slots(n, 0, target);
    var r := RecalculateSortOrder(deals, tenant, stage, moved, target);
    DestinationRenumbers(deals, tenant, stage, moved, target);
    RenumberedColumn(deals, r, tenant, stage, Some(moved), v);
    DestinationSlots(n, target);
    SlotSet(n, target);
  }

  /** The destination walk renumbers the other deals of the column with the
      values it hands out. */
  lemma DestinationRenumbers(deals: seq<Deal>, tenant: TenantId, stage: StageId, moved: DealId, target: int)
    requires UniqueDealIds(deals)
    ensures Renumbers(deals, RecalculateSortOrder(deals, tenant, stage, moved, target), tenant, stage, Some(moved),
                      Slots(|Members(deals, tenant, stage, Some(moved))|, 0, target))
  {
    var n := |Members(deals, tenant, stage, Some(moved))|;
    ColumnFacts(deals, tenant, stage, Some(moved));
    DestinationSlots(n, target);
    RenumberColumn(deals, tenant, stage, Some(moved), Slots(n, 0, target));
  }

  /** The set of values the source walk hands out. */
  lemma IndexSet(m: nat)
    ensures (set x | x in Indices(m)) == Interval(0, m)
  {
    var v := Indices(m);
    forall x | 0 <= x < m
      ensures x in v
    {
      assert v[x] == x;
    }
  }

  /** `recalculateSortOrderAfterRemoval` (DealService.php:86-97): the m deals
      of the column are re-indexed to exactly 0..m-1, without duplicates, in
      their old relative order; nothing else changes. */
  lemma SourceReflow(deals: seq<Deal>, tenant: TenantId, stage: StageId)
    requires UniqueDealIds(deals)
    ensures var r := RecalculateSortOrderAfterRemoval(deals, tenant, stage);
      && |r| == |deals|
      && (forall i :: 0 <= i < |deals| && !InColumn(deals[i], tenant, stage, None) ==> r[i] == deals[i])
      && (forall i :: 0 <= i < |deals| && InColumn(deals[i], tenant, stage, None) ==>
            r[i] == deals[i].(sortOrder := r[i].sortOrder))
      && (forall i, k :: 0 <= i < |deals| && 0 <= k < |deals|
            && InColumn(deals[i], tenant, stage, None) && InColumn(deals[k], tenant, stage, None)
            && deals[i].sortOrder < deals[k].sortOrder
            ==> r[i].sortOrder < r[k].sortOrder)
      && UniqueDealIds(r)
      && DistinctSortOrders(r, tenant, stage, None)
      && ColumnSortOrders(r, tenant, stage, None) == Interval(0, |Members(deals, tenant, stage, None)|)
  {
    var m := |Members(deals, tenant, stage, None)|;
    var v := Indices(m);
    ColumnFacts(deals, tenant, stage, None);
    RenumberColumn(deals, tenant, stage, None, v);
    var r := RecalculateSortOrderAfterRemoval(deals, tenant, stage);
    RenumberedColumn(deals, r, tenant, stage, None, v);
    IndexSet(m);
  }

  /** Two tables whose rows agree wherever either has a column row select
      the same column rows. */
  lemma {:induction false} MembersAgree(a: seq<Deal>, b: seq<Deal>, tenant: TenantId, stage: StageId,
                                       exA: Option<DealId>, exB: Option<DealId>)
    requires |a| == |b|
    requires forall i :: 0 <= i < |a| ==> (InColumn(a[i], tenant, stage, exA) <==> InColumn(b[i], tenant, stage, exB))
    requires forall i :: 0 <= i < |a| && InColumn(a[i], tenant, stage, exA) ==> a[i] == b[i]
    ensures Members(a, tenant, stage, exA) == Members(b, tenant, stage, exB)
    decreases |a|
  {
    if |a| > 0 {
      assert InColumn(a[0], tenant, stage, exA) <==> InColumn(b[0], tenant, stage, exB);
      forall i | 0 <= i < |a[1..]|
        ensures InColumn(a[1..][i], tenant, stage, exA) <==> InColumn(b[1..][i], tenant, stage, exB)
        ensures InColumn(a[1..][i], tenant, stage, exA) ==> a[1..][i] == b[1..][i]
      {
        assert a[1..][i] == a[i + 1] && b[1..][i] == b[i + 1];
      }
      MembersAgree(a[1..], b[1..], tenant, stage, exA, exB);
    }
  }

  /** The intermediate tables of a move, related to the table before it. */
  lemma MoveSteps(deals: seq<Deal>, deal: Deal, stage: StageId, position: int)
    requires UniqueDealIds(deals) && deal in deals
    ensures var placed := PlaceDeal(deals, deal.id, stage, position);
      && UniqueDealIds(placed)
      && (forall i :: 0 <= i < |deals| ==>
            (InColumn(placed[i], deal.tenant, stage, Some(deal.id)) <==> InColumn(deals[i], deal.tenant, stage, Some(deal.id))))
      && Members(placed, deal.tenant, stage, Some(deal.id)) == Members(deals, deal.tenant, stage, Some(deal.id))
    ensures var reflowed := RecalculateSortOrder(PlaceDeal(deals, deal.id, stage, position), deal.tenant, stage, deal.id, position);
      deal.stage != stage ==>
      && |reflowed| == |deals|
      && UniqueDealIds(reflowed)
      && (forall i :: 0 <= i < |deals| ==>
            (InColumn(reflowed[i], deal.tenant, deal.stage, None) <==> InColumn(deals[i], deal.tenant, deal.stage, Some(deal.id))))
      && (forall i :: 0 <= i < |deals| && InColumn(deals[i], deal.tenant, deal.stage, Some(deal.id)) ==> reflowed[i] == deals[i])
      && Members(reflowed, deal.tenant, deal.stage, None) == Members(deals, deal.tenant, deal.stage, Some(deal.id))
  {
    var t := deal.tenant;
    var placed := PlaceDeal(deals, deal.id, stage, position);
    forall i, k | 0 <= i < k < |placed|
      ensures placed[i].id != placed[k].id
    {
      assert placed[i].id == deals[i].id && placed[k].id == deals[k].id;
    }
    MembersAgree(placed, deals, t, stage, Some(deal.id), Some(deal.id));
    DestinationReflow(placed, t, stage, deal.id, position);
    var reflowed := RecalculateSortOrder(placed, t, stage, deal.id, position);
    if deal.stage != stage {
      forall i | 0 <= i < |deals|
        ensures InColumn(reflowed[i], t, deal.stage, None) <==> InColumn(deals[i], t, deal.stage, Some(deal.id))
        ensures InColumn(deals[i], t, deal.stage, Some(deal.id)) ==> reflowed[i] == deals[i]
      {
        if deals[i].id == deal.id {
          assert !InColumn(placed[i], t, stage, Some(deal.id));
        } else if InColumn(deals[i], t, stage, None) {
          assert InColumn(placed[i], t, stage, Some(deal.id));
        } else {
          assert !InColumn(placed[i], t, stage, Some(deal.id));
        }
      }
      MembersAgree(reflowed, deals, t, deal.stage, None, Some(deal.id));
    }
  }

  /** Two tables that agree on which rows form a column and on those rows'
      sort orders give it the same sort orders. */
  lemma SameColumn(a: seq<Deal>, b: seq<Deal>, tenant: TenantId, stage: StageId, excluded: Option<DealId>)
    requires |a| == |b|
    requires forall i :: 0 <= i < |a| ==> (InColumn(a[i], tenant, stage, excluded) <==> InColumn(b[i], tenant, stage, excluded))
    requires forall i :: 0 <= i < |a| && InColumn(a[i], tenant, stage, excluded) ==> a[i].sortOrder == b[i].sortOrder
    ensures ColumnSortOrders(a, tenant, stage, excluded) == ColumnSortOrders(b, tenant, stage, excluded)
    ensures DistinctSortOrders(a, tenant, stage, excluded) <==> DistinctSortOrders(b, tenant, stage, excluded)
  {
  }

  /** A column seen with and without one of its rows. */
  lemma ColumnWithRow(r: seq<Deal>, tenant: TenantId, stage: StageId, idx: int)
    requires UniqueDealIds(r)
    requires 0 <= idx < |r| && InColumn(r[idx], tenant, stage, None)
    ensures ColumnSortOrders(r, tenant, stage, None)
         == ColumnSortOrders(r, tenant, stage, Some(r[idx].id)) + {r[idx].sortOrder}
    ensures DistinctSortOrders(r, tenant, stage, None) <==>
      DistinctSortOrders(r, tenant, stage, Some(r[idx].id)) && r[idx].sortOrder !in ColumnSortOrders(r, tenant, stage, Some(r[idx].id))
  {
    var id := r[idx].id;
    forall i | 0 <= i < |r| && i != idx
      ensures InColumn(r[i], tenant, stage, None) <==> InColumn(r[i], tenant, stage, Some(id))
    {
      assert r[i].id != id;
    }
    assert r[idx].sortOrder in ColumnSortOrders(r, tenant, stage, None);
  }

  /** `moveToStage` (DealService.php:15-31): the moved deal ends in the target
      stage at the target position with nothing else of it changed; a deal
      in neither the destination column nor (when the stage changed) the
      source column is left as it was. */
  lemma MoveToStagePlacesDeal(deals: seq<Deal>, deal: Deal, stage: StageId, position: int)
    requires UniqueDealIds(deals) && deal in deals
    ensures |MoveToStage(deals, deal, stage, position)| == |deals|
    ensures forall i :: 0 <= i < |deals| && deals[i].id == deal.id ==>
      MoveToStage(deals, deal, stage, position)[i] == deal.(stage := stage, sortOrder := position)
    ensures forall i | 0 <= i < |deals| && deals[i].id != deal.id
                       && !InColumn(deals[i], deal.tenant, stage, None)
                       && (deal.stage == stage || !InColumn(deals[i], deal.tenant, deal.stage, None)) ::
              MoveToStage(deals, deal, stage, position)[i] == deals[i]
  {
    var t := deal.tenant;
    MoveSteps(deals, deal, stage, position);
    var placed := PlaceDeal(deals, deal.id, stage, position);
    DestinationReflow(placed, t, stage, deal.id, position);
    var reflowed := RecalculateSortOrder(placed, t, stage, deal.id, position);
    if deal.stage != stage {
      SourceReflow(reflowed, t, deal.stage);
    }
    var idx := Sorting.IndexOf(deals, deal);
    forall i | 0 <= i < |deals| && deals[i].id == deal.id
      ensures deals[i] == deal
    {
      assert deals[i].id == deals[idx].id;
    }
  }

  /** `moveToStage` and the destination column: the other deals of the
      target column change only in sort order, keep their relative order, no
      two share a value and none holds the target position; with n of them
      they hold 0..n minus the position when it lies in 0..n, else 0..n-1. */
  lemma MoveToStageReflowsDestination(deals: seq<Deal>, deal: Deal, stage: StageId, position: int)
    requires UniqueDealIds(deals) && deal in deals
    ensures var r := MoveToStage(deals, deal, stage, position);
      && |r| == |deals|
      && (forall i :: 0 <= i < |deals| && InColumn(deals[i], deal.tenant, stage, Some(deal.id)) ==>
            r[i] == deals[i].(sortOrder := r[i].sortOrder) && r[i].sortOrder != position)
      && (forall i, k :: 0 <= i < |deals| && 0 <= k < |deals|
            && InColumn(deals[i], deal.tenant, stage, Some(deal.id)) && InColumn(deals[k], deal.tenant, stage, Some(deal.id))
            && deals[i].sortOrder < deals[k].sortOrder
            ==> r[i].sortOrder < r[k].sortOrder)
      && DistinctSortOrders(r, deal.tenant, stage, Some(deal.id))
      && (var n := |Members(deals, deal.tenant, stage, Some(deal.id))|;
          ColumnSortOrders(r, deal.tenant, stage, Some(deal.id))
            == if 0 <= position <= n then Interval(0, n + 1) - {position} else Interval(0, n))
  {
    var t := deal.tenant;
    MoveSteps(deals, deal, stage, position);
    var placed := PlaceDeal(deals, deal.id, stage, position);
    DestinationReflow(placed, t, stage, deal.id, position);
    var reflowed := RecalculateSortOrder(placed, t, stage, deal.id, position);
    var r := MoveToStage(deals, deal, stage, position);
    SourceSparesDestination(deals, deal, stage, position);
    SameColumn(r, reflowed, t, stage, Some(deal.id));
    forall i | 0 <= i < |deals| && InColumn(deals[i], t, stage, Some(deal.id))
      ensures r[i] == deals[i].(sortOrder := r[i].sortOrder) && r[i].sortOrder != position
    {
      assert placed[i] == deals[i];
      assert reflowed[i].sortOrder in ColumnSortOrders(reflowed, t, stage, Some(deal.id));
    }
  }

  /** The source reflow of a move does not touch the destination column. */
  lemma SourceSparesDestination(deals: seq<Deal>, deal: Deal, stage: StageId, position: int)
    requires UniqueDealIds(deals) && deal in deals
    ensures var reflowed := RecalculateSortOrder(PlaceDeal(deals, deal.id, stage, position), deal.tenant, stage, deal.id, position);
      var r := MoveToStage(deals, deal, stage, position);
      && |r| == |reflowed| == |deals|
      && (forall i :: 0 <= i < |r| ==>
            (InColumn(r[i], deal.tenant, stage, Some(deal.id)) <==> InColumn(reflowed[i], deal.tenant, stage, Some(deal.id))))
      && (forall i :: 0 <= i < |r| && InColumn(reflowed[i], deal.tenant, stage, Some(deal.id)) ==> r[i] == reflowed[i])
  {
    var t := deal.tenant;
    MoveSteps(deals, deal, stage, position);
    var placed := PlaceDeal(deals, deal.id, stage, position);
    DestinationReflow(placed, t, stage, deal.id, position);
    var reflowed := RecalculateSortOrder(placed, t, stage, deal.id, position);
    if deal.stage != stage {
      SourceReflow(reflowed, t, deal.stage);
    }
  }

  /** `moveToStage` with a position within 0..n, n the number of other deals
      of the target column: afterwards the column holds exactly 0..n, each
      value once. */
  lemma MoveToStageDenseColumn(deals: seq<Deal>, deal: Deal, stage: StageId, position: int)
    requires UniqueDealIds(deals) && deal in deals
    requires 0 <= position <= |Members(deals, deal.tenant, stage, Some(deal.id))|
    ensures var r := MoveToStage(deals, deal, stage, position);
      && ColumnSortOrders(r, deal.tenant, stage, None) == Interval(0, |Members(deals, deal.tenant, stage, Some(deal.id))| + 1)
      && DistinctSortOrders(r, deal.tenant, stage, None)
  {
    var r := MoveToStage(deals, deal, stage, position);
    MoveToStagePlacesDeal(deals, deal, stage, position);
    MoveToStageReflowsDestination(deals, deal, stage, position);
    MoveToStageIds(deals, deal, stage, position);
    var idx := Sorting.IndexOf(deals, deal);
    ColumnWithRow(r, deal.tenant, stage, idx);
  }

  /** `moveToStage` with a position beyond the column's length leaves a gap:
      the column of n + 1 deals lacks the value n. */
  lemma MoveToStageLeavesGap(deals: seq<Deal>, deal: Deal, stage: StageId, position: int)
    requires UniqueDealIds(deals) && deal in deals
    requires position > |Members(deals, deal.tenant, stage, Some(deal.id))|
    ensures var r := MoveToStage(deals, deal, stage, position);
      && position in ColumnSortOrders(r, deal.tenant, stage, None)
      && |Members(deals, deal.tenant, stage, Some(deal.id))| !in ColumnSortOrders(r, deal.tenant, stage, None)
  {
    var r := MoveToStage(deals, deal, stage, position);
    MoveToStagePlacesDeal(deals, deal, stage, position);
    MoveToStageReflowsDestination(deals, deal, stage, position);
    MoveToStageIds(deals, deal, stage, position);
    var idx := Sorting.IndexOf(deals, deal);
    ColumnWithRow(r, deal.tenant, stage, idx);
  }

  /** A move keeps every row's id. */
  lemma MoveToStageIds(deals: seq<Deal>, deal: Deal, stage: StageId, position: int)
    requires UniqueDealIds(deals) && deal in deals
    ensures |MoveToStage(deals, deal, stage, position)| == |deals|
    ensures UniqueDealIds(MoveToStage(deals, deal, stage, position))
  {
    var t := deal.tenant;
    MoveSteps(deals, deal, stage, position);
    var placed := PlaceDeal(deals, deal.id, stage, position);
    DestinationReflow(placed, t, stage, deal.id, position);
    var reflowed := RecalculateSortOrder(placed, t, stage, deal.id, position);
    if deal.stage != stage {
      SourceReflow(reflowed, t, deal.stage);
    }
  }

  /** `moveToStage` and the source column (DealService.php:27-29): when the
      stage changed, the deals left behind change only in sort order, keep
      their relative order and hold exactly 0..m-1, each value once. */
  lemma MoveToStageReflowsSource(deals: seq<Deal>, deal: Deal, stage: StageId, position: int)
    requires UniqueDealIds(deals) && deal in deals
    requires deal.stage != stage
    ensures var r := MoveToStage(deals, deal, stage, position);
      && |r| == |deals|
      && (forall i :: 0 <= i < |deals| && InColumn(deals[i], deal.tenant, deal.stage, Some(deal.id)) ==>
            r[i] == deals[i].(sortOrder := r[i].sortOrder))
      && (forall i, k :: 0 <= i < |deals| && 0 <= k < |deals|
            && InColumn(deals[i], deal.tenant, deal.stage, Some(deal.id))
            && InColumn(deals[k], deal.tenant, deal.stage, Some(deal.id))
            && deals[i].sortOrder < deals[k].sortOrder
            ==> r[i].sortOrder < r[k].sortOrder)
      && DistinctSortOrders(r, deal.tenant, deal.stage, None)
      && ColumnSortOrders(r, deal.tenant, deal.stage, None)
           == Interval(0, |Members(deals, deal.tenant, deal.stage, Some(deal.id))|)
  {
    var t := deal.tenant;
    MoveSteps(deals, deal, stage, position);
    var placed := PlaceDeal(deals, deal.id, stage, position);
    DestinationReflow(placed, t, stage, deal.id, position);
    var reflowed := RecalculateSortOrder(placed, t, stage, deal.id, position);
    SourceReflow(reflowed, t, deal.stage);
  }

  // ---------------------------------------------------------------------
  // Terminal moves, notifications and reassignment

  /** `$deal->update([...])`: the row with primary key `id` is rewritten by
      `f`, every other row is left alone. */
  function UpdateDeal(deals: seq<Deal>, id: DealId, f: Deal -> Deal): (r: seq<Deal>)
    ensures |r| == |deals|
    ensures forall i :: 0 <= i < |deals| ==> r[i] == if deals[i].id == id then f(deals[i]) else deals[i]
  {
    seq(|deals|, i requires 0 <= i < |deals| => if deals[i].id == id then f(deals[i]) else deals[i])
  }

  predicate IsBusinessOwnerOf(u: User, tenant: TenantId)
  {
    u.tenant == tenant && u.role == BusinessOwner
  }

  /** `notifyBusinessOwners`: one outcome notification per Business Owner
      of the deal's tenant, in the users table's order. */
  function NotifyBusinessOwners(users: seq<User>, deal: Deal, outcome: Outcome): (r: seq<Notification>)
    ensures |r| <= |users|
    ensures forall n :: n in r ==> n.kind == DealOutcome(deal.id, outcome)
    ensures forall u :: u in users && IsBusinessOwnerOf(u, deal.tenant) ==>
      Notification(u.id, DealOutcome(deal.id, outcome)) in r
    ensures forall n :: n in r ==> exists u :: u in users && IsBusinessOwnerOf(u, deal.tenant) && u.id == n.recipient
    decreases |users|
  {
    if |users| == 0 then []
    else
      var rest := NotifyBusinessOwners(users[1..], deal, outcome);
      assert forall u :: u in users[1..] ==> u in users;
      if IsBusinessOwnerOf(users[0], deal.tenant) then [Notification(users[0].id, DealOutcome(deal.id, outcome))] + rest
      else rest
  }

  /** No recipient appears twice in a notification list. */
  predicate DistinctRecipients(ns: seq<Notification>)
  {
    forall i, j :: 0 <= i < j < |ns| ==> ns[i].recipient != ns[j].recipient
  }

  /** With unique user ids no Business Owner is notified twice. */
  lemma {:induction false} NotifiesEachOwnerOnce(users: seq<User>, deal: Deal, outcome: Outcome)
    requires UniqueUserIds(users)
    ensures DistinctRecipients(NotifyBusinessOwners(users, deal, outcome))
    decreases |users|
  {
    if |users| > 0 {
      var rest := NotifyBusinessOwners(users[1..], deal, outcome);
      NotifiesEachOwnerOnce(users[1..], deal, outcome);
      if IsBusinessOwnerOf(users[0], deal.tenant) {
        var head := Notification(users[0].id, DealOutcome(deal.id, outcome));
        assert NotifyBusinessOwners(users, deal, outcome) == [head] + rest;
        HeadNotInRest(users, deal, outcome);
        PrependDistinct(head, rest);
      } else {
        assert NotifyBusinessOwners(users, deal, outcome) == rest;
      }
    }
  }

  /** The first user is not among the recipients the rest of the table gives. */
  lemma HeadNotInRest(users: seq<User>, deal: Deal, outcome: Outcome)
    requires UniqueUserIds(users) && |users| > 0
    ensures forall n :: n in NotifyBusinessOwners(users[1..], deal, outcome) ==> n.recipient != users[0].id
  {
    forall n | n in NotifyBusinessOwners(users[1..], deal, outcome)
      ensures n.recipient != users[0].id
    {
      var u :| u in users[1..] && IsBusinessOwnerOf(u, deal.tenant) && u.id == n.recipient;
      var p := Sorting.IndexOf(users[1..], u);
      assert users[p + 1] == u;
    }
  }

  lemma PrependDistinct(head: Notification, rest: seq<Notification>)
    requires DistinctRecipients(rest)
    requires forall n :: n in rest ==> n.recipient != head.recipient
    ensures DistinctRecipients([head] + rest)
  {
    var r := [head] + rest;
    forall i, j | 0 <= i < j < |r|
      ensures r[i].recipient != r[j].recipient
    {
      assert r[j] == rest[j - 1];
      if i > 0 {
        assert r[i] == rest[i - 1];
      }
    }
  }

  /** `markAsWon` (DealService.php:33-40): the deal moves to the first stage
      named "Won"; its sort order and loss reason stay as they were. */
  function MarkAsWon(stages: seq<Stage>, users: seq<User>, deals: seq<Deal>, deal: Deal): (r: Result<Change, ServiceError>)
    ensures r.Failure? <==> forall st :: st in stages ==> st.name != WonStageName
    ensures r.Failure? ==> r.error == StageNotFound(WonStageName)
    ensures r.Success? ==> exists st :: (st in stages && st.name == WonStageName
      && |r.value.deals| == |deals|
      && (forall i :: 0 <= i < |deals| ==>
            r.value.deals[i] == if deals[i].id == deal.id then deals[i].(stage := st.id) else deals[i]))
    ensures r.Success? ==> r.value.notifications == NotifyBusinessOwners(users, deal, WonOutcome)
  {
    match FirstStageNamed(stages, WonStageName)
    case None => Failure(StageNotFound(WonStageName))
    case Some(won) =>
      Success(Change(UpdateDeal(deals, deal.id, (d: Deal) => d.(stage := won.id)),
                     NotifyBusinessOwners(users, deal, WonOutcome)))
  }

  /** `markAsLost` (DealService.php:42-52): the deal moves to the first stage
      named "Lost" and stores the reason; its sort order stays. */
  function MarkAsLost(stages: seq<Stage>, users: seq<User>, deals: seq<Deal>, deal: Deal, reason: string): (r: Result<Change, ServiceError>)
    ensures r.Failure? <==> forall st :: st in stages ==> st.name != LostStageName
    ensures r.Failure? ==> r.error == StageNotFound(LostStageName)
    ensures r.Success? ==> exists st :: (st in stages && st.name == LostStageName
      && |r.value.deals| == |deals|
      && (forall i :: 0 <= i < |deals| ==>
            r.value.deals[i] == if deals[i].id == deal.id then deals[i].(stage := st.id, lossReason := Some(reason)) else deals[i]))
    ensures r.Success? ==> r.value.notifications == NotifyBusinessOwners(users, deal, LostOutcome)
  {
    match FirstStageNamed(stages, LostStageName)
    case None => Failure(StageNotFound(LostStageName))
    case Some(lost) =>
      Success(Change(UpdateDeal(deals, deal.id, (d: Deal) => d.(stage := lost.id, lossReason := Some(reason))),
                     NotifyBusinessOwners(users, deal, LostOutcome)))
  }

  /** `requiresLossReason` (DealService.php:64-67): some stage has this id
      and the name "Lost". */
  function RequiresLossReason(stages: seq<Stage>, id: StageId): (r: bool)
    ensures r <==> exists st :: st in stages && st.id == id && st.name == LostStageName
    decreases |stages|
  {
    if |stages| == 0 then false
    else
      assert forall st :: st in stages[1..] ==> st in stages;
      (stages[0].id == id && stages[0].name == LostStageName) || RequiresLossReason(stages[1..], id)
  }

  /** The stage `markAsLost` moves a deal to is one that asks for a loss
      reason, and the stage `markAsWon` moves it to is not. */
  lemma TerminalStagesAndLossReason(stages: seq<Stage>, users: seq<User>, deals: seq<Deal>, deal: Deal, reason: string)
    requires UniqueStageIds(stages)
    requires deal in deals
    ensures MarkAsLost(stages, users, deals, deal, reason).Success? ==>
      var i := Sorting.IndexOf(deals, deal);
      RequiresLossReason(stages, MarkAsLost(stages, users, deals, deal, reason).value.deals[i].stage)
    ensures MarkAsWon(stages, users, deals, deal).Success? ==>
      var i := Sorting.IndexOf(deals, deal);
      !RequiresLossReason(stages, MarkAsWon(stages, users, deals, deal).value.deals[i].stage)
  {
    var i := Sorting.IndexOf(deals, deal);
    var won := MarkAsWon(stages, users, deals, deal);
    if won.Success? {
      var st :| st in stages && st.name == WonStageName
        && (forall k :: 0 <= k < |deals| ==>
              won.value.deals[k] == if deals[k].id == deal.id then deals[k].(stage := st.id) else deals[k]);
      assert won.value.deals[i].stage == st.id;
    }
  }

  /** `markAsWon` after `markAsLost` leaves the loss reason in place: the
      row ends in the Won stage with a non-null `loss_reason`. */
  lemma WonAfterLostKeepsReason(stages: seq<Stage>, users: seq<User>, deals: seq<Deal>, deal: Deal, reason: string)
    requires deal in deals
    requires exists st :: st in stages && st.name == LostStageName
    requires exists st :: st in stages && st.name == WonStageName
    ensures var lost := MarkAsLost(stages, users, deals, deal, reason).value.deals;
      var i := Sorting.IndexOf(deals, deal);
      var won := MarkAsWon(stages, users, lost, lost[i]);
      && won.Success?
      && won.value.deals[i].lossReason == Some(reason)
      && won.value.deals[i].stage == FirstStageNamed(stages, WonStageName).value.id
  {
    var lost := MarkAsLost(stages, users, deals, deal, reason).value.deals;
    var i := Sorting.IndexOf(deals, deal);
    assert lost[i].lossReason == Some(reason);
  }

  /** Dragging a lost deal to another column keeps its loss reason: the
      move writes only the stage and the sort orders. */
  lemma MoveOutOfLostKeepsReason(stages: seq<Stage>, users: seq<User>, deals: seq<Deal>, deal: Deal,
                                 reason: string, stage: StageId, position: int)
    requires deal in deals
    requires exists st :: st in stages && st.name == LostStageName
    ensures var lost := MarkAsLost(stages, users, deals, deal, reason).value.deals;
      var i := Sorting.IndexOf(deals, deal);
      var moved := MoveToStage(lost, lost[i], stage, position);
      && moved[i].stage == stage
      && moved[i].lossReason == Some(reason)
  {
  }

  /** `reassign` (DealService.php:54-62): only the deal's owner changes; the
      new owner is told once, unless they made the change themselves. */
  function Reassign(deals: seq<Deal>, deal: Deal, newOwner: User, actor: User): (r: Change)
    ensures |r.deals| == |deals|
    ensures forall i :: 0 <= i < |deals| ==>
      r.deals[i] == if deals[i].id == deal.id then deals[i].(owner := newOwner.id) else deals[i]
    ensures |r.notifications| == if newOwner.id != actor.id then 1 else 0
    ensures forall n :: n in r.notifications ==> n == Notification(newOwner.id, LeadAssigned(deal.lead, deal.id))
  {
    Change(UpdateDeal(deals, deal.id, (d: Deal) => d.(owner := newOwner.id)),
           if newOwner.id != actor.id then [Notification(newOwner.id, LeadAssigned(deal.lead, deal.id))] else [])
  }

  /** Reassigning a deal to the same owner twice leaves the table as once. */
  lemma ReassignIdempotent(deals: seq<Deal>, deal: Deal, newOwner: User, actor: User)
    ensures var once := Reassign(deals, deal, newOwner, actor).deals;
      Reassign(once, deal, newOwner, actor).deals == once
  {
  }

  /** Reassignment leaves every column's sort orders, and their distinctness,
      as they were. */
  lemma ReassignKeepsColumns(deals: seq<Deal>, deal: Deal, newOwner: User, actor: User,
                             tenant: TenantId, stage: StageId, excluded: Option<DealId>)
    ensures var r := Reassign(deals, deal, newOwner, actor).deals;
      && ColumnSortOrders(r, tenant, stage, excluded) == ColumnSortOrders(deals, tenant, stage, excluded)
      && (DistinctSortOrders(r, tenant, stage, excluded) <==> DistinctSortOrders(deals, tenant, stage, excluded))
  {
    var r := Reassign(deals, deal, newOwner, actor).deals;
    forall i | 0 <= i < |deals|
      ensures InColumn(r[i], tenant, stage, excluded) <==> InColumn(deals[i], tenant, stage, excluded)
      ensures r[i].sortOrder == deals[i].sortOrder
    {
    }
    SameColumn(r, deals, tenant, stage, excluded);
  }
}

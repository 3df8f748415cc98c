/** The anchor worker as it changes the tables: sealing, submitting and confirming batches. */
module AnchorStore {
  import opened Common
  import opened Anchor
  import Merkle

  datatype SealOutcome = NothingPending | Sealed | IdTaken | Incomplete

  /** A row of a batch as the leaf query returns it. */
  datatype Slot = Slot(key: Key, index: nat, leaf: Merkle.Digest)

  /** What the chain answers about a submitted transaction. */
  datatype View =
    | Missing
    | Unmined
    | Mined(data: Merkle.Digest, ok: bool, toSelf: bool, block: nat, finalized: Option<nat>, canonical: bool)

  predicate Matches(view: View, root: Merkle.Digest) {
    view.Mined? && view.ok && view.toSelf && view.data == root
  }

  predicate Final(view: View) {
    view.Mined? && view.finalized.Some? && view.block <= view.finalized.value && view.canonical
  }

  lemma {:induction false} EarliestExists(items: set<Item>) returns (x: Item)
    requires items != {} && Comparable(items)
    ensures x in items && forall y :: y in items && y != x ==> Before(x, y)
    decreases |items|
  {
    var any :| any in items;
    x := any;
    if items != {any} {
      var other := EarliestExists(items - {any});
      x := if Before(other, any) then other else any;
      assert forall y :: y in items ==> y == any || y == other || Before(other, y);
    } else {
      assert forall y :: y in items ==> y == any;
    }
  }

  predicate Distinct(items: seq<Item>) {
    forall i, j :: 0 <= i < j < |items| ==> items[i] != items[j]
  }

  /** Sorting by order time, source name and id. */
  method Sort(items: seq<Item>) returns (sorted: seq<Item>)
    requires Comparable(Elements(items)) && Distinct(items)
    ensures InOrder(sorted) && Elements(sorted) == Elements(items) && |sorted| == |items|
  {
    sorted := [];
    for n := 0 to |items|
      invariant InOrder(sorted) && |sorted| == n
      invariant forall x :: x in sorted <==> x in items[..n]
    {
      var x := items[n];
      var i := 0;
      while i < |sorted| && Before(sorted[i], x)
        invariant 0 <= i <= |sorted| && forall j :: 0 <= j < i ==> Before(sorted[j], x)
      {
        i := i + 1;
      }
      assert x !in items[..n];
      assert i < |sorted| ==> sorted[i] in items[..n] && Before(x, sorted[i]);
      assert items[..n + 1] == items[..n] + [x];
      sorted := sorted[..i] + [x] + sorted[i..];
    }
    assert items[..|items|] == items;
  }

  /** Truncating a sorted list of items leaves the first of them. */
  lemma PrefixIsFirst(sorted: seq<Item>, n: nat)
    requires InOrder(sorted)
    ensures IsFirst(if |sorted| > n then sorted[..n] else sorted, Elements(sorted), n)
  {
    if |sorted| > n {
      assert forall y :: y in sorted && y !in sorted[..n] ==> exists j :: n <= j < |sorted| && sorted[j] == y;
    }
  }

  lemma InOrderIsDistinct(items: seq<Item>)
    requires InOrder(items)
    ensures Distinct(items)
  {
  }

  function Members(sources: seq<Id>): set<Id> {
    set s | s in sources
  }

  /** How many assignments name a row that is there and not anchored yet. */
  function PendingCount(rows: map<Key, Row>, assignments: seq<(Key, nat)>): (count: nat)
    ensures count <= |assignments|
    ensures count == |assignments| <==> forall a :: a in assignments ==> a.0 in rows && rows[a.0].batch.None?
    decreases |assignments|
  {
    if assignments == [] then 0
    else
      var (k, _) := assignments[|assignments| - 1];
      assert assignments == assignments[..|assignments| - 1] + [assignments[|assignments| - 1]];
      PendingCount(rows, assignments[..|assignments| - 1]) + if k in rows && rows[k].batch.None? then 1 else 0
  }

  lemma CountOne(rows: map<Key, Row>, assignments: seq<(Key, nat)>, i: nat)
    requires i < |assignments|
    ensures PendingCount(rows, assignments[..i + 1])
            == PendingCount(rows, assignments[..i])
               + if assignments[i].0 in rows && rows[assignments[i].0].batch.None? then 1 else 0
  {
    assert assignments[..i + 1][..i] == assignments[..i];
  }

  /** The groups hold exactly the chosen rows with their positions, under their source. */
  ghost predicate GroupsOf(bySource: map<Id, seq<(Key, nat)>>, chosen: seq<Item>) {
    && (forall name, j :: name in bySource && 0 <= j < |bySource[name]| ==>
          var (k, i) := bySource[name][j]; i < |chosen| && chosen[i].key == k && k.source == name)
    && (forall name, j, l ::
        name in bySource && 0 <= j < l < |bySource[name]| ==> bySource[name][j].0 != bySource[name][l].0)
    && (forall i :: 0 <= i < |chosen| ==>
        chosen[i].key.source in bySource && (chosen[i].key, i) in bySource[chosen[i].key.source])
  }

  lemma GroupOne(bySource: map<Id, seq<(Key, nat)>>, chosen: seq<Item>, x: Item)
    requires GroupsOf(bySource, chosen) && forall y :: y in chosen ==> y.key != x.key
    ensures var before := if x.key.source in bySource then bySource[x.key.source] else [];
            GroupsOf(bySource[x.key.source := before + [(x.key, |chosen|)]], chosen + [x])
  {
    var before := if x.key.source in bySource then bySource[x.key.source] else [];
    var after := bySource[x.key.source := before + [(x.key, |chosen|)]];
    forall i | 0 <= i < |chosen + [x]|
      ensures (chosen + [x])[i].key.source in after && ((chosen + [x])[i].key, i) in after[(chosen + [x])[i].key.source]
    {
      if i == |chosen| {
        assert after[x.key.source][|before|] == (x.key, |chosen|);
      } else {
        assert (chosen[i].key, i) in bySource[chosen[i].key.source];
      }
    }
    forall name, j | name in after && 0 <= j < |after[name]|
      ensures var (k, i) := after[name][j]; i < |chosen| + 1 && (chosen + [x])[i].key == k && k.source == name
    {
      if name in bySource && j < |bySource[name]| {
        assert after[name][j] == bySource[name][j];
      }
    }
    forall name, j, l | name in after && 0 <= j < l < |after[name]| ensures after[name][j].0 != after[name][l].0 {
      if name in bySource {
        assert after[name][j] == bySource[name][j];
        assert bySource[name][j].0 == chosen[bySource[name][j].1].key;
      }
    }
  }

  lemma ChosenIsEmptyIff(rows: map<Key, Row>, chosen: seq<Item>)
    requires IsFirst(chosen, Pending(rows), MAX_BATCH_LEAVES)
    ensures chosen == [] <==> Pending(rows) == {}
  {
    assert chosen != [] ==> chosen[0] in Pending(rows);
  }

  function SlotOf(rows: map<Key, Row>, k: Key): Slot
    requires k in rows && rows[k].leaf.Some?
  {
    Slot(k, rows[k].index, rows[k].leaf.value)
  }

  predicate Ascending(slots: seq<Slot>) {
    forall i, j :: 0 <= i < j < |slots| ==> slots[i].index <= slots[j].index
  }

  method PositionFor(sorted: seq<Slot>, index: nat) returns (i: nat)
    requires Ascending(sorted)
    ensures i <= |sorted| && (forall j :: 0 <= j < i ==> sorted[j].index <= index)
    ensures forall j :: i <= j < |sorted| ==> index < sorted[j].index
  {
    i := 0;
    while i < |sorted| && sorted[i].index <= index
      invariant 0 <= i <= |sorted| && forall j :: 0 <= j < i ==> sorted[j].index <= index
    {
      i := i + 1;
    }
  }

  predicate KeysDiffer(slots: seq<Slot>) {
    forall i, j :: 0 <= i < j < |slots| ==> slots[i].key != slots[j].key
  }

  lemma InsertKeepsKeysDifferent(slots: seq<Slot>, i: nat, x: Slot)
    requires i <= |slots| && KeysDiffer(slots) && forall s :: s in slots ==> s.key != x.key
    ensures KeysDiffer(slots[..i] + [x] + slots[i..])
  {
  }

  method SortSlots(slots: seq<Slot>) returns (sorted: seq<Slot>)
    requires KeysDiffer(slots)
    ensures Ascending(sorted) && KeysDiffer(sorted) && |sorted| == |slots|
    ensures forall s :: s in sorted <==> s in slots
  {
    sorted := [];
    for n := 0 to |slots|
      invariant Ascending(sorted) && KeysDiffer(sorted) && |sorted| == n
      invariant forall s :: s in sorted <==> s in slots[..n]
    {
      var x := slots[n];
      var i := PositionFor(sorted, x.index);
      assert forall s :: s in sorted ==> s.key != x.key;
      InsertKeepsKeysDifferent(sorted, i, x);
      assert slots[..n + 1] == slots[..n] + [x];
      sorted := sorted[..i] + [x] + sorted[i..];
    }
    assert slots[..|slots|] == slots;
  }

  /** The sorted indices count up from zero to the expected size exactly when the rows are complete. */
  lemma SlotsDecide(rows: map<Key, Row>, b: Id, count: nat, sorted: seq<Slot>)
    requires forall k :: k in rows && rows[k].batch == Some(b) ==> rows[k].leaf.Some?
    requires Ascending(sorted)
    requires forall s :: s in sorted <==> s.key in rows && rows[s.key].batch == Some(b) && s == SlotOf(rows, s.key)
    requires forall i, j :: 0 <= i < j < |sorted| ==> sorted[i].key != sorted[j].key
    ensures (|sorted| == count && forall j :: 0 <= j < |sorted| ==> sorted[j].index == j) <==> Complete(rows, b, count)
  {
    assert forall k :: k in rows && rows[k].batch == Some(b) ==> SlotOf(rows, k) in sorted;
    if |sorted| == count && forall j :: 0 <= j < |sorted| ==> sorted[j].index == j {
      forall i | 0 <= i < count ensures HasIndex(rows, b, i) {
        assert sorted[i] in sorted;
      }
    }
    if Complete(rows, b, count) {
      CompleteCountsUp(rows, b, count, sorted, |sorted|);
      assert |sorted| < count ==> HasIndex(rows, b, |sorted|);
      assert |sorted| > 0 ==> sorted[|sorted| - 1] in sorted;
    }
  }

  lemma IndexReached(rows: map<Key, Row>, b: Id, count: nat, sorted: seq<Slot>, i: nat)
    requires Complete(rows, b, count) && i < count
    requires forall s :: s in sorted <==> s.key in rows && rows[s.key].batch == Some(b) && s == SlotOf(rows, s.key)
    ensures exists j :: 0 <= j < |sorted| && sorted[j].index == i
  {
    assert HasIndex(rows, b, i);
    var k :| k in rows && rows[k].batch == Some(b) && rows[k].index == i;
    assert SlotOf(rows, k) in sorted;
  }

  lemma {:induction false} CompleteCountsUp(rows: map<Key, Row>, b: Id, count: nat, sorted: seq<Slot>, n: nat)
    requires n <= |sorted| && Complete(rows, b, count) && Ascending(sorted)
    requires forall s :: s in sorted <==> s.key in rows && rows[s.key].batch == Some(b) && s == SlotOf(rows, s.key)
    requires forall i, j :: 0 <= i < j < |sorted| ==> sorted[i].key != sorted[j].key
    ensures forall j :: 0 <= j < n ==> sorted[j].index == j
    decreases n
  {
    if n > 0 {
      CompleteCountsUp(rows, b, count, sorted, n - 1);
      var s := sorted[n - 1];
      assert s in sorted;
      assert n > 1 ==> sorted[n - 2] in sorted && sorted[n - 2].index != s.index;
      assert n - 1 <= s.index < count;
      IndexReached(rows, b, count, sorted, n - 1);
      var j :| 0 <= j < |sorted| && sorted[j].index == n - 1;
      assert j >= n - 1;
    }
  }

  function UnsentIn(batches: map<Id, Batch>, locked: set<Id>, now: int): set<Id> {
    set b | b in batches && b !in locked && Unsent(batches[b], now)
  }

  /** Created earlier, or at the same time under a smaller id. */
  predicate Elder(batches: map<Id, Batch>, a: Id, b: Id)
    requires a in batches && b in batches
  {
    batches[a].createdAt < batches[b].createdAt || (batches[a].createdAt == batches[b].createdAt && a < b)
  }

  /** The oldest of some batches, or none if there are none. */
  ghost predicate IsOldest(batches: map<Id, Batch>, ids: set<Id>, oldest: Option<Id>)
    requires ids <= batches.Keys
  {
    if oldest.None? then ids == {}
    else oldest.value in ids && forall b :: b in ids && b != oldest.value ==> Elder(batches, oldest.value, b)
  }

  function OlderOf(batches: map<Id, Batch>, oldest: Option<Id>, b: Id): Option<Id>
    requires b in batches && (oldest.Some? ==> oldest.value in batches)
  {
    if oldest.None? || Elder(batches, b, oldest.value) then Some(b) else oldest
  }

  lemma NoneIsOldest(batches: map<Id, Batch>)
    ensures IsOldest(batches, {}, None)
  {
  }

  lemma OldestOfMore(batches: map<Id, Batch>, ids: set<Id>, oldest: Option<Id>, b: Id)
    requires ids <= batches.Keys && b in batches && b !in ids && IsOldest(batches, ids, oldest)
    ensures oldest.Some? ==> oldest.value in batches
    ensures IsOldest(batches, ids + {b}, OlderOf(batches, oldest, b))
  {
  }

  /** Assigning puts each chosen row at its place in the batch, and touches no other. */
  lemma ChosenSit(rows: map<Key, Row>, chosen: seq<Item>, b: Id)
    requires forall i, j :: 0 <= i < j < |chosen| ==> chosen[i].key != chosen[j].key
    requires forall x :: x in chosen ==> x in Pending(rows)
    ensures var after := AssignRows(rows, chosen, b);
            && after.Keys == rows.Keys
            && (forall i :: 0 <= i < |chosen| ==> SitsAt(after, chosen[i].key, b, i))
            && forall k :: k in after && !Selected(chosen, k) ==> after[k] == rows[k]
  {
    hide IndexOf;
    forall i | 0 <= i < |chosen| ensures SitsAt(AssignRows(rows, chosen, b), chosen[i].key, b, i) {
      assert chosen[i] in Pending(rows);
      IndexOfOnly(chosen, i);
    }
  }

  class Anchors {
    const sources: seq<Id>

    var rows: map<Key, Row>
    var batches: map<Id, Batch>
    ghost var chain: map<Id, Tx>
    ghost var order: map<Id, seq<Item>>

    ghost function Model(): Db
      reads this
    {
      Db(rows, batches, chain, order)
    }

    /** Every row is in the table of a registered source, and each source is registered once. */
    ghost predicate Valid()
      reads this
    {
      && (forall k :: k in rows ==> k.source in sources)
      && (forall i, j :: 0 <= i < j < |sources| ==> sources[i] != sources[j])
    }

    constructor (sources: seq<Id>)
      requires forall i, j :: 0 <= i < j < |sources| ==> sources[i] != sources[j]
      ensures Valid() && Model() == EMPTY && this.sources == sources
    {
      this.sources := sources;
      rows, batches, chain, order := map[], map[], map[], map[];
    }

    method Insert(k: Key, orderedAt: int, leaf: Option<Merkle.Digest>)
      requires Valid() && k.source in sources
      modifies this
      ensures Valid() && Model() == Anchor.Apply(old(Model()), InsertOp(k, orderedAt, leaf))
    {
      if k !in rows {
        rows := rows[k := Row(orderedAt, leaf, None, 0)];
      }
    }

    /** The first unanchored committed rows of one source. */
    method PendingRows(source: Id, limit: nat) returns (items: seq<Item>)
      ensures IsFirst(items, PendingOf(rows, source), limit)
    {
      var rest := PendingOf(rows, source);
      items := [];
      PendingIsComparable(rows);
      while rest != {} && |items| < limit
        invariant InOrder(items) && |items| <= limit
        invariant forall x :: x in PendingOf(rows, source) <==> x in rest || x in items
        invariant forall x, y :: x in items && y in rest ==> Before(x, y)
        invariant forall x :: x in items ==> x !in rest
        decreases |rest|
      {
        assert rest <= Pending(rows);
        ghost var earliest := EarliestExists(rest);
        var x :| x in rest && forall y :: y in rest && y != x ==> Before(x, y);
        items := items + [x];
        rest := rest - {x};
      }
    }

    /** The pending rows of all sources, at most a batch full of each. */
    method Collect() returns (taken: seq<Item>, ghost parts: map<Id, seq<Item>>)
      requires Valid()
      ensures Distinct(taken) && parts.Keys == Members(sources)
      ensures forall s :: s in parts ==> IsFirst(parts[s], PendingOf(rows, s), MAX_BATCH_LEAVES)
      ensures forall x :: x in taken <==> exists s :: s in parts && x in parts[s]
    {
      taken, parts := [], map[];
      for i := 0 to |sources|
        invariant forall s :: s in parts <==> s in sources[..i]
        invariant forall s :: s in parts ==> IsFirst(parts[s], PendingOf(rows, s), MAX_BATCH_LEAVES)
        invariant Distinct(taken) && forall x :: x in taken ==> x.key.source in parts
        invariant forall x :: x in taken <==> exists s :: s in parts && x in parts[s]
      {
        var part := PendingRows(sources[i], MAX_BATCH_LEAVES);
        assert sources[i] !in sources[..i];
        assert forall x :: x in part ==> x.key.source == sources[i];
        InOrderIsDistinct(part);
        parts := parts[sources[i] := part];
        taken := taken + part;
        assert sources[..i + 1] == sources[..i] + [sources[i]];
      }
      assert sources[..|sources|] == sources;
    }

    /** The rows of one source take their batch and index, those already anchored stay. */
    method Assign(b: Id, assignments: seq<(Key, nat)>) returns (covered: nat)
      requires forall i, j :: 0 <= i < j < |assignments| ==> assignments[i].0 != assignments[j].0
      modifies this`rows
      ensures rows.Keys == old(rows).Keys
      ensures forall k :: k in rows && (forall a :: a in assignments ==> a.0 != k) ==> rows[k] == old(rows)[k]
      ensures forall a :: a in assignments && a.0 in rows ==>
                rows[a.0] == if old(rows)[a.0].batch.None?
                    then old(rows)[a.0].(batch := Some(b), index := a.1) else old(rows)[a.0]
      ensures covered == PendingCount(old(rows), assignments)
    {
      hide PendingCount;
      covered := 0;
      for i := 0 to |assignments|
        invariant rows.Keys == old(rows).Keys
        invariant forall k ::
            k in rows && (forall j :: 0 <= j < i ==> assignments[j].0 != k) ==> rows[k] == old(rows)[k]
        invariant forall j :: 0 <= j < i && assignments[j].0 in rows ==>
                    rows[assignments[j].0] == if old(rows)[assignments[j].0].batch.None?
                                              then old(rows)[assignments[j].0].(batch := Some(b),
                                                  index := assignments[j].1)
                                              else old(rows)[assignments[j].0]
        invariant covered == PendingCount(old(rows), assignments[..i])
      {
        CountOne(old(rows), assignments, i);
        var (k, index) := assignments[i];
        if k in rows && rows[k].batch.None? {
          rows := rows[k := rows[k].(batch := Some(b), index := index)];
          covered := covered + 1;
        }
      }
      assert assignments[..|assignments|] == assignments;
    }

    /** Groups the chosen rows by source, keeping their positions. */
    method Group(chosen: seq<Item>) returns (bySource: map<Id, seq<(Key, nat)>>)
      requires forall i, j :: 0 <= i < j < |chosen| ==> chosen[i].key != chosen[j].key
      ensures GroupsOf(bySource, chosen)
    {
      bySource := map[];
      for n := 0 to |chosen|
        invariant GroupsOf(bySource, chosen[..n])
      {
        var k := chosen[n].key;
        var before := if k.source in bySource then bySource[k.source] else [];
        GroupOne(bySource, chosen[..n], chosen[n]);
        assert chosen[..n + 1] == chosen[..n] + [chosen[n]];
        bySource := bySource[k.source := before + [(k, n)]];
      }
      assert chosen[..|chosen|] == chosen;
    }

    /** Assigns every chosen row, source by source; complete says whether every count matched. */
    method AssignAll(b: Id, chosen: seq<Item>) returns (complete: bool)
      requires forall i, j :: 0 <= i < j < |chosen| ==> chosen[i].key != chosen[j].key
      requires forall x :: x in chosen ==> x in Pending(rows)
      modifies this`rows
      ensures rows == AssignRows(old(rows), chosen, b) && complete
    {
      hide IndexOf;
      var bySource := Group(chosen);
      complete := true;
      var rest := bySource.Keys;
      while rest != {}
        invariant rest <= bySource.Keys && complete && rows.Keys == old(rows).Keys
        invariant forall k ::
            k in rows ==> rows[k] == if k.source !in rest then AssignRows(old(rows), chosen, b)[k] else old(rows)[k]
        decreases |rest|
      {
        var name :| name in rest;
        ghost var before := rows;
        forall a | a in bySource[name]
          ensures a.0 in rows && a.0.source == name && rows[a.0].batch.None? && Selected(chosen, a.0)
          ensures IndexOf(chosen, a.0) == a.1
        {
          SelectedIsPending(old(rows), chosen, a.0);
          IndexOfOnly(chosen, a.1);
        }
        var covered := Assign(b, bySource[name]);
        complete := complete && covered == |bySource[name]|;
        rest := rest - {name};
        forall k | k in rows ensures rows[k] ==
            if k.source !in rest then AssignRows(old(rows), chosen, b)[k] else old(rows)[k] {
          if k.source == name && Selected(chosen, k) {
            assert (k, IndexOf(chosen, k)) in bySource[name];
          } else if k.source == name {
            assert forall a :: a in bySource[name] ==> a.0 != k;
          }
        }
      }
      forall k | k in rows ensures rows[k] == AssignRows(old(rows), chosen, b)[k] {
        assert k.source !in rest;
      }
    }

    /** Collects, sorts and truncates what is pending. */
    method Choose() returns (selected: seq<Item>)
      requires Valid()
      ensures IsFirst(selected, Pending(rows), MAX_BATCH_LEAVES)
    {
      var taken, parts := Collect();
      PendingIsComparable(rows);
      assert Elements(taken) <= Pending(rows);
      var sorted := Sort(taken);
      selected := if |sorted| > MAX_BATCH_LEAVES then sorted[..MAX_BATCH_LEAVES] else sorted;
      PrefixIsFirst(sorted, MAX_BATCH_LEAVES);
      PrefixesLoseNothing(rows, parts, Elements(taken), selected, MAX_BATCH_LEAVES);
    }

    /** Seals the first pending leaves of all sources into a new batch. A taken id raises and rolls
        back; the assignment never falls short. */
    method SealBatch(b: Id, now: int) returns (outcome: SealOutcome, chosen: seq<Item>)
      requires Valid()
      modifies this
      ensures Valid() && Model() == Anchor.Apply(old(Model()), SealOp(b, chosen, now))
      ensures IsFirst(chosen, Pending(old(rows)), MAX_BATCH_LEAVES)
      ensures outcome == if Pending(old(rows)) == {} then NothingPending else if b in old(batches)
          then IdTaken else Sealed
      ensures outcome == Sealed ==>
                && chosen != []
                && batches == old(batches)[b :=
                     Batch(Merkle.TreeRoot(LeavesOf(chosen)), |chosen|, now, None, None, None, 0)]
                && rows.Keys == old(rows).Keys
                && (forall i :: 0 <= i < |chosen| ==> SitsAt(rows, chosen[i].key, b, i))
                && forall k :: k in rows && !Selected(chosen, k) ==> rows[k] == old(rows)[k]
      ensures outcome != Sealed ==> rows == old(rows) && batches == old(batches)
    {
      hide IndexOf, IsFirst, InOrder, AssignRows, LeavesOf, Selected, SitsAt;
      chosen := Choose();
      ChosenIsEmptyIff(rows, chosen);
      if chosen == [] {
        return NothingPending, chosen;
      }
      if b in batches {
        return IdTaken, chosen;
      }
      batches := batches[b := Batch(Merkle.TreeRoot(LeavesOf(chosen)), |chosen|, now, None, None, None, 0)];
      order := order[b := chosen];
      ChosenKeysDiffer(rows, chosen);
      ChosenSit(rows, chosen, b);
      var complete := AssignAll(b, chosen);
      outcome := if complete then Sealed else Incomplete;
    }

    /** Every row of a batch, from all sources. */
    method Leaves(b: Id) returns (slots: seq<Slot>)
      requires forall k :: k in rows && rows[k].batch == Some(b) ==> rows[k].leaf.Some?
      ensures forall s :: s in slots <==> s.key in rows && rows[s.key].batch == Some(b) && s == SlotOf(rows, s.key)
      ensures forall i, j :: 0 <= i < j < |slots| ==> slots[i].key != slots[j].key
    {
      slots := [];
      var rest := rows.Keys;
      while rest != {}
        invariant rest <= rows.Keys
        invariant forall s ::
            s in slots <==> s.key in rows && s.key !in rest && rows[s.key].batch == Some(b) && s == SlotOf(rows, s.key)
        invariant forall i, j :: 0 <= i < j < |slots| ==> slots[i].key != slots[j].key
        decreases |rest|
      {
        var k :| k in rest;
        rest := rest - {k};
        if rows[k].batch == Some(b) {
          assert forall s :: s in slots ==> s.key != k;
          slots := slots + [SlotOf(rows, k)];
        }
      }
    }

    /** The ordered leaves of a batch. None is the error for a batch whose rows are not complete. */
    method BatchLeaves(b: Id, count: nat) returns (leaves: Option<seq<Merkle.Digest>>)
      requires forall k :: k in rows && rows[k].batch == Some(b) ==> rows[k].leaf.Some?
      ensures leaves.Some? <==> Complete(rows, b, count)
      ensures leaves.Some? ==> |leaves.value| == count && ReadsBack(rows, b, leaves.value)
    {
      var slots := Leaves(b);
      var sorted := SortSlots(slots);
      var complete := |sorted| == count;
      for i := 0 to |sorted|
        invariant complete <==> |sorted| == count && forall j :: 0 <= j < i ==> sorted[j].index == j
      {
        complete := complete && sorted[i].index == i;
      }
      SlotsDecide(rows, b, count, sorted);
      if complete {
        leaves := Some(seq(|sorted|, i requires 0 <= i < |sorted| => sorted[i].leaf));
      } else {
        leaves := None;
      }
    }

    /** Whatever was sealed reads back in its sealed order. */
    method ReadSealed(b: Id) returns (leaves: seq<Merkle.Digest>)
      requires Inv(Model()) && b in batches
      ensures leaves == LeavesOf(order[b]) && Merkle.MerkleRoot(leaves) == Ok(batches[b].root)
    {
      BatchReadsBack(Model(), b);
      assert BatchOk(Model(), b);
      var found := BatchLeaves(b, batches[b].count);
      ReadBackIsUnique(rows, b, found.value, LeavesOf(order[b]));
      leaves := found.value;
    }

    /* ---- submission and confirmation ---- */

    /** The oldest of some batches. */
    method FindOldest(ids: set<Id>) returns (oldest: Option<Id>)
      requires ids <= batches.Keys
      ensures IsOldest(batches, ids, oldest)
    {
      hide IsOldest, Elder;
      var rest := ids;
      oldest := None;
      NoneIsOldest(batches);
      assert ids - rest == {};
      while rest != {}
        invariant rest <= ids && IsOldest(batches, ids - rest, oldest)
        decreases |rest|
      {
        var b :| b in rest;
        OldestOfMore(batches, ids - rest, oldest, b);
        assert ids - (rest - {b}) == ids - rest + {b};
        oldest := OlderOf(batches, oldest, b);
        rest := rest - {b};
      }
      assert ids - rest == ids;
    }

    /** Leases the oldest unsent batch that no other worker has locked. */
    method ClaimUnsentBatch(locked: set<Id>, now: int) returns (claimed: Option<Id>)
      modifies this`batches
      ensures IsOldest(old(batches), UnsentIn(old(batches), locked, now), claimed)
      ensures Model() == if claimed.Some? then Anchor.Apply(old(Model()), ClaimUnsentOp(claimed.value, now))
                         else old(Model())
      ensures forall b :: b in old(batches) && b !in locked ==>
                var row := old(batches)[b];
                row.tx == None && row.block == None && (row.lease.Some? ==> row.lease.value <= now) ==>
                  claimed.Some? && claimed.value in old(batches)
                  && old(batches)[claimed.value].createdAt <= row.createdAt
      ensures claimed.Some? ==>
                && claimed.value !in locked
                && claimed.value in old(batches) && Unsent(old(batches)[claimed.value], now)
                && batches == old(batches)[claimed.value := old(batches)[claimed.value].(
                                               lease := Some(now + 900_000_000),
                                               attempts := old(batches)[claimed.value].attempts + 1)]
    {
      claimed := FindOldest(UnsentIn(batches, locked, now));
      forall b | b in batches && b !in locked && Unsent(batches[b], now)
        ensures claimed.Some? && claimed.value in batches
        ensures batches[claimed.value].createdAt <= batches[b].createdAt
      {
        assert b in UnsentIn(batches, locked, now);
      }
      if claimed.Some? {
        var row := batches[claimed.value];
        batches := batches[claimed.value := row.(lease := Some(now + SEND_LEASE), attempts := row.attempts + 1)];
      }
    }

    method RecordTx(b: Id, tx: Id)
      modifies this`batches
      ensures Model() == Anchor.Apply(old(Model()), RecordSubmissionOp(b, tx))
      ensures batches == if b in old(batches) && old(batches)[b].tx == None
                         then old(batches)[b := old(batches)[b].(tx := Some(tx))] else old(batches)
    {
      if b in batches && batches[b].tx.None? {
        batches := batches[b := batches[b].(tx := Some(tx))];
      }
    }

    method Release(b: Id)
      modifies this`batches
      ensures Model() == Anchor.Apply(old(Model()), ReleaseUnsentOp(b))
      ensures batches == if b in old(batches) && old(batches)[b].tx == None
                         then old(batches)[b := old(batches)[b].(lease := None)] else old(batches)
    {
      if b in batches && batches[b].tx.None? {
        batches := batches[b := batches[b].(lease := None)];
      }
    }

    method ResetTx(b: Id, tx: Id)
      modifies this`batches
      ensures Model() == Anchor.Apply(old(Model()), ResetSubmissionOp(b, tx))
      ensures batches == if b in old(batches) && old(batches)[b].tx == Some(tx) && old(batches)[b].block == None
                         then old(batches)[b := old(batches)[b].(tx := None, lease := None)] else old(batches)
    {
      if b in batches && batches[b].tx == Some(tx) && batches[b].block.None? {
        batches := batches[b := batches[b].(tx := None, lease := None)];
      }
    }

    /** One submitted batch checked against the chain; root, tx and leaseExpired are from the
        worker's snapshot. It confirms only a final transaction that carries the root. */
    method Confirm(b: Id, root: Merkle.Digest, tx: Id, leaseExpired: bool, view: View) returns (confirmed: bool)
      requires b in batches && batches[b].root == root
      requires Final(view) ==> tx in chain && chain[tx] == Tx(view.data, view.ok && view.toSelf)
      modifies this`batches
      ensures confirmed <==> Matches(view, root) && Final(view)
      ensures confirmed <==>
                && view.Mined? && view.ok && view.toSelf && view.data == root
                && view.canonical && view.finalized.Some? && view.block <= view.finalized.value
      ensures confirmed ==> Model() == Anchor.Apply(old(Model()), RecordConfirmationOp(b, tx, view.block))
      ensures !confirmed ==> Model() == if (view.Missing? && leaseExpired) || (view.Mined? && !Matches(view, root))
                                        then Anchor.Apply(old(Model()), ResetSubmissionOp(b, tx)) else old(Model())
      ensures batches == if old(batches)[b].tx != Some(tx) || old(batches)[b].block != None then old(batches)
                         else if confirmed
                         then old(batches)[b := old(batches)[b].(block := Some(view.block), lease := None)]
                         else if (view.Missing? && leaseExpired) || (view.Mined? && !Matches(view, root))
                         then old(batches)[b := old(batches)[b].(tx := None, lease := None)]
                         else old(batches)
    {
      confirmed := false;
      match view
      case Missing =>
        if leaseExpired {
          ResetTx(b, tx);
        }
      case Unmined =>
      case Mined(data, ok, toSelf, block, finalized, canonical) =>
        if !ok || !toSelf || data != root {
          ResetTx(b, tx);
        } else if finalized.Some? && block <= finalized.value && canonical {
          if batches[b].tx == Some(tx) && batches[b].block.None? {
            batches := batches[b := batches[b].(block := Some(block), lease := None)];
          }
          confirmed := true;
        }
    }
  }
}

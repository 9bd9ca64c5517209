/** What the loader's Cypher statements do to the store, as functions from
    one store state to the next: node upserts by `id`, relationship upserts
    between existing endpoints, fixed-size batching, and the two staleness
    sweeps. */
module LoaderStore {
  import opened Values
  import opened Graph

  // ---------------------------------------------------------------------
  // Batching
  // ---------------------------------------------------------------------

  /** The batch size of `load_nodes` and `load_relationships`. */
  const BatchSize: nat := 1000

  /** `[xs[i:i + size] for i in range(0, len(xs), size)]`. */
  function Batches<T>(xs: seq<T>, size: nat): seq<seq<T>>
    requires size > 0
    decreases |xs|
  {
    if xs == [] then []
    else if |xs| <= size then [xs]
    else [xs[..size]] + Batches(xs[size..], size)
  }

  function Flatten<T>(xss: seq<seq<T>>): seq<T>
    decreases |xss|
  {
    if xss == [] then [] else xss[0] + Flatten(xss[1..])
  }

  /** Concatenated, the batches give back the input. */
  lemma {:induction false} BatchesFlatten<T>(xs: seq<T>, size: nat)
    requires size > 0
    ensures Flatten(Batches(xs, size)) == xs
    decreases |xs|
  {
    var bs := Batches(xs, size);
    if xs == [] {
    } else if |xs| <= size {
      assert Flatten(bs) == xs + Flatten([]);
    } else {
      var rest := xs[size..];
      BatchesFlatten(rest, size);
      assert bs[0] == xs[..size] && bs[1..] == Batches(rest, size);
      assert xs[..size] + rest == xs;
    }
  }

  /** No batch is empty and every batch but the last is full. */
  lemma {:induction false} BatchesSizes<T>(xs: seq<T>, size: nat)
    requires size > 0
    ensures forall i :: 0 <= i < |Batches(xs, size)| ==> 0 < |Batches(xs, size)[i]| <= size
    ensures forall i :: 0 <= i < |Batches(xs, size)| - 1 ==> |Batches(xs, size)[i]| == size
    decreases |xs|
  {
    if |xs| > size {
      var bs, rest := Batches(xs, size), xs[size..];
      BatchesSizes(rest, size);
      forall i | 0 < i < |bs| ensures bs[i] == Batches(rest, size)[i - 1] { }
    }
  }

  /** There are ceil(n / 1000) batches. */
  lemma {:induction false} BatchesCount<T>(xs: seq<T>)
    ensures |Batches(xs, BatchSize)| == (|xs| + BatchSize - 1) / BatchSize
    decreases |xs|
  {
    if |xs| > BatchSize {
      BatchesCount(xs[BatchSize..]);
    }
  }

  /** Batch `j` is the slice starting at `j * size`. */
  lemma {:induction false} BatchAt<T>(xs: seq<T>, size: nat, j: nat)
    requires size > 0
    requires j < |Batches(xs, size)|
    ensures j * size < |xs|
    ensures Batches(xs, size)[j] == xs[j * size .. if (j + 1) * size <= |xs| then (j + 1) * size else |xs|]
    decreases |xs|
  {
    if |xs| > size && j > 0 {
      var rest := xs[size..];
      assert Batches(xs, size)[j] == Batches(rest, size)[j - 1];
      BatchAt(rest, size, j - 1);
      ShiftByOne(j, size);
      var hi := if (j + 1) * size <= |xs| then (j + 1) * size else |xs|;
      assert rest[(j - 1) * size .. hi - size] == xs[j * size .. hi];
    }
  }

  /** Moving one batch along shifts both slice bounds by `size`. */
  lemma ShiftByOne(j: nat, size: nat)
    requires j > 0
    ensures (j - 1) * size + size == j * size
    ensures j * size + size == (j + 1) * size
  {
  }

  // ---------------------------------------------------------------------
  // Node upsert: MERGE (n:Label {id: item.id}) SET n += item
  //              SET n.lastupdated = $lastupdated [SET n.region = $region]
  // ---------------------------------------------------------------------

  /** A value the store accepts as a property: a scalar, null, or a list of
      non-null scalars all of one type. Maps, nested lists, lists holding
      null and lists mixing types are refused. */
  predicate Storable(v: Value) {
    match v
    case Dict(_) => false
    case List(xs) =>
      || (forall i :: 0 <= i < |xs| ==> xs[i].Bool?)
      || (forall i :: 0 <= i < |xs| ==> xs[i].Int?)
      || (forall i :: 0 <= i < |xs| ==> xs[i].Str?)
    case _ => true
  }

  /** An item the node statement can merge: it has a non-null `id` and
      every field is storable. Any other item makes the statement fail. */
  predicate Loadable(item: Record) {
    Get(item, "id") != Null && forall k :: k in item ==> Storable(item[k])
  }

  /** `SET n += w`: every entry of `w` is written, and a null entry
      removes the property. */
  function Overlay(p: Props, w: Props): Props {
    map k | k in p.Keys + w.Keys && !(k in w && w[k] == Null) :: if k in w then w[k] else p[k]
  }

  /** Reading a property after `SET n += w` gives `w`'s value where it has
      one (a removed property reads as null) and the old value elsewhere. */
  lemma OverlayGet(p: Props, w: Props, k: string)
    ensures Get(Overlay(p, w), k) == if k in w then w[k] else Get(p, k)
  {
  }

  /** Two successive `SET +=` are one with the later map winning. */
  lemma OverlayCompose(p: Props, a: Props, b: Props)
    ensures Overlay(Overlay(p, a), b) == Overlay(p, a + b)
  {
    var lhs, rhs := Overlay(Overlay(p, a), b), Overlay(p, a + b);
    assert lhs.Keys == rhs.Keys;
    forall k | k in lhs ensures lhs[k] == rhs[k] { }
  }

  lemma OverlayNothing(p: Props)
    ensures Overlay(p, map[]) == p
  {
    assert Overlay(p, map[]).Keys == p.Keys;
  }

  /** Writing the same map twice is writing it once. */
  lemma OverlayIdempotent(p: Props, w: Props)
    ensures Overlay(Overlay(p, w), w) == Overlay(p, w)
  {
    OverlayCompose(p, w, w);
    assert w + w == w;
  }

  function RegionValue(region: Option<string>): Value {
    if region.Some? then Str(region.value) else Null
  }

  /** The properties the statement writes for one item: the item, then the
      update tag, then the region when the schema declares one. */
  function NodeWrites(item: Record, tag: int, region: Option<string>, hasRegion: bool): Props {
    item + map["lastupdated" := Int(tag)] + (if hasRegion then map["region" := RegionValue(region)] else map[])
  }

  /** The properties a node starts from: its current ones, or `{id: v}`
      for the node MERGE creates. */
  function Base(g: Graph, key: NodeKey): Props {
    if key in g.nodes then g.nodes[key] else map["id" := key.id]
  }

  /** The node statement's parameters. */
  datatype NodeLoad = NodeLoad(nodeLabel: string, tag: int, region: Option<string>, hasRegion: bool)

  function ItemKey(p: NodeLoad, item: Record): NodeKey {
    NodeKey(p.nodeLabel, Get(item, "id"))
  }

  /** One row of the UNWIND: merge the node, then write its properties. */
  function UpsertNode(g: Graph, p: NodeLoad, item: Record): Graph {
    var key := ItemKey(p, item);
    Graph(g.nodes[key := Overlay(Base(g, key), NodeWrites(item, p.tag, p.region, p.hasRegion))], g.edges)
  }

  /** One batch statement: the rows in order, and nothing at all if any row
      fails (the statement is one transaction). */
  function UpsertBatch(g: Graph, p: NodeLoad, batch: seq<Record>): Result<Graph>
    decreases |batch|
  {
    if batch == [] then Ok(g)
    else match UpsertBatch(g, p, batch[..|batch| - 1])
      case Err(e) => Err(e)
      case Ok(g1) => UpsertRow(g1, p, batch[|batch| - 1])
  }

  /** One row of the statement, which fails on an item it cannot merge. */
  function UpsertRow(g: Graph, p: NodeLoad, item: Record): Result<Graph> {
    if Loadable(item) then Ok(UpsertNode(g, p, item)) else Err(StoreError)
  }

  /** The nodes a batch merges. */
  function Touched(p: NodeLoad, batch: seq<Record>): set<NodeKey> {
    set i | 0 <= i < |batch| :: ItemKey(p, batch[i])
  }

  lemma TouchedSnoc(p: NodeLoad, batch: seq<Record>)
    requires batch != []
    ensures Touched(p, batch) == Touched(p, batch[..|batch| - 1]) + {ItemKey(p, batch[|batch| - 1])}
  {
    var init := batch[..|batch| - 1];
    forall k | k in Touched(p, batch) ensures k in Touched(p, init) + {ItemKey(p, batch[|batch| - 1])} {
      var i :| 0 <= i < |batch| && k == ItemKey(p, batch[i]);
      if i < |init| { assert k == ItemKey(p, init[i]); }
    }
    forall k | k in Touched(p, init) ensures k in Touched(p, batch) {
      var i :| 0 <= i < |init| && k == ItemKey(p, init[i]);
      assert init[i] == batch[i];
    }
  }

  /** Everything the batch writes to the node with id `id`, later rows
      winning. */
  function Writes(p: NodeLoad, batch: seq<Record>, id: Value): Props
    decreases |batch|
  {
    if batch == [] then map[]
    else
      var item := batch[|batch| - 1];
      Writes(p, batch[..|batch| - 1], id) +
        (if Get(item, "id") == id then NodeWrites(item, p.tag, p.region, p.hasRegion) else map[])
  }

  /** The properties the batch leaves at `key`: its old ones (or `{id}`),
      overwritten by everything the batch wrote to it. */
  function Expected(g: Graph, p: NodeLoad, batch: seq<Record>, key: NodeKey): Props {
    if key in Touched(p, batch) then Overlay(Base(g, key), Writes(p, batch, key.id)) else Base(g, key)
  }

  lemma {:induction false} WritesUntouched(p: NodeLoad, batch: seq<Record>, key: NodeKey)
    requires key.nodeLabel == p.nodeLabel && key !in Touched(p, batch)
    ensures Writes(p, batch, key.id) == map[]
    decreases |batch|
  {
    if batch != [] {
      TouchedSnoc(p, batch);
      WritesUntouched(p, batch[..|batch| - 1], key);
    }
  }

  /** Adding one row to a batch changes what it leaves at that row's node
      only, by one more `SET +=`. */
  lemma ExpectedSnoc(g: Graph, p: NodeLoad, batch: seq<Record>, key: NodeKey)
    requires batch != []
    ensures var init, item := batch[..|batch| - 1], batch[|batch| - 1];
            Expected(g, p, batch, key) ==
            if key == ItemKey(p, item) then Overlay(Expected(g, p, init, key), NodeWrites(item, p.tag, p.region, p.hasRegion))
            else Expected(g, p, init, key)
  {
    var init, item := batch[..|batch| - 1], batch[|batch| - 1];
    var w := NodeWrites(item, p.tag, p.region, p.hasRegion);
    TouchedSnoc(p, batch);
    if key == ItemKey(p, item) {
      if key in Touched(p, init) {
        OverlayCompose(Base(g, key), Writes(p, init, key.id), w);
      } else {
        WritesUntouched(p, init, key);
        assert map[] + w == w;
      }
    } else if key in Touched(p, batch) {
      assert Writes(p, batch, key.id) == Writes(p, init, key.id) + map[];
      assert Writes(p, init, key.id) + map[] == Writes(p, init, key.id);
    }
  }

  /** Every item of the batch is loadable. */
  predicate AllLoadable(batch: seq<Record>) {
    forall i :: 0 <= i < |batch| ==> Loadable(batch[i])
  }

  lemma AllLoadableSnoc(batch: seq<Record>)
    requires batch != []
    ensures AllLoadable(batch) <==> AllLoadable(batch[..|batch| - 1]) && Loadable(batch[|batch| - 1])
  {
    var init := batch[..|batch| - 1];
    assert forall i :: 0 <= i < |init| ==> init[i] == batch[i];
  }

  /** The batch statement succeeds exactly when every item is loadable. */
  lemma {:induction false} UpsertBatchOk(g: Graph, p: NodeLoad, batch: seq<Record>)
    ensures UpsertBatch(g, p, batch).Ok? <==> forall i :: 0 <= i < |batch| ==> Loadable(batch[i])
    decreases |batch|
  {
    assert AllLoadable(batch) == forall i :: 0 <= i < |batch| ==> Loadable(batch[i]);
    if batch != [] {
      var init, item := batch[..|batch| - 1], batch[|batch| - 1];
      UpsertBatchOk(g, p, init);
      AllLoadableSnoc(batch);
      assert AllLoadable(init) == forall i :: 0 <= i < |init| ==> Loadable(init[i]);
      var r := UpsertBatch(g, p, init);
      if r.Ok? {
        assert UpsertBatch(g, p, batch) == UpsertRow(r.value, p, item);
      }
    }
  }

  /** What a successful batch leaves behind: the nodes it merged exist and
      hold what Expected says; every other node and every edge is as it
      was. */
  ghost predicate Merged(g: Graph, p: NodeLoad, batch: seq<Record>, g': Graph) {
    && g'.edges == g.edges
    && g'.nodes.Keys == g.nodes.Keys + Touched(p, batch)
    && forall key :: key in g'.nodes ==> g'.nodes[key] == Expected(g, p, batch, key)
  }

  lemma {:induction false} UpsertBatchMeaning(g: Graph, p: NodeLoad, batch: seq<Record>)
    requires UpsertBatch(g, p, batch).Ok?
    ensures Merged(g, p, batch, UpsertBatch(g, p, batch).value)
    decreases |batch|
  {
    if batch == [] {
      assert Touched(p, batch) == {};
    } else {
      var init, item := batch[..|batch| - 1], batch[|batch| - 1];
      UpsertBatchMeaning(g, p, init);
      TouchedSnoc(p, batch);
      var g1 := UpsertBatch(g, p, init).value;
      var g' := UpsertBatch(g, p, batch).value;
      var w := NodeWrites(item, p.tag, p.region, p.hasRegion);
      assert g' == UpsertNode(g1, p, item);
      forall key | key in g'.nodes ensures g'.nodes[key] == Expected(g, p, batch, key) {
        ExpectedSnoc(g, p, batch, key);
        if key == ItemKey(p, item) {
          assert g'.nodes[key] == Overlay(Base(g1, key), w);
          assert Base(g1, key) == Expected(g, p, init, key);
        } else {
          assert key in g1.nodes && g'.nodes[key] == g1.nodes[key];
        }
      }
    }
  }

  lemma {:induction false} WritesStamp(p: NodeLoad, batch: seq<Record>, key: NodeKey)
    requires key in Touched(p, batch) && key.id != Null
    ensures "lastupdated" in Writes(p, batch, key.id) && Writes(p, batch, key.id)["lastupdated"] == Int(p.tag)
    ensures "id" in Writes(p, batch, key.id) && Writes(p, batch, key.id)["id"] == key.id
    decreases |batch|
  {
    var init, item := batch[..|batch| - 1], batch[|batch| - 1];
    TouchedSnoc(p, batch);
    if Get(item, "id") == key.id {
      var w := NodeWrites(item, p.tag, p.region, p.hasRegion);
      assert "id" in item;
      assert "region" != "lastupdated" && "region" != "id" && "lastupdated" != "id";
      assert "lastupdated" in w && w["lastupdated"] == Int(p.tag);
      assert "id" in w && w["id"] == key.id;
    } else {
      WritesStamp(p, init, key);
    }
  }

  /** Every node a successful batch merged exists afterwards, carries the
      update tag and has its key's id. */
  lemma StampsTouched(g: Graph, p: NodeLoad, batch: seq<Record>, key: NodeKey)
    requires UpsertBatch(g, p, batch).Ok?
    requires key in Touched(p, batch)
    ensures var g' := UpsertBatch(g, p, batch).value;
            && key in g'.nodes
            && Get(g'.nodes[key], "lastupdated") == Int(p.tag)
            && Get(g'.nodes[key], "id") == key.id
            && key.id != Null
  {
    UpsertBatchMeaning(g, p, batch);
    UpsertBatchOk(g, p, batch);
    var i :| 0 <= i < |batch| && key == ItemKey(p, batch[i]);
    assert Loadable(batch[i]);
    WritesStamp(p, batch, key);
    OverlayGet(Base(g, key), Writes(p, batch, key.id), "lastupdated");
    OverlayGet(Base(g, key), Writes(p, batch, key.id), "id");
  }

  lemma {:induction false} WritesLastRow(p: NodeLoad, batch: seq<Record>, i: int, f: string)
    requires 0 <= i < |batch|
    requires forall j :: i < j < |batch| ==> Get(batch[j], "id") != Get(batch[i], "id")
    requires f in batch[i] && f != "lastupdated" && !(p.hasRegion && f == "region")
    ensures var w := Writes(p, batch, Get(batch[i], "id")); f in w && w[f] == batch[i][f]
    decreases |batch|
  {
    var init := batch[..|batch| - 1];
    if i < |batch| - 1 {
      assert init[i] == batch[i];
      forall j | i < j < |init| ensures Get(init[j], "id") != Get(init[i], "id") {
        assert init[j] == batch[j];
      }
      WritesLastRow(p, init, i, f);
    }
  }

  /** A field of an item that no later row of the batch overwrites is read
      back from its node exactly as the item holds it. */
  lemma LastRowFieldsKept(g: Graph, p: NodeLoad, batch: seq<Record>, i: int, f: string)
    requires UpsertBatch(g, p, batch).Ok?
    requires 0 <= i < |batch|
    requires forall j :: i < j < |batch| ==> Get(batch[j], "id") != Get(batch[i], "id")
    requires f in batch[i] && f != "lastupdated" && !(p.hasRegion && f == "region")
    ensures var g' := UpsertBatch(g, p, batch).value;
            ItemKey(p, batch[i]) in g'.nodes && Get(g'.nodes[ItemKey(p, batch[i])], f) == batch[i][f]
  {
    var key := ItemKey(p, batch[i]);
    assert key in Touched(p, batch);
    UpsertBatchMeaning(g, p, batch);
    WritesLastRow(p, batch, i, f);
    OverlayGet(Base(g, key), Writes(p, batch, key.id), f);
  }

  /** Merging a successful batch preserves the store invariant. */
  lemma UpsertBatchValid(g: Graph, p: NodeLoad, batch: seq<Record>)
    requires UpsertBatch(g, p, batch).Ok?
    requires Valid(g)
    ensures Valid(UpsertBatch(g, p, batch).value)
  {
    var g' := UpsertBatch(g, p, batch).value;
    UpsertBatchMeaning(g, p, batch);
    forall key | key in g'.nodes ensures key.id != Null && Get(g'.nodes[key], "id") == key.id {
      if key in Touched(p, batch) {
        StampsTouched(g, p, batch, key);
      }
    }
  }

  /** Merging a successful batch a second time changes nothing. */
  lemma UpsertBatchIdempotent(g: Graph, p: NodeLoad, batch: seq<Record>)
    requires UpsertBatch(g, p, batch).Ok?
    ensures UpsertBatch(UpsertBatch(g, p, batch).value, p, batch) == UpsertBatch(g, p, batch)
  {
    var g' := UpsertBatch(g, p, batch).value;
    assert UpsertBatch(g', p, batch).Ok? by {
      UpsertBatchOk(g, p, batch);
      UpsertBatchOk(g', p, batch);
    }
    var g'' := UpsertBatch(g', p, batch).value;
    UpsertBatchMeaning(g, p, batch);
    UpsertBatchMeaning(g', p, batch);
    MergedTwice(g, g', g'', p, batch);
  }

  /** A store that already holds a batch's merge is its own merge. */
  lemma MergedTwice(g: Graph, g1: Graph, g2: Graph, p: NodeLoad, batch: seq<Record>)
    requires Merged(g, p, batch, g1) && Merged(g1, p, batch, g2)
    ensures g2 == g1
  {
    assert g2.nodes.Keys == g1.nodes.Keys;
    forall key | key in g2.nodes ensures g2.nodes[key] == g1.nodes[key] {
      MergedTwiceAt(g, g1, g2, p, batch, key);
    }
    assert g2.nodes == g1.nodes;
  }

  lemma MergedTwiceAt(g: Graph, g1: Graph, g2: Graph, p: NodeLoad, batch: seq<Record>, key: NodeKey)
    requires Merged(g, p, batch, g1) && Merged(g1, p, batch, g2)
    requires key in g1.nodes && key in g2.nodes
    ensures g2.nodes[key] == g1.nodes[key]
  {
    assert Base(g1, key) == g1.nodes[key];
    if key in Touched(p, batch) {
      var w := Writes(p, batch, key.id);
      assert g1.nodes[key] == Overlay(Base(g, key), w);
      assert g2.nodes[key] == Overlay(g1.nodes[key], w);
      OverlayIdempotent(Base(g, key), w);
    }
  }

  /** Merging `a + b` is merging `a`, then `b`. */
  lemma {:induction false} UpsertBatchAppend(g: Graph, p: NodeLoad, a: seq<Record>, b: seq<Record>)
    ensures UpsertBatch(g, p, a + b) ==
            match UpsertBatch(g, p, a) case Err(e) => Err(e) case Ok(g1) => UpsertBatch(g1, p, b)
    decreases |b|
  {
    if b == [] {
      assert a + b == a;
    } else {
      var b' := b[..|b| - 1];
      assert (a + b)[..|a + b| - 1] == a + b';
      assert (a + b)[|a + b| - 1] == b[|b| - 1];
      UpsertBatchAppend(g, p, a, b');
    }
  }

  /** The batch loop of `load_nodes`: each batch in turn, stopping with
      False at the first batch that fails; earlier batches stay written. */
  function LoadBatches(g: Graph, p: NodeLoad, bs: seq<seq<Record>>): (bool, Graph)
    decreases |bs|
  {
    if bs == [] then (true, g)
    else match UpsertBatch(g, p, bs[0])
      case Err(_) => (false, g)
      case Ok(g1) => LoadBatches(g1, p, bs[1..])
  }

  /** The batch loop reports True exactly when merging all the batches as
      one statement would succeed, and then leaves what that statement
      leaves. */
  lemma {:induction false} LoadBatchesSuccess(g: Graph, p: NodeLoad, bs: seq<seq<Record>>)
    ensures LoadBatches(g, p, bs).0 <==> UpsertBatch(g, p, Flatten(bs)).Ok?
    ensures LoadBatches(g, p, bs).0 ==> LoadBatches(g, p, bs).1 == UpsertBatch(g, p, Flatten(bs)).value
    decreases |bs|
  {
    if bs != [] {
      UpsertBatchAppend(g, p, bs[0], Flatten(bs[1..]));
      if UpsertBatch(g, p, bs[0]).Ok? {
        LoadBatchesSuccess(UpsertBatch(g, p, bs[0]).value, p, bs[1..]);
      }
    }
  }

  /** The batch loop stopped at batch j: the batches before it merged, the
      loop ends with the store they left, and batch j fails on it. */
  predicate StopsAt(g: Graph, p: NodeLoad, bs: seq<seq<Record>>, j: int) {
    && 0 <= j < |bs|
    && UpsertBatch(g, p, Flatten(bs[..j])).Ok?
    && LoadBatches(g, p, bs).1 == UpsertBatch(g, p, Flatten(bs[..j])).value
    && UpsertBatch(LoadBatches(g, p, bs).1, p, bs[j]).Err?
  }

  /** A failed batch loop stops at some batch, and the batches before it
      stay written. */
  lemma {:induction false} LoadBatchesFailure(g: Graph, p: NodeLoad, bs: seq<seq<Record>>)
    requires !LoadBatches(g, p, bs).0
    ensures exists j :: StopsAt(g, p, bs, j)
    decreases |bs|
  {
    if UpsertBatch(g, p, bs[0]).Err? {
      assert Flatten(bs[..0]) == [] by { assert bs[..0] == []; }
      assert StopsAt(g, p, bs, 0);
    } else {
      var g1 := UpsertBatch(g, p, bs[0]).value;
      LoadBatchesFailure(g1, p, bs[1..]);
      var j :| StopsAt(g1, p, bs[1..], j);
      StopsAtNext(g, p, bs, j);
    }
  }

  /** Stopping at batch j after the first batch is stopping at j + 1. */
  lemma StopsAtNext(g: Graph, p: NodeLoad, bs: seq<seq<Record>>, j: int)
    requires bs != [] && UpsertBatch(g, p, bs[0]).Ok?
    requires StopsAt(UpsertBatch(g, p, bs[0]).value, p, bs[1..], j)
    ensures StopsAt(g, p, bs, j + 1)
  {
    var g1 := UpsertBatch(g, p, bs[0]).value;
    assert LoadBatches(g, p, bs).1 == LoadBatches(g1, p, bs[1..]).1;
    UpsertPrefixStep(g, p, bs, j);
    assert bs[1..][j] == bs[j + 1];
  }

  /** Merging the first j + 1 batches is merging the first, then the next j. */
  lemma UpsertPrefixStep(g: Graph, p: NodeLoad, bs: seq<seq<Record>>, j: nat)
    requires j < |bs| - 1
    requires UpsertBatch(g, p, bs[0]).Ok?
    ensures UpsertBatch(g, p, Flatten(bs[..j + 1])) == UpsertBatch(UpsertBatch(g, p, bs[0]).value, p, Flatten(bs[1..][..j]))
  {
    assert bs[..j + 1][0] == bs[0] && bs[..j + 1][1..] == bs[1..][..j];
    assert Flatten(bs[..j + 1]) == bs[0] + Flatten(bs[1..][..j]);
    UpsertBatchAppend(g, p, bs[0], Flatten(bs[1..][..j]));
  }

  /** So for a whole list: loading in batches of 1000 reports True exactly
      when every item is loadable, and then equals one merge of the list. */
  lemma LoadNodesInBatches(g: Graph, p: NodeLoad, data: seq<Record>)
    ensures LoadBatches(g, p, Batches(data, BatchSize)).0 <==> forall i :: 0 <= i < |data| ==> Loadable(data[i])
    ensures LoadBatches(g, p, Batches(data, BatchSize)).0 ==>
              UpsertBatch(g, p, data).Ok? && LoadBatches(g, p, Batches(data, BatchSize)).1 == UpsertBatch(g, p, data).value
  {
    BatchesFlatten(data, BatchSize);
    LoadBatchesSuccess(g, p, Batches(data, BatchSize));
    UpsertBatchOk(g, p, data);
  }

  // ---------------------------------------------------------------------
  // Relationship upsert: MATCH both endpoints by id, MERGE the edge,
  //                      SET r.lastupdated = $lastupdated
  // ---------------------------------------------------------------------

  /** The endpoints a relationship statement matches: the source label and
      the item field holding its id, then the same for the target. */
  datatype RelPattern = RelPattern(srcLabel: string, srcField: string, dstLabel: string, dstField: string)

  /** The four relationship types the loader knows; any other has no
      statement. */
  function RelPatternOf(relType: string): Option<RelPattern> {
    if relType == "IS_MEMBER_OF" then Some(RelPattern("EC2Instance", "instance_id", "SecurityGroup", "group_id"))
    else if relType == "LOCATED_IN" then Some(RelPattern("EC2Instance", "instance_id", "Subnet", "subnet_id"))
    else if relType == "ATTACHES_TO" then Some(RelPattern("EBSVolume", "volume_id", "EC2Instance", "instance_id"))
    else if relType == "HAS_RULE" then Some(RelPattern("SecurityGroup", "group_id", "SecurityRule", "rule_id"))
    else None
  }

  /** The edge one pair item asks for. */
  function EdgeOf(relType: string, pat: RelPattern, item: Record): Edge {
    Edge(relType, NodeKey(pat.srcLabel, Get(item, pat.srcField)), NodeKey(pat.dstLabel, Get(item, pat.dstField)))
  }

  /** Both endpoints are found: a match on a null id finds nothing. */
  predicate Connectable(g: Graph, e: Edge) {
    e.src.id != Null && e.dst.id != Null && e.src in g.nodes && e.dst in g.nodes
  }

  function UpsertEdge(g: Graph, relType: string, pat: RelPattern, item: Record, tag: int): Graph {
    var e := EdgeOf(relType, pat, item);
    if Connectable(g, e) then Graph(g.nodes, g.edges[e := tag]) else g
  }

  /** One relationship batch statement: its rows in order. */
  function UpsertEdges(g: Graph, relType: string, pat: RelPattern, batch: seq<Record>, tag: int): Graph
    decreases |batch|
  {
    if batch == [] then g
    else UpsertEdge(UpsertEdges(g, relType, pat, batch[..|batch| - 1], tag), relType, pat, batch[|batch| - 1], tag)
  }

  /** The edges a batch asks for whose endpoints both exist. */
  function Added(g: Graph, relType: string, pat: RelPattern, batch: seq<Record>): set<Edge> {
    set i | 0 <= i < |batch| && Connectable(g, EdgeOf(relType, pat, batch[i])) :: EdgeOf(relType, pat, batch[i])
  }

  lemma AddedSnoc(g: Graph, relType: string, pat: RelPattern, batch: seq<Record>)
    requires batch != []
    ensures var init, e := batch[..|batch| - 1], EdgeOf(relType, pat, batch[|batch| - 1]);
            Added(g, relType, pat, batch) == Added(g, relType, pat, init) + (if Connectable(g, e) then {e} else {})
  {
    var init, e := batch[..|batch| - 1], EdgeOf(relType, pat, batch[|batch| - 1]);
    forall x | x in Added(g, relType, pat, batch)
      ensures x in Added(g, relType, pat, init) + (if Connectable(g, e) then {e} else {})
    {
      var i :| 0 <= i < |batch| && Connectable(g, EdgeOf(relType, pat, batch[i])) && x == EdgeOf(relType, pat, batch[i]);
      if i < |init| { assert batch[i] == init[i]; }
    }
    forall x | x in Added(g, relType, pat, init) ensures x in Added(g, relType, pat, batch) {
      var i :| 0 <= i < |init| && Connectable(g, EdgeOf(relType, pat, init[i])) && x == EdgeOf(relType, pat, init[i]);
      assert batch[i] == init[i];
    }
  }

  /** Nodes never change; the result has the old edges plus one edge per
      pair whose two endpoints exist, that one stamped with the tag; a pair
      with a missing endpoint is skipped, and an edge is never duplicated. */
  ghost predicate Connected(g: Graph, relType: string, pat: RelPattern, batch: seq<Record>, tag: int, g': Graph) {
    && g'.nodes == g.nodes
    && (forall e :: e in g'.edges <==> e in g.edges || e in Added(g, relType, pat, batch))
    && (forall e :: e in g'.edges ==> g'.edges[e] == if e in Added(g, relType, pat, batch) then tag else g.edges[e])
  }

  lemma {:induction false} UpsertEdgesMeaning(g: Graph, relType: string, pat: RelPattern, batch: seq<Record>, tag: int)
    ensures Connected(g, relType, pat, batch, tag, UpsertEdges(g, relType, pat, batch, tag))
    decreases |batch|
  {
    if batch != [] {
      UpsertEdgesMeaning(g, relType, pat, batch[..|batch| - 1], tag);
      AddedSnoc(g, relType, pat, batch);
    }
  }

  /** Applying `a`, then `b` is applying `a + b`. */
  lemma {:induction false} UpsertEdgesAppend(g: Graph, relType: string, pat: RelPattern, a: seq<Record>, b: seq<Record>, tag: int)
    ensures UpsertEdges(UpsertEdges(g, relType, pat, a, tag), relType, pat, b, tag) ==
            UpsertEdges(g, relType, pat, a + b, tag)
    decreases |b|
  {
    if b == [] {
      assert a + b == a;
    } else {
      var b' := b[..|b| - 1];
      assert (a + b)[..|a + b| - 1] == a + b';
      assert (a + b)[|a + b| - 1] == b[|b| - 1];
      UpsertEdgesAppend(g, relType, pat, a, b', tag);
    }
  }

  /** Applying the same relationship batch twice gives the same store, and
      the store invariant is kept. */
  lemma UpsertEdgesIdempotent(g: Graph, relType: string, pat: RelPattern, batch: seq<Record>, tag: int)
    ensures UpsertEdges(UpsertEdges(g, relType, pat, batch, tag), relType, pat, batch, tag) ==
            UpsertEdges(g, relType, pat, batch, tag)
    ensures Valid(g) ==> Valid(UpsertEdges(g, relType, pat, batch, tag))
  {
    var g' := UpsertEdges(g, relType, pat, batch, tag);
    UpsertEdgesMeaning(g, relType, pat, batch, tag);
    UpsertEdgesMeaning(g', relType, pat, batch, tag);
    assert Added(g', relType, pat, batch) == Added(g, relType, pat, batch);
    var g'' := UpsertEdges(g', relType, pat, batch, tag);
    assert g''.edges == g'.edges;
  }

  /** The batch loop of `load_relationships`. A type without a statement
      leaves every batch unwritten. */
  function LoadEdgeBatches(g: Graph, relType: string, bs: seq<seq<Record>>, tag: int): Graph
    decreases |bs|
  {
    if bs == [] then g
    else
      var g1 := match RelPatternOf(relType)
                case None => g
                case Some(pat) => UpsertEdges(g, relType, pat, bs[0], tag);
      LoadEdgeBatches(g1, relType, bs[1..], tag)
  }

  /** Loading relationships batch by batch is loading them all at once; an
      unknown type changes nothing. */
  lemma {:induction false} LoadEdgeBatchesMeaning(g: Graph, relType: string, bs: seq<seq<Record>>, tag: int)
    ensures LoadEdgeBatches(g, relType, bs, tag) ==
            match RelPatternOf(relType)
            case None => g
            case Some(pat) => UpsertEdges(g, relType, pat, Flatten(bs), tag)
    decreases |bs|
  {
    if bs != [] {
      match RelPatternOf(relType)
      case None =>
        LoadEdgeBatchesMeaning(g, relType, bs[1..], tag);
      case Some(pat) =>
        LoadEdgeBatchesMeaning(UpsertEdges(g, relType, pat, bs[0], tag), relType, bs[1..], tag);
        UpsertEdgesAppend(g, relType, pat, bs[0], Flatten(bs[1..]), tag);
    }
  }

  lemma LoadEdgesInBatches(g: Graph, relType: string, data: seq<Record>, tag: int)
    ensures LoadEdgeBatches(g, relType, Batches(data, BatchSize), tag) ==
            match RelPatternOf(relType)
            case None => g
            case Some(pat) => UpsertEdges(g, relType, pat, data, tag)
  {
    BatchesFlatten(data, BatchSize);
    LoadEdgeBatchesMeaning(g, relType, Batches(data, BatchSize), tag);
  }

  // ---------------------------------------------------------------------
  // Staleness sweeps
  // ---------------------------------------------------------------------

  /** A label the statement text can carry unquoted: an ASCII identifier.
      Any other label makes that label's statement fail. */
  predicate LabelSyntax(s: string) {
    && |s| > 0
    && ('A' <= s[0] <= 'Z' || 'a' <= s[0] <= 'z' || s[0] == '_')
    && forall i :: 0 <= i < |s| ==> ('A' <= s[i] <= 'Z' || 'a' <= s[i] <= 'z' || '0' <= s[i] <= '9' || s[i] == '_')
  }

  /** `n.lastupdated < $update_tag`: true only for an integer stamp below
      the tag (a missing stamp is null, and a non-integer one does not
      compare). */
  predicate OlderThan(props: Props, tag: int) {
    Get(props, "lastupdated").Int? && Get(props, "lastupdated").i < tag
  }

  function StaleNodes(g: Graph, nodeLabel: string, tag: int): set<NodeKey> {
    set k | k in g.nodes && k.nodeLabel == nodeLabel && OlderThan(g.nodes[k], tag)
  }

  /** One label of `cleanup_old_data`. */
  function CleanupLabel(g: Graph, nodeLabel: string, tag: int): Graph {
    if LabelSyntax(nodeLabel) then DetachDelete(g, StaleNodes(g, nodeLabel, tag)) else g
  }

  /** `cleanup_old_data`: the labels in order. */
  function Cleanup(g: Graph, labels: seq<string>, tag: int): Graph
    decreases |labels|
  {
    if labels == [] then g
    else CleanupLabel(Cleanup(g, labels[..|labels| - 1], tag), labels[|labels| - 1], tag)
  }

  /** The nodes the sweep of `labels` removes, read off the store before it. */
  function Swept(g: Graph, labels: seq<string>, tag: int): set<NodeKey> {
    set k | k in g.nodes && k.nodeLabel in labels && LabelSyntax(k.nodeLabel) && OlderThan(g.nodes[k], tag)
  }

  /** The sweep removes exactly the nodes of the listed labels stamped
      before the tag, together with every edge touching one of them; all
      other nodes and edges are kept unchanged. */
  lemma {:induction false} CleanupIsDetachDelete(g: Graph, labels: seq<string>, tag: int)
    ensures Cleanup(g, labels, tag) == DetachDelete(g, Swept(g, labels, tag))
    decreases |labels|
  {
    if labels == [] {
      assert Swept(g, labels, tag) == {};
      assert DetachDelete(g, {}) == g;
    } else {
      var init, l := labels[..|labels| - 1], labels[|labels| - 1];
      CleanupIsDetachDelete(g, init, tag);
      var g1 := DetachDelete(g, Swept(g, init, tag));
      if LabelSyntax(l) {
        DetachDeleteTwice(g, Swept(g, init, tag), StaleNodes(g1, l, tag));
        assert Swept(g, init, tag) + StaleNodes(g1, l, tag) == Swept(g, labels, tag) by {
          forall k | k in Swept(g, labels, tag) ensures k in Swept(g, init, tag) + StaleNodes(g1, l, tag) {
            if k.nodeLabel != l { assert k.nodeLabel in init; }
          }
        }
      } else {
        assert Swept(g, init, tag) == Swept(g, labels, tag) by {
          forall k | k in Swept(g, labels, tag) ensures k in Swept(g, init, tag) {
            assert k.nodeLabel != l;
            assert k.nodeLabel in init;
          }
        }
      }
    }
  }

  /** A node stamped with the tag survives the sweep with that tag, as does
      every node of a label the sweep does not list. */
  lemma CleanupKeeps(g: Graph, labels: seq<string>, tag: int, k: NodeKey)
    requires k in g.nodes
    requires Get(g.nodes[k], "lastupdated") == Int(tag) || k.nodeLabel !in labels
    ensures k in Cleanup(g, labels, tag).nodes
    ensures Cleanup(g, labels, tag).nodes[k] == g.nodes[k]
  {
    CleanupIsDetachDelete(g, labels, tag);
  }

  /** `n.lastupdated <> $UPDATE_TAG`: a missing stamp is null and never
      differs; any other stamp differs unless it is the tag itself. */
  predicate Differs(props: Props, tag: int) {
    Get(props, "lastupdated") != Null && Get(props, "lastupdated") != Int(tag)
  }

  function Unstamped(g: Graph, nodeLabel: string, tag: int): set<NodeKey> {
    set k | k in g.nodes && k.nodeLabel == nodeLabel && Differs(g.nodes[k], tag)
  }

  function Min(a: int, b: int): int { if a <= b then a else b }

  /** One label of `cleanup_old_data_advanced`: `WITH n LIMIT $LIMIT_SIZE`
      leaves it to the store which of the matching nodes go, but exactly
      min(limit, matches) of them do. A negative limit is refused, and so is
      a label the statement cannot carry; either leaves the store as it
      was. */
  ghost predicate SweepStep(g: Graph, g': Graph, nodeLabel: string, tag: int, limit: int) {
    if !LabelSyntax(nodeLabel) || limit < 0 then g' == g
    else exists s {:trigger DetachDelete(g, s)} :: s <= Unstamped(g, nodeLabel, tag) && |s| == Min(limit, |Unstamped(g, nodeLabel, tag)|) &&
                     g' == DetachDelete(g, s)
  }

  /** The labels in order, each a SweepStep. */
  ghost predicate SweepChain(g: Graph, labels: seq<string>, tag: int, limit: int, g': Graph)
    decreases |labels|
  {
    if labels == [] then g' == g
    else exists mid {:trigger SweepStep(mid, g', labels[|labels| - 1], tag, limit)} ::
                       SweepChain(g, labels[..|labels| - 1], tag, limit, mid) &&
                       SweepStep(mid, g', labels[|labels| - 1], tag, limit)
  }

  function Eligible(g: Graph, labels: seq<string>, tag: int): set<NodeKey> {
    set k | k in g.nodes && k.nodeLabel in labels && LabelSyntax(k.nodeLabel) && Differs(g.nodes[k], tag)
  }

  /** Whatever the store chooses, the advanced sweep only removes nodes of
      the listed labels whose stamp differs from the tag, with their edges. */
  lemma {:induction false} SweepChainRemovesOnlyEligible(g: Graph, labels: seq<string>, tag: int, limit: int, g': Graph)
    requires SweepChain(g, labels, tag, limit, g')
    ensures exists s :: s <= Eligible(g, labels, tag) && g' == DetachDelete(g, s)
    decreases |labels|
  {
    if labels == [] {
      assert g' == DetachDelete(g, {});
    } else {
      var init, l := labels[..|labels| - 1], labels[|labels| - 1];
      var mid :| SweepChain(g, init, tag, limit, mid) && SweepStep(mid, g', l, tag, limit);
      SweepChainRemovesOnlyEligible(g, init, tag, limit, mid);
      var s1 :| s1 <= Eligible(g, init, tag) && mid == DetachDelete(g, s1);
      assert Eligible(g, init, tag) <= Eligible(g, labels, tag);
      if !LabelSyntax(l) || limit < 0 {
        assert g' == DetachDelete(g, s1);
      } else {
        var s2 :| s2 <= Unstamped(mid, l, tag) && |s2| == Min(limit, |Unstamped(mid, l, tag)|) && g' == DetachDelete(mid, s2);
        DetachDeleteTwice(g, s1, s2);
        assert s1 + s2 <= Eligible(g, labels, tag);
      }
    }
  }

  /** A node stamped with the tag, or of an unlisted label, survives the
      advanced sweep unchanged. */
  lemma SweepChainKeeps(g: Graph, labels: seq<string>, tag: int, limit: int, g': Graph, k: NodeKey)
    requires SweepChain(g, labels, tag, limit, g')
    requires k in g.nodes
    requires Get(g.nodes[k], "lastupdated") == Int(tag) || k.nodeLabel !in labels
    ensures k in g'.nodes && g'.nodes[k] == g.nodes[k]
  {
    SweepChainRemovesOnlyEligible(g, labels, tag, limit, g');
  }

  /** A limited step whose limit reaches the number of nodes removes every
      match. */
  lemma LargeLimitStep(g: Graph, g': Graph, nodeLabel: string, tag: int, limit: int)
    requires SweepStep(g, g', nodeLabel, tag, limit)
    requires LabelSyntax(nodeLabel) && limit >= |g.nodes|
    ensures g' == DetachDelete(g, Unstamped(g, nodeLabel, tag))
  {
    var u := Unstamped(g, nodeLabel, tag);
    var s :| s <= u && |s| == Min(limit, |u|) && g' == DetachDelete(g, s);
    SubsetCard(u, g.nodes.Keys);
    SubsetSameCard(s, u);
  }

  /** The matches of one more label, read off the store the earlier labels
      left, complete the eligible set. */
  lemma EligibleSnoc(g: Graph, labels: seq<string>, tag: int)
    requires labels != [] && LabelSyntax(labels[|labels| - 1])
    ensures var init := labels[..|labels| - 1];
            var mid := DetachDelete(g, Eligible(g, init, tag));
            Eligible(g, init, tag) + Unstamped(mid, labels[|labels| - 1], tag) == Eligible(g, labels, tag)
  {
    var init, l := labels[..|labels| - 1], labels[|labels| - 1];
    forall k | k in Eligible(g, labels, tag)
      ensures k in Eligible(g, init, tag) + Unstamped(DetachDelete(g, Eligible(g, init, tag)), l, tag)
    {
      if k.nodeLabel != l { assert k.nodeLabel in init; }
    }
  }

  /** A label the statement cannot carry adds nothing to the eligible set. */
  lemma EligibleSkip(g: Graph, labels: seq<string>, tag: int)
    requires labels != [] && !LabelSyntax(labels[|labels| - 1])
    ensures Eligible(g, labels, tag) == Eligible(g, labels[..|labels| - 1], tag)
  {
    var init := labels[..|labels| - 1];
    forall k | k in Eligible(g, labels, tag) ensures k in Eligible(g, init, tag) {
      assert k.nodeLabel in init;
    }
  }

  /** One more label of a sweep whose limit reaches the size of the store. */
  lemma LargeLimitSnoc(g: Graph, labels: seq<string>, tag: int, limit: int, mid: Graph, g': Graph)
    requires labels != []
    requires mid == DetachDelete(g, Eligible(g, labels[..|labels| - 1], tag))
    requires SweepStep(mid, g', labels[|labels| - 1], tag, limit)
    requires limit >= |g.nodes|
    ensures g' == DetachDelete(g, Eligible(g, labels, tag))
  {
    var l := labels[|labels| - 1];
    if !LabelSyntax(l) {
      EligibleSkip(g, labels, tag);
    } else {
      SubsetCard(mid.nodes.Keys, g.nodes.Keys);
      LargeLimitStep(mid, g', l, tag, limit);
      DetachDeleteTwice(g, Eligible(g, labels[..|labels| - 1], tag), Unstamped(mid, l, tag));
      EligibleSnoc(g, labels, tag);
    }
  }

  /** With a limit no smaller than the store, the advanced sweep removes
      every node of the listed labels whose stamp differs from the tag. */
  lemma {:induction false} SweepChainLargeLimit(g: Graph, labels: seq<string>, tag: int, limit: int, g': Graph)
    requires SweepChain(g, labels, tag, limit, g')
    requires limit >= |g.nodes|
    ensures g' == DetachDelete(g, Eligible(g, labels, tag))
    decreases |labels|
  {
    if labels == [] {
      assert Eligible(g, labels, tag) == {};
      assert DetachDelete(g, {}) == g;
    } else {
      var init := labels[..|labels| - 1];
      var mid :| SweepChain(g, init, tag, limit, mid) && SweepStep(mid, g', labels[|labels| - 1], tag, limit);
      SweepChainLargeLimit(g, init, tag, limit, mid);
      LargeLimitSnoc(g, labels, tag, limit, mid, g');
    }
  }

  lemma SubsetSameCard<T>(a: set<T>, b: set<T>)
    requires a <= b && |a| == |b|
    ensures a == b
  {
    if a != b {
      var x :| x in b && x !in a;
      SubsetCard(a, b - {x});
    }
  }

  lemma SubsetCard<T>(a: set<T>, b: set<T>)
    requires a <= b
    ensures |a| <= |b|
  {
    assert b == a + (b - a);
  }
}

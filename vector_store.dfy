/**
 * The in-memory semantic index of vector_store.py: a flat L2 vector index and
 * the metadata ledger kept position-parallel with it. The embedding model,
 * json.dumps and the index's nearest-neighbour search are library routines;
 * the store receives them as function values when it is created.
 */
module VectorStore {
  import opened Optional
  import opened JsonValues

  /** The dimension of IndexFlatL2(384), the size of an all-MiniLM-L6-v2 embedding. */
  const Dimension: nat := 384

  type Vector = seq<real>

  /** One metadata record, as add_invoice_to_db appends it. */
  datatype Entry = Entry(
    filename: string,
    tenantId: string,
    location: string,
    timestamp: string,
    data: Json,
    text: string)
  {
    /** The record as the dictionary stored in the ledger and written to invoices.json. */
    function AsRecord(): (r: Record)
      ensures r.Keys == {"filename", "tenant_id", "location", "timestamp", "data", "text"}
      ensures r["filename"] == Str(filename) && r["tenant_id"] == Str(tenantId)
      ensures r["location"] == Str(location) && r["timestamp"] == Str(timestamp)
      ensures r["data"] == data && r["text"] == Str(text)
    {
      map["filename" := Str(filename), "tenant_id" := Str(tenantId), "location" := Str(location),
          "timestamp" := Str(timestamp), "data" := data, "text" := Str(text)]
    }
  }

  /** The ledger as the JSON list of dictionaries that save_vector_db writes. */
  function Snapshot(ledger: seq<Entry>): (records: seq<Record>)
    ensures |records| == |ledger|
    ensures forall i :: 0 <= i < |ledger| ==> records[i] == ledger[i].AsRecord()
  {
    if ledger == [] then [] else [ledger[0].AsRecord()] + Snapshot(ledger[1..])
  }

  /** The ledger entries of one tenant. */
  function EntriesOf(ledger: seq<Entry>, tenantId: string): seq<Entry> {
    if ledger == [] then []
    else (if ledger[0].tenantId == tenantId then [ledger[0]] else []) + EntriesOf(ledger[1..], tenantId)
  }

  /** Saving a concatenated ledger concatenates the saved parts. */
  lemma {:induction false} SnapshotAppend(a: seq<Entry>, b: seq<Entry>)
    ensures Snapshot(a + b) == Snapshot(a) + Snapshot(b)
  {
  }

  /**
   * What IndexFlatL2.search returns as the positions for one query over
   * `ntotal` stored vectors when asked for k > 0 of them: exactly k, the
   * first min(k, ntotal) stored positions, the rest padded with -1.
   */
  ghost predicate FlatSearchResult(hits: seq<int>, ntotal: nat, k: nat) {
    && k > 0
    && |hits| == k
    && forall j :: 0 <= j < k ==> if j < ntotal then 0 <= hits[j] < ntotal else hits[j] == -1
  }

  /**
   * `search` behaves as the flat index's search on every index content and
   * query. Asked for no results, the index raises instead (its search
   * asserts k > 0), so nothing is said about k = 0.
   */
  ghost predicate IsFlatSearch(search: (seq<Vector>, Vector, nat) -> seq<int>) {
    forall vectors, query, k :: k > 0 ==> FlatSearchResult(search(vectors, query, k), |vectors|, k)
  }

  /** Where Python's list indexing lands: negative positions count from the end. */
  function Normalize(i: int, n: nat): int {
    if i >= 0 then i else n + i
  }

  /**
   * The results of search_invoices as written: a position at or past the
   * ledger's length is skipped, any other goes through Python indexing, and a
   * position below -n raises IndexError (None).
   */
  function Resolve(ledger: seq<Entry>, hits: seq<int>): (r: Option<seq<Entry>>)
    ensures r.Some? ==> |r.value| <= |hits| && forall e :: e in r.value ==> e in ledger
  {
    if hits == [] then Some([])
    else
      var i := hits[0];
      var rest := Resolve(ledger, hits[1..]);
      if i >= |ledger| then rest
      else if i < -|ledger| || rest.None? then None
      else Some([ledger[Normalize(i, |ledger|)]] + rest.value)
  }

  /** The positions that pass the guard `i < len(metadata)`, in order. */
  function Kept(hits: seq<int>, n: nat): (kept: seq<int>)
    ensures |kept| <= |hits|
    ensures forall i :: i in kept <==> i in hits && i < n
  {
    if hits == [] then []
    else (if hits[0] < n then [hits[0]] else []) + Kept(hits[1..], n)
  }

  /** Every position is within Python's indexing range for a list of length n. */
  predicate Indexable(positions: seq<int>, n: nat) {
    forall j :: 0 <= j < |positions| ==> -(n as int) <= positions[j] < n
  }

  /**
   * Resolve is "filter by the guard, then index": it succeeds exactly when
   * every kept position is at least -n, and then yields one record per kept
   * position, in the order of the positions.
   */
  predicate FilterThenIndex(ledger: seq<Entry>, hits: seq<int>) {
    && (Resolve(ledger, hits).Some? <==> Indexable(Kept(hits, |ledger|), |ledger|))
    && (Resolve(ledger, hits).Some? ==>
      && |Resolve(ledger, hits).value| == |Kept(hits, |ledger|)|
      && forall j :: 0 <= j < |Kept(hits, |ledger|)| ==>
           0 <= Normalize(Kept(hits, |ledger|)[j], |ledger|) < |ledger|
           && Resolve(ledger, hits).value[j] == ledger[Normalize(Kept(hits, |ledger|)[j], |ledger|)])
  }

  lemma {:induction false} ResolveIsFilterThenIndex(ledger: seq<Entry>, hits: seq<int>)
    ensures Resolve(ledger, hits).Some? <==> Indexable(Kept(hits, |ledger|), |ledger|)
    ensures Resolve(ledger, hits).Some? ==>
      && |Resolve(ledger, hits).value| == |Kept(hits, |ledger|)|
      && forall j :: 0 <= j < |Kept(hits, |ledger|)| ==>
           0 <= Normalize(Kept(hits, |ledger|)[j], |ledger|) < |ledger|
           && Resolve(ledger, hits).value[j] == ledger[Normalize(Kept(hits, |ledger|)[j], |ledger|)]
  {
    if hits != [] {
      ResolveIsFilterThenIndex(ledger, hits[1..]);
      if hits[0] < |ledger| {
        ResolveKeptHead(ledger, hits);
      } else {
        assert Kept(hits, |ledger|) == Kept(hits[1..], |ledger|);
      }
    }
  }

  /** The step of ResolveIsFilterThenIndex where the guard keeps the first position. */
  lemma {:induction false} ResolveKeptHead(ledger: seq<Entry>, hits: seq<int>)
    requires hits != [] && hits[0] < |ledger|
    requires FilterThenIndex(ledger, hits[1..])
    ensures FilterThenIndex(ledger, hits)
  {
    var n := |ledger|;
    var kept, tail := Kept(hits, n), Kept(hits[1..], n);
    KeptBelow(hits, n);
    KeptBelow(hits[1..], n);
    assert kept == [hits[0]] + tail;
    assert forall j :: 0 < j < |kept| ==> kept[j] == tail[j - 1];
    if Resolve(ledger, hits).Some? {
      assert Resolve(ledger, hits).value == [ledger[Normalize(hits[0], n)]] + Resolve(ledger, hits[1..]).value;
    } else if hits[0] >= -n {
      var w :| 0 <= w < |tail| && !(-n <= tail[w] < n);
      assert kept[w + 1] == tail[w];
    } else {
      assert kept[0] == hits[0];
    }
  }

  lemma {:induction false} KeptBelow(hits: seq<int>, n: nat)
    ensures forall j :: 0 <= j < |Kept(hits, n)| ==> Kept(hits, n)[j] < n
  {
    var kept := Kept(hits, n);
    forall j | 0 <= j < |kept| ensures kept[j] < n {
      assert kept[j] in kept;
    }
  }

  /**
   * On what the flat index returns, search_invoices as written raises exactly
   * when the ledger is empty.
   */
  lemma {:induction false} ResolveFlatHits(ledger: seq<Entry>, hits: seq<int>, k: nat)
    requires FlatSearchResult(hits, |ledger|, k)
    ensures Resolve(ledger, hits).None? <==> |ledger| == 0
  {
    var n := |ledger|;
    ResolveIsFilterThenIndex(ledger, hits);
    KeptBelow(hits, n);
    var kept := Kept(hits, n);
    if n == 0 {
      assert hits[0] == -1;
      assert -1 in kept;
    } else {
      forall j | 0 <= j < |kept| ensures -(n as int) <= kept[j] {
        assert kept[j] in hits;
      }
    }
  }

  /**
   * Finding: when the index holds fewer than k vectors, the -1 padding passes
   * the guard and Python indexing turns every padded slot into the last ledger
   * record, so that record comes back k - n extra times.
   */
  lemma {:induction false} ResolvePaddingRepeatsLast(ledger: seq<Entry>, hits: seq<int>, k: nat)
    requires FlatSearchResult(hits, |ledger|, k)
    requires 0 < |ledger| < k
    ensures Resolve(ledger, hits).Some?
    ensures |Resolve(ledger, hits).value| == k
    ensures forall j :: |ledger| <= j < k ==> Resolve(ledger, hits).value[j] == ledger[|ledger| - 1]
  {
    var n := |ledger|;
    ResolveIsFilterThenIndex(ledger, hits);
    KeptAllBelow(hits, n);
    ResolveFlatHits(ledger, hits, k);
  }

  lemma {:induction false} KeptAllBelow(hits: seq<int>, n: nat)
    requires forall j :: 0 <= j < |hits| ==> hits[j] < n
    ensures Kept(hits, n) == hits
  {
    if hits != [] {
      KeptAllBelow(hits[1..], n);
      assert hits == [hits[0]] + hits[1..];
    }
  }

  /** The evidently intended search: only positions 0 <= i < n resolve. */
  function ResolveGuarded(ledger: seq<Entry>, hits: seq<int>): (r: seq<Entry>)
    ensures |r| <= |hits| && forall e :: e in r ==> e in ledger
  {
    if hits == [] then []
    else
      var i := hits[0];
      (if 0 <= i < |ledger| then [ledger[i]] else []) + ResolveGuarded(ledger, hits[1..])
  }

  lemma {:induction false} ResolveGuardedAppend(ledger: seq<Entry>, a: seq<int>, b: seq<int>)
    ensures ResolveGuarded(ledger, a + b) == ResolveGuarded(ledger, a) + ResolveGuarded(ledger, b)
  {
    if a == [] {
      assert a + b == b;
    } else {
      assert (a + b)[1..] == a[1..] + b;
      ResolveGuardedAppend(ledger, a[1..], b);
    }
  }

  /**
   * With the guard corrected, a search over the flat index never raises and
   * yields exactly the min(k, n) stored records the index ranked, in rank order.
   */
  lemma {:induction false} ResolveGuardedFlatHits(ledger: seq<Entry>, hits: seq<int>, k: nat)
    requires FlatSearchResult(hits, |ledger|, k)
    ensures var m := if k < |ledger| then k else |ledger|;
      && |ResolveGuarded(ledger, hits)| == m
      && forall j :: 0 <= j < m ==> 0 <= hits[j] < |ledger| && ResolveGuarded(ledger, hits)[j] == ledger[hits[j]]
  {
    var n := |ledger|;
    var m := if k < n then k else n;
    assert hits == hits[..m] + hits[m..];
    ResolveGuardedAppend(ledger, hits[..m], hits[m..]);
    GuardedAllValid(ledger, hits[..m]);
    GuardedAllPadding(ledger, hits[m..]);
  }

  lemma {:induction false} GuardedAllValid(ledger: seq<Entry>, hits: seq<int>)
    requires forall j :: 0 <= j < |hits| ==> 0 <= hits[j] < |ledger|
    ensures |ResolveGuarded(ledger, hits)| == |hits|
    ensures forall j :: 0 <= j < |hits| ==> ResolveGuarded(ledger, hits)[j] == ledger[hits[j]]
  {
    if hits != [] {
      GuardedAllValid(ledger, hits[1..]);
    }
  }

  lemma {:induction false} GuardedAllPadding(ledger: seq<Entry>, hits: seq<int>)
    requires forall j :: 0 <= j < |hits| ==> hits[j] == -1
    ensures ResolveGuarded(ledger, hits) == []
  {
    if hits != [] {
      GuardedAllPadding(ledger, hits[1..]);
    }
  }

  /**
   * The module-level `index` and `metadata` of vector_store.py as one object,
   * with the embedding model, json.dumps and the index's search routine.
   */
  class Store {
    /** MODEL.encode for one text. */
    const encode: string -> Vector
    /** json.dumps(_, indent=2). */
    const dumps: Json -> string
    /** index.search for one query: the positions row `indices[0]`. */
    const search: (seq<Vector>, Vector, nat) -> seq<int>

    /** The vectors held by the FAISS index, in insertion order. */
    var index: seq<Vector>
    /** The metadata ledger. */
    var metadata: seq<Entry>

    /**
     * Vector i is the embedding of ledger record i's text, that text is the
     * serialised invoice, every vector has the index's dimension, and both
     * sequences have the same length.
     */
    ghost predicate Valid()
      reads this
    {
      && |index| == |metadata|
      && (forall i :: 0 <= i < |index| ==> |index[i]| == Dimension)
      && (forall i :: 0 <= i < |metadata| ==>
            metadata[i].text == dumps(metadata[i].data) && index[i] == encode(metadata[i].text))
      && IsFlatSearch(search)
    }

    /** A fresh start with no index file: an empty index and an empty ledger. */
    constructor (encode: string -> Vector, dumps: Json -> string, search: (seq<Vector>, Vector, nat) -> seq<int>)
      requires IsFlatSearch(search)
      ensures Valid()
      ensures index == [] && metadata == []
      ensures this.encode == encode && this.dumps == dumps && this.search == search
    {
      this.encode, this.dumps, this.search := encode, dumps, search;
      index, metadata := [], [];
    }

    /**
     * add_invoice_to_db: embed the serialised invoice, add one vector, append
     * one record. index.add rejects a vector of another dimension, and then
     * nothing is appended.
     */
    method AddInvoice(data: Json, filename: string, tenantId: string, location: string, timestamp: string)
      returns (added: bool)
      requires Valid()
      modifies this
      ensures Valid()
      ensures added <==> |encode(dumps(data))| == Dimension
      ensures added ==> index == old(index) + [encode(dumps(data))]
      ensures added ==> metadata == old(metadata) + [Entry(filename, tenantId, location, timestamp, data, dumps(data))]
      ensures !added ==> index == old(index) && metadata == old(metadata)
    {
      var fullText := dumps(data);
      var embedding := encode(fullText);
      if |embedding| != Dimension {
        return false;
      }
      index := index + [embedding];
      metadata := metadata + [Entry(filename, tenantId, location, timestamp, data, fullText)];
      added := true;
    }

    /**
     * search_invoices: embed the query, ask the index for topK positions and
     * map them back through the ledger. None where the call raises: a query
     * vector of another dimension, topK = 0 (the index refuses it), or an
     * empty ledger (the -1 padding has nothing to index).
     */
    method SearchInvoices(query: string, topK: nat) returns (results: Option<seq<Entry>>)
      requires Valid()
      ensures |encode(query)| == Dimension && topK > 0 ==>
        results == Resolve(metadata, search(index, encode(query), topK))
      ensures results.None? <==> |encode(query)| != Dimension || topK == 0 || |metadata| == 0
      ensures results.Some? ==> |results.value| <= topK && forall e :: e in results.value ==> e in metadata
    {
      var queryVector := encode(query);
      if |queryVector| != Dimension || topK == 0 {
        return None;
      }
      var hits := search(index, queryVector, topK);
      assert FlatSearchResult(hits, |index|, topK);
      ResolveFlatHits(metadata, hits, topK);
      results := ResolveHits(metadata, hits);
    }
  }

  /**
   * The loop of search_invoices over the returned positions: keep each
   * position below the ledger's length and index the ledger with it, Python
   * style. None where an index raises.
   */
  method ResolveHits(ledger: seq<Entry>, hits: seq<int>) returns (results: Option<seq<Entry>>)
    ensures results == Resolve(ledger, hits)
  {
    var found: seq<Entry> := [];
    var k := 0;
    assert hits[k..] == hits;
    assert Resolve(ledger, hits).Some? ==> [] + Resolve(ledger, hits).value == Resolve(ledger, hits).value;
    while k < |hits|
      invariant 0 <= k <= |hits|
      invariant Resolve(ledger, hits) == Prepend(found, Resolve(ledger, hits[k..]))
    {
      var i := hits[k];
      assert hits[k..][1..] == hits[k + 1..];
      if i < |ledger| {
        if i < -|ledger| {
          assert hits[k..][0] == i;
          return None;
        }
        var entry := ledger[Normalize(i, |ledger|)];
        var rest := Resolve(ledger, hits[k + 1..]);
        if rest.Some? {
          assert found + [entry] + rest.value == found + ([entry] + rest.value);
        }
        found := found + [entry];
      }
      k := k + 1;
    }
    assert hits[k..] == [];
    assert found + [] == found;
    results := Some(found);
  }

  function Prepend(found: seq<Entry>, rest: Option<seq<Entry>>): Option<seq<Entry>> {
    if rest.None? then None else Some(found + rest.value)
  }
}

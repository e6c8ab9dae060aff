/** The indexing and query layer of elastic/index.js, with the search-engine
    client as a recorded log of wire calls. The pure parts (bulk request
    body, query shapes, hit projection, promise settlement) are functions;
    the module's mutable state (the `connected` flag, the `'connection'`
    listeners of its event emitter and the calls it issues) is the class
    `Cluster`. */
module Elastic {
  import opened Wrappers
  import Seqs

  /** The names elastic/index.js puts on `module.exports`. */
  const Exports: set<string> :=
    {"bulkInsert", "deleteAll", "findTheThings", "getAllTitleFields", "singleInsert"}

  /** Timeout of the liveness probe issued when the module loads, in ms. */
  const PingTimeout: nat := 1000

  /** The index a delete-all names: the engine's wildcard for every index. */
  const AllIndices: string := "_all"

  /** The indices a title listing searches, as one comma-separated name. */
  const TitleIndices: string := "challenge,guides,youtube"

  /** The largest number of hits a title listing asks for. */
  const TitleListSize: nat := 10000

  /** The argument object `{ index, type, documents }` of a bulk write. */
  datatype BulkArgs<D> = BulkArgs(index: string, typeName: string, documents: seq<D>)

  /** The action line `{ index: { _index, _type } }` of a bulk request. */
  datatype Action = IndexAction(_index: string, _type: string)

  /** One entry of a bulk request body: an action line or a document. */
  datatype BulkLine<D> = ActionLine(action: Action) | DocumentLine(doc: D)

  /** The `body` of a search request. */
  datatype SearchBody =
    | MatchQuery(field: string, text: string)   // { query: { match: { <field>: <text> } } }
    | SourceFilter(fields: seq<string>)         // { _source: [ ...fields ] }

  /** A search request; `None` marks a key the request leaves out. */
  datatype SearchRequest = SearchRequest(index: Option<string>, size: Option<nat>, body: SearchBody)

  /** A search hit as the engine returns it. */
  datatype Hit = Hit(_index: string, _type: string, _id: string, _source: map<string, string>)

  /** The engine's search response; `hits` stands for `response.hits.hits`. */
  datatype SearchResponse = SearchResponse(hits: seq<Hit>)

  /** The projection `{ index, title, type, url }` of a hit; a field missing
      from `_source` is `undefined`, here `None`. */
  datatype TitleEntry = TitleEntry(index: string, title: Option<string>, typeName: string, url: Option<string>)

  /** A call the module makes on the engine client. */
  datatype WireCall<D> =
    | Ping(requestTimeout: nat)
    | Bulk(body: seq<BulkLine<D>>)
    | DeleteIndex(index: string)
    | Search(request: SearchRequest)

  /** The listeners registered for the emitter's `'connection'` event; only
      `deleteActual` is ever registered. */
  datatype Listener = DeleteActual

  // ---------------------------------------------------------------------
  // Bulk insert request

  /** The request `bulkInsert` builds: `documents.reduce` that appends the one
      shared action line and then the document, for each document in turn. */
  function BulkInsertBody<D>(index: string, typeName: string, documents: seq<D>): (r: seq<BulkLine<D>>)
    ensures |r| == 2 * |documents|
    ensures forall i :: 0 <= i < |documents| ==>
      r[2 * i] == ActionLine(IndexAction(index, typeName)) && r[2 * i + 1] == DocumentLine(documents[i])
  {
    if documents == [] then []
    else
      var n := |documents| - 1;
      var acc := BulkInsertBody(index, typeName, documents[..n]);
      assert forall i :: 0 <= i < n ==> documents[..n][i] == documents[i];
      acc + [ActionLine(IndexAction(index, typeName)), DocumentLine(documents[n])]
  }

  /** The documents a bulk body carries, in order. */
  function BodyDocuments<D>(body: seq<BulkLine<D>>): seq<D>
  {
    if body == [] then []
    else (if body[0].DocumentLine? then [body[0].doc] else []) + BodyDocuments(body[1..])
  }

  lemma {:induction false} BodyDocumentsAppend<D>(a: seq<BulkLine<D>>, b: seq<BulkLine<D>>)
    ensures BodyDocuments(a + b) == BodyDocuments(a) + BodyDocuments(b)
  {
    if a == [] {
      assert a + b == b;
    } else {
      assert (a + b)[0] == a[0];
      assert (a + b)[1..] == a[1..] + b;
      BodyDocumentsAppend(a[1..], b);
      Seqs.AppendAssoc(if a[0].DocumentLine? then [a[0].doc] else [], BodyDocuments(a[1..]), BodyDocuments(b));
    }
  }

  /** The bulk body carries exactly the given documents, in their order, and
      nothing else: reading the documents back gives the input. */
  lemma {:induction false} BulkInsertBodyDocuments<D>(index: string, typeName: string, documents: seq<D>)
    ensures BodyDocuments(BulkInsertBody(index, typeName, documents)) == documents
  {
    if documents != [] {
      var n := |documents| - 1;
      var pair: seq<BulkLine<D>> := [ActionLine(IndexAction(index, typeName)), DocumentLine(documents[n])];
      BulkInsertBodyDocuments(index, typeName, documents[..n]);
      BodyDocumentsAppend(BulkInsertBody(index, typeName, documents[..n]), pair);
      var tail: seq<BulkLine<D>> := [DocumentLine(documents[n])];
      assert pair[1..] == tail;
      assert tail[1..] == [];
      assert BodyDocuments(tail) == [documents[n]];
      assert BodyDocuments(pair) == [documents[n]];
      assert documents[..n] + [documents[n]] == documents;
    }
  }

  /** Every even line of the body is the one action line, every odd line a
      document: the body alternates action, document, action, document. */
  lemma BulkInsertBodyAlternates<D>(index: string, typeName: string, documents: seq<D>)
    ensures var r := BulkInsertBody(index, typeName, documents);
      forall j :: 0 <= j < |r| ==>
        (j % 2 == 0 <==> r[j].ActionLine?) && (r[j].ActionLine? ==> r[j].action == IndexAction(index, typeName))
  {
    var r := BulkInsertBody(index, typeName, documents);
    forall j | 0 <= j < |r|
      ensures (j % 2 == 0 <==> r[j].ActionLine?) && (r[j].ActionLine? ==> r[j].action == IndexAction(index, typeName))
    {
      var i := j / 2;
      assert i < |documents|;
      if j % 2 == 0 {
        assert j == 2 * i;
        assert r[2 * i] == ActionLine(IndexAction(index, typeName));
      } else {
        assert j == 2 * i + 1;
        assert r[2 * i + 1] == DocumentLine(documents[i]);
      }
    }
  }

  // ---------------------------------------------------------------------
  // Queries

  /** The request `findTheThings(query)` sends: a match on the synthetic
      `_all` field over the default indices, the query text unchanged. */
  function FindTheThingsRequest(query: string): (r: SearchRequest)
    ensures r.body.MatchQuery? && r.body.field == "_all" && r.body.text == query
    ensures r.index.None? && r.size.None?
  {
    SearchRequest(None, None, MatchQuery("_all", query))
  }

  /** How the promise of `findTheThings` settles: the hits unchanged, or the
      engine's error untouched. */
  function SettleFindTheThings<E>(response: Result<SearchResponse, E>): (r: Result<seq<Hit>, E>)
    ensures response.Success? <==> r.Success?
    ensures response.Success? ==> r.value == response.value.hits
    ensures response.Failure? ==> r.error == response.error
  {
    match response
    case Success(resp) => Success(resp.hits)
    case Failure(err) => Failure(err)
  }

  /** The request `getAllTitleFields` sends. */
  function TitleFieldsRequest(): (r: SearchRequest)
    ensures r.index == Some(TitleIndices) && r.size == Some(TitleListSize)
    ensures r.body == SourceFilter(["title", "url"])
  {
    SearchRequest(Some(TitleIndices), Some(TitleListSize), SourceFilter(["title", "url"]))
  }

  /** `hit._source[key]`, `undefined` when absent. */
  function SourceField(source: map<string, string>, key: string): (r: Option<string>)
    ensures r.Some? <==> key in source
    ensures r.Some? ==> r.value == source[key]
  {
    if key in source then Some(source[key]) else None
  }

  /** The `{ index, title, type, url }` entry for one hit. */
  function TitleEntryOf(hit: Hit): TitleEntry
  {
    TitleEntry(hit._index, SourceField(hit._source, "title"), hit._type, SourceField(hit._source, "url"))
  }

  /** The projection `getAllTitleFields` resolves to: `hits.reduce` that
      appends one entry per hit, so one entry per hit, in hit order. */
  function TitleFields(hits: seq<Hit>): (r: seq<TitleEntry>)
    ensures |r| == |hits|
    ensures forall i :: 0 <= i < |hits| ==>
      && r[i].index == hits[i]._index && r[i].typeName == hits[i]._type
      && r[i].title == SourceField(hits[i]._source, "title")
      && r[i].url == SourceField(hits[i]._source, "url")
  {
    if hits == [] then []
    else
      var n := |hits| - 1;
      assert forall i :: 0 <= i < n ==> hits[..n][i] == hits[i];
      TitleFields(hits[..n]) + [TitleEntryOf(hits[n])]
  }

  /** How the promise of `getAllTitleFields` settles. */
  function SettleTitleFields<E>(response: Result<SearchResponse, E>): (r: Result<seq<TitleEntry>, E>)
    ensures response.Success? <==> r.Success?
    ensures response.Success? ==> |r.value| == |response.value.hits|
    ensures response.Success? ==> forall i :: 0 <= i < |r.value| ==> r.value[i] == TitleEntryOf(response.value.hits[i])
    ensures response.Failure? ==> r.error == response.error
  {
    match response
    case Success(resp) => Success(TitleFields(resp.hits))
    case Failure(err) => Failure(err)
  }

  /** The projection keeps nothing but what `_index`, `_type` and the `title`
      and `url` source fields say: hits that agree on those give equal lists. */
  lemma TitleFieldsIgnoresRest(a: seq<Hit>, b: seq<Hit>)
    requires |a| == |b|
    requires forall i :: 0 <= i < |a| ==>
      && a[i]._index == b[i]._index && a[i]._type == b[i]._type
      && SourceField(a[i]._source, "title") == SourceField(b[i]._source, "title")
      && SourceField(a[i]._source, "url") == SourceField(b[i]._source, "url")
    ensures TitleFields(a) == TitleFields(b)
  {
  }

  // ---------------------------------------------------------------------
  // Module state: the connection gate and the issued calls

  /** n delete-all calls. */
  function Deletes<D>(n: nat): (r: seq<WireCall<D>>)
    ensures |r| == n && forall i :: 0 <= i < n ==> r[i] == DeleteIndex(AllIndices)
  {
    if n == 0 then [] else Deletes(n - 1) + [DeleteIndex(AllIndices)]
  }

  /** The number of delete calls in a call log. */
  function DeleteCount<D>(calls: seq<WireCall<D>>): nat
  {
    if calls == [] then 0
    else DeleteCount(calls[..|calls| - 1]) + (if calls[|calls| - 1].DeleteIndex? then 1 else 0)
  }

  lemma {:induction false} DeleteCountAppend<D>(a: seq<WireCall<D>>, b: seq<WireCall<D>>)
    ensures DeleteCount(a + b) == DeleteCount(a) + DeleteCount(b)
  {
    if b == [] {
      assert a + b == a;
    } else {
      var n := |b| - 1;
      assert (a + b)[..|a + b| - 1] == a + b[..n];
      assert (a + b)[|a + b| - 1] == b[n];
      DeleteCountAppend(a, b[..n]);
    }
  }

  lemma {:induction false} DeleteCountDeletes<D>(n: nat)
    ensures DeleteCount(Deletes<D>(n)) == n
  {
    if n > 0 {
      DeleteCountDeletes<D>(n - 1);
      DeleteCountAppend(Deletes<D>(n - 1), [DeleteIndex(AllIndices)]);
    }
  }

  /** The module-level state of elastic/index.js. `connected` is the module
      flag, `listeners` the `'connection'` listeners of its event emitter,
      `calls` every call issued on the engine client so far, and
      `pingAnswered` whether the client has run the probe's callback. */
  class Cluster<D> {
    var connected: bool
    var pingAnswered: bool
    var listeners: seq<Listener>
    var calls: seq<WireCall<D>>
    /** How many times `deleteAll` has been called. */
    ghost var deleteRequests: nat

    /** The gate's invariant: the flag is only set by a probe answer; before
        the transition no delete has gone out and every `deleteAll` is waiting
        as a listener; after it, every `deleteAll` made so far has issued
        exactly one delete. */
    ghost predicate Valid()
      reads this
    {
      && (connected ==> pingAnswered)
      && (!connected ==> DeleteCount(calls) == 0 && |listeners| == deleteRequests)
      && (connected ==> DeleteCount(calls) == deleteRequests)
    }

    /** Loading the module: the flag is false, nothing is registered, and
        the liveness probe goes out with its 1000 ms timeout. */
    constructor ()
      ensures Valid()
      ensures !connected && !pingAnswered && listeners == [] && deleteRequests == 0
      ensures calls == [Ping(PingTimeout)]
    {
      connected := false;
      pingAnswered := false;
      listeners := [];
      calls := [Ping(PingTimeout)];
      deleteRequests := 0;
    }

    /** `deleteActual`: one delete of every index. Module-private; it runs
        only once the client is connected. */
    method DeleteActualCall()
      requires connected
      modifies this
      ensures calls == old(calls) + [DeleteIndex(AllIndices)]
      ensures connected == old(connected) && pingAnswered == old(pingAnswered)
      ensures listeners == old(listeners) && deleteRequests == old(deleteRequests)
    {
      calls := calls + [DeleteIndex(AllIndices)];
    }

    /** `eventEmitter.emit('connection')`: runs every registered listener
        once, in registration order. Module-private; it is emitted only on
        the transition to connected. */
    method Emit()
      requires connected
      modifies this
      ensures calls == old(calls) + Deletes(|old(listeners)|)
      ensures connected == old(connected) && pingAnswered == old(pingAnswered)
      ensures listeners == old(listeners) && deleteRequests == old(deleteRequests)
    {
      var i := 0;
      while i < |listeners|
        invariant 0 <= i <= |listeners|
        invariant calls == old(calls) + Deletes(i)
        invariant connected == old(connected) && pingAnswered == old(pingAnswered)
        invariant listeners == old(listeners) && deleteRequests == old(deleteRequests)
      {
        match listeners[i]
        case DeleteActual => DeleteActualCall();
        i := i + 1;
      }
    }

    /** The probe's callback, which the client runs once. On success the flag
        becomes true and every waiting delete runs exactly once; on failure
        nothing changes but the fact that the answer came, so the flag stays
        false for good and no waiting delete ever runs. */
    method OnPing(ok: bool)
      requires Valid() && !pingAnswered
      modifies this
      ensures Valid() && pingAnswered
      ensures connected == ok
      ensures listeners == old(listeners) && deleteRequests == old(deleteRequests)
      ensures ok ==> calls == old(calls) + Deletes(|old(listeners)|)
      ensures !ok ==> calls == old(calls)
    {
      pingAnswered := true;
      if ok {
        connected := true;
        Emit();
        DeleteCountAppend(old(calls), Deletes<D>(|listeners|));
        DeleteCountDeletes<D>(|listeners|);
      }
    }

    /** `deleteAll`: deletes every index now when connected, otherwise
        registers `deleteActual` to run on the transition. */
    method DeleteAll()
      requires Valid()
      modifies this
      ensures Valid()
      ensures connected == old(connected) && pingAnswered == old(pingAnswered)
      ensures deleteRequests == old(deleteRequests) + 1
      ensures old(connected) ==> calls == old(calls) + [DeleteIndex(AllIndices)] && listeners == old(listeners)
      ensures !old(connected) ==> calls == old(calls) && listeners == old(listeners) + [DeleteActual]
    {
      deleteRequests := deleteRequests + 1;
      if connected {
        DeleteActualCall();
        DeleteCountAppend(old(calls), [DeleteIndex(AllIndices)]);
      } else {
        listeners := listeners + [DeleteActual];
      }
    }

    /** `bulkInsert({ index, type, documents })`: one bulk call whose body is
        the alternating request. */
    method BulkInsert(args: BulkArgs<D>)
      requires Valid()
      modifies this
      ensures Valid()
      ensures calls == old(calls) + [Bulk(BulkInsertBody(args.index, args.typeName, args.documents))]
      ensures connected == old(connected) && pingAnswered == old(pingAnswered)
      ensures listeners == old(listeners) && deleteRequests == old(deleteRequests)
    {
      calls := calls + [Bulk(BulkInsertBody(args.index, args.typeName, args.documents))];
      DeleteCountAppend(old(calls), [Bulk(BulkInsertBody(args.index, args.typeName, args.documents))]);
    }

    /** `findTheThings(query)`: issues the match query; the promise settles as
        `SettleFindTheThings` says once the engine answers. */
    method FindTheThings(query: string)
      requires Valid()
      modifies this
      ensures Valid()
      ensures calls == old(calls) + [Search(FindTheThingsRequest(query))]
      ensures connected == old(connected) && pingAnswered == old(pingAnswered)
      ensures listeners == old(listeners) && deleteRequests == old(deleteRequests)
    {
      calls := calls + [Search(FindTheThingsRequest(query))];
      DeleteCountAppend(old(calls), [Search(FindTheThingsRequest(query))]);
    }

    /** `getAllTitleFields()`: issues the title listing query; the promise
        settles as `SettleTitleFields` says once the engine answers. */
    method GetAllTitleFields()
      requires Valid()
      modifies this
      ensures Valid()
      ensures calls == old(calls) + [Search(TitleFieldsRequest())]
      ensures connected == old(connected) && pingAnswered == old(pingAnswered)
      ensures listeners == old(listeners) && deleteRequests == old(deleteRequests)
    {
      calls := calls + [Search(TitleFieldsRequest())];
      DeleteCountAppend(old(calls), [Search(TitleFieldsRequest())]);
    }
  }

  /** A delete-all asked for before the probe succeeds reaches the engine only
      with the transition, and then once; one asked for afterwards goes out
      at once; a failed probe leaves it waiting for good. */
  method GateScenario<D>(probeOk: bool) returns (before: nat, after: nat)
    ensures before == 0
    ensures after == (if probeOk then 2 else 0)
  {
    var c := new Cluster<D>();
    c.DeleteAll();
    assert c.calls == [Ping(PingTimeout)];
    before := DeleteCount(c.calls);
    c.OnPing(probeOk);
    c.DeleteAll();
    after := DeleteCount(c.calls);
  }
}

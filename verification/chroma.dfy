/** `ChromaDBClient`: the guards of `search` and `retrieve_knowledge`, and the flattening of a
    query response into a list of passages. The collection's `query` is a parameter. */
module Chroma {
  import opened Wrappers
  import opened Embeddings

  /** The Python values a query response can hold under `"documents"`. */
  datatype PyValue = PyStr(text: string) | PyList(items: seq<PyValue>) | PyNone | PyOther

  /** A query response: the value under `"documents"`, or `None` when the key is missing. */
  datatype QueryResponse = QueryResponse(documents: Option<PyValue>)

  /** `collection.query` raised. */
  datatype QueryError = QueryRaised

  /** `collection.query(query_embeddings=[e], n_results=k)`. */
  type Query = (seq<real>, int) -> Result<QueryResponse, QueryError>

  /** `self.collection`, which is `None` after a failed initialisation. */
  datatype ChromaClient = ChromaClient(collection: Option<Query>)

  /** `retrieve_knowledge` asks for this many neighbours, as does the default of `search`. */
  const TopK: int := 5

  /** `doc for doc in doc_list if isinstance(doc, str)`. */
  function Strings(items: seq<PyValue>): (r: seq<string>)
    ensures |r| <= |items|
    ensures forall d :: d in r <==> PyStr(d) in items
    ensures |items| == 1 ==> r == (if items[0].PyStr? then [items[0].text] else [])
    decreases |items|
  {
    if |items| == 0 then []
    else
      var rest := Strings(items[1..]);
      assert forall v :: v in items <==> v == items[0] || v in items[1..];
      if items[0].PyStr? then [items[0].text] + rest else rest
  }

  /** The filter works item by item: the strings of two runs of items are the strings of each,
      in order. */
  lemma {:induction false} StringsAppend(a: seq<PyValue>, b: seq<PyValue>)
    ensures Strings(a + b) == Strings(a) + Strings(b)
    decreases |a|
  {
    if |a| == 0 {
      assert a + b == b;
    } else {
      assert (a + b)[0] == a[0];
      assert (a + b)[1..] == a[1..] + b;
      StringsAppend(a[1..], b);
    }
  }

  /** When every item is a string, all of them are kept, in order. */
  lemma {:induction false} StringsKeepsOrder(items: seq<PyValue>)
    requires forall i :: 0 <= i < |items| ==> items[i].PyStr?
    ensures |Strings(items)| == |items|
    ensures forall i :: 0 <= i < |items| ==> Strings(items)[i] == items[i].text
    decreases |items|
  {
    if |items| > 0 {
      StringsKeepsOrder(items[1..]);
      var r := Strings(items);
      assert r == [items[0].text] + Strings(items[1..]);
      forall i | 0 < i < |items|
        ensures r[i] == items[i].text
      {
        assert r[i] == Strings(items[1..])[i - 1];
        assert items[1..][i - 1] == items[i];
      }
    }
  }

  /** The passages of `documents`: the strings of every entry that is a list, entry after
      entry; other entries are skipped. */
  function Flatten(docLists: seq<PyValue>): (r: seq<string>)
    ensures forall d :: d in r <==>
      exists i :: 0 <= i < |docLists| && docLists[i].PyList? && PyStr(d) in docLists[i].items
    ensures |docLists| == 1 ==>
      r == (if docLists[0].PyList? then Strings(docLists[0].items) else [])
    decreases |docLists|
  {
    if |docLists| == 0 then []
    else
      var head := if docLists[0].PyList? then Strings(docLists[0].items) else [];
      var rest := Flatten(docLists[1..]);
      assert forall i :: 0 < i < |docLists| ==> docLists[1..][i - 1] == docLists[i];
      assert forall d :: (exists i :: 0 <= i < |docLists[1..]| && docLists[1..][i].PyList? && PyStr(d) in docLists[1..][i].items) ==>
        (exists i :: 0 <= i < |docLists| && docLists[i].PyList? && PyStr(d) in docLists[i].items);
      assert forall d :: (exists i :: 0 <= i < |docLists| && docLists[i].PyList? && PyStr(d) in docLists[i].items) ==>
        d in head || (exists i :: 0 <= i < |docLists[1..]| && docLists[1..][i].PyList? && PyStr(d) in docLists[1..][i].items) by {
        forall d | exists i :: 0 <= i < |docLists| && docLists[i].PyList? && PyStr(d) in docLists[i].items
          ensures d in head || exists i :: 0 <= i < |docLists[1..]| && docLists[1..][i].PyList? && PyStr(d) in docLists[1..][i].items
        {
          var i :| 0 <= i < |docLists| && docLists[i].PyList? && PyStr(d) in docLists[i].items;
          if i > 0 {
            assert docLists[1..][i - 1] == docLists[i];
          }
        }
      }
      head + rest
  }

  /** Flattening works entry by entry: the passages of two runs of entries are the passages of
      each, in order. */
  lemma {:induction false} FlattenAppend(a: seq<PyValue>, b: seq<PyValue>)
    ensures Flatten(a + b) == Flatten(a) + Flatten(b)
    decreases |a|
  {
    if |a| == 0 {
      assert a + b == b;
    } else {
      assert (a + b)[0] == a[0];
      assert (a + b)[1..] == a[1..] + b;
      FlattenAppend(a[1..], b);
    }
  }

  /** The passages of a query response. A list under `"documents"` is flattened; a missing
      key gives none, and any other value is modelled as giving none. */
  function Documents(response: QueryResponse): (r: seq<string>)
    ensures response.documents.Some? && response.documents.value.PyList? ==>
      r == Flatten(response.documents.value.items)
    ensures !(response.documents.Some? && response.documents.value.PyList?) ==> r == []
  {
    match response.documents
    case Some(PyList(docLists)) => Flatten(docLists)
    case _ => []
  }

  /** `retrieve_knowledge(query, embedding_model)`. */
  function RetrieveKnowledge(client: ChromaClient, query: string, embedder: EmbeddingModel): (r: seq<string>)
    ensures client.collection.None? ==> r == []
    ensures GetEmbedding(embedder, query) == [] ==> r == []
    ensures client.collection.Some? && GetEmbedding(embedder, query) != [] ==>
      var answer := client.collection.value(GetEmbedding(embedder, query), TopK);
      r == if answer.Success? then Documents(answer.value) else []
  {
    match client.collection
    case None => []
    case Some(run) =>
      var embedding := GetEmbedding(embedder, query);
      if embedding == [] then []
      else
        match run(embedding, TopK)
        case Success(response) => Documents(response)
        case Failure(_) => []
  }

  /** What `search` returns: `[]`, or the response as it came. */
  datatype SearchOutcome = NoResults | Results(response: QueryResponse)

  /** `search(query_embedding, top_k)`. */
  function Search(client: ChromaClient, embedding: seq<real>, topK: int): (r: SearchOutcome)
    ensures client.collection.None? ==> r == NoResults
    ensures client.collection.Some? ==>
      (r.Results? <==> client.collection.value(embedding, topK).Success?)
    ensures r.Results? ==> r == Results(client.collection.value(embedding, topK).value)
  {
    match client.collection
    case None => NoResults
    case Some(query) =>
      match query(embedding, topK)
      case Success(response) => Results(response)
      case Failure(_) => NoResults
  }

  /** Retrieval is a default-size search on the query's embedding followed by flattening; a
      search without results is retrieval without passages. */
  lemma RetrieveIsSearchThenFlatten(client: ChromaClient, query: string, embedder: EmbeddingModel)
    ensures GetEmbedding(embedder, query) != [] ==>
      var s := Search(client, GetEmbedding(embedder, query), TopK);
      RetrieveKnowledge(client, query, embedder) == if s.Results? then Documents(s.response) else []
  {
  }

  /** Every retrieved passage is a string stored inside one of the response's document
      lists. */
  lemma RetrievedPassagesComeFromResponse(client: ChromaClient, query: string, embedder: EmbeddingModel, d: string)
    requires d in RetrieveKnowledge(client, query, embedder)
    ensures client.collection.Some?
    ensures var answer := client.collection.value(GetEmbedding(embedder, query), TopK);
      && answer.Success?
      && answer.value.documents.Some?
      && answer.value.documents.value.PyList?
      && exists i :: 0 <= i < |answer.value.documents.value.items| &&
           answer.value.documents.value.items[i].PyList? &&
           PyStr(d) in answer.value.documents.value.items[i].items
  {
  }
}

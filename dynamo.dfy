/**
 * `query_dynamo`: for each county, a paginated Query on the table's county
 * index, then a fail-fast join of the per-county results in county order.
 */
module Dynamo {
  import opened Wrappers
  import opened CountyNames

  /** A DynamoDB attribute value, reduced to the variants a region record can hold. */
  datatype AttributeValue = S(s: string) | N(n: string) | Bool(b: bool) | Null

  /** A region record, and a continuation key: attribute maps, as DynamoDB returns them. */
  type Item = map<string, AttributeValue>
  type Key = map<string, AttributeValue>

  /** One Query response: its items, if any, and the key to continue from, if any. */
  datatype Page = Page(items: Option<seq<Item>>, lastEvaluatedKey: Option<Key>)

  datatype StoreError = StoreError(message: string)

  /**
   * The county index of the region table. `query(name, start)` is the
   * response to a Query for stored county name `name` that starts after
   * `start` (from the beginning when `start` is None). `remaining(k)` bounds
   * the number of pages the store still holds after continuation key `k`;
   * it is only a termination measure.
   */
  datatype CountyIndex = CountyIndex(
    query: (string, Option<Key>) -> Result<Page, StoreError>,
    remaining: Key -> nat)

  /** Every continuation key returned after a key holds fewer remaining pages than it. */
  ghost predicate Paginates(index: CountyIndex)
  {
    forall name: string, start: Option<Key> ::
      start.Some? && index.query(name, start).Ok? && index.query(name, start).value.lastEvaluatedKey.Some? ==>
        index.remaining(index.query(name, start).value.lastEvaluatedKey.value) < index.remaining(start.value)
  }

  /** A page without `items` contributes nothing. */
  function PageItems(page: Page): seq<Item>
  {
    match page.items
    case None => []
    case Some(items) => items
  }

  /** `items` in front of a successful result; an error stays the error. */
  function Prepend(items: seq<Item>, r: Result<seq<Item>, StoreError>): Result<seq<Item>, StoreError>
  {
    match r
    case Err(e) => Err(e)
    case Ok(rest) => Ok(items + rest)
  }

  lemma PrependNothing(r: Result<seq<Item>, StoreError>)
    ensures Prepend([], r) == r
  {
    if r.Ok? {
      assert [] + r.value == r.value;
    }
  }

  lemma PrependTwice(a: seq<Item>, b: seq<Item>, r: Result<seq<Item>, StoreError>)
    ensures Prepend(a, Prepend(b, r)) == Prepend(a + b, r)
  {
    if r.Ok? {
      assert a + (b + r.value) == (a + b) + r.value;
    }
  }

  /**
   * What the pagination loop gathers for `name` from request `start` on:
   * the first failing request's error, or the items of every page up to
   * and including the first page without a continuation key.
   */
  function PagesFrom(index: CountyIndex, name: string, start: Option<Key>): Result<seq<Item>, StoreError>
    requires Paginates(index)
    decreases if start.None? then 1 else 0, if start.Some? then index.remaining(start.value) else 0
  {
    match index.query(name, start)
    case Err(e) => Err(e)
    case Ok(page) =>
      if page.lastEvaluatedKey.None? then Ok(PageItems(page))
      else Prepend(PageItems(page), PagesFrom(index, name, page.lastEvaluatedKey))
  }

  /** One request answered with `page`: its items, then the rest of the chain if it carries a key. */
  lemma PagesFromStep(index: CountyIndex, name: string, start: Option<Key>, page: Page)
    requires Paginates(index) && index.query(name, start) == Ok(page)
    ensures PagesFrom(index, name, start) ==
      if page.lastEvaluatedKey.None? then Ok(PageItems(page))
      else Prepend(PageItems(page), PagesFrom(index, name, page.lastEvaluatedKey))
  {
  }

  /** The result of one county's task: its pages, requested under the county's full name. */
  function CountyQuery(index: CountyIndex, county: string): Result<seq<Item>, StoreError>
    requires Paginates(index)
  {
    PagesFrom(index, FullName(county), None)
  }

  /** One spawned task of `query_dynamo`: the pagination loop for one county. */
  method QueryCounty(index: CountyIndex, county: string) returns (r: Result<seq<Item>, StoreError>)
    requires Paginates(index)
    ensures r == CountyQuery(index, county)
  {
    var countyFull := FullName(county);
    var results: seq<Item> := [];
    var lastEvaluatedKey: Option<Key> := None;
    PrependNothing(PagesFrom(index, countyFull, None));
    while true
      invariant lastEvaluatedKey.None? ==> results == []
      invariant CountyQuery(index, county) == Prepend(results, PagesFrom(index, countyFull, lastEvaluatedKey))
      decreases if lastEvaluatedKey.None? then 1 else 0,
                if lastEvaluatedKey.Some? then index.remaining(lastEvaluatedKey.value) else 0
    {
      var response := index.query(countyFull, lastEvaluatedKey);
      if response.Err? {
        return Err(response.error);
      }
      var page := response.value;
      PagesFromStep(index, countyFull, lastEvaluatedKey, page);
      PrependTwice(results, PageItems(page), PagesFrom(index, countyFull, page.lastEvaluatedKey));
      if page.items.Some? {
        results := results + page.items.value;
      } else {
        assert results + PageItems(page) == results;
      }
      if page.lastEvaluatedKey.Some? {
        lastEvaluatedKey := page.lastEvaluatedKey;
      } else {
        break;
      }
    }
    return Ok(results);
  }

  /** The items of a run of pages, in page order. */
  function AllItems(pages: seq<Page>): (r: seq<Item>)
    ensures r == [] <==> forall i :: 0 <= i < |pages| ==> PageItems(pages[i]) == []
  {
    if pages == [] then [] else PageItems(pages[0]) + AllItems(pages[1..])
  }

  /**
   * The store answers the requests starting at `start` with `pages`: every
   * page but the last carries a continuation key, each following request
   * carries the previous page's key, and the last page carries none.
   */
  ghost predicate Answers(index: CountyIndex, name: string, start: Option<Key>, pages: seq<Page>)
    decreases |pages|
  {
    && pages != []
    && index.query(name, start) == Ok(pages[0])
    && if |pages| == 1 then pages[0].lastEvaluatedKey.None?
       else pages[0].lastEvaluatedKey.Some? && Answers(index, name, pages[0].lastEvaluatedKey, pages[1..])
  }

  /**
   * The store answers with `pages` carrying keys and then fails the next
   * request with `e`.
   */
  ghost predicate FailsAfter(index: CountyIndex, name: string, start: Option<Key>, pages: seq<Page>, e: StoreError)
    decreases |pages|
  {
    if pages == [] then index.query(name, start) == Err(e)
    else
      && index.query(name, start) == Ok(pages[0])
      && pages[0].lastEvaluatedKey.Some?
      && FailsAfter(index, name, pages[0].lastEvaluatedKey, pages[1..], e)
  }

  /**
   * Pagination stops exactly at the first page without a key, and yields
   * every page's items concatenated in page order.
   */
  lemma {:induction false} PaginationCollectsEveryPage(index: CountyIndex, name: string, start: Option<Key>, pages: seq<Page>)
    requires Paginates(index)
    requires Answers(index, name, start, pages)
    ensures PagesFrom(index, name, start) == Ok(AllItems(pages))
    decreases |pages|
  {
    PagesFromStep(index, name, start, pages[0]);
    if |pages| == 1 {
      assert pages[1..] == [];
      assert AllItems(pages) == PageItems(pages[0]) + [] == PageItems(pages[0]);
    } else {
      PaginationCollectsEveryPage(index, name, pages[0].lastEvaluatedKey, pages[1..]);
    }
  }

  /** A failed request aborts the county with the store's error; the pages already read are dropped. */
  lemma {:induction false} PageFailureAbortsCounty(index: CountyIndex, name: string, start: Option<Key>, pages: seq<Page>, e: StoreError)
    requires Paginates(index)
    requires FailsAfter(index, name, start, pages, e)
    ensures PagesFrom(index, name, start) == Err(e)
    decreases |pages|
  {
    if pages != [] {
      PageFailureAbortsCounty(index, name, pages[0].lastEvaluatedKey, pages[1..], e);
    }
  }

  /** The per-county task results, in the order of `counties`. */
  function CountyResults(index: CountyIndex, counties: seq<string>): (r: seq<Result<seq<Item>, StoreError>>)
    requires Paginates(index)
  {
    seq(|counties|, i requires 0 <= i < |counties| => CountyQuery(index, counties[i]))
  }

  /**
   * The join loop of `query_dynamo`: the first failing result's error,
   * otherwise every result's items in result order.
   */
  function Aggregate(results: seq<Result<seq<Item>, StoreError>>): Result<seq<Item>, StoreError>
  {
    if results == [] then Ok([])
    else match results[0]
      case Err(e) => Err(e)
      case Ok(items) => Prepend(items, Aggregate(results[1..]))
  }

  /** Concatenation of successful results, in order. */
  function Flatten(results: seq<Result<seq<Item>, StoreError>>): seq<Item>
    requires forall i :: 0 <= i < |results| ==> results[i].Ok?
  {
    if results == [] then [] else results[0].value + Flatten(results[1..])
  }

  /** The join succeeds exactly when every county succeeds, and then yields their items in county order. */
  lemma {:induction false} AggregateSucceeds(results: seq<Result<seq<Item>, StoreError>>)
    ensures Aggregate(results).Ok? <==> forall i :: 0 <= i < |results| ==> results[i].Ok?
    ensures Aggregate(results).Ok? ==> Aggregate(results).value == Flatten(results)
  {
    if results != [] {
      AggregateSucceeds(results[1..]);
      if results[0].Ok? && Aggregate(results[1..]).Ok? {
        assert forall i :: 1 <= i < |results| ==> results[i] == results[1..][i - 1];
      } else if results[0].Ok? {
        var k :| 0 <= k < |results[1..]| && results[1..][k].Err?;
        assert results[k + 1].Err?;
      }
    }
  }

  /** When results fail, the join reports the error of the first failing one, in list order. */
  lemma {:induction false} AggregateFirstError(results: seq<Result<seq<Item>, StoreError>>, i: nat)
    requires i < |results| && results[i].Err?
    requires forall j :: 0 <= j < i ==> results[j].Ok?
    ensures Aggregate(results) == Err(results[i].error)
  {
    if i > 0 {
      AggregateFirstError(results[1..], i - 1);
    }
  }

  /** The tasks' outcome: all counties' items in county order, or the first failing county's error. */
  function QueryAll(index: CountyIndex, counties: seq<string>): Result<seq<Item>, StoreError>
    requires Paginates(index)
  {
    Aggregate(CountyResults(index, counties))
  }

  /** One county's items come before those of the counties after it. */
  lemma QueryAllSplits(index: CountyIndex, county: string, rest: seq<string>)
    requires Paginates(index)
    ensures QueryAll(index, [county] + rest) == match CountyQuery(index, county)
      case Err(e) => Err(e)
      case Ok(items) => Prepend(items, QueryAll(index, rest))
  {
    assert CountyResults(index, [county] + rest)[1..] == CountyResults(index, rest);
  }

  /**
   * `query_dynamo`: one task per county (run here one after the other; the
   * join consumes them in county order), then the fail-fast join.
   */
  method QueryDynamo(index: CountyIndex, counties: seq<string>) returns (r: Result<seq<Item>, StoreError>)
    requires Paginates(index)
    ensures r == QueryAll(index, counties)
  {
    var tasks: seq<Result<seq<Item>, StoreError>> := [];
    for i := 0 to |counties|
      invariant tasks == CountyResults(index, counties[..i])
    {
      var task := QueryCounty(index, counties[i]);
      tasks := tasks + [task];
    }
    assert counties[..|counties|] == counties;
    var allResults: seq<Item> := [];
    PrependNothing(Aggregate(tasks));
    for i := 0 to |tasks|
      invariant Aggregate(tasks) == Prepend(allResults, Aggregate(tasks[i..]))
    {
      assert tasks[i..][1..] == tasks[i + 1..];
      PrependTwice(allResults, if tasks[i].Ok? then tasks[i].value else [], Aggregate(tasks[i + 1..]));
      match tasks[i]
      case Err(e) =>
        return Err(e);
      case Ok(items) =>
        allResults := allResults + items;
    }
    assert allResults + [] == allResults;
    return Ok(allResults);
  }
}

/** Paging of a list endpoint's query: `parseInt(req.query.x) || default`,
    `skip = (page - 1) * limit`, MongoDB's `skip`/`limit`, and
    `totalPages = Math.ceil(total / limit)`. */
module Query {
  import opened Common
  import opened ErrorHandler

  /** `parseInt(q) || dflt`: a missing, unparsable (None) or zero parameter
      takes the default. */
  function PageParam(q: Option<int>, dflt: int): (r: int)
    ensures q.None? || q.value == 0 ==> r == dflt
    ensures q.Some? && q.value != 0 ==> r == q.value
  {
    if q.None? || q.value == 0 then dflt else q.value
  }

  /** The JSON body of a paged listing. */
  datatype PageOf<T> = PageOf(items: seq<T>, currentPage: int, totalPages: int, total: nat)

  /** One page of `ordered` (already filtered and sorted). MongoDB rejects a
      negative skip, which the handler's catch turns into a 500 with
      `failure`; a negative limit returns that many documents. */
  function Paginate<T>(ordered: seq<T>, pageQ: Option<int>, limitQ: Option<int>, dflt: nat, failure: string)
    : (r: Outcome<PageOf<T>>)
    requires dflt > 0
    ensures var page, limit := PageParam(pageQ, 1), PageParam(limitQ, dflt);
      && limit != 0
      && (r.Err? <==> (page - 1) * limit < 0)
      && (r.Err? ==> r == Err(500, failure))
      && (r.Ok? ==> r.status == 200 && r.value.currentPage == page && r.value.total == |ordered|
                    && r.value.totalPages == CeilDiv(|ordered|, limit)
                    && r.value.items == Window(ordered, (page - 1) * limit, Abs(limit)))
  {
    var page, limit := PageParam(pageQ, 1), PageParam(limitQ, dflt);
    var skip := (page - 1) * limit;
    if skip < 0 then Err(500, failure)
    else Ok(200, PageOf(Window(ordered, skip, Abs(limit)), page, CeilDiv(|ordered|, limit), |ordered|))
  }

  /** With a positive limit every page in 1..totalPages is non-empty, every
      page after the last is empty, and item i of page p is element
      (p - 1) * limit + i of the listing. */
  lemma PageContents<T>(ordered: seq<T>, page: int, limit: int)
    requires page >= 1 && limit >= 1
    ensures var w := Window(ordered, (page - 1) * limit, limit);
      && (page <= CeilDiv(|ordered|, limit) <==> w != [])
      && (forall i :: 0 <= i < |w| ==> w[i] == ordered[(page - 1) * limit + i])
  {
    var n, c := |ordered|, CeilDiv(|ordered|, limit);
    if page <= c {
      assert (page - 1) * limit <= (c - 1) * limit by {
        assert page - 1 <= c - 1;
      }
    } else {
      assert c * limit <= (page - 1) * limit by {
        assert c <= page - 1;
      }
    }
  }
}

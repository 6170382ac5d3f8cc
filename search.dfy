/**
 * searchBlog: the public blogs whose title or content matches the trimmed
 * query, newest first. The match is the case-insensitive regular expression
 * test, taken as a parameter `matches(text, query)`.
 */
module Search {
  import opened Wrappers
  import opened Js
  import opened Collections
  import opened ApiErrors
  import opened BlogModel

  /** The HTTP status, the envelope's own code, and the results. */
  datatype SearchResponse = SearchResponse(httpStatus: int, code: int, results: seq<Blog>)

  predicate NewestFirst(s: seq<Blog>) {
    forall i, j :: 0 <= i < j < |s| ==> s[i].createdAt >= s[j].createdAt
  }

  /** A blog no older than every blog of a newest-first sequence may lead it. */
  lemma PrependNewest(x: Blog, s: seq<Blog>)
    requires NewestFirst(s)
    requires forall y :: y in s ==> x.createdAt >= y.createdAt
    ensures NewestFirst([x] + s)
  {
    forall i, j | 0 <= i < j < |[x] + s| ensures ([x] + s)[i].createdAt >= ([x] + s)[j].createdAt {
      assert ([x] + s)[j] == s[j - 1];
      if i > 0 {
        assert ([x] + s)[i] == s[i - 1];
      }
    }
  }

  /**
   * When `b` is older than the head of a newest-first sequence, the head is
   * no older than anything made of the tail and `b`.
   */
  lemma HeadLeadsInsertion(b: Blog, s: seq<Blog>, rest: seq<Blog>)
    requires NewestFirst(s) && s != [] && b.createdAt < s[0].createdAt
    requires multiset(rest) == multiset(s[1..]) + multiset{b}
    ensures forall y :: y in rest ==> s[0].createdAt >= y.createdAt
  {
    forall y | y in rest ensures s[0].createdAt >= y.createdAt {
      assert y in multiset(rest);
      if y != b {
        assert y in multiset(s[1..]);
        var k :| 0 <= k < |s[1..]| && s[1..][k] == y;
        assert s[k + 1] == y;
      }
    }
  }

  /** Places `b` before the first blog that is not newer than it. */
  function InsertNewest(b: Blog, s: seq<Blog>): (r: seq<Blog>)
    requires NewestFirst(s)
    ensures NewestFirst(r)
    ensures multiset(r) == multiset(s) + multiset{b}
  {
    if s == [] then [b]
    else if b.createdAt >= s[0].createdAt then
      PrependNewest(b, s);
      [b] + s
    else
      var rest := InsertNewest(b, s[1..]);
      HeadLeadsInsertion(b, s, rest);
      PrependNewest(s[0], rest);
      assert s == [s[0]] + s[1..];
      [s[0]] + rest
  }

  /** `$sort: { createdAt: -1 }`: the same blogs, newest first. */
  function SortNewestFirst(s: seq<Blog>): (r: seq<Blog>)
    ensures NewestFirst(r)
    ensures multiset(r) == multiset(s)
  {
    if s == [] then []
    else
      assert s == [s[0]] + s[1..];
      InsertNewest(s[0], SortNewestFirst(s[1..]))
  }

  /** The aggregation's match: approved, published, and title or content matching. */
  predicate Hit(b: Blog, query: string, matches: (string, string) -> bool) {
    IsPublic(b) && (matches(b.title, query) || matches(b.content, query))
  }

  /**
   * searchBlog: a missing or blank query is a 400. Otherwise the response is
   * always HTTP 200 with every public matching blog, newest first; the
   * envelope's code is 404 exactly when nothing matched.
   */
  function SearchBlog(blogs: map<Id, Blog>, bound: nat, q: Option<string>, matches: (string, string) -> bool): (r: Outcome<SearchResponse>)
    requires AllBelow(blogs, bound)
    ensures MissingOrBlank(q) <==> r == Reject(400, "Search query is required")
    ensures r.Ok? ==>
      r.value.httpStatus == 200 && (r.value.code == 404 <==> r.value.results == [])
      && (r.value.code == 200 <==> r.value.results != [])
    ensures r.Ok? ==> NewestFirst(r.value.results)
    ensures r.Ok? ==> forall b :: b in r.value.results ==> b in blogs.Values && Hit(b, Trim(q.value), matches)
    ensures r.Ok? ==> forall id :: id in blogs && Hit(blogs[id], Trim(q.value), matches) ==> blogs[id] in r.value.results
  {
    if MissingOrBlank(q) then
      Reject(400, "Search query is required")
    else
      var query := Trim(q.value);
      var found := Find(blogs, (b: Blog) => Hit(b, query, matches), bound);
      var results := SortNewestFirst(found);
      assert forall x :: x in results <==> x in found by {
        forall x ensures x in results <==> x in found {
          assert x in results <==> x in multiset(results);
          assert x in found <==> x in multiset(found);
        }
      }
      assert forall x :: x in found ==> x in blogs.Values && Hit(x, query, matches) by {
        forall x | x in found ensures x in blogs.Values && Hit(x, query, matches) {
          var i :| 0 <= i < |found| && found[i] == x;
        }
      }
      Ok(SearchResponse(200, if |results| == 0 then 404 else 200, results))
  }
}

/** Cursor pagination as the IAM listings (`listUsers`, `listAccessKeys`)
    expose it: each response carries a page of entries, an `IsTruncated`
    flag and, when truncated, a `Marker` to send with the next request. */
module Paging {

  import opened Wrappers

  datatype Page<T> = Page(entries: seq<T>, isTruncated: bool, marker: Option<string>)

  /** A listing as the store answers it: the page returned for each request
      marker (None is a request without a Marker). A request that is not in
      the map is one the store rejects. */
  type Listing<T> = map<Option<string>, Page<T>>

  /** `pages` is what a client receives when it starts at `req`, sends each
      truncated page's marker with its next request and stops at the first
      page that is not truncated. */
  predicate Chain<T(==)>(l: Listing<T>, req: Option<string>, pages: seq<Page<T>>)
    decreases |pages|
  {
    && |pages| >= 1
    && req in l
    && l[req] == pages[0]
    && if |pages| == 1 then !pages[0].isTruncated
       else pages[0].isTruncated && Chain(l, pages[0].marker, pages[1..])
  }

  /** The entries of consecutive pages, in page order. */
  function Entries<T>(pages: seq<Page<T>>): (r: seq<T>)
    ensures forall p, x :: p in pages && x in p.entries ==> x in r
    ensures forall x :: x in r ==> exists p :: p in pages && x in p.entries
    decreases |pages|
  {
    if pages == [] then [] else pages[0].entries + Entries(pages[1..])
  }

  lemma {:induction false} EntriesAppend<T>(a: seq<Page<T>>, b: seq<Page<T>>)
    ensures Entries(a + b) == Entries(a) + Entries(b)
    decreases |a|
  {
    if a != [] {
      assert (a + b)[0] == a[0];
      assert (a + b)[1..] == a[1..] + b;
      EntriesAppend(a[1..], b);
      assert Entries(a + b) == a[0].entries + (Entries(a[1..]) + Entries(b));
    } else {
      assert a + b == b;
    }
  }

  /** Following markers is deterministic: a listing has at most one chain
      from a given request. */
  lemma {:induction false} ChainUnique<T>(l: Listing<T>, req: Option<string>, p: seq<Page<T>>, q: seq<Page<T>>)
    requires Chain(l, req, p) && Chain(l, req, q)
    ensures p == q
    decreases |p|
  {
    if |p| > 1 && |q| > 1 {
      ChainUnique(l, p[0].marker, p[1..], q[1..]);
      assert p == [p[0]] + p[1..];
      assert q == [q[0]] + q[1..];
    }
  }
}

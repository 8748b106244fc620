/**
 * GET /api/products: a category filter, then a case-insensitive search on
 * the name, then `slice`-based pagination, with the number of matching
 * products reported before pagination. It works on a copy of the store and
 * never changes it.
 */
module Query {
  import opened Json
  import opened Seqs
  import opened Products

  /** The query string. An absent `category` or `search` and an empty one
      are alike: both are falsy, so neither filters. `page` and `limit`, when
      present, are the integers their text denotes; absent, they default to
      1 and 10. */
  datatype Params = Params(category: string, search: string, page: Option<int>, limit: Option<int>)

  /** The response body `{ total, products }`. */
  datatype Listing = Listing(total: nat, products: seq<Product>)

  const DefaultPage := 1
  const DefaultLimit := 10

  /** toLowerCase on the ASCII letters; every other character is kept. */
  function LowerChar(c: char): char {
    if 'A' <= c <= 'Z' then (c as int - 'A' as int + 'a' as int) as char else c
  }

  function Lower(s: string): string {
    seq(|s|, i requires 0 <= i < |s| => LowerChar(s[i]))
  }

  /** `needle` occurs in `hay` starting at offset `i`. */
  predicate OccursAt(hay: string, needle: string, i: int) {
    0 <= i && i + |needle| <= |hay| && hay[i..i + |needle|] == needle
  }

  /** String.prototype.includes: `needle` occurs in `hay` at some offset. */
  predicate Contains(hay: string, needle: string) {
    exists i | 0 <= i <= |hay| - |needle| :: OccursAt(hay, needle, i)
  }

  /** `p.category === category`: strictly equal, so only a string category
      can match. */
  predicate InCategory(p: Product, category: string) {
    p.fields.category == Str(category)
  }

  /** `p.name.toLowerCase().includes(search.toLowerCase())`, for a product
      whose name is a string. */
  predicate NameMatches(p: Product, search: string) {
    p.fields.name.Str? && Contains(Lower(p.fields.name.s), Lower(search))
  }

  /** The category step: with a category given, the products in it. */
  function ByCategory(ps: seq<Product>, category: string): seq<Product> {
    if category != "" then Keep(ps, (p: Product) => InCategory(p, category)) else ps
  }

  /** The search step. toLowerCase is called on every name it looks at, so
      a name that is not a string throws, and the request ends with the
      500 of the error handler. */
  function BySearch(ps: seq<Product>, search: string): Result<seq<Product>> {
    if search == "" then Ok(ps)
    else if exists p :: p in ps && !p.fields.name.Str? then Err(Internal)
    else Ok(Keep(ps, (p: Product) => NameMatches(p, search)))
  }

  /** The products the query selects, before pagination. */
  function Filtered(ps: seq<Product>, q: Params): Result<seq<Product>> {
    BySearch(ByCategory(ps, q.category), q.search)
  }

  /** The position Array.prototype.slice makes of a relative index: counted
      back from the end when negative, and clamped to 0..len. */
  function SliceIndex(rel: int, len: nat): (r: nat)
    ensures r <= len
  {
    if rel < 0 then (if len + rel < 0 then 0 else len + rel)
    else if rel < len then rel else len
  }

  /** Array.prototype.slice(start, end). */
  function Slice<T>(s: seq<T>, start: int, end: int): seq<T> {
    var from, to := SliceIndex(start, |s|), SliceIndex(end, |s|);
    if from < to then s[from..to] else []
  }

  /** `slice((page - 1) * limit, (page - 1) * limit + limit)`. */
  function Page<T>(s: seq<T>, page: int, limit: int): seq<T> {
    var start := (page - 1) * limit;
    Slice(s, start, start + limit)
  }

  /** `page = 1` and `limit = 10` when the query string has none. */
  function PageNumber(q: Params): int {
    if q.page.Some? then q.page.value else DefaultPage
  }

  function PageSize(q: Params): int {
    if q.limit.Some? then q.limit.value else DefaultLimit
  }

  /** The whole list handler. */
  function List(ps: seq<Product>, q: Params): Result<Listing> {
    match Filtered(ps, q)
    case Err(e) => Err(e)
    case Ok(selected) => Ok(Listing(|selected|, Page(selected, PageNumber(q), PageSize(q))))
  }

  /** A product the query selects: in the category when one is given, and
      with a name containing the search term, ignoring case, when one is
      given. */
  predicate Selects(q: Params, p: Product) {
    (q.category == "" || InCategory(p, q.category)) && (q.search == "" || NameMatches(p, q.search))
  }

  /** The list handler against a one-pass reference: it fails exactly when a
      search is given and some product of the category has a name that is
      not a string; otherwise `total` counts the selected products and the
      page is cut from them, kept in store order. */
  lemma ListIsOnePassFilter(ps: seq<Product>, q: Params)
    ensures var byCat := (p: Product) => q.category == "" || InCategory(p, q.category);
            List(ps, q).Err? <==> q.search != "" && exists p :: p in ps && byCat(p) && !p.fields.name.Str?
    ensures List(ps, q).Err? ==> List(ps, q).error == Internal
    ensures Filtered(ps, q).Ok? ==>
              Filtered(ps, q).value == Keep(ps, (p: Product) => Selects(q, p)) &&
              var selected := Keep(ps, (p: Product) => Selects(q, p));
              List(ps, q) == Ok(Listing(|selected|, Page(selected, PageNumber(q), PageSize(q))))
  {
    var byCat := (p: Product) => q.category == "" || InCategory(p, q.category);
    var selects := (p: Product) => Selects(q, p);
    var cat := ByCategory(ps, q.category);
    if q.category == "" {
      KeepEverything(ps, byCat);
    } else {
      KeepAgreeing(ps, (p: Product) => InCategory(p, q.category), byCat);
    }
    assert cat == Keep(ps, byCat);
    if Filtered(ps, q).Ok? {
      if q.search == "" {
        KeepTwice(ps, byCat, (p: Product) => true, selects);
        KeepEverything(cat, (p: Product) => true);
      } else {
        KeepTwice(ps, byCat, (p: Product) => NameMatches(p, q.search), selects);
      }
    }
  }

  /** With neither a category nor a search, every stored product is
      selected, in store order. */
  lemma NoFilterSelectsAll(ps: seq<Product>, q: Params)
    requires q.category == "" && q.search == ""
    ensures Filtered(ps, q) == Ok(ps)
    ensures List(ps, q).Ok? && List(ps, q).value.total == |ps|
  {
  }

  /** Lowering is idempotent and keeps the length. */
  lemma LowerTwice(s: string)
    ensures Lower(Lower(s)) == Lower(s)
    ensures |Lower(s)| == |s|
  {
  }

  /** The search ignores the case of the term: searching for a term or for
      its lower-case form selects the same products. */
  lemma SearchIgnoresCase(ps: seq<Product>, q: Params)
    ensures Filtered(ps, q) == Filtered(ps, q.(search := Lower(q.search)))
  {
    var lowered := q.(search := Lower(q.search));
    var cat := ByCategory(ps, q.category);
    LowerTwice(q.search);
    if q.search != "" {
      KeepAgreeing(cat, (p: Product) => NameMatches(p, q.search), (p: Product) => NameMatches(p, lowered.search));
    }
  }

  /** For a page number of at least 1 and a non-negative limit, the page is
      the window of at most `limit` products that starts at
      `(page - 1) * limit`, clamped to the end. */
  lemma PageWindow<T>(s: seq<T>, page: int, limit: int)
    requires page >= 1 && limit >= 0
    ensures var start := (page - 1) * limit;
            var from := if start < |s| then start else |s|;
            var to := if start + limit < |s| then start + limit else |s|;
            Page(s, page, limit) == s[from..to] && |Page(s, page, limit)| <= limit
  {
    var start := (page - 1) * limit;
    assert start >= 0 by {
      assert page - 1 >= 0;
    }
  }

  /** The first `n` pages, one after the other. */
  function Pages<T>(s: seq<T>, limit: int, n: nat): seq<T> {
    if n == 0 then [] else Pages(s, limit, n - 1) + Page(s, n, limit)
  }

  /** Reading pages 1 to n in turn yields the first `n * limit` selected
      products in order; once `n * limit` reaches the total, the pages put
      back the whole selection. */
  lemma {:induction false} PagesReassemble<T>(s: seq<T>, limit: int, n: nat)
    requires limit >= 1
    ensures Pages(s, limit, n) == s[..if n * limit < |s| then n * limit else |s|]
    ensures n * limit >= |s| ==> Pages(s, limit, n) == s
  {
    if n > 0 {
      PagesReassemble(s, limit, n - 1);
      PageWindow(s, n, limit);
      var a := if (n - 1) * limit < |s| then (n - 1) * limit else |s|;
      var b := if n * limit < |s| then n * limit else |s|;
      assert (n - 1) * limit + limit == n * limit;
      assert s[..a] + s[a..b] == s[..b];
    }
  }

  /** Pages further along start no earlier than where earlier pages end. */
  lemma PagesApart(page1: int, page2: int, limit: int)
    requires 1 <= page1 < page2 && limit >= 0
    ensures (page1 - 1) * limit + limit <= (page2 - 1) * limit
  {
    var a, d := page1 - 1, page2 - page1;
    Distribute(a, d, limit);
    NonNegativeProduct(d - 1, limit);
    Distribute(d - 1, 1, limit);
  }

  /** Distribute and NonNegativeProduct only hand the solver the two steps
      of nonlinear arithmetic that PagesApart needs. */
  lemma Distribute(a: int, b: int, c: int)
    ensures (a + b) * c == a * c + b * c
  {
  }

  lemma NonNegativeProduct(a: int, b: int)
    requires a >= 0 && b >= 0
    ensures a * b >= 0
  {
  }

  /** In a selection without repeated products, two different pages have no
      product in common. */
  lemma PagesDisjoint<T>(s: seq<T>, page1: int, page2: int, limit: int, x: T)
    requires Distinct(s) && page1 >= 1 && page2 >= 1 && page1 != page2 && limit >= 0
    requires x in Page(s, page1, limit)
    ensures x !in Page(s, page2, limit)
  {
    var lo, hi := if page1 < page2 then page1 else page2, if page1 < page2 then page2 else page1;
    PagesApart(lo, hi, limit);
    PageWindow(s, lo, limit);
    PageWindow(s, hi, limit);
  }

  /** A selection from a store with unique ids has no repeated product, so
      its pages are disjoint. */
  lemma SelectionDistinct(ps: seq<Product>, q: Params)
    requires UniqueIds(ps) && Filtered(ps, q).Ok?
    ensures Distinct(Filtered(ps, q).value)
  {
    assert Distinct(ps);
    ListIsOnePassFilter(ps, q);
    KeepDistinct(ps, (p: Product) => Selects(q, p));
  }

  /** Page 0 is empty for every limit (`slice(-limit, 0)` ends at 0), and
      limit 0 gives an empty page for every page number (`slice(x, x)`). */
  lemma PageZeroIsEmpty<T>(s: seq<T>, limit: int)
    ensures Page(s, 0, limit) == []
    ensures forall page :: Page(s, page, 0) == []
  {
  }

  /** Page -1 counts from the end: with `2 * limit` products or more it is
      the window of `limit` products that ends `limit` before the end. */
  lemma NegativePageCountsFromEnd<T>(s: seq<T>, limit: int)
    requires limit >= 1 && 2 * limit <= |s|
    ensures Page(s, -1, limit) == s[|s| - 2 * limit..|s| - limit]
  {
  }
}

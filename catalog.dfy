/**
 * The product service: a cached catalog that is (re)loaded from a product file, looked up by id and
 * searched by text. The package-level variables `products` and `reloadProducts` become the fields of
 * a `ProductService` object; the product file is an abstract source that either parses or fails.
 */
module ProductCatalog {
  import opened Wrappers
  import Money

  datatype Product = Product(
    id: string,
    name: string,
    description: string,
    picture: string,
    priceUsd: Money.Money,
    categories: seq<string>)

  /** What reading and decoding `products.json` yields. */
  datatype CatalogFile = Loaded(products: seq<Product>) | Malformed

  /** `status.Errorf(codes.NotFound, "no product with ID %s", id)`. */
  datatype LookupError = NoProductWithId(code: Code, id: string)

  /** The cache is reloaded when reloading is switched on or the cache is empty. */
  predicate NeedsReload(reload: bool, cache: seq<Product>) {
    reload || |cache| == 0
  }

  /**
   * The cached catalog after one `parseProducts` call: a kept cache is not re-read, a failed read
   * leaves the cache alone, and a successful triggered read replaces it.
   */
  function CacheAfter(reload: bool, cache: seq<Product>, file: CatalogFile): (c: seq<Product>)
    ensures !reload && |cache| > 0 ==> c == cache
    ensures file.Malformed? ==> c == cache
    ensures NeedsReload(reload, cache) && file.Loaded? ==> c == file.products
  {
    if NeedsReload(reload, cache) && file.Loaded? then file.products else cache
  }

  /** The list one `parseProducts` call returns. */
  function Listing(reload: bool, cache: seq<Product>, file: CatalogFile): (ps: seq<Product>)
    ensures !reload && |cache| > 0 ==> ps == cache
    ensures NeedsReload(reload, cache) && file.Malformed? ==> ps == []
    ensures NeedsReload(reload, cache) && file.Loaded? ==> ps == file.products
    ensures ps == [] || ps == CacheAfter(reload, cache, file)
  {
    if NeedsReload(reload, cache) then
      (if file.Loaded? then file.products else [])
    else cache
  }

  /**
   * With the reload flag and the product file fixed, a second `parseProducts` call leaves the cache
   * as the first left it and returns the same list.
   */
  lemma ParseProductsStable(reload: bool, cache: seq<Product>, file: CatalogFile)
    ensures CacheAfter(reload, CacheAfter(reload, cache, file), file) == CacheAfter(reload, cache, file)
    ensures Listing(reload, CacheAfter(reload, cache, file), file) == Listing(reload, cache, file)
  {
  }

  /** Entry `k` has the id and no later entry has it. */
  predicate IsLastWithId(catalog: seq<Product>, id: string, k: int) {
    0 <= k < |catalog| && catalog[k].id == id && forall j :: k < j < |catalog| ==> catalog[j].id != id
  }

  /** The index of the last catalog entry with the given id, if any. */
  function LastIndexOf(catalog: seq<Product>, id: string): (k: Option<nat>)
    ensures k.Some? ==> IsLastWithId(catalog, id, k.value)
    ensures k.None? ==> forall j :: 0 <= j < |catalog| ==> catalog[j].id != id
  {
    if |catalog| == 0 then None
    else if catalog[|catalog| - 1].id == id then Some(|catalog| - 1)
    else LastIndexOf(catalog[..|catalog| - 1], id)
  }

  /** What `GetProduct` answers for a catalog. */
  function Lookup(catalog: seq<Product>, id: string): (r: Result<Product, LookupError>)
    ensures r.Ok? <==> exists k :: 0 <= k < |catalog| && catalog[k].id == id
    ensures r.Ok? ==> r.value.id == id && r.value in catalog
    ensures r.Ok? ==> exists k :: IsLastWithId(catalog, id, k) && catalog[k] == r.value
    ensures r.Err? ==> r.error == NoProductWithId(NotFound, id)
  {
    match LastIndexOf(catalog, id)
    case Some(k) => Ok(catalog[k])
    case None => Err(NoProductWithId(NotFound, id))
  }

  predicate IsUpper(c: char) { 'A' <= c <= 'Z' }

  /** An upper-case ASCII letter becomes the lower-case letter at the same place in the alphabet. */
  function LowerChar(c: char): (d: char)
    ensures !IsUpper(d)
    ensures IsUpper(c) ==> 'a' <= d <= 'z' && d as int - 'a' as int == c as int - 'A' as int
    ensures !IsUpper(c) ==> d == c
  {
    if 'A' <= c <= 'Z' then (c as int + 32) as char else c
  }

  /** `strings.ToLower` restricted to ASCII letters. */
  function ToLower(s: string): (r: string)
    ensures |r| == |s|
    ensures forall i :: 0 <= i < |r| ==> !IsUpper(r[i])
    ensures forall i :: 0 <= i < |s| && !IsUpper(s[i]) ==> r[i] == s[i]
    ensures forall i :: 0 <= i < |s| && IsUpper(s[i]) ==> r[i] as int - 'a' as int == s[i] as int - 'A' as int
  {
    seq(|s|, i requires 0 <= i < |s| => LowerChar(s[i]))
  }

  /** Lower-casing twice is lower-casing once. */
  lemma ToLowerIdempotent(s: string)
    ensures ToLower(ToLower(s)) == ToLower(s)
  {
  }

  /** A string with no upper-case letter is its own lower-case form. */
  lemma ToLowerKeepsLowerCase(s: string)
    requires forall i :: 0 <= i < |s| ==> !IsUpper(s[i])
    ensures ToLower(s) == s
  {
  }

  /** `strings.Contains`: `sub` occurs in `s` at some offset. */
  predicate Contains(s: string, sub: string)
    ensures |sub| == 0 ==> Contains(s, sub)
    ensures Contains(s, sub) ==> |sub| <= |s|
    decreases |s|
  {
    sub <= s || (|s| > 0 && Contains(s[1..], sub))
  }

  /** `sub` is found in `s` starting at offset `i`. */
  predicate OccursAt(s: string, sub: string, i: int) {
    0 <= i <= |s| - |sub| && s[i..i + |sub|] == sub
  }

  lemma {:induction false} ContainsIffOccurs(s: string, sub: string)
    ensures Contains(s, sub) <==> exists i :: OccursAt(s, sub, i)
    decreases |s|
  {
    if sub <= s {
      assert OccursAt(s, sub, 0);
    } else if |s| > 0 {
      ContainsIffOccurs(s[1..], sub);
      if Contains(s[1..], sub) {
        var i :| OccursAt(s[1..], sub, i);
        assert s[1..][i..i + |sub|] == s[i + 1..i + 1 + |sub|];
        assert OccursAt(s, sub, i + 1);
      } else if exists i :: OccursAt(s, sub, i) {
        var i :| OccursAt(s, sub, i);
        if i > 0 {
          assert OccursAt(s[1..], sub, i - 1);
        }
      }
    }
  }

  /** A product matches when its lower-cased name or description contains the lower-cased query. */
  predicate Matches(p: Product, query: string)
    ensures query == "" ==> Matches(p, query)
  {
    Contains(ToLower(p.name), ToLower(query)) || Contains(ToLower(p.description), ToLower(query))
  }

  /** What `SearchProducts` answers for a catalog: the matching products, appended in catalog order. */
  function Search(catalog: seq<Product>, query: string): (ps: seq<Product>)
    ensures |ps| <= |catalog|
    ensures forall p :: p in ps ==> p in catalog && Matches(p, query)
  {
    if |catalog| == 0 then []
    else
      var last := catalog[|catalog| - 1];
      Search(catalog[..|catalog| - 1], query) + (if Matches(last, query) then [last] else [])
  }

  /** The catalog positions of the matching products, in increasing order. */
  function MatchIndices(catalog: seq<Product>, query: string): (idx: seq<nat>)
    ensures forall j :: 0 <= j < |idx| ==> idx[j] < |catalog| && Matches(catalog[idx[j]], query)
    ensures forall j, j' :: 0 <= j < j' < |idx| ==> idx[j] < idx[j']
    ensures forall k :: 0 <= k < |catalog| && Matches(catalog[k], query) ==> k in idx
  {
    if |catalog| == 0 then []
    else
      var n := |catalog| - 1;
      MatchIndices(catalog[..n], query) + (if Matches(catalog[n], query) then [n] else [])
  }

  /** The search result lists exactly the matching products, at increasing catalog positions. */
  lemma {:induction false} SearchIsOrderedFilter(catalog: seq<Product>, query: string)
    ensures |Search(catalog, query)| == |MatchIndices(catalog, query)| <= |catalog|
    ensures forall j :: 0 <= j < |Search(catalog, query)| ==>
      Search(catalog, query)[j] == catalog[MatchIndices(catalog, query)[j]]
  {
    if |catalog| > 0 {
      var n := |catalog| - 1;
      SearchIsOrderedFilter(catalog[..n], query);
    }
  }

  /** A product is in the search result exactly when it is in the catalog and matches. */
  lemma {:induction false} SearchMembership(catalog: seq<Product>, query: string, p: Product)
    ensures p in Search(catalog, query) <==> p in catalog && Matches(p, query)
  {
    if |catalog| > 0 {
      var n := |catalog| - 1;
      SearchMembership(catalog[..n], query, p);
      assert catalog == catalog[..n] + [catalog[n]];
    }
  }

  /** The empty query matches everything, so it returns the whole catalog. */
  lemma {:induction false} SearchEmptyQuery(catalog: seq<Product>)
    ensures Search(catalog, "") == catalog
  {
    if |catalog| > 0 {
      var n := |catalog| - 1;
      SearchEmptyQuery(catalog[..n]);
      ToLowerKeepsLowerCase("");
      assert catalog == catalog[..n] + [catalog[n]];
    }
  }

  class ProductService {
    /** The cached catalog (`products.Products`). */
    var products: seq<Product>
    /** Whether every call re-reads the product file; toggled by signals. */
    var reloadProducts: bool

    /** Package initialisation reads the product file once; a failure only leaves the cache empty. */
    constructor (file: CatalogFile)
      ensures products == (if file.Loaded? then file.products else [])
      ensures !reloadProducts
    {
      products := if file.Loaded? then file.products else [];
      reloadProducts := false;
    }

    /** `readProductFile(&products)`: a successful parse replaces the cache. */
    method ReadProductFile(file: CatalogFile) returns (ok: bool)
      modifies this
      ensures ok == file.Loaded?
      ensures products == if ok then file.products else old(products)
      ensures reloadProducts == old(reloadProducts)
    {
      ok := file.Loaded?;
      if ok {
        products := file.products;
      }
    }

    method ParseProducts(file: CatalogFile) returns (ps: seq<Product>)
      modifies this
      ensures ps == Listing(old(reloadProducts), old(products), file)
      ensures products == CacheAfter(old(reloadProducts), old(products), file)
      ensures reloadProducts == old(reloadProducts)
    {
      if reloadProducts || |products| == 0 {
        var ok := ReadProductFile(file);
        if !ok {
          return [];
        }
      }
      ps := products;
    }

    method ListProducts(file: CatalogFile) returns (ps: seq<Product>)
      modifies this
      ensures ps == Listing(old(reloadProducts), old(products), file)
      ensures products == CacheAfter(old(reloadProducts), old(products), file)
      ensures reloadProducts == old(reloadProducts)
    {
      ps := ParseProducts(file);
    }

    /**
     * A scan over the whole list that never stops early, so the last entry with the id wins. Every
     * use of the list calls `parseProducts` again, as the Go code does.
     */
    method GetProduct(file: CatalogFile, id: string) returns (r: Result<Product, LookupError>)
      modifies this
      ensures r == Lookup(Listing(old(reloadProducts), old(products), file), id)
      ensures products == CacheAfter(old(reloadProducts), old(products), file)
      ensures reloadProducts == old(reloadProducts)
    {
      ghost var catalog := Listing(reloadProducts, products, file);
      ghost var cache := CacheAfter(reloadProducts, products, file);
      ParseProductsStable(reloadProducts, products, file);
      var found: Option<Product> := None;
      var i := 0;
      var ps := ParseProducts(file);
      while i < |ps|
        invariant ps == catalog && products == cache && reloadProducts == old(reloadProducts)
        invariant 0 <= i <= |catalog|
        invariant found == (match LastIndexOf(catalog[..i], id)
                            case Some(k) => Some(catalog[k])
                            case None => None)
      {
        var current := ParseProducts(file);
        if id == current[i].id {
          var again := ParseProducts(file);
          found := Some(again[i]);
        }
        assert catalog[..i + 1][..i] == catalog[..i];
        i := i + 1;
        ps := ParseProducts(file);
      }
      assert catalog[..i] == catalog;
      if found.None? {
        return Err(NoProductWithId(NotFound, id));
      }
      r := Ok(found.value);
    }

    method SearchProducts(file: CatalogFile, query: string) returns (ps: seq<Product>)
      modifies this
      ensures ps == Search(Listing(old(reloadProducts), old(products), file), query)
      ensures products == CacheAfter(old(reloadProducts), old(products), file)
      ensures reloadProducts == old(reloadProducts)
    {
      var catalog := ParseProducts(file);
      ps := [];
      for i := 0 to |catalog|
        invariant ps == Search(catalog[..i], query)
      {
        var p := catalog[i];
        assert catalog[..i + 1][..i] == catalog[..i];
        if Contains(ToLower(p.name), ToLower(query)) || Contains(ToLower(p.description), ToLower(query)) {
          ps := ps + [p];
        }
      }
      assert catalog[..|catalog|] == catalog;
    }
  }
}

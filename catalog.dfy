/** The product catalog of the storefront and its category filter. */
module Catalog {
  import opened SeqUtil
  import opened Wrappers

  datatype Category = Residential | Commercial | Industrial

  datatype Product = Product(
    id: string,
    name: string,
    category: Category,
    price: int,
    efficiency: string,
    image: string)

  /** The four category buttons: "All" or one category. */
  datatype Filter = All | Only(category: Category)

  /** The fixed in-memory catalog, in display order. */
  const MockProducts: seq<Product> := [
    Product("1", "Arctic Split v3", Residential, 850, "A+++", "\U{2744}\U{FE0F}"),
    Product("2", "Cryo-Vault 5000", Industrial, 4500, "A+", "\U{1F9CA}"),
    Product("3", "Flow-Logic Pro", Commercial, 2200, "A++", "\U{1F3E2}"),
    Product("4", "Frost-Byte Compact", Residential, 600, "A++", "\U{1F3E0}")
  ]

  /** Whether a product is shown under a filter: every product under "All", and under a category
      button exactly the products of that category. */
  predicate Matches(f: Filter, p: Product)
  {
    f.All? || p.category == f.category
  }

  /** The entries of `catalog` whose category is `c`, in catalog order. */
  function InCategory(c: Category, catalog: seq<Product>): (r: seq<Product>)
    ensures |r| <= |catalog|
    ensures forall p :: p in r <==> p in catalog && p.category == c
  {
    if catalog == [] then []
    else if catalog[0].category == c then [catalog[0]] + InCategory(c, catalog[1..])
    else InCategory(c, catalog[1..])
  }

  /** The list the product grid shows for a filter. */
  function Filtered(f: Filter, catalog: seq<Product>): (r: seq<Product>)
    ensures |r| <= |catalog|
    ensures forall p :: p in r <==> p in catalog && Matches(f, p)
  {
    if f.All? then catalog else InCategory(f.category, catalog)
  }

  /** "All" shows the whole catalog in its own order. */
  lemma FilterAllIsIdentity(catalog: seq<Product>)
    ensures Filtered(All, catalog) == catalog
  {
  }

  /** A category filter keeps the catalog order. */
  lemma {:induction false} InCategoryIsSubsequence(c: Category, catalog: seq<Product>)
    ensures IsSubsequence(InCategory(c, catalog), catalog)
    decreases |catalog|
  {
    if catalog != [] {
      InCategoryIsSubsequence(c, catalog[1..]);
      if catalog[0].category == c {
        assert InCategory(c, catalog)[1..] == InCategory(c, catalog[1..]);
      } else {
        SubsequenceOfTail(InCategory(c, catalog), catalog);
      }
    }
  }

  /** A category filter keeps every matching entry as many times as it occurs, and no other entry. */
  lemma {:induction false} InCategoryMultiplicity(c: Category, catalog: seq<Product>, p: Product)
    ensures multiset(InCategory(c, catalog))[p] == if p.category == c then multiset(catalog)[p] else 0
    decreases |catalog|
  {
    if catalog != [] {
      InCategoryMultiplicity(c, catalog[1..], p);
      assert catalog == [catalog[0]] + catalog[1..];
      assert multiset(catalog) == multiset([catalog[0]]) + multiset(catalog[1..]);
      if catalog[0].category == c {
        assert multiset(InCategory(c, catalog))
            == multiset([catalog[0]]) + multiset(InCategory(c, catalog[1..]));
      }
    }
  }

  /** Filtering a concatenation filters each part. */
  lemma {:induction false} InCategoryAppend(c: Category, a: seq<Product>, b: seq<Product>)
    ensures InCategory(c, a + b) == InCategory(c, a) + InCategory(c, b)
    decreases |a|
  {
    if a == [] {
      assert a + b == b;
    } else {
      assert (a + b)[0] == a[0] && (a + b)[1..] == a[1..] + b;
      InCategoryAppend(c, a[1..], b);
    }
  }

  /** Filtering twice by the same category is the same as filtering once. */
  lemma {:induction false} InCategoryIdempotent(c: Category, catalog: seq<Product>)
    ensures InCategory(c, InCategory(c, catalog)) == InCategory(c, catalog)
    decreases |catalog|
  {
    if catalog != [] {
      InCategoryIdempotent(c, catalog[1..]);
      if catalog[0].category == c {
        var r := InCategory(c, catalog);
        assert r[0] == catalog[0] && r[1..] == InCategory(c, catalog[1..]);
      }
    }
  }

  /** On the mock catalog: "All" gives all four, "Industrial" exactly the one freezer vault,
      "Residential" the two home units in catalog order, "Commercial" the one office unit. */
  lemma MockFilterResults()
    ensures Filtered(All, MockProducts) == MockProducts && |Filtered(All, MockProducts)| == 4
    ensures Filtered(Only(Industrial), MockProducts) == [MockProducts[1]]
    ensures Filtered(Only(Residential), MockProducts) == [MockProducts[0], MockProducts[3]]
    ensures Filtered(Only(Commercial), MockProducts) == [MockProducts[2]]
  {
    var m := MockProducts;
    assert m[1..][1..][1..][1..] == [];
    assert InCategory(Industrial, m[1..][1..][1..]) == [];
    assert InCategory(Residential, m[1..][1..][1..]) == [m[3]];
    assert InCategory(Commercial, m[1..][1..][1..]) == [];
  }

  /** The first catalog entry with identifier `id`, as `Array.prototype.find` returns it. */
  function FindById(catalog: seq<Product>, id: string): (r: Option<Product>)
    ensures r.None? <==> forall i :: 0 <= i < |catalog| ==> catalog[i].id != id
    ensures r.Some? ==> exists i :: 0 <= i < |catalog| && catalog[i] == r.value && r.value.id == id
                                    && forall j :: 0 <= j < i ==> catalog[j].id != id
  {
    if catalog == [] then None
    else if catalog[0].id == id then Some(catalog[0])
    else
      var r := FindById(catalog[1..], id);
      assert forall j :: 1 <= j < |catalog| ==> catalog[j] == catalog[1..][j - 1];
      r
  }

  /** The identifiers of a catalog, in catalog order. */
  function Ids(catalog: seq<Product>): (r: seq<string>)
    ensures |r| == |catalog| && forall i :: 0 <= i < |catalog| ==> r[i] == catalog[i].id
  {
    if catalog == [] then [] else [catalog[0].id] + Ids(catalog[1..])
  }

  /** Every identifier of the mock catalog names a product, and they are pairwise distinct. */
  lemma MockIdsDistinct()
    ensures NoDuplicates(Ids(MockProducts))
    ensures forall id :: id in Ids(MockProducts) ==> FindById(MockProducts, id).Some?
  {
  }
}

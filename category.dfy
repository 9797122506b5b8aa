/**
 * The batched `products` field of a category: the distinct category ids go
 * to the product lookup in one call, its answer is grouped by category id,
 * and every input category is mapped to its group (or to the empty list).
 */
module CategoryProducts {
  import opened Common

  /** A category as the resolver sees it; two categories are the same key when their values are equal. */
  datatype Category = Category(id: int, name: string)

  /** A product as returned by the lookup; only its category id matters here. */
  datatype Product = Product(id: int, categoryId: int)

  /** `Collectors.toMap` raises `IllegalStateException` on a repeated key. */
  datatype ResolverError = DuplicateKey

  /** The ids of the categories, in order. */
  function Ids(categories: seq<Category>): (r: seq<int>)
    ensures |r| == |categories|
    ensures forall i :: 0 <= i < |r| ==> r[i] == categories[i].id
  {
    if categories == [] then [] else [categories[0].id] + Ids(categories[1..])
  }

  predicate NoDuplicates<T(==)>(s: seq<T>) {
    forall i, j :: 0 <= i < j < |s| ==> s[i] != s[j]
  }

  /** The position of the first occurrence of `x` in `s`. */
  function FirstIndex(s: seq<int>, x: int): (i: nat)
    requires x in s
    ensures i < |s| && s[i] == x
    ensures forall k :: 0 <= k < i ==> s[k] != x
  {
    if s[0] == x then 0 else 1 + FirstIndex(s[1..], x)
  }

  /** Appending an element moves no first occurrence; a new element first occurs at the end. */
  lemma FirstIndexAppend(s: seq<int>, y: int, x: int)
    requires x in s + [y]
    ensures x in s ==> FirstIndex(s + [y], x) == FirstIndex(s, x)
    ensures x !in s ==> FirstIndex(s + [y], x) == |s|
  {
    var t := s + [y];
    var a := FirstIndex(t, x);
    if x in s {
      var b := FirstIndex(s, x);
      assert t[b] == x;
      assert a <= b;
      assert s[a] == x;
    } else {
      assert t[|s|] == x;
      assert a == |s|;
    }
  }

  /**
   * `Stream.distinct()`: the first occurrence of each element, in order — no
   * repeats, the same elements, and ordered by where each first occurs.
   */
  function Distinct(s: seq<int>): (r: seq<int>)
    ensures NoDuplicates(r)
    ensures forall x :: x in r <==> x in s
    ensures forall i, j :: 0 <= i < j < |r| ==> FirstIndex(s, r[i]) < FirstIndex(s, r[j])
    decreases |s|
  {
    if s == [] then []
    else
      var init := s[..|s| - 1];
      var y := s[|s| - 1];
      var d := Distinct(init);
      assert s == init + [y];
      assert forall x :: x in s <==> x in init || x == y;
      forall x | x in init
        ensures FirstIndex(s, x) == FirstIndex(init, x)
      {
        FirstIndexAppend(init, y, x);
      }
      if y in d then d
      else
        FirstIndexAppend(init, y, y);
        d + [y]
  }

  /** The ids sent to the product lookup: each input category's id, once. */
  function CategoryIds(categories: seq<Category>): (r: seq<int>)
    ensures NoDuplicates(r)
    ensures forall x :: x in r <==> exists c :: c in categories && c.id == x
  {
    var ids := Ids(categories);
    assert forall c :: c in categories ==> c.id in ids by {
      forall c | c in categories ensures c.id in ids {
        var i :| 0 <= i < |categories| && categories[i] == c;
        assert ids[i] == c.id;
      }
    }
    Distinct(ids)
  }

  /** The products of one category, in the order of the lookup's answer. */
  function InCategory(products: seq<Product>, categoryId: int): (r: seq<Product>)
    ensures forall p :: p in r <==> p in products && p.categoryId == categoryId
    decreases |products|
  {
    if products == [] then []
    else
      var last := products[|products| - 1];
      assert forall p :: p in products <==> p in products[..|products| - 1] || p == last;
      InCategory(products[..|products| - 1], categoryId) + (if last.categoryId == categoryId then [last] else [])
  }

  /** Selecting one category's products from a list split in two selects from each part. */
  lemma {:induction false} InCategoryAppend(a: seq<Product>, b: seq<Product>, categoryId: int)
    ensures InCategory(a + b, categoryId) == InCategory(a, categoryId) + InCategory(b, categoryId)
    decreases |b|
  {
    if b == [] {
      assert a + b == a;
    } else {
      var b' := b[..|b| - 1];
      assert (a + b)[..|a + b| - 1] == a + b';
      assert (a + b)[|a + b| - 1] == b[|b| - 1];
      InCategoryAppend(a, b', categoryId);
    }
  }

  /** No product of the category: the selection is empty. */
  lemma InCategoryEmpty(products: seq<Product>, categoryId: int)
    requires forall p :: p in products ==> p.categoryId != categoryId
    ensures InCategory(products, categoryId) == []
  {
  }

  /**
   * `Collectors.groupingBy(getCategoryId)`: one list per category id that
   * occurs, holding that id's products in encounter order.
   */
  function GroupByCategory(products: seq<Product>): (r: map<int, seq<Product>>)
    ensures forall k :: k in r <==> exists p :: p in products && p.categoryId == k
    ensures forall k :: k in r ==> r[k] == InCategory(products, k)
    decreases |products|
  {
    if products == [] then map[]
    else
      var init := products[..|products| - 1];
      var last := products[|products| - 1];
      var g := GroupByCategory(init);
      assert products == init + [last];
      GroupByCategoryStep(init, last, g);
      g[last.categoryId := (if last.categoryId in g then g[last.categoryId] else []) + [last]]
  }

  /** Adding one more product to the groups of the others gives the groups of all. */
  lemma GroupByCategoryStep(init: seq<Product>, last: Product, g: map<int, seq<Product>>)
    requires forall k :: k in g <==> exists p :: p in init && p.categoryId == k
    requires forall k :: k in g ==> g[k] == InCategory(init, k)
    ensures var r := g[last.categoryId := (if last.categoryId in g then g[last.categoryId] else []) + [last]];
      && (forall k :: k in r <==> exists p :: p in init + [last] && p.categoryId == k)
      && (forall k :: k in r ==> r[k] == InCategory(init + [last], k))
  {
    var products := init + [last];
    assert products[..|products| - 1] == init;
    assert products[|products| - 1] == last;
    var r := g[last.categoryId := (if last.categoryId in g then g[last.categoryId] else []) + [last]];
    assert forall p :: p in products <==> p in init || p == last;
    forall k | k in r
      ensures r[k] == InCategory(products, k)
    {
      if k == last.categoryId && k !in g {
        InCategoryEmpty(init, k);
      }
    }
  }

  /**
   * `products(categories)`: a key for every input category, each mapped to
   * exactly the looked-up products of its id, in lookup order, or to the empty
   * list; a repeated category makes `toMap` fail.
   */
  function Products(categories: seq<Category>, lookup: seq<int> -> seq<Product>): (r: Result<map<Category, seq<Product>>, ResolverError>)
    ensures r.Failure? <==> !NoDuplicates(categories)
    ensures r.Success? ==> r.value.Keys == set c | c in categories
    ensures r.Success? ==>
      forall c :: c in categories ==> r.value[c] == InCategory(lookup(CategoryIds(categories)), c.id)
    ensures r.Success? ==>
      forall c :: c in categories && (forall p :: p in lookup(CategoryIds(categories)) ==> p.categoryId != c.id) ==>
        r.value[c] == []
  {
    var allProducts := lookup(CategoryIds(categories));
    var productsByCategory := GroupByCategory(allProducts);
    if !NoDuplicates(categories) then Failure(DuplicateKey)
    else
      var result := map c | c in categories ::
        if c.id in productsByCategory then productsByCategory[c.id] else [];
      forall c | c in categories && c.id !in productsByCategory
        ensures InCategory(allProducts, c.id) == []
      {
        InCategoryEmpty(allProducts, c.id);
      }
      Success(result)
  }
}

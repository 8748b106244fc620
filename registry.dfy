/**
 * The product store: the module-level array `products` that the GET, POST,
 * PUT and DELETE handlers read and change in place, and the linear scan by
 * id that they share.
 */
module Registry {
  import opened Json
  import opened Products

  /** Array.prototype.findIndex by id: the position of the first product
      with that id, or None when there is none. */
  function FirstIndex(ps: seq<Product>, id: string): (r: Option<nat>)
    ensures r.Some? ==> r.value < |ps| && ps[r.value].id == id
    ensures r.Some? ==> forall j :: 0 <= j < r.value ==> ps[j].id != id
    ensures r.None? ==> forall j :: 0 <= j < |ps| ==> ps[j].id != id
  {
    if ps == [] then None
    else if ps[0].id == id then Some(0)
    else match FirstIndex(ps[1..], id)
      case None => None
      case Some(i) => Some(i + 1)
  }

  /** The scan itself, front to back, stopping at the first match. */
  method FindIndex(ps: seq<Product>, id: string) returns (r: Option<nat>)
    ensures r == FirstIndex(ps, id)
  {
    var i := 0;
    while i < |ps|
      invariant 0 <= i <= |ps|
      invariant forall j :: 0 <= j < i ==> ps[j].id != id
    {
      if ps[i].id == id {
        return Some(i);
      }
      i := i + 1;
    }
    return None;
  }

  /** The in-memory store. Every stored product has its own id and passed
      validation when it was stored. */
  class Store {
    var products: seq<Product>

    ghost predicate Valid()
      reads this
    {
      UniqueIds(products) && forall p | p in products :: Accepts(p.fields)
    }

    /** The store starts empty. */
    constructor ()
      ensures Valid() && products == []
    {
      products := [];
    }

    /** GET /api/products/:id: the first product with the id, or NotFound. */
    method Get(id: string) returns (r: Result<Product>)
      ensures r.Err? <==> forall p | p in products :: p.id != id
      ensures r.Err? ==> r.error == NotFound
      ensures r.Ok? ==> r.value.id == id && r == Ok(products[FirstIndex(products, id).value])
    {
      var i := FindIndex(products, id);
      match i
      case None =>
        r := Err(NotFound);
      case Some(k) =>
        r := Ok(products[k]);
    }

    /** POST /api/products: a body that fails validation is refused and the
        store is unchanged; otherwise a product with the generated `id` and
        the body's properties is appended. The generator's id is not in use. */
    method Insert(id: string, body: Body) returns (r: Result<Product>)
      requires Valid()
      requires forall p | p in products :: p.id != id
      modifies this
      ensures Valid()
      ensures !Accepts(body.fields) ==> r == Err(ValidationFailed) && products == old(products)
      ensures Accepts(body.fields) ==>
                r == Ok(Product(id, body.fields)) && products == old(products) + [Product(id, body.fields)]
    {
      if !Accepts(body.fields) {
        return Err(ValidationFailed);
      }
      var created := Product(id, body.fields);
      products := products + [created];
      r := Ok(created);
    }

    /** PUT /api/products/:id: validation comes first; an unknown id is
        NotFound; otherwise the first product with the id is replaced, at its
        position, by the body's properties under the same id. */
    method Replace(id: string, body: Body) returns (r: Result<Product>)
      requires Valid()
      modifies this
      ensures Valid()
      ensures !Accepts(body.fields) ==> r == Err(ValidationFailed) && products == old(products)
      ensures Accepts(body.fields) && FirstIndex(old(products), id).None? ==>
                r == Err(NotFound) && products == old(products)
      ensures Accepts(body.fields) && FirstIndex(old(products), id).Some? ==>
                r == Ok(Product(id, body.fields)) &&
                products == old(products)[FirstIndex(old(products), id).value := Product(id, body.fields)]
    {
      if !Accepts(body.fields) {
        return Err(ValidationFailed);
      }
      var i := FindIndex(products, id);
      match i
      case None =>
        r := Err(NotFound);
      case Some(k) =>
        var replacement := Product(id, body.fields);
        ReplaceKeepsLookups(products, k, replacement);
        products := products[k := replacement];
        r := Ok(replacement);
    }

    /** DELETE /api/products/:id: an unknown id is NotFound; otherwise the
        first product with the id is spliced out and the others keep their
        order. */
    method Delete(id: string) returns (r: Result<()>)
      requires Valid()
      modifies this
      ensures Valid()
      ensures FirstIndex(old(products), id).None? ==> r == Err(NotFound) && products == old(products)
      ensures FirstIndex(old(products), id).Some? ==>
                var i := FirstIndex(old(products), id).value;
                r == Ok(()) && products == old(products)[..i] + old(products)[i + 1..]
    {
      var i := FindIndex(products, id);
      match i
      case None =>
        r := Err(NotFound);
      case Some(k) =>
        RemoveKeepsUnique(products, k);
        products := products[..k] + products[k + 1..];
        r := Ok(());
    }
  }

  /** A product appended under an id not yet in use is what a later lookup
      of that id finds, and ids stay unique. */
  lemma GetAfterInsert(ps: seq<Product>, p: Product)
    requires UniqueIds(ps)
    requires forall q | q in ps :: q.id != p.id
    ensures FirstIndex(ps + [p], p.id) == Some(|ps|)
    ensures UniqueIds(ps + [p])
  {
    var s := ps + [p];
    assert forall k :: 0 <= k < |ps| ==> s[k] == ps[k];
    assert s[|ps|] == p;
  }

  /** Replacing a product by one with the same id leaves every lookup where
      it was: the replacement is found under its id, every other id finds the
      same product as before, and ids stay unique. */
  lemma ReplaceKeepsLookups(ps: seq<Product>, i: nat, p: Product)
    requires i < |ps| && p.id == ps[i].id
    ensures forall x :: FirstIndex(ps[i := p], x) == FirstIndex(ps, x)
    ensures UniqueIds(ps) ==> UniqueIds(ps[i := p])
  {
    forall x ensures FirstIndex(ps[i := p], x) == FirstIndex(ps, x) {
      SameIdsSameIndex(ps[i := p], ps, x);
    }
  }

  /** findIndex only looks at ids: two stores with the same ids at the same
      positions give the same answer. */
  lemma {:induction false} SameIdsSameIndex(a: seq<Product>, b: seq<Product>, x: string)
    requires |a| == |b|
    requires forall k :: 0 <= k < |a| ==> a[k].id == b[k].id
    ensures FirstIndex(a, x) == FirstIndex(b, x)
  {
    if a != [] {
      SameIdsSameIndex(a[1..], b[1..], x);
    }
  }

  /** Splicing out a position keeps ids unique. */
  lemma RemoveKeepsUnique(ps: seq<Product>, i: nat)
    requires UniqueIds(ps) && i < |ps|
    ensures UniqueIds(ps[..i] + ps[i + 1..])
  {
    var rest := ps[..i] + ps[i + 1..];
    forall a, b | 0 <= a < b < |rest| ensures rest[a].id != rest[b].id {
      assert rest[a] == ps[if a < i then a else a + 1];
      assert rest[b] == ps[if b < i then b else b + 1];
    }
  }

  /** The product at each position of a store with position `i` spliced
      out. */
  lemma SplicedAt(ps: seq<Product>, i: nat, k: nat)
    requires i < |ps| && k < |ps| - 1
    ensures (ps[..i] + ps[i + 1..])[k] == ps[if k < i then k else k + 1]
  {
  }

  /** DELETE then GET: once the only product with an id is spliced out, a
      lookup of that id is NotFound. */
  lemma GetAfterDelete(ps: seq<Product>, id: string)
    requires UniqueIds(ps) && FirstIndex(ps, id).Some?
    ensures var i := FirstIndex(ps, id).value;
            FirstIndex(ps[..i] + ps[i + 1..], id).None?
  {
    var i := FirstIndex(ps, id).value;
    var rest := ps[..i] + ps[i + 1..];
    if FirstIndex(rest, id).Some? {
      var k := FirstIndex(rest, id).value;
      SplicedAt(ps, i, k);
    }
  }

  /** DELETE leaves every other lookup alone: an id other than the deleted
      one is found after the splice exactly when it was found before, and it
      finds the same product. */
  lemma DeleteKeepsOtherLookups(ps: seq<Product>, id: string, x: string)
    requires FirstIndex(ps, id).Some? && x != id
    ensures var i := FirstIndex(ps, id).value;
            var rest := ps[..i] + ps[i + 1..];
            (FirstIndex(rest, x).Some? <==> FirstIndex(ps, x).Some?) &&
            (FirstIndex(ps, x).Some? ==> rest[FirstIndex(rest, x).value] == ps[FirstIndex(ps, x).value])
  {
    var i := FirstIndex(ps, id).value;
    var rest := ps[..i] + ps[i + 1..];
    match FirstIndex(ps, x)
    case None =>
      forall k | 0 <= k < |rest| ensures rest[k].id != x {
        SplicedAt(ps, i, k);
      }
    case Some(j) =>
      var j' := if j < i then j else j - 1;
      SplicedAt(ps, i, j');
      assert rest[j'].id == x;
      var m := FirstIndex(rest, x).value;
      SplicedAt(ps, i, m);
      var mm := if m < i then m else m + 1;
      assert ps[mm].id == x;
      assert mm >= j;
      assert m == j';
  }
}

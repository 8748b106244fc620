/**
 * The product record, the request body it is built from, the outcome of a
 * handler, and the validation every POST and PUT body passes first.
 */
module Products {
  import opened Json

  /** The ways a handler fails, each later turned into a status code:
      404, 400 and 500. */
  datatype Error = NotFound | ValidationFailed | Internal

  datatype Result<T> = Ok(value: T) | Err(error: Error)

  /** The five product properties of a request body, whatever JSON values
      the client sent for them. */
  datatype Fields = Fields(name: Value, description: Value, price: Value, category: Value, inStock: Value)

  /** A POST or PUT body: an `id` property (`Undefined` when the client sent
      none) and the product properties. */
  datatype Body = Body(id: Value, fields: Fields)

  /** A stored product: the server's id and the properties taken from the
      body that created or last replaced it. */
  datatype Product = Product(id: string, fields: Fields)

  /** validateProduct: name, description and category must be truthy, price
      must have typeof "number" and inStock typeof "boolean". */
  predicate Accepts(f: Fields) {
    Truthy(f.name) && Truthy(f.description) && f.price.Number? && Truthy(f.category) && f.inStock.Bool?
  }

  /** For string-valued name, description and category, a body is accepted
      exactly when the three strings are non-empty, price is a number and
      inStock is a boolean; a string "true" is not a boolean. */
  lemma AcceptsStrings(name: string, description: string, price: Value, category: string, inStock: Value)
    ensures Accepts(Fields(Str(name), Str(description), price, Str(category), inStock))
        <==> name != "" && description != "" && price.Number? && category != "" && inStock.Bool?
    ensures !Accepts(Fields(Str(name), Str(description), price, Str(category), Str("true")))
  {
    StringConversions(name);
    StringConversions(description);
    StringConversions(category);
  }

  /** Every stored product has its own id. */
  predicate UniqueIds(ps: seq<Product>) {
    forall i, j :: 0 <= i < j < |ps| ==> ps[i].id != ps[j].id
  }

  /** The `id` property of the record literal `{ id: own, ...body }` that the
      POST and PUT handlers build: the spread copies every property of the
      body, so a body that carries an `id` replaces the server's one. */
  function SpreadId(own: string, b: Body): Value {
    if b.id.Undefined? then Str(own) else b.id
  }

  /** As written, whenever the body carries an `id`, the record takes it in
      place of the server's id, whatever that id was. */
  lemma BodyIdWins(own: string, b: Body)
    requires !b.id.Undefined?
    ensures SpreadId(own, b) == b.id
  {
  }

  /** POST as written, for example: a valid body carrying the id "a" of a
      stored product creates a second record with id "a" instead of the
      generated id "b". */
  lemma PostWithExistingIdDuplicates()
    ensures var f := Fields(Str("Widget"), Str("d"), Number("9.99"), Str("tools"), Bool(true));
            var stored := Product("a", f);
            var b := Body(Str("a"), f);
            Accepts(b.fields) && SpreadId("b", b) == Str(stored.id) && SpreadId("b", b) != Str("b")
  {
  }

  /** PUT as written, for example: a valid body carrying id "z" sent to
      path id "a" gives the replaced record the id "z", so a later GET of
      "a" no longer finds it. */
  lemma PutWithOtherIdRenames()
    ensures var f := Fields(Str("Widget"), Str("d"), Number("9.99"), Str("tools"), Bool(true));
            var b := Body(Str("z"), f);
            Accepts(b.fields) && SpreadId("a", b) == Str("z") && SpreadId("a", b) != Str("a")
  {
  }
}

/**
 * GET /api/stats/products: the number of products per category, computed
 * by a reduce over the store into a fresh object. The category is used as a
 * property name, so the count is kept per property key; a category with no
 * property name makes the reduce throw, and the request ends with the 500
 * of the error handler.
 *
 * Two versions: `Tally` counts into a plain dictionary, which is what the
 * endpoint is for; `StatsAsWritten` follows the reduce on an object literal
 * `{}`, which inherits the properties of Object.prototype.
 */
module Stats {
  import opened Json
  import opened Seqs
  import opened Products

  /** The property name a product is counted under, if its category has
      one. */
  function Key(p: Product): Option<string> {
    PropertyKey(p.fields.category)
  }

  /** How many products are counted under `k`. */
  function Occurrences(ps: seq<Product>, k: string): nat {
    |Keep(ps, (p: Product) => Key(p) == Some(k))|
  }

  /** The reduce, left to right: each product adds one to its key's entry,
      a missing entry counting as 0; the first category without a property
      name throws. */
  function Tally(ps: seq<Product>): Result<map<string, nat>> {
    if ps == [] then Ok(map[])
    else
      match Tally(ps[..|ps| - 1])
      case Err(e) => Err(e)
      case Ok(m) =>
        match Key(ps[|ps| - 1])
        case None => Err(Internal)
        case Some(k) => Ok(m[k := if k in m then m[k] + 1 else 1])
  }

  /** Stats fail (500) exactly when some stored category has no property
      name: an object with its own `toString`, or an array holding one. */
  lemma {:induction false} TallyFails(ps: seq<Product>)
    ensures Tally(ps).Err? <==> exists p | p in ps :: KeyThrows(p.fields.category)
    ensures Tally(ps).Err? ==> Tally(ps).error == Internal
  {
    if ps != [] {
      var init, last := ps[..|ps| - 1], ps[|ps| - 1];
      assert ps == init + [last];
      TallyFails(init);
      PropertyKeyFails(last.fields.category);
    }
  }

  /** Categories are meant to be text. With text categories the stats
      never fail, and their keys are exactly the stored categories. */
  lemma TextCategoriesCount(ps: seq<Product>)
    requires forall p | p in ps :: p.fields.category.Str?
    ensures Tally(ps).Ok?
    ensures forall k :: k in Tally(ps).value <==> exists p | p in ps :: p.fields.category == Str(k)
  {
    TallyFails(ps);
    forall k ensures k in Tally(ps).value <==> exists p | p in ps :: p.fields.category == Str(k) {
      TallyKeys(ps, k);
    }
  }

  /** Counting the last product on its own: it is under `k` or it is not. */
  lemma OccurrencesOfLast(ps: seq<Product>, k: string)
    requires ps != []
    ensures Occurrences(ps, k) ==
              Occurrences(ps[..|ps| - 1], k) + (if Key(ps[|ps| - 1]) == Some(k) then 1 else 0)
  {
    var f := (p: Product) => Key(p) == Some(k);
    var init, last := ps[..|ps| - 1], ps[|ps| - 1];
    assert ps == init + [last];
    KeepAppend(init, [last], f);
    assert Keep([last], f) == (if f(last) then [last] else []) + Keep([last][1..], f);
  }

  /** Stats maps exactly the keys of the stored products, each to the
      number of products under it. */
  lemma {:induction false} TallyCounts(ps: seq<Product>, k: string)
    ensures Tally(ps).Ok? ==> (k in Tally(ps).value <==> Occurrences(ps, k) > 0)
    ensures Tally(ps).Ok? && k in Tally(ps).value ==> Tally(ps).value[k] == Occurrences(ps, k)
  {
    if ps != [] && Tally(ps).Ok? {
      TallyCounts(ps[..|ps| - 1], k);
      OccurrencesOfLast(ps, k);
    }
  }

  /** A category present in the store is a key of the stats, and every key
      of the stats is the category of some stored product. */
  lemma TallyKeys(ps: seq<Product>, k: string)
    ensures Tally(ps).Ok? ==> (k in Tally(ps).value <==> exists p | p in ps :: Key(p) == Some(k))
  {
    TallyCounts(ps, k);
    var f := (p: Product) => Key(p) == Some(k);
    if Tally(ps).Ok? && k in Tally(ps).value {
      assert Keep(ps, f)[0] in Keep(ps, f);
    }
  }

  /** The keys in the order a reduce first meets them. */
  function Categories(ps: seq<Product>): seq<string> {
    if ps == [] then []
    else
      var ks := Categories(ps[..|ps| - 1]);
      match Key(ps[|ps| - 1])
      case None => ks
      case Some(k) => if k in ks then ks else ks + [k]
  }

  /** The categories are listed once each and are exactly the stats' keys. */
  lemma {:induction false} CategoriesAreKeys(ps: seq<Product>)
    ensures Distinct(Categories(ps))
    ensures Tally(ps).Ok? ==> forall k :: k in Categories(ps) <==> k in Tally(ps).value
  {
    if ps != [] {
      CategoriesAreKeys(ps[..|ps| - 1]);
    }
  }

  /** The sum of the entries of `m` under the keys `ks`. */
  function SumOver(m: map<string, nat>, ks: seq<string>): nat {
    if ks == [] then 0 else (if ks[0] in m then m[ks[0]] else 0) + SumOver(m, ks[1..])
  }

  /** Changing an entry the keys do not name leaves the sum alone. */
  lemma {:induction false} SumOverOther(m: map<string, nat>, ks: seq<string>, k: string, v: nat)
    requires k !in ks
    ensures SumOver(m[k := v], ks) == SumOver(m, ks)
  {
    if ks != [] {
      SumOverOther(m, ks[1..], k, v);
    }
  }

  /** Adding one to an entry named once among the keys adds one to the sum. */
  lemma {:induction false} SumOverBump(m: map<string, nat>, ks: seq<string>, k: string)
    requires Distinct(ks) && k in ks && k in m
    ensures SumOver(m[k := m[k] + 1], ks) == SumOver(m, ks) + 1
  {
    if ks[0] == k {
      assert k !in ks[1..];
      SumOverOther(m, ks[1..], k, m[k] + 1);
    } else {
      SumOverBump(m, ks[1..], k);
    }
  }

  /** The sum over some keys and one more. */
  lemma {:induction false} SumOverAppend(m: map<string, nat>, ks: seq<string>, k: string)
    ensures SumOver(m, ks + [k]) == SumOver(m, ks) + (if k in m then m[k] else 0)
  {
    if ks != [] {
      assert (ks + [k])[1..] == ks[1..] + [k];
      SumOverAppend(m, ks[1..], k);
    }
  }

  /** The counts add up to the number of stored products. */
  lemma {:induction false} CountsSumToSize(ps: seq<Product>)
    ensures Tally(ps).Ok? ==> SumOver(Tally(ps).value, Categories(ps)) == |ps|
  {
    if ps != [] && Tally(ps).Ok? {
      var init := ps[..|ps| - 1];
      var m, ks, k := Tally(init).value, Categories(init), Key(ps[|ps| - 1]).value;
      CountsSumToSize(init);
      CategoriesAreKeys(init);
      if k in ks {
        SumOverBump(m, ks, k);
      } else {
        SumOverAppend(m[k := 1], ks, k);
        SumOverOther(m, ks, k, 1);
      }
    }
  }

  /** An entry of the object as the endpoint returns it: a number, or the
      string that `+ 1` makes of an inherited non-number. */
  datatype Entry = Counted(n: nat) | Text(s: string)

  /** The properties every object literal inherits from Object.prototype. */
  const PrototypeNames: set<string> := {
    "constructor", "__proto__", "__defineGetter__", "__defineSetter__",
    "__lookupGetter__", "__lookupSetter__", "hasOwnProperty", "isPrototypeOf",
    "propertyIsEnumerable", "toString", "toLocaleString", "valueOf"
  }

  /** The string an inherited property converts to: Object.prototype for
      `__proto__`, a built-in function otherwise. */
  function InheritedText(k: string): string {
    if k == "__proto__" then "[object Object]"
    else if k == "constructor" then "function Object() { [native code] }"
    else "function " + k + "() { [native code] }"
  }

  /** `acc[k] = (acc[k] || 0) + 1` on an object literal. An inherited
      property is truthy, so `+ 1` appends "1" to its text; assigning a
      string to `__proto__` is ignored. */
  function StepAsWritten(acc: map<string, Entry>, k: string): map<string, Entry> {
    var next :=
      if k in acc then
        match acc[k]
        case Counted(n) => Counted(n + 1)
        case Text(s) => Text(s + "1")
      else if k in PrototypeNames then Text(InheritedText(k) + "1")
      else Counted(1);
    if k == "__proto__" then acc else acc[k := next]
  }

  /** The reduce at server.js as written, from `{}`. */
  function StatsAsWritten(ps: seq<Product>): Result<map<string, Entry>> {
    if ps == [] then Ok(map[])
    else
      match StatsAsWritten(ps[..|ps| - 1])
      case Err(e) => Err(e)
      case Ok(acc) =>
        match Key(ps[|ps| - 1])
        case None => Err(Internal)
        case Some(k) => Ok(StepAsWritten(acc, k))
  }

  /** The reduce as written fails on the same stores as `Tally`, and off the
      inherited names it counts like `Tally`. */
  lemma {:induction false} AsWrittenAgreesOffPrototype(ps: seq<Product>, k: string)
    requires k !in PrototypeNames
    ensures StatsAsWritten(ps).Ok? <==> Tally(ps).Ok?
    ensures StatsAsWritten(ps).Ok? && Tally(ps).Ok? ==>
              (k in StatsAsWritten(ps).value <==> k in Tally(ps).value) &&
              (k in Tally(ps).value ==> StatsAsWritten(ps).value[k] == Counted(Tally(ps).value[k]))
  {
    if ps != [] {
      AsWrittenAgreesOffPrototype(ps[..|ps| - 1], k);
    }
  }

  /** As written, "__proto__" is never a key of the stats, whatever the
      store holds: the assignment to it is always ignored. */
  lemma {:induction false} ProtoNeverKey(ps: seq<Product>)
    ensures StatsAsWritten(ps).Ok? ==> "__proto__" !in StatsAsWritten(ps).value
  {
    if ps != [] {
      ProtoNeverKey(ps[..|ps| - 1]);
    }
  }

  /** For example, a one-product store in category "__proto__": the stats
      have no entry for it although the corrected tally counts 1. */
  lemma ProtoCategoryDropped()
    ensures var ps := [Product("a", Fields(Str("Widget"), Str("d"), Number("1"), Str("__proto__"), Bool(true)))];
            StatsAsWritten(ps) == Ok(map[]) && Tally(ps) == Ok(map["__proto__" := 1])
  {
    var ps := [Product("a", Fields(Str("Widget"), Str("d"), Number("1"), Str("__proto__"), Bool(true)))];
    assert ps[..0] == [];
  }

  /** For example, a one-product store in category "toString": the stats
      report a string where the corrected tally counts 1. */
  lemma InheritedNameGarbled()
    ensures var ps := [Product("a", Fields(Str("Widget"), Str("d"), Number("1"), Str("toString"), Bool(true)))];
            StatsAsWritten(ps) == Ok(map["toString" := Text("function toString() { [native code] }1")]) &&
            Tally(ps) == Ok(map["toString" := 1])
  {
    var ps := [Product("a", Fields(Str("Widget"), Str("d"), Number("1"), Str("toString"), Bool(true)))];
    assert ps[..0] == [];
    assert InheritedText("toString") + "1" == "function toString() { [native code] }1";
  }

  /** For example, a category object with its own `toString` passes
      validation, being truthy, and from then on every stats request fails;
      so does one wrapped in an array. */
  lemma OwnToStringFailsStats()
    ensures var f := Fields(Str("w"), Str("d"), Number("1"), Obj(true), Bool(true));
            var g := f.(category := Arr([Str("x"), Obj(true)]));
            Accepts(f) && Accepts(g) &&
            Tally([Product("a", f)]) == Err(Internal) && StatsAsWritten([Product("a", f)]) == Err(Internal) &&
            Tally([Product("a", g)]) == Err(Internal) && StatsAsWritten([Product("a", g)]) == Err(Internal)
  {
    var f := Fields(Str("w"), Str("d"), Number("1"), Obj(true), Bool(true));
    var g := f.(category := Arr([Str("x"), Obj(true)]));
    assert [Product("a", f)][..0] == [];
    assert [Product("a", g)][..0] == [];
  }
}

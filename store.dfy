/** The resource store each route module instantiates: its module-level array and
    the five handlers POST /, GET /, GET /:id, PUT /:id and DELETE /:id. */
module ResourceStore {
  import opened Wrappers
  import opened Values
  import opened Collection
  import opened Properties

  class Store {
    /** The body fields this resource kind copies into its records, besides `id`. */
    const schema: set<string>
    /** The array, in storage order. */
    var items: seq<Record>

    /** Every record has exactly the kind's fields. */
    ghost predicate Valid()
      reads this
    {
      Conforming(items, schema)
    }

    /** The array as the module initialises it with its fixture records. */
    constructor (schema: set<string>, seed: seq<Record>)
      requires Conforming(seed, schema)
      ensures Valid()
      ensures this.schema == schema && items == seed
    {
      this.schema := schema;
      items := seed;
    }

    /** GET /: the whole array, in storage order. */
    method List() returns (all: seq<Record>)
      ensures all == items
    {
      all := items;
    }

    /** GET /:id: the first record with the parsed id, or not-found. */
    method Get(key: Option<int>) returns (res: Outcome<Record>)
      ensures res == Lookup(items, key)
      ensures res.NotFound? <==> forall r :: r in items ==> !Matches(r, key)
      ensures res.Found? ==> res.value in items && res.value.id == key.value
    {
      res := Lookup(items, key);
    }

    /** POST /: a record with id `length + 1` and the body's fields copied verbatim
        is pushed at the end and returned. There is no rejection path. */
    method Create(body: Body) returns (rec: Record)
      requires Valid()
      modifies this
      ensures Valid()
      ensures rec.id == |old(items)| + 1
      ensures rec.fields.Keys == schema
      ensures forall f :: f in schema ==> rec.fields[f] == Field(body, f)
      ensures items == old(items) + [rec]
      ensures items == Created(old(items), schema, body)
    {
      rec := NewRecord(|items| + 1, schema, body);
      items := items + [rec];
    }

    /** PUT /:id: the first record with the parsed id has each field overwritten by
        the body's value when that is truthy; the edited record is returned. */
    method Update(key: Option<int>, body: Body) returns (res: Outcome<Record>)
      requires Valid()
      modifies this
      ensures Valid()
      ensures items == Updated(old(items), key, body)
      ensures |items| == |old(items)|
      ensures res.NotFound? <==> Lookup(old(items), key).NotFound?
      ensures res.NotFound? ==> items == old(items)
      ensures res.Found? ==> res == Lookup(items, key) && res.value == Apply(Lookup(old(items), key).value, body)
    {
      var i := IndexOf(items, key);
      if i == -1 {
        return NotFound;
      }
      ghost var before := items;
      var rec := Apply(items[i], body);
      items := items[i := rec];
      UpdateKeepsLookups(before, key, body, key);
      res := Found(rec);
    }

    /** DELETE /:id: the first record with the parsed id is spliced out and returned
        in a one-element list; the rest keep their order. */
    method Delete(key: Option<int>) returns (res: Outcome<seq<Record>>)
      requires Valid()
      modifies this
      ensures Valid()
      ensures items == Deleted(old(items), key)
      ensures res.NotFound? <==> Lookup(old(items), key).NotFound?
      ensures res.NotFound? ==> items == old(items)
      ensures res.Found? ==> res.value == [Lookup(old(items), key).value]
      ensures res.Found? ==>
        |items| == |old(items)| - 1 && multiset(items) + multiset(res.value) == multiset(old(items))
    {
      var i := IndexOf(items, key);
      if i == -1 {
        return NotFound;
      }
      DeleteRule(items, key);
      var removed := items[i..i + 1];
      items := items[..i] + items[i + 1..];
      res := Found(removed);
    }
  }
}

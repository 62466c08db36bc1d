/** One resource kind's collection as a value: the records, the id lookup the
    handlers share, and the effect of each handler on the sequence. */
module Collection {
  import opened Wrappers
  import opened Values

  /** A stored record: its numeric id and its resource-specific fields by name. */
  datatype Record = Record(id: int, fields: map<string, Value>)

  /** Every record carries exactly the fields of the resource kind. */
  predicate Conforming(s: seq<Record>, schema: set<string>) {
    forall r :: r in s ==> r.fields.Keys == schema
  }

  /** No two records share an id (intended by the design, not enforced by the code). */
  predicate UniqueIds(s: seq<Record>) {
    forall i, j :: 0 <= i < j < |s| ==> s[i].id != s[j].id
  }

  /** The record at position `i` has id `i + 1`: true of the seed, kept by every
      create and update, broken by a delete of any record but the last. */
  predicate Dense(s: seq<Record>) {
    forall i :: 0 <= i < |s| ==> s[i].id == i + 1
  }

  /** The handlers' predicate `r.id === parseInt(idText)`: a failed parse matches nothing. */
  predicate Matches(r: Record, key: Option<int>) {
    key.Some? && r.id == key.value
  }

  /** `findIndex` with that predicate: the position of the first matching record, or -1. */
  function IndexOf(s: seq<Record>, key: Option<int>): (i: int)
    ensures -1 <= i < |s|
    ensures i == -1 <==> forall j :: 0 <= j < |s| ==> !Matches(s[j], key)
    ensures 0 <= i ==> Matches(s[i], key)
    ensures forall j :: 0 <= j < i ==> !Matches(s[j], key)
  {
    if s == [] then -1
    else if Matches(s[0], key) then 0
    else
      var i := IndexOf(s[1..], key);
      if i == -1 then -1 else i + 1
  }

  /** `find` with that predicate: the first matching record, or not-found. It agrees
      with `findIndex`, so GET, PUT and DELETE all reach the same record. */
  function Lookup(s: seq<Record>, key: Option<int>): (res: Outcome<Record>)
    ensures res.NotFound? <==> forall r :: r in s ==> !Matches(r, key)
    ensures res.Found? ==> res.value in s && Matches(res.value, key)
    ensures res.Found? ==> res.value == s[IndexOf(s, key)]
  {
    var i := IndexOf(s, key);
    if i == -1 then NotFound else Found(s[i])
  }

  /** The record POST builds: the given id and every field of the kind copied from
      the body as it is, `undefined` included. */
  function NewRecord(id: int, schema: set<string>, body: Body): (r: Record)
    ensures r.id == id && r.fields.Keys == schema
    ensures forall f :: f in r.fields ==> r.fields[f] == Field(body, f)
  {
    Record(id, map f | f in schema :: Field(body, f))
  }

  /** The collection after POST: the new record, with id `length + 1`, pushed at the end. */
  function Created(s: seq<Record>, schema: set<string>, body: Body): (r: seq<Record>)
    ensures |r| == |s| + 1 && r[..|s|] == s && r[|s|].id == |s| + 1
    ensures Conforming(s, schema) ==> Conforming(r, schema)
  {
    s + [NewRecord(|s| + 1, schema, body)]
  }

  /** PUT's edit of one record: `rec.f = body.f || rec.f` for each of its fields. */
  function Apply(rec: Record, body: Body): (r: Record)
    ensures r.id == rec.id && r.fields.Keys == rec.fields.Keys
    ensures forall f :: f in rec.fields ==> r.fields[f] == Field(body, f) || r.fields[f] == rec.fields[f]
    ensures forall f :: f in rec.fields && Truthy(rec.fields[f]) ==> Truthy(r.fields[f])
  {
    Record(rec.id, map f | f in rec.fields :: OrElse(Field(body, f), rec.fields[f]))
  }

  /** The collection after PUT: the first matching record edited in place, or no change. */
  function Updated(s: seq<Record>, key: Option<int>, body: Body): (r: seq<Record>)
    ensures |r| == |s|
    ensures forall j :: 0 <= j < |s| ==> r[j].id == s[j].id && r[j].fields.Keys == s[j].fields.Keys
    ensures forall j :: 0 <= j < |s| && j != IndexOf(s, key) ==> r[j] == s[j]
  {
    var i := IndexOf(s, key);
    if i == -1 then s else s[i := Apply(s[i], body)]
  }

  /** The collection after DELETE: `splice(i, 1)` at the first match, or no change. */
  function Deleted(s: seq<Record>, key: Option<int>): (r: seq<Record>)
    ensures |r| == if IndexOf(s, key) == -1 then |s| else |s| - 1
    ensures multiset(r) <= multiset(s)
  {
    var i := IndexOf(s, key);
    if i == -1 then s
    else
      assert s == s[..i] + [s[i]] + s[i + 1..];
      s[..i] + s[i + 1..]
  }
}

/** What the handlers promise, stated over the collection as a value and proved
    for every collection, id and body. */
module Properties {
  import opened Wrappers
  import opened Values
  import opened Collection

  /** Two collections whose ids agree position by position answer every lookup alike. */
  lemma SameIdsSameIndex(s: seq<Record>, t: seq<Record>, key: Option<int>)
    requires |s| == |t|
    requires forall j :: 0 <= j < |s| ==> s[j].id == t[j].id
    ensures IndexOf(s, key) == IndexOf(t, key)
  {
  }

  // ---- GET -------------------------------------------------------------

  /** GET finds a record exactly when some record has the id, and then the first
      one; an id that failed to parse is never found. */
  lemma GetFirstMatch(s: seq<Record>, key: Option<int>)
    ensures Lookup(s, key).Found? <==> exists j :: 0 <= j < |s| && Matches(s[j], key)
    ensures Lookup(s, key).Found? ==>
      exists j :: 0 <= j < |s| && s[j] == Lookup(s, key).value && s[j].id == key.value &&
        forall k :: 0 <= k < j ==> s[k].id != key.value
    ensures key.None? ==> Lookup(s, key) == NotFound
  {
  }

  /** A record that shares its id with an earlier one cannot be reached by GET, PUT
      or DELETE: every lookup stops at the earlier one. */
  lemma DuplicateUnreachable(s: seq<Record>, i: nat, j: nat, key: Option<int>)
    requires i < j < |s| && s[i].id == s[j].id
    ensures IndexOf(s, key) != j
  {
  }

  // ---- POST ------------------------------------------------------------

  /** After POST, GET by the new id returns the new record unless an earlier record
      already holds that id, in which case it still returns the earlier one. */
  lemma {:induction false} GetAfterCreate(s: seq<Record>, schema: set<string>, body: Body)
    ensures Lookup(Created(s, schema, body), Some(|s| + 1)) ==
      if Lookup(s, Some(|s| + 1)).Found? then Lookup(s, Some(|s| + 1))
      else Found(NewRecord(|s| + 1, schema, body))
  {
    var t := Created(s, schema, body);
    var key := Some(|s| + 1);
    var i := IndexOf(s, key);
    if i == -1 {
      assert Matches(t[|s|], key);
      assert forall j :: 0 <= j < |s| ==> t[j] == s[j];
    } else {
      assert t[i] == s[i];
      assert forall j :: 0 <= j < i ==> t[j] == s[j];
    }
  }

  /** POST keeps the ids unique exactly when no record already holds `length + 1`. */
  lemma CreateKeepsUniqueIff(s: seq<Record>, schema: set<string>, body: Body)
    requires UniqueIds(s)
    ensures UniqueIds(Created(s, schema, body)) <==> forall r :: r in s ==> r.id != |s| + 1
  {
    var t := Created(s, schema, body);
    if !(forall r :: r in s ==> r.id != |s| + 1) {
      var r :| r in s && r.id == |s| + 1;
      var i :| 0 <= i < |s| && s[i] == r;
      assert t[i].id == t[|s|].id;
    }
  }

  // ---- PUT -------------------------------------------------------------

  /** PUT on a found record sets each field to the body's value when that value is
      truthy and otherwise keeps it, never changes the id, the field names, any
      other record or the length; on a missing id it changes nothing. */
  lemma UpdateRule(s: seq<Record>, key: Option<int>, body: Body)
    ensures |Updated(s, key, body)| == |s|
    ensures IndexOf(s, key) == -1 ==> Updated(s, key, body) == s
    ensures forall j :: 0 <= j < |s| && j != IndexOf(s, key) ==> Updated(s, key, body)[j] == s[j]
    ensures IndexOf(s, key) != -1 ==>
      var before := s[IndexOf(s, key)];
      var after := Updated(s, key, body)[IndexOf(s, key)];
      && after.id == before.id
      && after.fields.Keys == before.fields.Keys
      && (forall f :: f in before.fields && Truthy(Field(body, f)) ==> after.fields[f] == Field(body, f))
      && (forall f :: f in before.fields && !Truthy(Field(body, f)) ==> after.fields[f] == before.fields[f])
  {
  }

  /** PUT never changes which record any id reaches. */
  lemma UpdateKeepsLookups(s: seq<Record>, key: Option<int>, body: Body, other: Option<int>)
    ensures IndexOf(Updated(s, key, body), other) == IndexOf(s, other)
  {
    SameIdsSameIndex(Updated(s, key, body), s, other);
  }

  /** A body without a truthy value for any field, such as `{name: ""}` or
      `{price: 0}`, leaves the collection exactly as it was. */
  lemma FalsyBodyIsNoOp(s: seq<Record>, key: Option<int>, body: Body)
    requires forall f :: f in body ==> !Truthy(body[f])
    ensures Updated(s, key, body) == s
  {
    var i := IndexOf(s, key);
    if i != -1 {
      var r := s[i];
      assert Apply(r, body).fields == r.fields;
      assert Apply(r, body) == r;
      assert s[i := r] == s;
    }
  }

  /** Repeating the same PUT changes nothing more. */
  lemma UpdateIdempotent(s: seq<Record>, key: Option<int>, body: Body)
    ensures Updated(Updated(s, key, body), key, body) == Updated(s, key, body)
  {
    var t := Updated(s, key, body);
    UpdateKeepsLookups(s, key, body, key);
    var i := IndexOf(s, key);
    if i != -1 {
      var r := t[i];
      assert Apply(r, body).fields == r.fields;
      assert t[i := Apply(t[i], body)] == t;
    }
  }

  // ---- DELETE ----------------------------------------------------------

  /** `splice(i, 1)` as a sequence: the prefix stays, the suffix shifts down one
      place, and exactly the record at `i` is gone. */
  lemma SpliceAt(s: seq<Record>, i: nat, t: seq<Record>)
    requires i < |s| && t == s[..i] + s[i + 1..]
    ensures |t| == |s| - 1
    ensures forall j :: 0 <= j < i ==> t[j] == s[j]
    ensures forall j :: i <= j < |t| ==> t[j] == s[j + 1]
    ensures multiset(t) + multiset{s[i]} == multiset(s)
  {
    assert s == s[..i] + [s[i]] + s[i + 1..];
    calc {
      multiset(s);
      multiset(s[..i] + [s[i]] + s[i + 1..]);
      multiset(s[..i]) + multiset{s[i]} + multiset(s[i + 1..]);
      multiset(s[..i] + s[i + 1..]) + multiset{s[i]};
    }
  }

  /** DELETE on a found id removes exactly the first matching record and nothing
      else, keeping the order of the rest; on a missing id it changes nothing. */
  lemma DeleteRule(s: seq<Record>, key: Option<int>)
    ensures IndexOf(s, key) == -1 ==> Deleted(s, key) == s
    ensures IndexOf(s, key) != -1 ==>
      var i := IndexOf(s, key);
      && |Deleted(s, key)| == |s| - 1
      && Deleted(s, key)[..i] == s[..i]
      && Deleted(s, key)[i..] == s[i + 1..]
      && multiset(Deleted(s, key)) + multiset{s[i]} == multiset(s)
  {
    var i := IndexOf(s, key);
    if i != -1 {
      var t := s[..i] + s[i + 1..];
      SpliceAt(s, i, t);
      assert t[..i] == s[..i];
      assert t[i..] == s[i + 1..];
    }
  }

  /** DELETE leaves the lookup of every other id as it was. */
  lemma DeleteKeepsOtherLookups(s: seq<Record>, key: Option<int>, other: Option<int>)
    requires other != key
    ensures Lookup(Deleted(s, key), other) == Lookup(s, other)
  {
    var i := IndexOf(s, key);
    if i != -1 && other.Some? {
      var t := s[..i] + s[i + 1..];
      SpliceAt(s, i, t);
      assert !Matches(s[i], other);
      var k := IndexOf(s, other);
      var k' := IndexOf(t, other);
      if k == -1 {
        assert forall j :: 0 <= j < |t| ==> !Matches(t[j], other);
        assert k' == -1;
      } else if k < i {
        assert Matches(t[k], other);
        assert k' == k;
      } else {
        assert Matches(t[k - 1], other);
        assert k' == k - 1;
      }
    }
  }

  /** With unique ids, the deleted id is not found afterwards. */
  lemma DeleteThenNotFound(s: seq<Record>, key: Option<int>)
    requires UniqueIds(s)
    ensures Lookup(Deleted(s, key), key) == NotFound
  {
  }

  /** Without unique ids, DELETE of a shared id removes the earlier record and
      exposes the next one with that id to every following lookup. */
  lemma DeleteExposesDuplicate(s: seq<Record>, i: nat, j: nat)
    requires i < j < |s| && s[i].id == s[j].id
    requires forall k :: 0 <= k < j && k != i ==> s[k].id != s[i].id
    ensures Lookup(Deleted(s, Some(s[i].id)), Some(s[i].id)) == Found(s[j])
  {
    var key := Some(s[i].id);
    assert IndexOf(s, key) == i;
    var t := s[..i] + s[i + 1..];
    assert Deleted(s, key) == t;
    SpliceAt(s, i, t);
    assert Matches(t[j - 1], key);
    assert forall k :: 0 <= k < j - 1 ==> !Matches(t[k], key);
  }

  /** DELETE keeps unique ids unique. */
  lemma DeleteKeepsUnique(s: seq<Record>, key: Option<int>)
    requires UniqueIds(s)
    ensures UniqueIds(Deleted(s, key))
  {
  }

  // ---- Dense ids ---------------------------------------------------------

  /** Dense ids are unique. */
  lemma DenseIsUnique(s: seq<Record>)
    requires Dense(s)
    ensures UniqueIds(s)
  {
  }

  /** While ids are dense, id `k` is found at position `k - 1`, and nothing else is found. */
  lemma DenseLookup(s: seq<Record>, k: int)
    requires Dense(s)
    ensures 1 <= k <= |s| ==> IndexOf(s, Some(k)) == k - 1
    ensures !(1 <= k <= |s|) ==> IndexOf(s, Some(k)) == -1
  {
    if 1 <= k <= |s| {
      assert Matches(s[k - 1], Some(k));
    }
  }

  /** POST and PUT keep ids dense: without a DELETE, ids never collide. */
  lemma DenseKept(s: seq<Record>, schema: set<string>, key: Option<int>, body: Body)
    requires Dense(s)
    ensures Dense(Created(s, schema, body))
    ensures Dense(Updated(s, key, body))
  {
  }

  /** The id-collision defect: after deleting any record but the last from a dense
      collection, the next POST reuses the last record's id, so ids are no longer
      unique, and GET by that id still returns the older record. */
  lemma DeleteThenCreateCollides(s: seq<Record>, k: int, schema: set<string>, body: Body)
    requires Dense(s) && 1 <= k < |s|
    ensures
      var u := Created(Deleted(s, Some(k)), schema, body);
      && |u| == |s|
      && u[|s| - 1].id == |s|
      && u[|s| - 2] == s[|s| - 1]
      && u[|s| - 2].id == |s|
      && !UniqueIds(u)
      && Lookup(u, Some(|s|)) == Found(s[|s| - 1])
  {
    DenseLookup(s, k);
    var t := Deleted(s, Some(k));
    var u := Created(t, schema, body);
    var n := |s|;
    assert |t| == n - 1;
    assert forall j :: 0 <= j < k - 1 ==> t[j] == s[j];
    assert forall j :: k - 1 <= j < n - 1 ==> t[j] == s[j + 1];
    assert u[n - 2] == t[n - 2] == s[n - 1];
    assert forall j :: 0 <= j < n - 2 ==> u[j].id != n;
    assert Matches(u[n - 2], Some(n));
  }
}

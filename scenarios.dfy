/** Request sequences against each route module, proved from the store's contracts
    alone: what a client of each module observes. */
module Scenarios {
  import opened Wrappers
  import opened Values
  import opened Collection
  import opened Properties
  import opened ResourceStore
  import opened Resources

  /** Trainers: DELETE /1, then POST {name: "C"} assigns id 2 again (length 1 + 1),
      and GET /2 still answers with the seeded Jane Smith, not the new trainer. */
  method TrainerIdCollision() returns (created: Record, got: Outcome<Record>, all: seq<Record>)
    ensures created.id == 2
    ensures created.fields == map["name" := Str("C"), "specialty" := Absent]
    ensures got == Found(Seed(Trainers)[1])
    ensures all == [Seed(Trainers)[1], created] && !UniqueIds(all)
  {
    var store := NewStore(Trainers);
    ghost var seed := store.items;
    var body := map["name" := Str("C")];
    assert NewRecord(2, Schema(Trainers), body).fields == map["name" := Str("C"), "specialty" := Absent];
    DeleteThenCreateCollides(seed, 1, Schema(Trainers), body);
    var removed := store.Delete(Some(1));
    created := store.Create(body);
    got := store.Get(Some(2));
    all := store.List();
  }

  /** Users: PUT /1 with `{name: "", email: "j@d.org"}` keeps the name and takes the email. */
  method UserEmptyNameKept() returns (res: Outcome<Record>, all: seq<Record>)
    ensures res == Found(Record(1, map["name" := Str("John Doe"), "email" := Str("j@d.org")]))
    ensures all == [res.value, Seed(Users)[1]]
  {
    var store := NewStore(Users);
    var body := map["name" := Str(""), "email" := Str("j@d.org")];
    DenseLookup(store.items, 1);
    assert Apply(Seed(Users)[0], body).fields == map["name" := Str("John Doe"), "email" := Str("j@d.org")];
    res := store.Update(Some(1), body);
    all := store.List();
  }

  /** Subscriptions: PUT /2 with `{price: 0}` is ignored, `{price: 35}` is taken. */
  method SubscriptionZeroPriceIgnored() returns (first: Outcome<Record>, second: Outcome<Record>)
    ensures first == Found(Seed(Subscriptions)[1])
    ensures second == Found(Record(2, map["name" := Str("Premium Plan"), "price" := Num(35)]))
  {
    var store := NewStore(Subscriptions);
    FalsyBodyIsNoOp(store.items, Some(2), map["price" := Num(0)]);
    DenseLookup(store.items, 2);
    first := store.Update(Some(2), map["price" := Num(0)]);
    var body := map["price" := Num(35)];
    assert Apply(Seed(Subscriptions)[1], body).fields == map["name" := Str("Premium Plan"), "price" := Num(35)];
    second := store.Update(Some(2), body);
  }

  /** Product types: PUT /2 changes only `name`; a `price` in the body is not stored. */
  method ProductTypeOnlyName() returns (res: Outcome<Record>, all: seq<Record>)
    ensures res == Found(Record(2, map["name" := Str("Office")]))
    ensures all == [Seed(ProductTypes)[0], res.value]
  {
    var store := NewStore(ProductTypes);
    DenseLookup(store.items, 2);
    assert Apply(Seed(ProductTypes)[1], map["name" := Str("Office"), "price" := Num(5)]).fields == map["name" := Str("Office")];
    res := store.Update(Some(2), map["name" := Str("Office"), "price" := Num(5)]);
    all := store.List();
  }

  /** Products: an id that failed to parse and an id no record has are both
      not-found; id 2 is the smartphone. */
  method ProductLookups() returns (unparsed: Outcome<Record>, missing: Outcome<Record>, two: Outcome<Record>)
    ensures unparsed == NotFound && missing == NotFound
    ensures two == Found(Record(2, map["name" := Str("Smartphone"), "price" := Num(800)]))
  {
    var store := NewStore(Products);
    unparsed := store.Get(None);
    missing := store.Get(Some(3));
    two := store.Get(Some(2));
  }

  /** Equipment: DELETE /1 returns `[treadmill]` and leaves `[dumbbell]`; a second
      DELETE /1 is not-found and changes nothing. */
  method EquipmentDeleteTwice() returns (first: Outcome<seq<Record>>, second: Outcome<seq<Record>>, all: seq<Record>)
    ensures first == Found([Seed(Equipment)[0]])
    ensures second == NotFound
    ensures all == [Seed(Equipment)[1]]
  {
    var store := NewStore(Equipment);
    first := store.Delete(Some(1));
    second := store.Delete(Some(1));
    all := store.List();
  }

  /** Gyms: POST with only a name stores an absent location under id 3, and GET /3 finds it. */
  method GymCreateWithoutLocation() returns (created: Record, got: Outcome<Record>)
    ensures created == Record(3, map["name" := Str("Iron Hall"), "location" := Absent])
    ensures got == Found(created)
  {
    var store := NewStore(Gyms);
    ghost var before := store.items;
    created := store.Create(map["name" := Str("Iron Hall")]);
    assert created.fields == map["name" := Str("Iron Hall"), "location" := Absent];
    DenseKept(before, Schema(Gyms), None, map[]);
    DenseLookup(store.items, 3);
    got := store.Get(Some(3));
  }
}

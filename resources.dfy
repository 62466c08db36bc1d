/** The seven route modules: each resource kind's fields and fixture records. */
module Resources {
  import opened Values
  import opened Collection
  import opened ResourceStore

  datatype Kind = Trainers | Subscriptions | ProductTypes | Products | Equipment | Users | Gyms

  /** The body fields each kind's POST copies and PUT may overwrite. */
  function Schema(kind: Kind): (fields: set<string>)
    ensures "name" in fields && 1 <= |fields| <= 2
  {
    match kind
    case Trainers => {"name", "specialty"}
    case Subscriptions => {"name", "price"}
    case ProductTypes => {"name"}
    case Products => {"name", "price"}
    case Equipment => {"name", "type"}
    case Users => {"name", "email"}
    case Gyms => {"name", "location"}
  }

  function Pair(f: string, a: Value, g: string, b: Value): map<string, Value> {
    map[f := a, g := b]
  }

  /** Each module's fixture array: two records, ids 1 and 2, in that order, with
      exactly the kind's fields. */
  function Seed(kind: Kind): (s: seq<Record>)
    ensures |s| == 2 && s[0].id == 1 && s[1].id == 2
    ensures Dense(s) && UniqueIds(s)
    ensures Conforming(s, Schema(kind))
  {
    match kind
    case Trainers => [
      Record(1, Pair("name", Str("John Doe"), "specialty", Str("Strength Training"))),
      Record(2, Pair("name", Str("Jane Smith"), "specialty", Str("Yoga")))]
    case Subscriptions => [
      Record(1, Pair("name", Str("Basic Plan"), "price", Num(20))),
      Record(2, Pair("name", Str("Premium Plan"), "price", Num(50)))]
    case ProductTypes => [
      Record(1, map["name" := Str("Electronics")]),
      Record(2, map["name" := Str("Furniture")])]
    case Products => [
      Record(1, Pair("name", Str("Laptop"), "price", Num(1200))),
      Record(2, Pair("name", Str("Smartphone"), "price", Num(800)))]
    case Equipment => [
      Record(1, Pair("name", Str("Treadmill"), "type", Str("Cardio"))),
      Record(2, Pair("name", Str("Dumbbell"), "type", Str("Strength")))]
    case Users => [
      Record(1, Pair("name", Str("John Doe"), "email", Str("john@example.com"))),
      Record(2, Pair("name", Str("Jane Smith"), "email", Str("jane@example.com")))]
    case Gyms => [
      Record(1, Pair("name", Str("Gold's Gym"), "location", Str("Los Angeles"))),
      Record(2, Pair("name", Str("Planet Fitness"), "location", Str("New York")))]
  }

  /** The store a route module holds from process start. */
  method NewStore(kind: Kind) returns (store: Store)
    ensures fresh(store) && store.Valid()
    ensures store.schema == Schema(kind) && store.items == Seed(kind)
  {
    store := new Store(Schema(kind), Seed(kind));
  }
}

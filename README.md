# In-memory resource store of the Express demo API

The API serves seven resource kinds: trainers, subscriptions, product types,
products, equipment, users and gyms. Each kind's route module keeps a
module-level array that starts with two fixture records, ids 1 and 2. The module
answers five requests over that array:

- POST `/` pushes a record with id `length + 1` and the kind's own fields read from the body, such as `{id: length + 1, name: body.name, specialty: body.specialty}`. Absent fields are stored as `undefined`, and every other body property is dropped.
- GET `/` returns the array.
- GET `/:id` returns the first record whose id equals `parseInt(id)`.
- PUT `/:id` overwrites each field of that record with `body.f || record.f`.
- DELETE `/:id` splices that record out and returns it as `[removed]`.

A not-found lookup answers 404. Nothing else can fail.

The model has one generic store, specified over the collection as a value.

- `Wrappers` holds `Option` (the parsed path id; `None` is `NaN`, which equals no id) and `Outcome` (`Found(v)` or `NotFound`, the 404).
- `Values` defines a field value: `Absent` (JS `undefined`), a string or an integer. It also defines JS truthiness on those values (`""`, `0` and `undefined` are falsy), `a || b`, and how `body.f` reads a property from a request body.
- `Collection` defines the record, the id predicate and its first-match lookups. `IndexOf` models `findIndex` and `Lookup` models `find`. It also gives the collection after each handler: `Created`, `Updated` and `Deleted`.
- `Properties` proves what the handlers promise, for every collection, id and body, including the two quirks. First, ids come from `length + 1`, so a POST after a DELETE can reuse an id, and the later duplicate cannot be reached. Second, PUT ignores falsy values.
- `ResourceStore.Store` is the route module as a class. It holds a `const schema` (the field names of the kind) and a `var items: seq<Record>` (the array). Its five methods change `items` as the handlers change the array, and their postconditions tie the new array to `Created`, `Updated` or `Deleted` of the old one.
- `Resources` holds each kind's field names and fixture records and builds its store.
- `Scenarios` states what a client observes after request sequences against each kind's store, proved only from the methods' contracts.

All seven route files have the same handlers at these lines:

| file | seed | POST | GET / | GET /:id | PUT | DELETE |
|---|---|---|---|---|---|---|
| routes/trainer.js | 5-8 | 137-145 | 148-150 | 153-159 | 162-170 | 173-180 |
| routes/subscription.js | 5-8 | 11-19 | 22-24 | 27-33 | 36-44 | 47-54 |
| routes/productype.js | 5-8 | 11-18 | 21-23 | 26-32 | 35-42 | 45-52 |
| routes/products.js | 5-8 | 11-19 | 22-24 | 27-33 | 36-44 | 47-54 |
| routes/equipment.js | 5-8 | 11-19 | 22-24 | 27-33 | 36-44 | 47-54 |
| routes/users.js | 5-8 | 11-19 | 22-24 | 27-33 | 36-44 | 47-54 |
| routes/gym.js | 5-8 | 11-19 | 22-24 | 27-33 | 36-44 | 47-54 |

Below, each generic member cites one of these files. It models the same lines in
all seven.

The design intends ids to be unique, but the code does not enforce this, and the
model follows the code. "After DELETE of an id, GET of that id is not-found" holds
only while ids are unique (`DeleteThenNotFound` requires `UniqueIds`). Once a
duplicate exists, deleting the first record with that id makes the next one with that id
reachable (`DeleteExposesDuplicate`).

## Model

| member | source | states |
|---|---|---|
| Values.Truthy | routes/trainer.js:167-168 | JavaScript truthiness on the modelled values, as the `||` in PUT applies it: `undefined`, `""` and `0` are falsy, every other string and number truthy |
| Values.OrElse | routes/trainer.js:167-168 | JavaScript `a || b`: the result is one of the two operands, it is truthy exactly when either operand is, and it is `a` whenever `a` is truthy |
| Values.Field | routes/trainer.js:140-141 | `req.body.f`: the body's property of that name, or `undefined` when the body has none |
| Collection.Matches | routes/trainer.js:154 | the lookup predicate `t.id === parseInt(idText)`; an id that failed to parse matches no record |
| Collection.NewRecord | routes/trainer.js:138-142 | the object POST builds: the given id and exactly the kind's fields, each the body's value under that name, `undefined` included |
| Collection.Created | routes/trainer.js:137-143 | the array after POST's `push`: one longer, the old records unchanged as its prefix, the new last record with id old length + 1; records keep exactly the kind's fields |
| Collection.Apply | routes/trainer.js:167-168 | PUT's edit of the found record: the id and field names stay, each field becomes the body's value or keeps its old one, and a truthy field never becomes falsy |
| Collection.Updated | routes/trainer.js:163-168 | the array after PUT: same length, same ids and field names at every position, and every record other than the first match unchanged |
| Collection.Deleted | routes/trainer.js:174-178 | the array after `findIndex` and `splice`: one shorter when some record matches, otherwise the same length, and never holding a record the old array did not |
| Collection.IndexOf | routes/trainer.js:174-175 | `findIndex`: the position of the first record whose id equals the parsed id, or -1 exactly when no record matches (always, for an id that did not parse) |
| Collection.Lookup | routes/trainer.js:154-157 | `find`: not-found exactly when no record matches; otherwise a record of the collection with that id, the same one `findIndex` reaches |
| Properties.GetFirstMatch | routes/products.js:27-33 | GET finds a record exactly when some record has the id, and then the first such record; an unparsable id is always not-found |
| Properties.DuplicateUnreachable | routes/trainer.js:154 | a record that shares its id with an earlier record is never reached by any lookup, so GET, PUT and DELETE cannot touch it |
| Properties.GetAfterCreate | routes/trainer.js:137-158 | after POST, GET by the new id returns the new record, unless an earlier record already holds that id, in which case GET still returns the earlier one |
| Properties.CreateKeepsUniqueIff | routes/subscription.js:11-18 | POST keeps ids unique if and only if no record already holds `length + 1` |
| Properties.UpdateRule | routes/trainer.js:162-169 | on a found record, PUT sets each field to the body's value when that value is truthy and otherwise keeps the old value; it keeps the id, the field names, every other record and the length; on a missing id it changes nothing |
| Properties.UpdateKeepsLookups | routes/users.js:36-43 | PUT never changes which record any id reaches |
| Properties.FalsyBodyIsNoOp | routes/subscription.js:36-43 | a body with no truthy value, such as `{price: 0}` or `{name: ""}`, leaves the whole collection unchanged |
| Properties.UpdateIdempotent | routes/products.js:36-43 | repeating the same PUT changes nothing further |
| Properties.SpliceAt | routes/trainer.js:178 | `splice(i, 1)` on a sequence: one record shorter, the prefix before `i` kept, the suffix shifted down one place, and exactly the record at `i` gone as a multiset |
| Properties.DeleteRule | routes/trainer.js:173-179 | on a found id, DELETE makes the collection one shorter; records before the first match are kept, records after it shift down one place in their order, and the removed record plus the rest is the old collection as a multiset; on a missing id nothing changes |
| Properties.DeleteKeepsOtherLookups | routes/gym.js:47-53 | DELETE leaves the GET answer of every other id as it was |
| Properties.DeleteThenNotFound | routes/equipment.js:47-53 | while ids are unique, the deleted id is not-found afterwards |
| Properties.DeleteExposesDuplicate | routes/trainer.js:173-178 | when exactly two of the records up to a later one hold its id, deleting that id removes the earlier of the two, and GET of that id then returns the later one |
| Properties.DeleteKeepsUnique | routes/productype.js:45-51 | DELETE keeps unique ids unique |
| Properties.DenseIsUnique | routes/trainer.js:5-8 | when record `i` has id `i + 1` (as in the seed), ids are unique |
| Properties.DenseLookup | routes/products.js:28 | under the same layout, id `k` is found at position `k - 1` when `1 <= k <= length`, and no other id is found |
| Properties.DenseKept | routes/equipment.js:11-43 | POST and PUT keep the layout where record `i` has id `i + 1`, so without a DELETE ids never collide |
| Properties.DeleteThenCreateCollides | routes/trainer.js:139-178 | after a DELETE of any record but the last in that layout, the next POST reuses the last record's id, ids stop being unique, and GET by that id still returns the older record |
| ResourceStore.Store.constructor | routes/trainer.js:5-8 | the store starts with the given fixture records and field names, all records having exactly those fields |
| ResourceStore.Store.List | routes/trainer.js:148-150 | GET / returns the whole array in storage order |
| ResourceStore.Store.Get | routes/trainer.js:153-159 | GET /:id returns the first record with the parsed id, or not-found exactly when no record has it; the array does not change |
| ResourceStore.Store.Create | routes/trainer.js:137-145 | POST returns a record with id old length + 1 and each of the kind's fields copied from the body as is (absent included), appends it at the end and keeps every earlier record; there is no rejection path |
| ResourceStore.Store.Update | routes/trainer.js:162-170 | PUT makes the array `Updated(old, id, body)` with the same length; it is not-found exactly when GET would be, changing nothing then, and otherwise returns the edited first match, still reached by its id |
| ResourceStore.Store.Delete | routes/trainer.js:173-180 | DELETE makes the array `Deleted(old, id)`; it is not-found exactly when GET would be, changing nothing then, and otherwise returns `[first match]`, the array being one shorter and the old array less that record |
| Resources.Schema | routes/trainer.js:140-141 | the fields each kind's POST copies and PUT assigns (specialty, price, email, type, location beside name; name alone for product types): every kind has `name` and at most one more field |
| Resources.Seed | routes/subscription.js:5-8 | each kind's fixture array is two records, ids 1 and 2 in that order, with exactly the kind's fields |
| Resources.NewStore | routes/gym.js:5-8 | each route module's store starts with its fixture array and its field names |
| Scenarios.TrainerIdCollision | routes/trainer.js:137-180 | DELETE /1 then POST `{name: "C"}` gives id 2 with an absent specialty; GET /2 still returns the seeded Jane Smith, and the array holds two records with id 2 |
| Scenarios.UserEmptyNameKept | routes/users.js:36-43 | PUT /1 with `{name: "", email: "j@d.org"}` keeps the name and replaces the email; user 2 is untouched |
| Scenarios.SubscriptionZeroPriceIgnored | routes/subscription.js:36-44 | PUT /2 with `{price: 0}` returns the record unchanged; `{price: 35}` replaces the price |
| Scenarios.ProductTypeOnlyName | routes/productype.js:35-41 | PUT /2 with a name and a price changes only the name; the price is not stored, and product type 1 is untouched |
| Scenarios.ProductLookups | routes/products.js:27-33 | GET of an unparsable id and of id 3 are not-found; GET /2 returns the smartphone |
| Scenarios.EquipmentDeleteTwice | routes/equipment.js:47-54 | DELETE /1 returns `[treadmill]` and leaves `[dumbbell]`; a second DELETE /1 is not-found and changes nothing |
| Scenarios.GymCreateWithoutLocation | routes/gym.js:11-33 | POST with only a name creates id 3 with an absent location, and GET /3 returns it |

## Left out

- HTTP: status codes (201, 404), JSON serialisation, the `req`/`res` objects and the 404 message text are not modelled. Outcomes are `Found`/`NotFound`.
- `parseInt`: the path id arrives already parsed as `Option<int>`. Leading whitespace, signs, trailing characters and radix are not modelled.
- JavaScript values: only `undefined`, strings and integers are modelled. Floating-point numbers, `NaN`, `null` and object or array values in a body are not.
- Object identity: records are values. A PUT that edits the shared JS object in place is replaced by storing the edited record at the same position. Because every reply is serialised at once, aliasing between a reply and the array is not observable and is not modelled.
- Apply: PUT in the source assigns its named fields. The model edits the record's own fields instead. The two are the same while `Store.Valid()` holds, because every record then has exactly the kind's fields.
- app.js: Express wiring, static files, the API documentation UI and the generic error handler. It holds no domain logic.
- routes/index.js: it only renders the home page.
- The API documentation comments in routes/trainer.js list a 400 reply the code never produces. The model has no validation path.
- Concurrency: requests run one at a time on a single thread, and each method is one atomic step.

# Snowtooth lift resolvers in Dafny

A model of the query resolvers of a small GraphQL server for a ski resort
(`index.js`). The server answers three lift queries over a collection of lift
records that is loaded once and never changed:

- `allLifts` returns the whole collection;
- `LiftCount(status)` counts all lifts when no status is given, and otherwise
  only the lifts whose status is exactly the given `LiftStatus` (`OPEN`,
  `CLOSED` or `HOLD`);
- `findLiftById(id)` scans the collection in order and returns the first lift
  with that id, or nothing.

Modules:

- `Wrappers` (`wrappers.dfy`): `Option`, standing for a JavaScript value that
  may be `null` or `undefined`.
- `Schema` (`schema.dfy`): the `LiftStatus` enum and the `Lift` record. The
  nullable `status` and `night` fields are `Option`s.
- `Resolvers` (`resolvers.dfy`): the three resolvers and the filter that
  `LiftCount` uses. The lift collection, a module-level array in the source,
  is a `seq<Lift>` parameter. `LiftCount`'s optional argument is an
  `Option<LiftStatus>`. The source tests it with `!status`, and no enum value
  is falsy, so that test is true exactly when the argument is absent or
  `null`, which is `None` here. `findLiftById` returns `None` where
  `Array.prototype.find` returns `undefined`.
- `LiftProperties` (`lift_properties.dfy`): lemmas that relate several
  resolvers or several calls of one.

The schema declares `findLiftById` as returning a non-null `Lift!`
(index.js:40). The code does not enforce this: a miss returns `undefined`.
The model follows the code and returns `None`. It never substitutes a lift
with a different id.

The server as written has only the lift queries. Trail queries, the `Trail`
type and the derived `trailAccess` / `accessedByLifts` fields appear only as
a TODO comment (index.js:16-19). The model follows the code and has none of
them.

## Model

| member | source | states |
|---|---|---|
| `Resolvers.Matching` | index.js:53 | The filter keeps every lift whose status is exactly the wanted one and no other lift. The result is a sub-multiset of the collection, so it is never longer than the collection. |
| `Resolvers.MatchingAppend` | index.js:53 | Filtering a concatenation of collections equals concatenating the filtered parts, so the filter keeps collection order. |
| `Resolvers.MatchingCountsPositions` | index.js:53 | The filtered length equals the number of positions in the collection that hold a lift with the wanted status. This is an independent, index-based definition of the count. |
| `Resolvers.AllLifts` | index.js:48 | `allLifts` returns the collection unchanged: same length, and the same lift at every position. |
| `Resolvers.LiftCount` | index.js:49-56 | With no status the count is the number of lifts. With a status `s` it is the number of positions whose lift has status exactly `s`; lifts with a null status are never counted. In every case the count is between 0 and the number of lifts. |
| `Resolvers.FindLiftById` | index.js:60-62 | A lift is found if and only if some lift has the id. The found lift has that id, occurs in the collection, and every lift before it has a different id. On a miss the result is `None`, never a lift with another id. |
| `LiftProperties.StatusPartition` | index.js:49-54 | The lifts with status OPEN, CLOSED, HOLD and those with a null status split the collection: the four filter lengths sum to the number of lifts. |
| `LiftProperties.StatusCountsAtMostTotal` | index.js:49-54 | `LiftCount(OPEN) + LiftCount(CLOSED) + LiftCount(HOLD)` is at most `LiftCount()`. It is equal if and only if every lift has a non-null status. |
| `LiftProperties.LiftCountAppend` | index.js:49-54 | With or without a status, the count over two concatenated collections is the sum of the two counts. |
| `LiftProperties.FindLiftByIdIsFirstMatch` | index.js:61 | Converse of the first-match contract: if position `i` is the first that holds id `x`, `findLiftById(x)` returns exactly the lift at `i`. |
| `LiftProperties.FindLiftByIdUnique` | index.js:61 | When ids are pairwise distinct, as the data is expected to be, `findLiftById(x)` returns the one lift with id `x`. |
| `LiftProperties.AllLiftsAgreeWithOtherResolvers` | index.js:48-62 | The resolvers agree with each other. `allLifts` has `LiftCount()` elements, and looking up the id of any lift it lists finds a lift with that id. |

## Left out

- Server start-up, `server.listen()` and the start-up log line (index.js:65-70): network I/O through the Apollo library.
- Parsing the schema text with `gql`, and validating and executing queries (index.js:21-42): these are done by the query-execution library. Only the shapes of `Lift` and `LiftStatus` are modelled, as Dafny types.
- The executor's handling of the non-null `Lift!` return type of `findLiftById`. When the resolver returns `undefined`, the library reports a field error. That happens outside the resolver and is not modelled.
- Loading `data/lifts.json` and `data/trails.json` (index.js:2-3): file I/O. The lift data is a `seq<Lift>` parameter, and the trail data is never read by a resolver.
- Lift records whose `status` in the data file is a string outside the enum: a `LiftStatus` can only hold the three enum values. Such a record would match no status argument, just as a null status matches none.
- The `hello` schema field and its commented-out resolver (index.js:37, index.js:47): no live resolver.
- Trail queries and fields: not in the code (only a TODO at index.js:16-19).

# ld-lambdas core, modelled in Dafny

ld-lambdas keeps lists of list items in two stores:

- a relational database (Postgres) is the identity store. It holds the
  tables `t_list`, `t_list_item` and `t_user` and exposes one stored
  procedure per operation;
- a document store (DynamoDB) holds the whole list aggregate `LdList` with
  its title, description, tags and embedded `LdListItem`s. It is one table,
  `tlist`, keyed by the string form of `lid`.

This project models three cores:

- the merge of a list item into its list, and the save and read-back of a
  list in the document store (`structures_ddb.dfy`, module `Ddb`);
- the relational adapters that run one stored procedure each and classify how
  many rows came back, over an abstract relational store
  (`pg_store.dfy` and `structures_pg_impl.dfy`, modules `PgStore` and `PgImpl`);
- the builders of DynamoDB request values (`utils.dfy`, module `Utils`).

Supporting modules:

- `wrappers.dfy` holds `Option` and `Result`;
- `uuids.dfy` models a UUID as 16 bytes with its hyphenated lowercase hex
  string. Parsing inverts printing, which makes printing injective;
- `structures_pg.dfy` (module `PgTypes`) holds the three relational record types.

Timestamps are opaque values (`Timestamp(instant)`). The database clock is the
`now` parameter of every write.

Both stores are classes whose fields the operations reassign:

- `PgStore.PgClient` keeps its three tables as sequences in insertion order.
  Listing a list's items returns them in creation order, so a map would
  lose information. Its invariant `Valid()` covers unique ids, unique emails,
  every item's parent list existing, and every item row carrying a creation
  stamp. Each stored procedure is a pure function on the tables (`PutItem`,
  `PutList`, `PutUser`, `DelItem`, `DelListLists`, `DelListItems`,
  `DelUser`). Lemmas prove that each one keeps `ValidTables`.
  The item and list puts are upserts. A new id is inserted with the store's
  clock. An existing id is updated in place with the column the adapter
  sends (`parent_lid`, `user_id`) and keeps its creation stamp.
- `Ddb.DdbClient` keeps a map from key string to `LdList`. Its `faults` set
  names the operations the service answers with an error.

Where the live code and its documentation differ, the model follows the code:

- `put_list_item_ddb` is documented as updating both stores. As written, it
  builds the merged list, prints it, and returns the error "test". It never
  writes the list back. `Ddb.PutListItemDdb` returns the printed list as the
  out-parameter `printed`, and its result is always an error.
- The doc comment of `t_list::new` says only `lid` and `created_on_utc` are
  set. The code also sets `user_id`, and `PgImpl.NewTList` follows the code.
  `put_t_list` sends only `lid` and `user_id` to the database. The stored
  row's creation stamp is therefore the database's `now`, not the stamp made
  at construction.
- Error messages are the code's own strings. Reading a list that is absent
  reports "Failed to save the item. Try again.", the same text as a store
  error.

## Model

| member | source | states |
|---|---|---|
| Uuids.ToString | src/utils.rs:39 | the string put in a key is 36 characters with hyphens at positions 8, 13, 18 and 23 |
| Uuids.ParseToString | src/utils.rs:39 | parsing the printed form of a UUID gives back that UUID |
| Uuids.ToStringInjective | src/utils.rs:73 | distinct UUIDs print to distinct key strings |
| PgImpl.NewTList | src/structures_pg_impl.rs:55-65 | `t_list::new` sets `lid`, `user_id = Some(user_id)` and the creation stamp, and leaves `org_id` and `validated_on_utc` empty |
| PgImpl.NewTListItem | src/structures_pg_impl.rs:68-85 | `t_list_item::new` sets only `liid` and `parent_lid`; every other field, the creation stamp included, is `None` |
| PgImpl.FirstRow | src/structures_pg_impl.rs:102-115 | 0 rows give `None`; 1 or more rows give `Some` of the first row |
| PgImpl.SoleRow | src/structures_pg_impl.rs:198-208 | exactly 1 row gives `Some` of it; 0 rows or more than 1 row give `None` |
| PgImpl.GetTListItem | src/structures_pg_impl.rs:90-116 | `Some` exactly when an item with that `liid` is stored, and then it is such an item; the store is not changed |
| PgImpl.GetTListItems | src/structures_pg_impl.rs:119-142 | `None` exactly when the list has no items; otherwise all and only its items, in creation order |
| PgImpl.GetTList | src/structures_pg_impl.rs:145-171 | `Some` exactly when a list with that `lid` is stored, and then it is that list |
| PgImpl.GetTUser | src/structures_pg_impl.rs:173-209 | `Some` exactly when at least one key is given and one stored user matches every given key; the result is that user |
| PgImpl.PutTListItem | src/structures_pg_impl.rs:211-241 | sends `parent_lid` and `liid` to the upsert; the item table becomes the procedure's table, and the result is its first row, which is stored, has the requested `liid` and carries a creation stamp |
| PgImpl.PutTList | src/structures_pg_impl.rs:243-273 | sends `lid` and `user_id`; the list is then stored and returned with the requested `lid`; the other tables are unchanged |
| PgImpl.PutTUser | src/structures_pg_impl.rs:275-298 | sends the email; a returned user is stored and has that email; more than one row would give `None` |
| PgImpl.DelTListItem | src/structures_pg_impl.rs:300-309 | the item table loses the rows with that `liid`; lists and users are unchanged; the store stays valid |
| PgImpl.DelTList | src/structures_pg_impl.rs:311-320 | the list and all its child items are removed; users are unchanged; the store stays valid |
| PgImpl.DelTUser | src/structures_pg_impl.rs:322-331 | the user is removed; lists and items are unchanged |
| PgImpl.UserRowsAtMostOne | src/structures_pg_impl.rs:173-174 | with unique ids and emails, a user lookup yields at most one row |
| PgImpl.GetUserByEitherKey | src/structures_pg_test.rs:25-32 | a stored user is found by its id alone, by its email alone, and by both together |
| PgImpl.GetUserAndSemantics | src/structures_pg_test.rs:29-34 | an id and an email of two different users find nothing |
| PgImpl.GetAfterPutItem | src/structures_pg_test.rs:47-71 | for every input: when the put returns a row, a get of its `liid` returns that row; when it returns none, the item table is unchanged |
| PgImpl.PutItemIdempotent | src/structures_pg_impl.rs:211-222 | for every input, repeating the same item put at a later time changes no table and returns the same rows |
| PgImpl.PutItemMovesExisting | src/structures_pg_impl.rs:211-222 | a put of an existing `liid` under an existing list returns that item with `parent_lid` set to the one sent and every other field, the creation stamp included, kept |
| PgImpl.PutItemAppendsChild | src/structures_pg_test.rs:42-57 | putting a new item under an existing list returns one row and appends it at the end of that list's items |
| PgImpl.PutItemKeepsOtherItems | src/structures_pg_impl.rs:211-222 | an item put, whether it inserts, updates or writes nothing, leaves the rows of every other `liid` unchanged |
| PgImpl.ThreeItemsListedInOrder | src/structures_pg_test.rs:47-75 | three new items put one after another into an empty list are listed as exactly those three rows, in put order |
| PgImpl.GetAfterPutList | src/structures_pg_test.rs:37-65 | after a list put, the put returned a row and a get of the `lid` returns that row |
| PgImpl.PutListUpdatesOwner | src/structures_pg_impl.rs:243-254 | a put of an existing `lid` returns that list with `user_id` set to the one sent and every other field, the creation stamp included, kept |
| PgImpl.DelItemRemovesOnlyIt | src/structures_pg_test.rs:77-82 | after deleting an item, it is gone and every other item's rows are unchanged |
| PgImpl.DelListCascades | src/structures_pg_test.rs:84-91 | after deleting a list, the list, its child rows and each former child item are gone |
| PgImpl.DelListKeepsOtherLists | src/structures_pg_impl.rs:311 | deleting a list leaves other lists and their items unchanged |
| PgImpl.DelUserThenGet | src/structures_pg_test.rs:93-96 | after deleting a user, a lookup by that id finds nothing |
| PgStore.PutItemKeepsValid | src/structures_pg_impl.rs:216-222 | the item upsert keeps unique ids, the parent reference and the creation stamps |
| PgStore.PutListKeepsValid | src/structures_pg_impl.rs:248-254 | the list upsert keeps the store invariant |
| PgStore.PutUserKeepsValid | src/structures_pg_impl.rs:279-282 | the user upsert keeps ids and emails unique |
| PgStore.DelItemKeepsValid | src/structures_pg_impl.rs:305-308 | the item delete keeps the store invariant |
| PgStore.DelListKeepsValid | src/structures_pg_impl.rs:316-319 | the cascading list delete leaves no orphaned item |
| PgStore.DelUserKeepsValid | src/structures_pg_impl.rs:327-330 | the user delete keeps the store invariant |
| PgStore.PgClient.LdPutTListItem | src/structures_pg_impl.rs:216-222 | the stored procedure `ld_put_tlistitem` as a state change: the new item table and returned rows are those of `PutItem`, and nothing else changes |
| PgStore.PgClient.LdPutTList | src/structures_pg_impl.rs:248-254 | `ld_put_tlist`: the new list table and rows are those of `PutList` |
| PgStore.PgClient.LdPutTUser | src/structures_pg_impl.rs:279-282 | `ld_put_tuser`: the new user table and rows are those of `PutUser` |
| PgStore.PgClient.LdDelTListItem | src/structures_pg_impl.rs:305-308 | `ld_del_tlistitem`: the new item table is `DelItem` |
| PgStore.PgClient.LdDelTList | src/structures_pg_impl.rs:316-319 | `ld_del_tlist`: the list and its items are removed together |
| PgStore.PgClient.LdDelTUser | src/structures_pg_impl.rs:327-330 | `ld_del_tuser`: the new user table is `DelUser` |
| Utils.KeyFor | src/utils.rs:35-42 | a key map has the single entry `table_key` and decodes back to the UUID it was built from |
| Utils.BuildDdbGetInput | src/utils.rs:33-50 | a key map for the UUID, the given table name, a strongly consistent read, and no projection |
| Utils.BuildDdbGetBatchInput | src/utils.rs:52-102 | one request entry, keyed by the table name, holding `min(n, 100)` keys, which are the leading keys in order, with the fixed five-attribute projection |
| Utils.BatchKeysDistinct | src/utils.rs:58-78 | keys built from distinct UUIDs are distinct maps |
| Utils.BuildDdbPutInput | src/utils.rs:104-110 | the item passes through unchanged with the given table name and no other option |
| Utils.BuildDdbDelInput | src/utils.rs:112-127 | a key map for the UUID and the given table name, with no other option |
| Ddb.NewLdList | src/structures_ddb.rs:50-61 | `lid` is the relational list's `lid`, `rel` is that list, the title is kept, and description, tags and items are `None` |
| Ddb.DdbClient.GetItem | src/structures_ddb.rs:95-101 | a read of `tlist` with a well-formed key returns what is currently stored under the key string; a fault, another table or a malformed key is an error |
| Ddb.DdbClient.PutItem | src/structures_ddb.rs:71-73 | a put to `tlist` replaces the entry under the item's key string; a fault or another table leaves the table unchanged |
| Ddb.StoredAfterPut | src/structures_ddb.rs:71-81 | storing a list changes what is stored under its own `lid` and nothing else |
| Ddb.GetFromDdb | src/structures_ddb.rs:84-125 | `Ok` exactly when the read succeeds and a list is stored under `lid`, and then it is that list; an absent list and a store error give the same error text |
| Ddb.SaveInDdb | src/structures_ddb.rs:63-82 | a refused put returns "Failed to save in DDB." and changes nothing; otherwise the table holds the list under its `lid`, other lists are unchanged, and the result is the read-back, which is the list itself unless the read fails |
| Ddb.FindItem | src/structures_ddb.rs:151-160 | the position of the first item with the `liid`, or none when no item has it |
| Ddb.WithDetails | src/structures_ddb.rs:153-158 | the chosen item gets the caller's title and description and keeps its `liid` and `rel`; the count and every other item are unchanged |
| Ddb.MergedItemIsFound | src/structures_ddb.rs:149-189 | after either the update or the append, a scan for the `liid` finds the item at the expected position carrying the caller's title and description |
| Ddb.PutListItemDdb | src/structures_ddb.rs:130-195 | a failed parent load returns that error and changes no table; a match updates the first matching item and issues no relational put; otherwise one relational put of `t_list_item::new(liid, parent_lid)` is issued, and if it returns no row the result is "Failed to save this new list item in the DB."; otherwise one item with the returned `rel` is appended; the merged list is printed and the result is the error "test" |

## Left out

- src/main.rs is a demo binary doing only I/O. It is not part of this model.
- src/structures.rs, an earlier version of the types, is not part of this model.
- `DbOpError` in src/structures_pg.rs is unused and is not modelled.
- The `From<&Row>` conversions and the dynomite attribute-map conversions (`into`, `from_attrs`) are not modelled, because they are serialisation by foreign derive macros. The document store therefore holds typed `LdList` values, and `Utils.BuildDdbPutInput` is generic in its item.
- `load_db_config`, `get_pg_client` and `log_init` are environment reading, connection set-up and logging. Logging calls throughout are not modelled.
- A failing query makes each relational adapter panic. This is outside the model: the store methods always answer.
- The stored procedures' SQL is not part of this model. The documented and exercised behaviour is modelled: upsert by id keeping the first creation stamp, AND lookup of users, cascading list delete. `chrono::Utc::now()` is the `now` parameter.
- Four store behaviours are assumptions, not documented or exercised behaviour:
  - an item put naming a list that does not exist writes nothing and returns no row. This is the only way `put_list_item_ddb` reaches "Failed to save this new list item in the DB.";
  - a user put with an email that is already stored writes nothing and returns that user;
  - a user delete leaves the user's lists in place;
  - an item put or list put of an existing id updates only the one column the adapter sends.
- The commented-out save and re-scan at the end of `put_list_item_ddb` is not modelled, since it is not live code. `Ddb.MergedItemIsFound` states what that re-scan would find.
- The test files are used only as evidence for store behaviour. List deletion, owner lookup and user-list batching, which they call, have no source and are not modelled.
- DynamoDB eventual consistency is not modelled. Every read sees the latest write, and `consistentRead` is carried but not interpreted.
- Ddb.SaveInDdb: the read-back is the saved list itself only because no other writer is modelled between the put and the read-back, and because the attribute-map conversion is taken to be lossless. The source warns that the read-back may differ from what was saved.
- `Uuids.Parse` accepts only the hyphenated lowercase form printed by `ToString`. The other textual forms a UUID parser may accept are not modelled.
- PgImpl.PutTUser: in the model, the new user's id is the parameter `newId`, because the database generates it. If that id is already taken, no row is returned.
- The "more than one row" branch of the list and item adapters cannot be reached from a store that keeps its invariant, because ids are unique. That branch is stated on `PgImpl.FirstRow` alone.

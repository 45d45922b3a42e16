/**
 * The list aggregate kept in the document store, the store itself (one
 * table, `tlist`, keyed by the string form of `lid`), and the operations that
 * save a list, read it back, and merge a list item into its list.
 */
module Ddb {
  import opened Wrappers
  import opened Uuids
  import opened PgTypes
  import PgStore
  import PgImpl
  import Utils

  const TABLE_NAME_TLIST: string := "tlist"
  const TABLE_KEY_FOR_TLIST: string := "lid"
  const ERR_MSG_SAVING_ITEM_FAILED: string := "Failed to save this new list item in the DB."
  /** Returned when the put of a list is refused. */
  const ERR_MSG_SAVE_FAILED: string := "Failed to save in DDB."
  /** Returned when a list cannot be read, whether the store erred or holds no such list. */
  const ERR_MSG_READ_FAILED: string := "Failed to save the item. Try again."
  /** What the live item merge returns once it has built the merged list. */
  const ERR_MSG_PLACEHOLDER: string := "test"

  /** A single list item, part of a list. */
  datatype LdListItem = LdListItem(liid: Uuid, title: string, description: Option<string>, rel: TListItem)

  /** A complete list as exchanged with the front end. */
  datatype LdList = LdList(
    lid: Uuid,
    title: string,
    description: Option<string>,
    tags: Option<seq<string>>,
    items: Option<seq<LdListItem>>,
    rel: TList)

  /** `LdList::new`: a list with no description, tags or items. */
  function NewLdList(title: string, tList: TList): (l: LdList)
    ensures l.lid == tList.lid && l.rel == tList && l.title == title
    ensures l.description.None? && l.tags.None? && l.items.None?
  {
    LdList(tList.lid, title, None, None, None, tList)
  }

  // ----- the document store -----

  datatype DdbOp = GetItemOp | PutItemOp
  datatype DdbError = ServiceError | ResourceNotFound | ValidationError

  /** The partition key value under which an aggregate is stored. */
  function ItemKey(l: LdList): string {
    ToString(l.lid)
  }

  /** The list stored under `lid`, if any. */
  function Stored(table: map<string, LdList>, lid: Uuid): Option<LdList> {
    if ToString(lid) in table then Some(table[ToString(lid)]) else None
  }

  /** The key string a request selects, if its key map is well-formed for `tlist`. */
  function RequestedKey(key: map<string, Utils.AttributeValue>): Option<string> {
    if key.Keys == {TABLE_KEY_FOR_TLIST} && key[TABLE_KEY_FOR_TLIST].s.Some?
    then Some(key[TABLE_KEY_FOR_TLIST].s.value)
    else None
  }

  /**
   * A connection to the document store holding table `tlist`. `faults` are
   * the operations the service answers with an error (outage, throttling).
   */
  class DdbClient {
    var table: map<string, LdList>
    const faults: set<DdbOp>

    constructor (faults: set<DdbOp>)
      ensures table == map[] && this.faults == faults
    {
      table := map[];
      this.faults := faults;
    }

    /** A read that sees the latest write. */
    method GetItem(input: Utils.GetItemInput) returns (r: Result<Option<LdList>, DdbError>)
      ensures GetItemOp in faults ==> r == Err(ServiceError)
      ensures GetItemOp !in faults && input.tableName != TABLE_NAME_TLIST ==> r == Err(ResourceNotFound)
      ensures GetItemOp !in faults && input.tableName == TABLE_NAME_TLIST && RequestedKey(input.key).None? ==>
                r == Err(ValidationError)
      ensures GetItemOp !in faults && input.tableName == TABLE_NAME_TLIST && RequestedKey(input.key).Some? ==>
                var k := RequestedKey(input.key).value;
                r == Ok(if k in table then Some(table[k]) else None)
    {
      if GetItemOp in faults {
        return Err(ServiceError);
      }
      if input.tableName != TABLE_NAME_TLIST {
        return Err(ResourceNotFound);
      }
      match RequestedKey(input.key) {
        case None => r := Err(ValidationError);
        case Some(k) => r := Ok(if k in table then Some(table[k]) else None);
      }
    }

    /** Replaces the whole aggregate stored under the item's key. */
    method PutItem(input: Utils.PutItemInput<LdList>) returns (r: Result<(), DdbError>)
      modifies this
      ensures PutItemOp in faults ==> r == Err(ServiceError)
      ensures PutItemOp !in faults && input.tableName != TABLE_NAME_TLIST ==> r == Err(ResourceNotFound)
      ensures r.Ok? <==> PutItemOp !in faults && input.tableName == TABLE_NAME_TLIST
      ensures table == if r.Ok? then old(table)[ItemKey(input.item) := input.item] else old(table)
    {
      if PutItemOp in faults {
        return Err(ServiceError);
      }
      if input.tableName != TABLE_NAME_TLIST {
        return Err(ResourceNotFound);
      }
      table := table[ItemKey(input.item) := input.item];
      r := Ok(());
    }
  }

  /** Storing a list changes what is stored under its own id and nothing else. */
  lemma StoredAfterPut(table: map<string, LdList>, l: LdList, lid: Uuid)
    ensures Stored(table[ItemKey(l) := l], lid) == if lid == l.lid then Some(l) else Stored(table, lid)
  {
    if lid != l.lid {
      ToStringInjective(lid, l.lid);
    }
  }

  // ----- saving and reading a list -----

  /** `LdList::get_from_ddb`: an absent list is an error, like a store error. */
  method GetFromDdb(lid: Uuid, client: DdbClient) returns (r: Result<LdList, string>)
    ensures r.Ok? <==> GetItemOp !in client.faults && Stored(client.table, lid).Some?
    ensures r.Ok? ==> Stored(client.table, lid) == Some(r.value)
    ensures r.Err? ==> r.error == ERR_MSG_READ_FAILED
  {
    var input := Utils.BuildDdbGetInput(TABLE_KEY_FOR_TLIST, lid, TABLE_NAME_TLIST);
    assert RequestedKey(input.key) == Some(ToString(lid));
    var output := client.GetItem(input);
    match output {
      case Ok(item) =>
        match item {
          case Some(outputItem) => return Ok(outputItem);
          case None => return Err(ERR_MSG_READ_FAILED);
        }
      case Err(_) => return Err(ERR_MSG_READ_FAILED);
    }
  }

  /** `LdList::save_in_ddb`: put the whole list, then answer with what a read of it returns. */
  method SaveInDdb(list: LdList, client: DdbClient) returns (r: Result<LdList, string>)
    modifies client
    ensures PutItemOp in client.faults ==> r == Err(ERR_MSG_SAVE_FAILED) && client.table == old(client.table)
    ensures PutItemOp !in client.faults ==> client.table == old(client.table)[ItemKey(list) := list]
    ensures PutItemOp !in client.faults ==> forall lid :: lid != list.lid ==> Stored(client.table, lid) == Stored(old(client.table), lid)
    ensures PutItemOp !in client.faults ==> (r.Ok? <==> GetItemOp !in client.faults)
    ensures PutItemOp !in client.faults && r.Ok? ==> r.value == list
    ensures PutItemOp !in client.faults && r.Err? ==> r.error == ERR_MSG_READ_FAILED
  {
    var lid := list.lid;
    var put := client.PutItem(Utils.BuildDdbPutInput(list, TABLE_NAME_TLIST));
    if put.Err? {
      return Err(ERR_MSG_SAVE_FAILED);
    }
    forall other: Uuid | other != lid
      ensures Stored(client.table, other) == Stored(old(client.table), other)
    {
      StoredAfterPut(old(client.table), list, other);
    }
    StoredAfterPut(old(client.table), list, lid);
    r := GetFromDdb(lid, client);
  }

  // ----- merging an item into its list -----

  /** A list's items; a list without any is read as an empty sequence. */
  function ItemsOf(l: LdList): seq<LdListItem> {
    if l.items.None? then [] else l.items.value
  }

  /** The outcome of scanning a list's items for an id. */
  datatype Lookup = Found(index: nat) | NotFound

  /** The position of the first item with `liid`, if there is one. */
  function FindItem(items: seq<LdListItem>, liid: Uuid): (r: Lookup)
    ensures r.Found? ==> r.index < |items| && items[r.index].liid == liid
    ensures r.Found? ==> forall j :: 0 <= j < r.index ==> items[j].liid != liid
    ensures r.NotFound? ==> forall j :: 0 <= j < |items| ==> items[j].liid != liid
  {
    if items == [] then NotFound
    else if items[0].liid == liid then Found(0)
    else match FindItem(items[1..], liid)
      case Found(k) => Found(k + 1)
      case NotFound => NotFound
  }

  /** The items with item `i` given a new title and description. */
  function WithDetails(items: seq<LdListItem>, i: nat, title: string, description: Option<string>): (r: seq<LdListItem>)
    requires i < |items|
    ensures |r| == |items|
    ensures r[i].title == title && r[i].description == description
    ensures r[i].liid == items[i].liid && r[i].rel == items[i].rel
    ensures forall j :: 0 <= j < |r| && j != i ==> r[j] == items[j]
  {
    items[i := items[i].(title := title, description := description)]
  }

  /** After either branch of the merge, a scan for the item finds it carrying the caller's text. */
  lemma MergedItemIsFound(items: seq<LdListItem>, liid: Uuid, title: string, description: Option<string>, rel: TListItem)
    ensures FindItem(items, liid).Found? ==>
              var k := FindItem(items, liid).index;
              var merged := WithDetails(items, k, title, description);
              FindItem(merged, liid) == Found(k) && merged[k].title == title && merged[k].description == description
    ensures FindItem(items, liid).NotFound? ==>
              var merged := items + [LdListItem(liid, title, description, rel)];
              FindItem(merged, liid) == Found(|items|) &&
              merged[|items|].title == title && merged[|items|].description == description
  {
    if FindItem(items, liid).Found? {
      var k := FindItem(items, liid).index;
      var merged := WithDetails(items, k, title, description);
      assert merged[k].liid == liid;
    } else {
      var merged := items + [LdListItem(liid, title, description, rel)];
      assert merged[|items|].liid == liid;
    }
  }

  /**
   * `LdListItem::put_list_item_ddb` as the code stands: load the parent list,
   * update the first item with the same liid or create its relational record
   * and append it, print the merged list (`printed`) and return the
   * placeholder error. The merged list is never written back.
   */
  method PutListItemDdb(listItem: LdListItem, ddb: DdbClient, pg: PgStore.PgClient, now: Timestamp)
    returns (r: Result<LdListItem, string>, printed: Option<LdList>)
    requires pg.Valid()
    modifies pg
    ensures pg.Valid()
    ensures r.Err?
    ensures GetItemOp in ddb.faults || Stored(ddb.table, listItem.rel.parentLid).None? ==>
              r == Err(ERR_MSG_READ_FAILED) && printed.None? &&
              pg.lists == old(pg.lists) && pg.items == old(pg.items) && pg.users == old(pg.users)
    ensures GetItemOp !in ddb.faults && Stored(ddb.table, listItem.rel.parentLid).Some? ==>
              var parent := Stored(ddb.table, listItem.rel.parentLid).value;
              var items := ItemsOf(parent);
              FindItem(items, listItem.liid).Found? ==>
                r == Err(ERR_MSG_PLACEHOLDER) &&
                pg.lists == old(pg.lists) && pg.items == old(pg.items) && pg.users == old(pg.users) &&
                printed == Some(parent.(items := Some(WithDetails(items, FindItem(items, listItem.liid).index,
                                                                  listItem.title, listItem.description))))
    ensures GetItemOp !in ddb.faults && Stored(ddb.table, listItem.rel.parentLid).Some? ==>
              var parent := Stored(ddb.table, listItem.rel.parentLid).value;
              var items := ItemsOf(parent);
              var put := PgStore.PutItem(old(pg.lists), old(pg.items), listItem.rel.parentLid, listItem.liid, now);
              FindItem(items, listItem.liid).NotFound? ==>
                pg.lists == old(pg.lists) && pg.users == old(pg.users) && pg.items == put.table &&
                (put.rows == [] ==> r == Err(ERR_MSG_SAVING_ITEM_FAILED) && printed.None?) &&
                (put.rows != [] ==>
                   r == Err(ERR_MSG_PLACEHOLDER) &&
                   printed == Some(parent.(items := Some(items + [LdListItem(listItem.liid, listItem.title,
                                                                             listItem.description, put.rows[0])]))))
  {
    var loaded := GetFromDdb(listItem.rel.parentLid, ddb);
    if loaded.Err? {
      return Err(loaded.error), None;
    }
    var list := loaded.value;
    if list.items.None? {
      list := list.(items := Some([]));
    }

    var items := list.items.value;
    ghost var scanned := items;
    var isExistingItem := false;
    var i := 0;
    while i < |items|
      invariant 0 <= i <= |items| && items == scanned
      invariant forall j :: 0 <= j < i ==> items[j].liid != listItem.liid
    {
      if items[i].liid == listItem.liid {
        items := items[i := items[i].(title := listItem.title, description := listItem.description)];
        isExistingItem := true;
        break;
      }
      i := i + 1;
    }

    if !isExistingItem {
      var newRelItemTemplate := PgImpl.NewTListItem(listItem.liid, listItem.rel.parentLid);
      var newRelItem := PgImpl.PutTListItem(newRelItemTemplate, pg, now);
      if newRelItem.None? {
        return Err(ERR_MSG_SAVING_ITEM_FAILED), None;
      }
      var newDdbItem := LdListItem(listItem.liid, listItem.title, listItem.description, newRelItem.value);
      items := items + [newDdbItem];
    }
    list := list.(items := Some(items));

    printed := Some(list);
    r := Err(ERR_MSG_PLACEHOLDER);
  }
}

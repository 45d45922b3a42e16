/**
 * The relational adapters: the two record constructors, and one method per
 * stored procedure, each of which runs the procedure against the store and
 * classifies the number of rows that come back.
 */
module PgImpl {
  import opened Wrappers
  import opened Uuids
  import opened PgTypes
  import opened PgStore

  // ----- constructors -----

  /** `t_list::new`: owner set, no organisation, not validated, stamped with the caller's clock. */
  function NewTList(lid: Uuid, userId: Uuid, now: Timestamp): (l: TList)
    ensures l.lid == lid && l.userId == Some(userId)
    ensures l.orgId.None? && l.validatedOnUtc.None?
    ensures l.createdOnUtc == now
  {
    TList(lid, Some(userId), None, now, None)
  }

  /** `t_list_item::new`: a template that only names the item and its list. */
  function NewTListItem(liid: Uuid, parentLid: Uuid): (t: TListItem)
    ensures t.liid == liid && t.parentLid == parentLid
    ensures t.childLid.None? && t.originLiid.None? && t.originLid.None?
    ensures t.topLiid.None? && t.topLid.None? && t.userId.None? && t.orgId.None?
    ensures t.createdOnUtc.None? && t.validatedOnUtc.None?
  {
    TListItem(liid, parentLid, None, None, None, None, None, None, None, None, None)
  }

  // ----- row-count classification -----

  /**
   * List and list-item adapters: no row is "absent"; one row is the answer;
   * more than one row breaks a uniqueness the schema promises, is logged, and
   * the first row is used anyway.
   */
  function FirstRow<T>(rows: seq<T>): (r: Option<T>)
    ensures r.None? <==> |rows| == 0
    ensures r.Some? ==> r.value == rows[0]
  {
    match |rows|
    case 1 => Some(rows[0])
    case 0 => None
    case _ => Some(rows[0])
  }

  /** User adapters: only exactly one row is an answer; several rows are logged and dropped. */
  function SoleRow<T>(rows: seq<T>): (r: Option<T>)
    ensures r.Some? <==> |rows| == 1
    ensures r.Some? ==> r.value == rows[0]
  {
    match |rows|
    case 1 => Some(rows[0])
    case 0 => None
    case _ => None
  }

  // ----- adapters -----

  method GetTListItem(liid: Uuid, client: PgClient) returns (r: Option<TListItem>)
    ensures r == FirstRow(ItemRows(client.items, liid))
    ensures r.Some? <==> exists t :: t in client.items && t.liid == liid
    ensures r.Some? ==> r.value in client.items && r.value.liid == liid
  {
    var rows := ItemRows(client.items, liid);
    if rows != [] {
      assert rows[0] in rows;
    } else {
      assert forall t :: t in client.items ==> t !in rows;
    }
    r := FirstRow(rows);
  }

  method GetTListItems(lid: Uuid, client: PgClient) returns (r: Option<seq<TListItem>>)
    ensures r.None? <==> forall t :: t in client.items ==> t.parentLid != lid
    ensures r.Some? ==> r.value == ChildRows(client.items, lid)
    ensures r.Some? ==> forall t :: t in r.value <==> t in client.items && t.parentLid == lid
  {
    var rows := ChildRows(client.items, lid);
    if |rows| == 0 {
      assert forall t :: t in client.items ==> t !in rows;
      return None;
    }
    assert rows[0] in rows;
    r := Some(rows);
  }

  method GetTList(lid: Uuid, client: PgClient) returns (r: Option<TList>)
    ensures r == FirstRow(ListRows(client.lists, lid))
    ensures r.Some? <==> exists l :: l in client.lists && l.lid == lid
    ensures r.Some? ==> r.value in client.lists && r.value.lid == lid
  {
    var rows := ListRows(client.lists, lid);
    if rows != [] {
      assert rows[0] in rows;
    } else {
      assert forall l :: l in client.lists ==> l !in rows;
    }
    r := FirstRow(rows);
  }

  /** AND semantics: a user is found only if every key given belongs to it. */
  method GetTUser(userId: Option<Uuid>, userEmail: Option<string>, client: PgClient) returns (r: Option<TUser>)
    requires client.Valid()
    ensures r == SoleRow(UserRows(client.users, userId, userEmail))
    ensures r.Some? <==> (userId.Some? || userEmail.Some?) && exists u :: u in client.users && UserMatches(u, userId, userEmail)
    ensures r.Some? ==> r.value in client.users && UserMatches(r.value, userId, userEmail)
  {
    var rows := UserRows(client.users, userId, userEmail);
    UserRowsAtMostOne(client.users, userId, userEmail);
    if rows != [] {
      assert rows[0] in rows;
    } else {
      assert forall u :: u in client.users ==> u !in rows;
    }
    r := SoleRow(rows);
  }

  /** Only the two keys are sent; every other field of `item` is ignored by the procedure. */
  method PutTListItem(item: TListItem, client: PgClient, now: Timestamp) returns (r: Option<TListItem>)
    requires client.Valid()
    modifies client
    ensures client.Valid()
    ensures client.lists == old(client.lists) && client.users == old(client.users)
    ensures client.items == PutItem(old(client.lists), old(client.items), item.parentLid, item.liid, now).table
    ensures r == FirstRow(PutItem(old(client.lists), old(client.items), item.parentLid, item.liid, now).rows)
    ensures r.Some? ==> r.value in client.items && r.value.liid == item.liid && r.value.createdOnUtc.Some?
  {
    var rows := client.LdPutTListItem(item.parentLid, item.liid, now);
    r := FirstRow(rows);
  }

  /** Only `lid` and `user_id` are sent; the caller's creation stamp is not. */
  method PutTList(list: TList, client: PgClient, now: Timestamp) returns (r: Option<TList>)
    requires client.Valid()
    modifies client
    ensures client.Valid()
    ensures client.items == old(client.items) && client.users == old(client.users)
    ensures client.lists == PutList(old(client.lists), list.lid, list.userId, now).table
    ensures r == FirstRow(PutList(old(client.lists), list.lid, list.userId, now).rows)
    ensures r.Some? && r.value in client.lists && r.value.lid == list.lid
  {
    GetAfterPutList(client.lists, list.lid, list.userId, now);
    var rows := client.LdPutTList(list.lid, list.userId, now);
    assert rows[0] in rows;
    r := FirstRow(rows);
  }

  /** `newId` is the id the store generates for a new user. */
  method PutTUser(userEmail: string, client: PgClient, newId: Uuid, now: Timestamp) returns (r: Option<TUser>)
    requires client.Valid()
    modifies client
    ensures client.Valid()
    ensures client.lists == old(client.lists) && client.items == old(client.items)
    ensures client.users == PutUser(old(client.users), userEmail, newId, now).table
    ensures r == SoleRow(PutUser(old(client.users), userEmail, newId, now).rows)
    ensures r.Some? ==> r.value in client.users && r.value.userEmail == userEmail
  {
    UserRowsAtMostOne(client.users, None, Some(userEmail));
    var rows := client.LdPutTUser(userEmail, newId, now);
    r := SoleRow(rows);
  }

  method DelTListItem(liid: Uuid, client: PgClient)
    requires client.Valid()
    modifies client
    ensures client.Valid()
    ensures client.lists == old(client.lists) && client.users == old(client.users)
    ensures client.items == DelItem(old(client.items), liid)
  {
    client.LdDelTListItem(liid);
  }

  method DelTList(lid: Uuid, client: PgClient)
    requires client.Valid()
    modifies client
    ensures client.Valid()
    ensures client.users == old(client.users)
    ensures client.lists == DelListLists(old(client.lists), lid)
    ensures client.items == DelListItems(old(client.items), lid)
  {
    client.LdDelTList(lid);
  }

  method DelTUser(userId: Uuid, client: PgClient)
    requires client.Valid()
    modifies client
    ensures client.Valid()
    ensures client.lists == old(client.lists) && client.items == old(client.items)
    ensures client.users == DelUser(old(client.users), userId)
  {
    client.LdDelTUser(userId);
  }

  // ----- what the store promises, through the adapters' classification -----

  /** With unique ids and e-mails, a user lookup never sees two rows. */
  lemma UserRowsAtMostOne(users: seq<TUser>, userId: Option<Uuid>, userEmail: Option<string>)
    requires Distinct(users, UserIdOf) && Distinct(users, UserEmailOf)
    ensures |UserRows(users, userId, userEmail)| <= 1
  {
    if userId.Some? {
      FilterAtMostOne(users, MatchesUser(userId, userEmail), UserIdOf, userId.value);
    } else if userEmail.Some? {
      FilterAtMostOne(users, MatchesUser(userId, userEmail), UserEmailOf, userEmail.value);
    }
  }

  /** The id alone, the e-mail alone, or both of one user find that user. */
  lemma GetUserByEitherKey(users: seq<TUser>, u: TUser)
    requires Distinct(users, UserIdOf) && Distinct(users, UserEmailOf)
    requires u in users
    ensures SoleRow(UserRows(users, Some(u.userId), None)) == Some(u)
    ensures SoleRow(UserRows(users, None, Some(u.userEmail))) == Some(u)
    ensures SoleRow(UserRows(users, Some(u.userId), Some(u.userEmail))) == Some(u)
  {
    UserRowsAtMostOne(users, Some(u.userId), None);
    UserRowsAtMostOne(users, None, Some(u.userEmail));
    UserRowsAtMostOne(users, Some(u.userId), Some(u.userEmail));
    assert u in UserRows(users, Some(u.userId), None);
    assert u in UserRows(users, None, Some(u.userEmail));
    assert u in UserRows(users, Some(u.userId), Some(u.userEmail));
  }

  /** An id and an e-mail of two different users find nothing (AND, not OR). */
  lemma GetUserAndSemantics(users: seq<TUser>, a: TUser, b: TUser)
    requires Distinct(users, UserIdOf) && Distinct(users, UserEmailOf)
    requires a in users && b in users && a.userId != b.userId
    ensures UserRows(users, Some(a.userId), Some(b.userEmail)) == []
    ensures SoleRow(UserRows(users, Some(a.userId), Some(b.userEmail))) == None
  {
    var rows := UserRows(users, Some(a.userId), Some(b.userEmail));
    if rows != [] {
      var u := rows[0];
      assert u in rows;
      DistinctSame(users, UserIdOf, u, a);
      DistinctSame(users, UserEmailOf, u, b);
      assert false;
    }
  }

  /**
   * A put that returns a row, followed by a get of the same liid, answers with
   * that row; a put that returns no row has written nothing.
   */
  lemma {:induction false} GetAfterPutItem(lists: seq<TList>, items: seq<TListItem>, parentLid: Uuid, liid: Uuid, now: Timestamp)
    ensures PutItem(lists, items, parentLid, liid, now).rows != [] ==>
              (FirstRow(ItemRows(PutItem(lists, items, parentLid, liid, now).table, liid))
               == FirstRow(PutItem(lists, items, parentLid, liid, now).rows))
    ensures PutItem(lists, items, parentLid, liid, now).rows == [] ==>
              PutItem(lists, items, parentLid, liid, now).table == items
  {
    if ListRows(lists, parentLid) != [] {
      if ItemRows(items, liid) == [] {
        FilterAppend(items, NewItemRow(parentLid, liid, now), HasLiid(liid));
      } else {
        var table := Update(items, HasLiid(liid), WithParent(parentLid));
        assert PutItem(lists, items, parentLid, liid, now) == Outcome(table, ItemRows(table, liid));
        FirstSelectedAfterUpdate(items, HasLiid(liid), WithParent(parentLid));
      }
    }
  }

  /** Repeating a put, whatever the clock says then, changes nothing and returns the same rows. */
  lemma {:induction false} PutItemIdempotent(lists: seq<TList>, items: seq<TListItem>, parentLid: Uuid, liid: Uuid, now: Timestamp, later: Timestamp)
    ensures var first := PutItem(lists, items, parentLid, liid, now);
            PutItem(lists, first.table, parentLid, liid, later) == first
  {
    if ListRows(lists, parentLid) != [] {
      if ItemRows(items, liid) != [] {
        FirstSelectedAfterUpdate(items, HasLiid(liid), WithParent(parentLid));
        UpdateTwice(items, HasLiid(liid), WithParent(parentLid));
      } else {
        PutAgainAfterInsert(items, parentLid, liid, now);
      }
    }
  }

  /** After an insert, the inserted row is the only one with its liid, and moving it to its own list is no change. */
  lemma PutAgainAfterInsert(items: seq<TListItem>, parentLid: Uuid, liid: Uuid, now: Timestamp)
    requires ItemRows(items, liid) == []
    ensures var table := items + [NewItemRow(parentLid, liid, now)];
            ItemRows(table, liid) == [NewItemRow(parentLid, liid, now)] &&
            Update(table, HasLiid(liid), WithParent(parentLid)) == table
  {
    var x := NewItemRow(parentLid, liid, now);
    var table := items + [x];
    forall y | y in items ensures !HasLiid(liid)(y) {
      assert y !in ItemRows(items, liid);
    }
    FilterAppend(items, x, HasLiid(liid));
    forall y | y in table && HasLiid(liid)(y) ensures WithParent(parentLid)(y) == y {
      if y in items {
        assert false;
      }
    }
    UpdateUnchanged(table, HasLiid(liid), WithParent(parentLid));
  }

  /** A put of an existing liid moves it to the given list and keeps every other field, its creation stamp included. */
  lemma {:induction false} PutItemMovesExisting(lists: seq<TList>, items: seq<TListItem>, parentLid: Uuid, liid: Uuid, now: Timestamp)
    requires ListRows(lists, parentLid) != [] && ItemRows(items, liid) != []
    ensures var o := PutItem(lists, items, parentLid, liid, now);
            o.rows != [] && o.rows[0] == ItemRows(items, liid)[0].(parentLid := parentLid)
  {
    FirstSelectedAfterUpdate(items, HasLiid(liid), WithParent(parentLid));
  }

  /** A new item of an existing list is listed after that list's earlier items. */
  lemma {:induction false} PutItemAppendsChild(lists: seq<TList>, items: seq<TListItem>, lid: Uuid, liid: Uuid, now: Timestamp)
    requires ListRows(lists, lid) != [] && ItemRows(items, liid) == []
    ensures |PutItem(lists, items, lid, liid, now).rows| == 1
    ensures ChildRows(PutItem(lists, items, lid, liid, now).table, lid)
         == ChildRows(items, lid) + PutItem(lists, items, lid, liid, now).rows
  {
    FilterAppend(items, NewItemRow(lid, liid, now), ChildOf(lid));
  }

  /** A put of one liid leaves the lookups of every other liid as they were. */
  lemma {:induction false} PutItemKeepsOtherItems(lists: seq<TList>, items: seq<TListItem>, parentLid: Uuid, liid: Uuid, now: Timestamp, other: Uuid)
    requires other != liid
    ensures ItemRows(PutItem(lists, items, parentLid, liid, now).table, other) == ItemRows(items, other)
  {
    if ListRows(lists, parentLid) != [] {
      if ItemRows(items, liid) != [] {
        FilterUpdateOther(items, HasLiid(liid), WithParent(parentLid), HasLiid(other));
      } else {
        FilterAppend(items, NewItemRow(parentLid, liid, now), HasLiid(other));
      }
    }
  }

  /** Three items put into an empty list come back from get_t_list_items in that order. */
  lemma ThreeItemsListedInOrder(lists: seq<TList>, items: seq<TListItem>, lid: Uuid,
                                l1: Uuid, l2: Uuid, l3: Uuid, n1: Timestamp, n2: Timestamp, n3: Timestamp)
    requires ListRows(lists, lid) != [] && ChildRows(items, lid) == []
    requires ItemRows(items, l1) == [] && ItemRows(items, l2) == [] && ItemRows(items, l3) == []
    requires l1 != l2 && l1 != l3 && l2 != l3
    ensures var o1 := PutItem(lists, items, lid, l1, n1);
            var o2 := PutItem(lists, o1.table, lid, l2, n2);
            var o3 := PutItem(lists, o2.table, lid, l3, n3);
            |o1.rows| == 1 && |o2.rows| == 1 && |o3.rows| == 1 &&
            ChildRows(o3.table, lid) == [o1.rows[0], o2.rows[0], o3.rows[0]]
  {
    var o1 := PutItem(lists, items, lid, l1, n1);
    PutItemAppendsChild(lists, items, lid, l1, n1);
    PutItemKeepsOtherItems(lists, items, lid, l1, n1, l2);
    PutItemKeepsOtherItems(lists, items, lid, l1, n1, l3);
    var o2 := PutItem(lists, o1.table, lid, l2, n2);
    PutItemAppendsChild(lists, o1.table, lid, l2, n2);
    PutItemKeepsOtherItems(lists, o1.table, lid, l2, n2, l3);
    PutItemAppendsChild(lists, o2.table, lid, l3, n3);
  }

  /** A put then a get of a list returns the stored row; the list always exists afterwards. */
  lemma {:induction false} GetAfterPutList(lists: seq<TList>, lid: Uuid, userId: Option<Uuid>, now: Timestamp)
    ensures PutList(lists, lid, userId, now).rows != []
    ensures FirstRow(ListRows(PutList(lists, lid, userId, now).table, lid))
         == FirstRow(PutList(lists, lid, userId, now).rows)
  {
    if ListRows(lists, lid) == [] {
      FilterAppend(lists, NewListRow(lid, userId, now), HasLid(lid));
    } else {
      FirstSelectedAfterUpdate(lists, HasLid(lid), WithOwner(userId));
    }
  }

  /** A put of an existing lid gives it the new owner and keeps every other field, its creation stamp included. */
  lemma {:induction false} PutListUpdatesOwner(lists: seq<TList>, lid: Uuid, userId: Option<Uuid>, now: Timestamp)
    requires ListRows(lists, lid) != []
    ensures var o := PutList(lists, lid, userId, now);
            o.rows != [] && o.rows[0] == ListRows(lists, lid)[0].(userId := userId)
  {
    FirstSelectedAfterUpdate(lists, HasLid(lid), WithOwner(userId));
  }

  /** Deleting an item removes that liid and no other. */
  lemma DelItemRemovesOnlyIt(items: seq<TListItem>, liid: Uuid, other: Uuid)
    ensures ItemRows(DelItem(items, liid), liid) == []
    ensures other != liid ==> ItemRows(DelItem(items, liid), other) == ItemRows(items, other)
  {
    FilterNone(DelItem(items, liid), HasLiid(liid));
    if other != liid {
      FilterOfFilter(items, OtherLiid(liid), HasLiid(other));
    }
  }

  /** Deleting a list removes it together with every item that belonged to it. */
  lemma DelListCascades(lists: seq<TList>, items: seq<TListItem>, users: seq<TUser>, lid: Uuid, t: TListItem)
    requires ValidTables(lists, items, users)
    requires t in items && t.parentLid == lid
    ensures ListRows(DelListLists(lists, lid), lid) == []
    ensures ChildRows(DelListItems(items, lid), lid) == []
    ensures ItemRows(DelListItems(items, lid), t.liid) == []
  {
    FilterNone(DelListLists(lists, lid), HasLid(lid));
    FilterNone(DelListItems(items, lid), ChildOf(lid));
    var rs := ItemRows(DelListItems(items, lid), t.liid);
    if rs != [] {
      assert rs[0] in rs;
      DistinctSame(items, ItemLiid, rs[0], t);
      assert false;
    }
  }

  /** Deleting a list leaves other lists and their items alone. */
  lemma DelListKeepsOtherLists(lists: seq<TList>, items: seq<TListItem>, lid: Uuid, other: Uuid)
    requires other != lid
    ensures ListRows(DelListLists(lists, lid), other) == ListRows(lists, other)
    ensures ChildRows(DelListItems(items, lid), other) == ChildRows(items, other)
  {
    FilterOfFilter(lists, OtherLid(lid), HasLid(other));
    FilterOfFilter(items, NotChildOf(lid), ChildOf(other));
  }

  /** A deleted user is no longer found by id. */
  lemma DelUserThenGet(users: seq<TUser>, userId: Uuid)
    ensures UserRows(DelUser(users, userId), Some(userId), None) == []
  {
    FilterNone(DelUser(users, userId), MatchesUser(Some(userId), None));
  }
}

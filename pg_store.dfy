/**
 * The relational store behind the adapters: tables t_list, t_list_item and
 * t_user as sequences of rows in insertion order, and the stored procedures
 * (ld_get_*, ld_put_*, ld_del_*) as functions from tables to the rows they
 * return and the tables they leave behind.
 *
 * The procedures' bodies are not part of the program; what is modelled is the
 * behaviour the adapters' doc comments and the relational test rely on:
 * ids and e-mails are unique, a put is an upsert that keeps the creation
 * stamp of an existing row, items are listed in the order they were created,
 * and deleting a list deletes its items.
 */
module PgStore {
  import opened Wrappers
  import opened Uuids
  import opened PgTypes

  // ----- rows selected from a table -----

  /** The rows of `s` that satisfy `keep`, in their order in `s`. */
  function Filter<T>(s: seq<T>, keep: T -> bool): (r: seq<T>)
    ensures |r| <= |s|
    ensures forall x :: x in r ==> x in s && keep(x)
    ensures forall x :: x in s && keep(x) ==> x in r
  {
    if s == [] then []
    else if keep(s[0]) then [s[0]] + Filter(s[1..], keep)
    else Filter(s[1..], keep)
  }

  lemma {:induction false} FilterAppend<T>(s: seq<T>, x: T, keep: T -> bool)
    ensures Filter(s + [x], keep) == Filter(s, keep) + (if keep(x) then [x] else [])
  {
    if s == [] {
      assert s + [x] == [x];
    } else {
      assert (s + [x])[0] == s[0];
      assert (s + [x])[1..] == s[1..] + [x];
      FilterAppend(s[1..], x, keep);
    }
  }

  lemma {:induction false} FilterNone<T>(s: seq<T>, keep: T -> bool)
    requires forall x :: x in s ==> !keep(x)
    ensures Filter(s, keep) == []
  {
    if s != [] {
      assert forall x :: x in s[1..] ==> x in s;
      FilterNone(s[1..], keep);
    }
  }

  lemma {:induction false} FilterOfFilter<T>(s: seq<T>, p: T -> bool, q: T -> bool)
    requires forall x :: x in s && q(x) ==> p(x)
    ensures Filter(Filter(s, p), q) == Filter(s, q)
  {
    if s != [] {
      assert forall x :: x in s[1..] ==> x in s;
      FilterOfFilter(s[1..], p, q);
    }
  }

  /** No two rows of `s` share a `key`. */
  ghost predicate Distinct<T, K>(s: seq<T>, key: T -> K) {
    forall i, j :: 0 <= i < j < |s| ==> key(s[i]) != key(s[j])
  }

  lemma DistinctTail<T, K>(s: seq<T>, key: T -> K)
    requires Distinct(s, key) && s != []
    ensures Distinct(s[1..], key)
    ensures forall y :: y in s[1..] ==> key(y) != key(s[0])
  {
    forall y | y in s[1..] ensures key(y) != key(s[0]) {
      var k :| 0 <= k < |s[1..]| && s[1..][k] == y;
      assert s[k + 1] == y;
    }
  }

  /** Two rows of a table with distinct keys that share a key are one row. */
  lemma DistinctSame<T, K>(s: seq<T>, key: T -> K, x: T, y: T)
    requires Distinct(s, key) && x in s && y in s && key(x) == key(y)
    ensures x == y
  {
    var i :| 0 <= i < |s| && s[i] == x;
    var j :| 0 <= j < |s| && s[j] == y;
    assert !(i < j) && !(j < i);
  }

  lemma DistinctAppend<T, K>(s: seq<T>, x: T, key: T -> K)
    requires Distinct(s, key)
    requires forall y :: y in s ==> key(y) != key(x)
    ensures Distinct(s + [x], key)
  {
    var t := s + [x];
    forall i, j | 0 <= i < j < |t| ensures key(t[i]) != key(t[j]) {
      if j == |s| {
        assert t[i] in s;
      } else {
        assert t[i] == s[i] && t[j] == s[j];
      }
    }
  }

  lemma {:induction false} FilterKeepsDistinct<T, K>(s: seq<T>, keep: T -> bool, key: T -> K)
    requires Distinct(s, key)
    ensures Distinct(Filter(s, keep), key)
  {
    if s != [] {
      DistinctTail(s, key);
      FilterKeepsDistinct(s[1..], keep, key);
      if keep(s[0]) {
        var rest := Filter(s[1..], keep);
        var r := [s[0]] + rest;
        forall i, j | 0 <= i < j < |r| ensures key(r[i]) != key(r[j]) {
          if i == 0 {
            assert r[j] == rest[j - 1] && rest[j - 1] in rest;
          } else {
            assert r[i] == rest[i - 1] && r[j] == rest[j - 1];
          }
        }
      }
    }
  }

  /** At most one row can be selected when every selected row has key `k`. */
  lemma {:induction false} FilterAtMostOne<T, K>(s: seq<T>, keep: T -> bool, key: T -> K, k: K)
    requires Distinct(s, key)
    requires forall x :: x in s && keep(x) ==> key(x) == k
    ensures |Filter(s, keep)| <= 1
  {
    if s != [] {
      DistinctTail(s, key);
      if keep(s[0]) {
        var rest := Filter(s[1..], keep);
        if rest != [] {
          assert rest[0] in s[1..] && keep(rest[0]);
        }
      } else {
        FilterAtMostOne(s[1..], keep, key, k);
      }
    }
  }

  // ----- rows updated in place -----

  /** `s` with every row that satisfies `sel` replaced by `f` of it, keeping its position. */
  function Update<T>(s: seq<T>, sel: T -> bool, f: T -> T): (r: seq<T>)
    ensures |r| == |s|
    ensures forall i :: 0 <= i < |s| ==> r[i] == if sel(s[i]) then f(s[i]) else s[i]
  {
    if s == [] then []
    else [if sel(s[0]) then f(s[0]) else s[0]] + Update(s[1..], sel, f)
  }

  /** An update that maps every selected row to itself changes nothing. */
  lemma UpdateUnchanged<T>(s: seq<T>, sel: T -> bool, f: T -> T)
    requires forall x :: x in s && sel(x) ==> f(x) == x
    ensures Update(s, sel, f) == s
  {
    var r := Update(s, sel, f);
    forall i | 0 <= i < |s| ensures r[i] == s[i] {
      assert s[i] in s;
    }
  }

  /** Updating twice is updating once, when the update is idempotent and keeps rows selected. */
  lemma UpdateTwice<T>(s: seq<T>, sel: T -> bool, f: T -> T)
    requires forall x :: x in s && sel(x) ==> sel(f(x)) && f(f(x)) == f(x)
    ensures Update(Update(s, sel, f), sel, f) == Update(s, sel, f)
  {
    var r := Update(s, sel, f);
    var r2 := Update(r, sel, f);
    forall i | 0 <= i < |s| ensures r2[i] == r[i] {
      assert s[i] in s;
    }
  }

  /** A key that the update does not touch stays distinct. */
  lemma UpdateKeepsDistinct<T, K>(s: seq<T>, sel: T -> bool, f: T -> T, key: T -> K)
    requires Distinct(s, key)
    requires forall x :: x in s && sel(x) ==> key(f(x)) == key(x)
    ensures Distinct(Update(s, sel, f), key)
  {
    var r := Update(s, sel, f);
    forall i | 0 <= i < |s| ensures key(r[i]) == key(s[i]) {
      assert s[i] in s;
    }
  }

  /** After the update, the first selected row is the update of the first row selected before. */
  lemma {:induction false} FirstSelectedAfterUpdate<T>(s: seq<T>, sel: T -> bool, f: T -> T)
    requires Filter(s, sel) != []
    requires forall x :: x in s && sel(x) ==> sel(f(x))
    ensures Filter(Update(s, sel, f), sel) != []
    ensures Filter(Update(s, sel, f), sel)[0] == f(Filter(s, sel)[0])
  {
    var r := Update(s, sel, f);
    assert s[0] in s;
    assert r[1..] == Update(s[1..], sel, f);
    if !sel(s[0]) {
      assert forall x :: x in s[1..] ==> x in s;
      FirstSelectedAfterUpdate(s[1..], sel, f);
    }
  }

  /** Rows selected by a condition that neither an updated row nor its update meets are not affected. */
  lemma {:induction false} FilterUpdateOther<T>(s: seq<T>, sel: T -> bool, f: T -> T, keep: T -> bool)
    requires forall x :: x in s && sel(x) ==> !keep(x) && !keep(f(x))
    ensures Filter(Update(s, sel, f), keep) == Filter(s, keep)
  {
    if s != [] {
      var r := Update(s, sel, f);
      assert s[0] in s;
      assert r[1..] == Update(s[1..], sel, f);
      assert forall x :: x in s[1..] ==> x in s;
      FilterUpdateOther(s[1..], sel, f, keep);
    }
  }

  // ----- keys and selections of the three tables -----

  function ItemLiid(t: TListItem): Uuid { t.liid }
  function ListLid(l: TList): Uuid { l.lid }
  function UserIdOf(u: TUser): Uuid { u.userId }
  function UserEmailOf(u: TUser): string { u.userEmail }

  function HasLiid(liid: Uuid): TListItem -> bool { (t: TListItem) => t.liid == liid }
  function OtherLiid(liid: Uuid): TListItem -> bool { (t: TListItem) => t.liid != liid }
  function ChildOf(lid: Uuid): TListItem -> bool { (t: TListItem) => t.parentLid == lid }
  function NotChildOf(lid: Uuid): TListItem -> bool { (t: TListItem) => t.parentLid != lid }
  function HasLid(lid: Uuid): TList -> bool { (l: TList) => l.lid == lid }
  function OtherLid(lid: Uuid): TList -> bool { (l: TList) => l.lid != lid }
  function OtherUserId(userId: Uuid): TUser -> bool { (u: TUser) => u.userId != userId }

  function WithParent(parentLid: Uuid): TListItem -> TListItem { (t: TListItem) => t.(parentLid := parentLid) }
  function WithOwner(userId: Option<Uuid>): TList -> TList { (l: TList) => l.(userId := userId) }

  /** The user lookup's condition: every key that is given must match. */
  predicate UserMatches(u: TUser, userId: Option<Uuid>, userEmail: Option<string>) {
    (userId.None? || u.userId == userId.value) && (userEmail.None? || u.userEmail == userEmail.value)
  }

  function MatchesUser(userId: Option<Uuid>, userEmail: Option<string>): TUser -> bool {
    (u: TUser) => UserMatches(u, userId, userEmail)
  }

  /** Rows of ld_get_tlistitem(liid). */
  function ItemRows(items: seq<TListItem>, liid: Uuid): seq<TListItem> {
    Filter(items, HasLiid(liid))
  }

  /** Rows of ld_get_tlistitems(lid): the list's items in creation order. */
  function ChildRows(items: seq<TListItem>, lid: Uuid): seq<TListItem> {
    Filter(items, ChildOf(lid))
  }

  /** Rows of ld_get_tlist(lid). */
  function ListRows(lists: seq<TList>, lid: Uuid): seq<TList> {
    Filter(lists, HasLid(lid))
  }

  /** Rows of ld_get_tuser(user_id, user_email): nothing when neither is given. */
  function UserRows(users: seq<TUser>, userId: Option<Uuid>, userEmail: Option<string>): seq<TUser> {
    if userId.None? && userEmail.None? then [] else Filter(users, MatchesUser(userId, userEmail))
  }

  /**
   * The store's integrity: primary keys and e-mails are unique, every item
   * belongs to a list that exists, and every item row carries the creation
   * time the store stamped on it.
   */
  ghost predicate ValidTables(lists: seq<TList>, items: seq<TListItem>, users: seq<TUser>) {
    && Distinct(lists, ListLid)
    && Distinct(items, ItemLiid)
    && Distinct(users, UserIdOf)
    && Distinct(users, UserEmailOf)
    && (forall t :: t in items ==> ListRows(lists, t.parentLid) != [])
    && (forall t :: t in items ==> t.createdOnUtc.Some?)
  }

  // ----- the writing procedures -----

  /** What a writing procedure leaves in its table, and the rows it returns. */
  datatype Outcome<T> = Outcome(table: seq<T>, rows: seq<T>)

  /** The row ld_put_tlistitem inserts: the two keys and the store's clock. */
  function NewItemRow(parentLid: Uuid, liid: Uuid, now: Timestamp): TListItem {
    TListItem(liid, parentLid, None, None, None, None, None, None, None, Some(now), None)
  }

  function NewListRow(lid: Uuid, userId: Option<Uuid>, now: Timestamp): TList {
    TList(lid, userId, None, now, None)
  }

  function NewUserRow(userId: Uuid, userEmail: string, now: Timestamp): TUser {
    TUser(userId, userEmail, None, now, None)
  }

  /**
   * ld_put_tlistitem(parent_lid, liid), an upsert: under a missing list nothing
   * is written and no row is returned; an existing liid is moved to
   * `parent_lid` in place, keeping its creation stamp; a new liid is inserted
   * with the store's clock.
   */
  function PutItem(lists: seq<TList>, items: seq<TListItem>, parentLid: Uuid, liid: Uuid, now: Timestamp): Outcome<TListItem> {
    if ListRows(lists, parentLid) == [] then Outcome(items, [])
    else if ItemRows(items, liid) != [] then
      var table := Update(items, HasLiid(liid), WithParent(parentLid));
      Outcome(table, ItemRows(table, liid))
    else Outcome(items + [NewItemRow(parentLid, liid, now)], [NewItemRow(parentLid, liid, now)])
  }

  /**
   * ld_put_tlist(lid, user_id), an upsert: an existing lid gets the new owner
   * in place, keeping its creation stamp; a new lid is inserted with the
   * store's clock.
   */
  function PutList(lists: seq<TList>, lid: Uuid, userId: Option<Uuid>, now: Timestamp): Outcome<TList> {
    if ListRows(lists, lid) != [] then
      var table := Update(lists, HasLid(lid), WithOwner(userId));
      Outcome(table, ListRows(table, lid))
    else Outcome(lists + [NewListRow(lid, userId, now)], [NewListRow(lid, userId, now)])
  }

  /**
   * ld_put_tuser(user_email): an existing e-mail answers with its row; otherwise
   * the store inserts a user under the id it generates (`newId`), unless that
   * id is taken, in which case nothing is inserted and no row is returned.
   */
  function PutUser(users: seq<TUser>, userEmail: string, newId: Uuid, now: Timestamp): Outcome<TUser> {
    if UserRows(users, None, Some(userEmail)) != [] then Outcome(users, UserRows(users, None, Some(userEmail)))
    else if UserRows(users, Some(newId), None) != [] then Outcome(users, [])
    else Outcome(users + [NewUserRow(newId, userEmail, now)], [NewUserRow(newId, userEmail, now)])
  }

  /** ld_del_tlistitem(liid). */
  function DelItem(items: seq<TListItem>, liid: Uuid): seq<TListItem> {
    Filter(items, OtherLiid(liid))
  }

  /** ld_del_tlist(lid) on t_list ... */
  function DelListLists(lists: seq<TList>, lid: Uuid): seq<TList> {
    Filter(lists, OtherLid(lid))
  }

  /** ... and its cascade on t_list_item. */
  function DelListItems(items: seq<TListItem>, lid: Uuid): seq<TListItem> {
    Filter(items, NotChildOf(lid))
  }

  /** ld_del_tuser(user_id). */
  function DelUser(users: seq<TUser>, userId: Uuid): seq<TUser> {
    Filter(users, OtherUserId(userId))
  }

  // ----- every procedure keeps the store's integrity -----

  lemma PutItemKeepsValid(lists: seq<TList>, items: seq<TListItem>, users: seq<TUser>, parentLid: Uuid, liid: Uuid, now: Timestamp)
    requires ValidTables(lists, items, users)
    ensures ValidTables(lists, PutItem(lists, items, parentLid, liid, now).table, users)
  {
    if ListRows(lists, parentLid) != [] {
      if ItemRows(items, liid) != [] {
        var table := Update(items, HasLiid(liid), WithParent(parentLid));
        UpdateKeepsDistinct(items, HasLiid(liid), WithParent(parentLid), ItemLiid);
        forall t | t in table ensures ListRows(lists, t.parentLid) != [] && t.createdOnUtc.Some? {
          var i :| 0 <= i < |table| && table[i] == t;
          assert items[i] in items;
        }
      } else {
        var x := NewItemRow(parentLid, liid, now);
        forall y | y in items ensures ItemLiid(y) != ItemLiid(x) {
          assert y !in ItemRows(items, liid);
        }
        DistinctAppend(items, x, ItemLiid);
      }
    }
  }

  lemma PutListKeepsValid(lists: seq<TList>, items: seq<TListItem>, users: seq<TUser>, lid: Uuid, userId: Option<Uuid>, now: Timestamp)
    requires ValidTables(lists, items, users)
    ensures ValidTables(PutList(lists, lid, userId, now).table, items, users)
  {
    var lists' := PutList(lists, lid, userId, now).table;
    if ListRows(lists, lid) != [] {
      UpdateKeepsDistinct(lists, HasLid(lid), WithOwner(userId), ListLid);
      forall t | t in items ensures ListRows(lists', t.parentLid) != [] {
        var l := ListRows(lists, t.parentLid)[0];
        assert l in ListRows(lists, t.parentLid);
        var i :| 0 <= i < |lists| && lists[i] == l;
        assert lists'[i].lid == t.parentLid;
        assert lists'[i] in ListRows(lists', t.parentLid);
      }
    } else {
      var x := NewListRow(lid, userId, now);
      forall y | y in lists ensures ListLid(y) != ListLid(x) {
        assert y !in ListRows(lists, lid);
      }
      DistinctAppend(lists, x, ListLid);
      forall t | t in items ensures ListRows(lists', t.parentLid) != [] {
        var l := ListRows(lists, t.parentLid)[0];
        assert l in ListRows(lists, t.parentLid);
        assert l in ListRows(lists', t.parentLid);
      }
    }
  }

  lemma PutUserKeepsValid(lists: seq<TList>, items: seq<TListItem>, users: seq<TUser>, userEmail: string, newId: Uuid, now: Timestamp)
    requires ValidTables(lists, items, users)
    ensures ValidTables(lists, items, PutUser(users, userEmail, newId, now).table)
  {
    if UserRows(users, None, Some(userEmail)) == [] && UserRows(users, Some(newId), None) == [] {
      var x := NewUserRow(newId, userEmail, now);
      forall y | y in users ensures UserIdOf(y) != UserIdOf(x) && UserEmailOf(y) != UserEmailOf(x) {
        assert y !in UserRows(users, Some(newId), None);
        assert y !in UserRows(users, None, Some(userEmail));
      }
      DistinctAppend(users, x, UserIdOf);
      DistinctAppend(users, x, UserEmailOf);
    }
  }

  lemma DelItemKeepsValid(lists: seq<TList>, items: seq<TListItem>, users: seq<TUser>, liid: Uuid)
    requires ValidTables(lists, items, users)
    ensures ValidTables(lists, DelItem(items, liid), users)
  {
    FilterKeepsDistinct(items, OtherLiid(liid), ItemLiid);
  }

  lemma DelListKeepsValid(lists: seq<TList>, items: seq<TListItem>, users: seq<TUser>, lid: Uuid)
    requires ValidTables(lists, items, users)
    ensures ValidTables(DelListLists(lists, lid), DelListItems(items, lid), users)
  {
    var lists', items' := DelListLists(lists, lid), DelListItems(items, lid);
    FilterKeepsDistinct(lists, OtherLid(lid), ListLid);
    FilterKeepsDistinct(items, NotChildOf(lid), ItemLiid);
    forall t | t in items' ensures ListRows(lists', t.parentLid) != [] {
      var l := ListRows(lists, t.parentLid)[0];
      assert l in ListRows(lists, t.parentLid);
      assert l in lists';
      assert l in ListRows(lists', t.parentLid);
    }
  }

  lemma DelUserKeepsValid(lists: seq<TList>, items: seq<TListItem>, users: seq<TUser>, userId: Uuid)
    requires ValidTables(lists, items, users)
    ensures ValidTables(lists, items, DelUser(users, userId))
  {
    FilterKeepsDistinct(users, OtherUserId(userId), UserIdOf);
    FilterKeepsDistinct(users, OtherUserId(userId), UserEmailOf);
  }

  // ----- the store as an object the adapters are handed -----

  /** A connection to the relational store, with the tables it reaches. */
  class PgClient {
    var lists: seq<TList>
    var items: seq<TListItem>
    var users: seq<TUser>

    ghost predicate Valid()
      reads this
    {
      ValidTables(lists, items, users)
    }

    /** An empty database. */
    constructor ()
      ensures Valid() && lists == [] && items == [] && users == []
    {
      lists, items, users := [], [], [];
    }

    method LdPutTListItem(parentLid: Uuid, liid: Uuid, now: Timestamp) returns (rows: seq<TListItem>)
      requires Valid()
      modifies this
      ensures Valid()
      ensures lists == old(lists) && users == old(users)
      ensures items == PutItem(old(lists), old(items), parentLid, liid, now).table
      ensures rows == PutItem(old(lists), old(items), parentLid, liid, now).rows
    {
      PutItemKeepsValid(lists, items, users, parentLid, liid, now);
      var outcome := PutItem(lists, items, parentLid, liid, now);
      items, rows := outcome.table, outcome.rows;
    }

    method LdPutTList(lid: Uuid, userId: Option<Uuid>, now: Timestamp) returns (rows: seq<TList>)
      requires Valid()
      modifies this
      ensures Valid()
      ensures items == old(items) && users == old(users)
      ensures lists == PutList(old(lists), lid, userId, now).table
      ensures rows == PutList(old(lists), lid, userId, now).rows
    {
      PutListKeepsValid(lists, items, users, lid, userId, now);
      var outcome := PutList(lists, lid, userId, now);
      lists, rows := outcome.table, outcome.rows;
    }

    method LdPutTUser(userEmail: string, newId: Uuid, now: Timestamp) returns (rows: seq<TUser>)
      requires Valid()
      modifies this
      ensures Valid()
      ensures lists == old(lists) && items == old(items)
      ensures users == PutUser(old(users), userEmail, newId, now).table
      ensures rows == PutUser(old(users), userEmail, newId, now).rows
    {
      PutUserKeepsValid(lists, items, users, userEmail, newId, now);
      var outcome := PutUser(users, userEmail, newId, now);
      users, rows := outcome.table, outcome.rows;
    }

    method LdDelTListItem(liid: Uuid)
      requires Valid()
      modifies this
      ensures Valid()
      ensures lists == old(lists) && users == old(users)
      ensures items == DelItem(old(items), liid)
    {
      DelItemKeepsValid(lists, items, users, liid);
      items := DelItem(items, liid);
    }

    method LdDelTList(lid: Uuid)
      requires Valid()
      modifies this
      ensures Valid()
      ensures users == old(users)
      ensures lists == DelListLists(old(lists), lid)
      ensures items == DelListItems(old(items), lid)
    {
      DelListKeepsValid(lists, items, users, lid);
      lists, items := DelListLists(lists, lid), DelListItems(items, lid);
    }

    method LdDelTUser(userId: Uuid)
      requires Valid()
      modifies this
      ensures Valid()
      ensures lists == old(lists) && items == old(items)
      ensures users == DelUser(old(users), userId)
    {
      DelUserKeepsValid(lists, items, users, userId);
      users := DelUser(users, userId);
    }
  }
}

/**
 * The relational records (tables t_list_item, t_list and t_user) exactly as
 * the program declares them. Timestamps are opaque instants.
 */
module PgTypes {
  import opened Wrappers
  import opened Uuids

  /** A `chrono::DateTime<Utc>`; only equality of instants matters here. */
  datatype Timestamp = Timestamp(instant: int)

  /** A row of t_list_item. */
  datatype TListItem = TListItem(
    liid: Uuid,
    parentLid: Uuid,
    childLid: Option<Uuid>,
    originLiid: Option<Uuid>,
    originLid: Option<Uuid>,
    topLiid: Option<Uuid>,
    topLid: Option<Uuid>,
    userId: Option<Uuid>,
    orgId: Option<Uuid>,
    createdOnUtc: Option<Timestamp>,
    validatedOnUtc: Option<Timestamp>)

  /** A row of t_list. */
  datatype TList = TList(
    lid: Uuid,
    userId: Option<Uuid>,
    orgId: Option<Uuid>,
    createdOnUtc: Timestamp,
    validatedOnUtc: Option<Timestamp>)

  /** A row of t_user. */
  datatype TUser = TUser(
    userId: Uuid,
    userEmail: string,
    orgId: Option<Uuid>,
    createdOnUtc: Timestamp,
    validatedOnUtc: Option<Timestamp>)
}

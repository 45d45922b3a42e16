/**
 * The DynamoDB request builders. Requests are plain records; a field the
 * builder leaves at its default is `None`.
 */
module Utils {
  import opened Wrappers
  import opened Uuids

  /** An attribute value; a key attribute uses only its string member `s`. */
  datatype AttributeValue = AttributeValue(s: Option<string>, n: Option<string>, boolValue: Option<bool>, nullValue: Option<bool>)

  /** `AttributeValue { s: Some(text), ..Default::default() }`. */
  function StringValue(text: string): AttributeValue {
    AttributeValue(Some(text), None, None, None)
  }

  /** The key map for one item: its partition key attribute holding the id's string form. */
  function KeyFor(tableKey: string, id: Uuid): (key: map<string, AttributeValue>)
    ensures key.Keys == {tableKey}
    ensures KeyUuid(key, tableKey) == Some(id)
  {
    ParseToString(id);
    map[tableKey := StringValue(ToString(id))]
  }

  /** The id a key map names under `tableKey`, if it holds a well-formed one. */
  function KeyUuid(key: map<string, AttributeValue>, tableKey: string): Option<Uuid> {
    if tableKey in key && key[tableKey].s.Some? then Parse(key[tableKey].s.value) else None
  }

  datatype GetItemInput = GetItemInput(
    key: map<string, AttributeValue>,
    tableName: string,
    consistentRead: Option<bool>,
    attributesToGet: Option<seq<string>>,
    projectionExpression: Option<string>)

  datatype KeysAndAttributes = KeysAndAttributes(
    keys: seq<map<string, AttributeValue>>,
    attributesToGet: Option<seq<string>>,
    consistentRead: Option<bool>,
    projectionExpression: Option<string>)

  datatype BatchGetItemInput = BatchGetItemInput(
    requestItems: map<string, KeysAndAttributes>,
    returnConsumedCapacity: Option<string>)

  /** The item is carried as the value the caller built it from. */
  datatype PutItemInput<Item> = PutItemInput(
    item: Item,
    tableName: string,
    conditionExpression: Option<string>,
    returnValues: Option<string>)

  datatype DeleteItemInput = DeleteItemInput(
    key: map<string, AttributeValue>,
    tableName: string,
    conditionExpression: Option<string>,
    returnValues: Option<string>)

  /** BatchGetItem accepts at most this many keys per request. */
  const MAX_BATCH_KEYS: nat := 100

  /** The attributes a batch read projects: every list field except `items`. */
  const BATCH_ATTRIBUTES: seq<string> := ["lid", "title", "description", "tags", "rel"]

  function Min(a: nat, b: nat): nat { if a < b then a else b }

  /** A strongly consistent point read of one item. */
  method BuildDdbGetInput(tableKey: string, keyValue: Uuid, table: string) returns (r: GetItemInput)
    ensures r.key == KeyFor(tableKey, keyValue) && KeyUuid(r.key, tableKey) == Some(keyValue)
    ensures r.tableName == table
    ensures r.consistentRead == Some(true)
    ensures r.attributesToGet.None? && r.projectionExpression.None?
  {
    var key: map<string, AttributeValue> := map[];
    key := key[tableKey := StringValue(ToString(keyValue))];
    r := GetItemInput(key, table, Some(true), None, None);
  }

  /** A batch read of the first `MAX_BATCH_KEYS` ids, in order; later ids are dropped. */
  method BuildDdbGetBatchInput(tableKey: string, keyValues: seq<Uuid>, tableName: string) returns (r: BatchGetItemInput)
    ensures r.requestItems.Keys == {tableName}
    ensures |r.requestItems[tableName].keys| == Min(|keyValues|, MAX_BATCH_KEYS)
    ensures forall i :: 0 <= i < |r.requestItems[tableName].keys| ==>
              r.requestItems[tableName].keys[i] == KeyFor(tableKey, keyValues[i])
    ensures r.requestItems[tableName].attributesToGet == Some(BATCH_ATTRIBUTES)
    ensures r.requestItems[tableName].consistentRead.None? && r.requestItems[tableName].projectionExpression.None?
    ensures r.returnConsumedCapacity.None?
  {
    var keys: seq<map<string, AttributeValue>> := [];
    var i := 0;
    while i < |keyValues|
      invariant 0 <= i <= |keyValues| && i <= MAX_BATCH_KEYS
      invariant |keys| == i
      invariant forall j :: 0 <= j < i ==> keys[j] == KeyFor(tableKey, keyValues[j])
    {
      if i > 99 {
        break;
      }
      var key: map<string, AttributeValue> := map[];
      key := key[tableKey := StringValue(ToString(keyValues[i]))];
      keys := keys + [key];
      i := i + 1;
    }
    var requestItems: map<string, KeysAndAttributes> := map[];
    requestItems := requestItems[tableName := KeysAndAttributes(keys, Some(BATCH_ATTRIBUTES), None, None)];
    r := BatchGetItemInput(requestItems, None);
  }

  /** A put of the whole item. */
  function BuildDdbPutInput<Item>(item: Item, table: string): (r: PutItemInput<Item>)
    ensures r.item == item && r.tableName == table
    ensures r.conditionExpression.None? && r.returnValues.None?
  {
    PutItemInput(item, table, None, None)
  }

  /** An unconditional delete of one item. */
  method BuildDdbDelInput(tableKey: string, keyValue: Uuid, table: string) returns (r: DeleteItemInput)
    ensures r.key == KeyFor(tableKey, keyValue) && KeyUuid(r.key, tableKey) == Some(keyValue)
    ensures r.tableName == table
    ensures r.conditionExpression.None? && r.returnValues.None?
  {
    var keyAttr: map<string, AttributeValue> := map[];
    keyAttr := keyAttr[tableKey := StringValue(ToString(keyValue))];
    r := DeleteItemInput(keyAttr, table, None, None);
  }

  /** Distinct ids give distinct keys in a batch request: no key is asked for twice by accident. */
  lemma BatchKeysDistinct(tableKey: string, keyValues: seq<Uuid>, keys: seq<map<string, AttributeValue>>, i: nat, j: nat)
    requires |keys| <= |keyValues|
    requires forall k :: 0 <= k < |keys| ==> keys[k] == KeyFor(tableKey, keyValues[k])
    requires i < |keys| && j < |keys| && keyValues[i] != keyValues[j]
    ensures keys[i] != keys[j]
  {
    assert KeyUuid(keys[i], tableKey) == Some(keyValues[i]);
    assert KeyUuid(keys[j], tableKey) == Some(keyValues[j]);
  }
}

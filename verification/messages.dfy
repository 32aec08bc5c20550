/** The `whatsapp_messages` store shared by webhook ingestion and the
    outbound send: a table of rows whose provider message id, when present,
    is unique (the table's unique index on `message_id`; NULLs do not clash). */
module Messages {
  import opened Common
  import opened Entities

  /** The unique index on `message_id`: no two rows share a non-null id. */
  predicate UniqueMessageIds(store: seq<MessageRow>)
  {
    forall i, j :: 0 <= i < j < |store| && store[i].messageId.Some? ==> store[i].messageId != store[j].messageId
  }

  /** The first row carrying the message id `id`, as `where(...)->first()` finds it. */
  function FindByMessageId(store: seq<MessageRow>, id: string): (r: Option<nat>)
    ensures r.Some? ==> (r.value < |store| && store[r.value].messageId == Some(id)
                         && forall k :: 0 <= k < r.value ==> store[k].messageId != Some(id))
    ensures r.None? ==> forall k :: 0 <= k < |store| ==> store[k].messageId != Some(id)
    decreases |store|
  {
    if |store| == 0 then None
    else if store[0].messageId == Some(id) then Some(0)
    else match FindByMessageId(store[1..], id)
      case None => None
      case Some(k) => Some(k + 1)
  }

  /** `updateOrCreate(['message_id' => id], values)`: the first row with
      that id takes the new values; without one, a row is appended. */
  function UpdateOrCreate(store: seq<MessageRow>, id: string, row: MessageRow): (r: seq<MessageRow>)
    ensures row.(messageId := Some(id)) in r
    ensures (exists k :: 0 <= k < |store| && store[k].messageId == Some(id)) ==> |r| == |store|
    ensures (forall k :: 0 <= k < |store| ==> store[k].messageId != Some(id)) ==> r == store + [row.(messageId := Some(id))]
    ensures forall k :: 0 <= k < |store| && store[k].messageId != Some(id) ==> r[k] == store[k]
  {
    var stored := row.(messageId := Some(id));
    match FindByMessageId(store, id)
    case None => store + [stored]
    case Some(k) =>
      assert store[k := stored][k] == stored;
      store[k := stored]
  }

  /** A second upsert with the same id overrides the first: only the last
      delivery's values remain. */
  lemma UpdateOrCreateLastWins(store: seq<MessageRow>, id: string, first: MessageRow, second: MessageRow)
    ensures UpdateOrCreate(UpdateOrCreate(store, id, first), id, second) == UpdateOrCreate(store, id, second)
  {
    var once := UpdateOrCreate(store, id, first);
    match FindByMessageId(store, id)
    case None =>
      assert FindByMessageId(once, id) == Some(|store|) by {
        FirstMatchAt(once, id, |store|);
      }
    case Some(k) =>
      assert FindByMessageId(once, id) == Some(k) by {
        FirstMatchAt(once, id, k);
      }
  }

  /** Upserting the same row twice leaves the store as upserting it once. */
  lemma UpdateOrCreateIdempotent(store: seq<MessageRow>, id: string, row: MessageRow)
    ensures UpdateOrCreate(UpdateOrCreate(store, id, row), id, row) == UpdateOrCreate(store, id, row)
  {
    UpdateOrCreateLastWins(store, id, row, row);
  }

  /** A row carrying `id` with no earlier row carrying it is the first match. */
  lemma FirstMatchAt(store: seq<MessageRow>, id: string, k: nat)
    requires k < |store| && store[k].messageId == Some(id)
    requires forall j :: 0 <= j < k ==> store[j].messageId != Some(id)
    ensures FindByMessageId(store, id) == Some(k)
  {
  }

  /** An upsert keeps the message ids unique. */
  lemma UpdateOrCreateKeepsUnique(store: seq<MessageRow>, id: string, row: MessageRow)
    requires UniqueMessageIds(store)
    ensures UniqueMessageIds(UpdateOrCreate(store, id, row))
  {
    var r := UpdateOrCreate(store, id, row);
    match FindByMessageId(store, id)
    case None =>
      forall i, j | 0 <= i < j < |r| && r[i].messageId.Some?
        ensures r[i].messageId != r[j].messageId
      {
        if j < |store| {
          assert r[i] == store[i] && r[j] == store[j];
        }
      }
    case Some(k) =>
      forall i, j | 0 <= i < j < |r| && r[i].messageId.Some?
        ensures r[i].messageId != r[j].messageId
      {
        if i != k && j != k {
          assert r[i] == store[i] && r[j] == store[j];
        } else if i == k {
          assert r[j] == store[j];
        } else {
          assert r[i] == store[i];
        }
      }
  }

  /** A rejected insert. */
  datatype StoreError = DuplicateMessageId(id: string)

  /** `create` on the table: the unique index refuses a second row with a
      non-null id already present; otherwise the row is appended. */
  function Create(store: seq<MessageRow>, row: MessageRow): (r: Result<seq<MessageRow>, StoreError>)
    ensures r.Failure? <==> row.messageId.Some? && exists k :: 0 <= k < |store| && store[k].messageId == row.messageId
    ensures r.Failure? ==> r.error == DuplicateMessageId(row.messageId.value)
    ensures r.Success? ==> r.value == store + [row]
  {
    match row.messageId
    case None => Success(store + [row])
    case Some(id) =>
      if FindByMessageId(store, id).Some? then Failure(DuplicateMessageId(id))
      else Success(store + [row])
  }

  /** An accepted insert keeps the message ids unique. */
  lemma CreateKeepsUnique(store: seq<MessageRow>, row: MessageRow)
    requires UniqueMessageIds(store)
    ensures Create(store, row).Success? ==> UniqueMessageIds(Create(store, row).value)
  {
    if Create(store, row).Success? {
      var r := store + [row];
      forall i, j | 0 <= i < j < |r| && r[i].messageId.Some?
        ensures r[i].messageId != r[j].messageId
      {
        if j < |store| {
          assert r[i] == store[i] && r[j] == store[j];
        } else {
          assert r[i] == store[i];
        }
      }
    }
  }
}

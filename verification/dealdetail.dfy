/** The logic of the deal-detail panel: the validation gates in front of
    marking a deal lost and adding a note, the outbound WhatsApp send, the
    conversation load and the connection check that shows the WhatsApp tab. */
module DealDetail {
  import opened Common
  import opened Entities
  import Sorting
  import Phone
  import Gateway
  import Messages
  import Pipeline
  import Webhook

  // ---------------------------------------------------------------------
  // Validation

  /** The characters PHP's `trim` strips: space, tab, newline, carriage
      return, NUL and vertical tab. */
  predicate IsTrimmed(c: char)
  {
    c == ' ' || c == '\t' || c == '\n' || c == '\r' || c == '\0' || c == '\U{B}'
  }

  /** A value `trim` reduces to the empty string. */
  predicate IsBlank(s: string)
  {
    forall i :: 0 <= i < |s| ==> IsTrimmed(s[i])
  }

  /** The rule of a `required|min:N` pair that rejected a value. */
  datatype ValidationRule = Required | TooShort(min: nat)

  /** `required|min:N` on a string field: a blank value fails `required`
      (and `min` is then not applied to it); any other value shorter than N
      fails `min`. */
  function Validate(value: string, min: nat): (r: Option<ValidationRule>)
    ensures r.None? <==> !IsBlank(value) && |value| >= min
    ensures r == Some(Required) <==> IsBlank(value)
    ensures r.Some? && r.value.TooShort? ==> !IsBlank(value) && |value| < min && r.value.min == min
  {
    if IsBlank(value) then Some(Required)
    else if |value| < min then Some(TooShort(min))
    else None
  }

  /** The minimum lengths the panel asks for. */
  const LossReasonMin: nat := 2
  const NoteMin: nat := 2
  const MessageMin: nat := 1

  /** Why a panel action did not complete. */
  datatype ActionError = Invalid(rule: ValidationRule) | ServiceFailed(error: Pipeline.ServiceError)

  /** `markAsLost` on the panel (DealDetail.php:162-178): a reason that fails
      `required|min:2` stops the action before the service is called;
      otherwise the service marks the deal lost with that reason. */
  function MarkAsLost(stages: seq<Stage>, users: seq<User>, deals: seq<Deal>, deal: Deal, reason: string): (r: Result<Pipeline.Change, ActionError>)
    ensures Validate(reason, LossReasonMin).Some? ==> r == Failure(Invalid(Validate(reason, LossReasonMin).value))
    ensures r.Success? ==> !IsBlank(reason) && |reason| >= LossReasonMin
    ensures Validate(reason, LossReasonMin).None? ==>
      match Pipeline.MarkAsLost(stages, users, deals, deal, reason)
      case Success(c) => r == Success(c)
      case Failure(e) => r == Failure(ServiceFailed(e))
  {
    match Validate(reason, LossReasonMin)
    case Some(rule) => Failure(Invalid(rule))
    case None =>
      match Pipeline.MarkAsLost(stages, users, deals, deal, reason)
      case Failure(e) => Failure(ServiceFailed(e))
      case Success(c) => Success(c)
  }

  /** A note on a deal, by its author. */
  datatype Note = Note(deal: DealId, author: UserId, body: string)

  /** `addNote` (DealDetail.php:180-194): a body that fails `required|min:2`
      creates no note; otherwise exactly one note is appended. */
  function AddNote(notes: seq<Note>, deal: DealId, author: UserId, body: string): (r: Result<seq<Note>, ValidationRule>)
    ensures r.Failure? <==> IsBlank(body) || |body| < NoteMin
    // the error names the rule that failed: `required` for a blank body, `min:2` otherwise
    ensures r.Failure? ==> (r.error == Required <==> IsBlank(body))
    ensures r.Failure? && !IsBlank(body) ==> r.error == TooShort(NoteMin)
    ensures r.Success? ==> r.value == notes + [Note(deal, author, body)]
  {
    match Validate(body, NoteMin)
    case Some(rule) => Failure(rule)
    case None => Success(notes + [Note(deal, author, body)])
  }

  /** A loss reason shorter than the minimum is rejected by the panel's
      validation before the service runs, so the deals table stays as it was. */
  lemma ShortLossReasonChangesNothing(stages: seq<Stage>, users: seq<User>, deals: seq<Deal>, deal: Deal, reason: string)
    requires |reason| < LossReasonMin
    ensures MarkAsLost(stages, users, deals, deal, reason).Failure?
    ensures MarkAsLost(stages, users, deals, deal, reason).error.Invalid?
  {
  }

  // ---------------------------------------------------------------------
  // The WhatsApp conversation

  const NoPhoneError: string := "O lead não possui número de telefone cadastrado."
  const SendError: string := "Erro ao enviar mensagem."

  /** One entry of the panel's message list. */
  datatype Entry = Entry(id: Option<string>, fromMe: bool, text: string, timestamp: int)

  /** The panel's WhatsApp state: the list shown, the text box, the error line. */
  datatype Panel = Panel(messages: seq<Entry>, text: string, error: Option<string>)

  /** The gateway's answer to a send: a failure (any exception) or the
      response's `key.id`, which may be missing. */
  datatype GatewayReply = GatewayFailed | Sent(keyId: Option<string>)

  /** The result of a send: the panel, the message store, the request made
      to the gateway if any, and the validation rule that stopped it if any. */
  datatype SendOutcome = SendOutcome(
    panel: Panel,
    store: seq<MessageRow>,
    request: Option<Gateway.Request>,
    invalid: Option<ValidationRule>)

  /** The first connection of the tenant (`$tenant->whatsappConnection`). */
  function TenantConnection(connections: seq<Connection>, tenant: TenantId): (r: Option<Connection>)
    ensures r.Some? ==> r.value in connections && r.value.tenant == tenant
    ensures r.None? ==> forall c :: c in connections ==> c.tenant != tenant
    decreases |connections|
  {
    if |connections| == 0 then None
    else if connections[0].tenant == tenant then Some(connections[0])
    else TenantConnection(connections[1..], tenant)
  }

  /** `hasWhatsappConnection` (DealDetail.php:61-70): the tenant has a
      connection and it is Connected. */
  function HasWhatsappConnection(connections: seq<Connection>, tenant: TenantId): (r: bool)
    ensures r ==> exists c :: c in connections && c.tenant == tenant && c.status == Connected
    ensures (forall c :: c in connections ==> c.tenant != tenant) ==> !r
    ensures TenantConnection(connections, tenant).Some? ==>
      (r <==> TenantConnection(connections, tenant).value.status == Connected)
  {
    match TenantConnection(connections, tenant)
    case None => false
    case Some(c) => c.status == Connected
  }

  /** The row an accepted send stores. */
  function OutboundRow(connection: Connection, lead: Lead, phone: string, keyId: Option<string>, text: string, now: int): (r: MessageRow)
    ensures r.fromMe && r.body == text && r.messageId == keyId && r.timestamp == now
    ensures r.remoteJid == Phone.FormatRemoteJid(phone)
    ensures r.tenant == connection.tenant && r.connection == connection.id && r.lead == lead.id
  {
    MessageRow(connection.tenant, connection.id, lead.id, Phone.SanitizePhone(phone) + Phone.DirectSuffix,
               keyId, true, text, now)
  }

  /** `sendWhatsappMessage` (DealDetail.php:272-320), with the tenant's
      connection, the gateway's reply and the clock given. */
  function SendWhatsappMessage(panel: Panel, lead: Lead, connection: Option<Connection>, reply: GatewayReply,
                               store: seq<MessageRow>, now: int): (r: SendOutcome)
    // a blank text stops at validation: nothing sent, nothing stored, nothing shown
    ensures r.invalid.Some? <==> IsBlank(panel.text)
    ensures r.invalid.Some? ==> r.panel == panel && r.store == store && r.request == None
    // no phone: the no-phone error, no gateway call, no row
    ensures !IsBlank(panel.text) && !Truthy(lead.phone) ==>
      r == SendOutcome(panel.(error := Some(NoPhoneError)), store, None, None)
    // a gateway call happens exactly when the text is valid, the lead has a phone and there is a connection
    ensures r.request.Some? <==> !IsBlank(panel.text) && Truthy(lead.phone) && connection.Some?
    ensures r.request.Some? ==>
      r.request.value == Gateway.SendMessageRequest(connection.value.instanceName, lead.phone.value, panel.text)
    // the store grows by at most one row, and only by a sent row
    ensures r.store == store || (reply.Sent? && connection.Some? && lead.phone.Some?
                                 && r.store == store + [OutboundRow(connection.value, lead, lead.phone.value, reply.keyId, panel.text, now)])
    // a row is stored exactly when the gateway accepted the message and its id
    // (when it has one) is not stored yet
    ensures r.store != store <==>
      && !IsBlank(panel.text) && Truthy(lead.phone) && connection.Some? && reply.Sent?
      && (reply.keyId.None? || forall k :: 0 <= k < |store| ==> store[k].messageId != reply.keyId)
    // any failure after validation: the generic error, the text kept, no row
    ensures r.invalid.None? && Truthy(lead.phone) && r.store == store ==>
      r.panel == panel.(error := Some(SendError))
    // success: one row stored, one entry shown, the text cleared, no error
    ensures r.store != store ==>
      && r.panel.messages == panel.messages + [Entry(reply.keyId, true, panel.text, now)]
      && r.panel.text == ""
      && r.panel.error == None
  {
    if IsBlank(panel.text) then SendOutcome(panel, store, None, Some(Required))
    else if !Truthy(lead.phone) then SendOutcome(panel.(error := Some(NoPhoneError)), store, None, None)
    else
      var phone := lead.phone.value;
      match connection
      case None => SendOutcome(panel.(error := Some(SendError)), store, None, None)
      case Some(c) =>
        var request := Gateway.SendMessageRequest(c.instanceName, phone, panel.text);
        match reply
        case GatewayFailed => SendOutcome(panel.(error := Some(SendError)), store, Some(request), None)
        case Sent(keyId) =>
          var row := OutboundRow(c, lead, phone, keyId, panel.text, now);
          match Messages.Create(store, row)
          case Failure(_) => SendOutcome(panel.(error := Some(SendError)), store, Some(request), None)
          case Success(stored) =>
            assert stored != store by { assert |stored| == |store| + 1; }
            SendOutcome(Panel(panel.messages + [Entry(keyId, true, panel.text, now)], "", None), stored, Some(request), None)
  }

  /** The `min:1` rule of the send adds nothing to `required`: every
      non-blank text is at least one character long. */
  lemma MessageMinIsImpliedByRequired(text: string)
    ensures Validate(text, MessageMin) == (if IsBlank(text) then Some(Required) else None)
  {
  }

  /** A send whose provider id is already stored (the webhook delivered the
      echo first) is refused by the unique index: the gateway was called, the
      store is unchanged and the panel shows the send error. */
  lemma SendAfterEchoFails(panel: Panel, lead: Lead, connection: Connection, id: string, store: seq<MessageRow>, now: int, k: nat)
    requires !IsBlank(panel.text) && Truthy(lead.phone)
    requires k < |store| && store[k].messageId == Some(id)
    ensures var r := SendWhatsappMessage(panel, lead, Some(connection), Sent(Some(id)), store, now);
      && r.request.Some?
      && r.store == store
      && r.panel == panel.(error := Some(SendError))
  {
  }

  /** A successful send keeps the message ids unique. */
  lemma SendKeepsIdsUnique(panel: Panel, lead: Lead, connection: Option<Connection>, reply: GatewayReply, store: seq<MessageRow>, now: int)
    requires Messages.UniqueMessageIds(store)
    ensures Messages.UniqueMessageIds(SendWhatsappMessage(panel, lead, connection, reply, store, now).store)
  {
    if !IsBlank(panel.text) && Truthy(lead.phone) && connection.Some? && reply.Sent? {
      Messages.CreateKeepsUnique(store, OutboundRow(connection.value, lead, lead.phone.value, reply.keyId, panel.text, now));
    }
  }

  /** The rows of a lead that the tenant scope lets the viewer see, in table order. */
  function LeadRows(store: seq<MessageRow>, lead: LeadId, tenant: TenantId): (r: seq<MessageRow>)
    ensures forall m :: m in r <==> m in store && m.lead == lead && m.tenant == tenant
    ensures forall m :: multiset(r)[m] == if m.lead == lead && m.tenant == tenant then multiset(store)[m] else 0
    decreases |store|
  {
    assert |store| > 0 ==> store == [store[0]] + store[1..];
    if |store| == 0 then []
    else (if store[0].lead == lead && store[0].tenant == tenant then [store[0]] else [])
         + LeadRows(store[1..], lead, tenant)
  }

  /** The key the conversation query orders by. */
  function TimestampKey(m: MessageRow): (r: int)
  {
    m.timestamp
  }

  /** The fields of a row the panel shows. */
  function EntryOf(m: MessageRow): (r: Entry)
  {
    Entry(m.messageId, m.fromMe, m.body, m.timestamp)
  }

  /** The entries a list of rows turns into, one per row, in the same order. */
  function Entries(rows: seq<MessageRow>): (r: seq<Entry>)
    ensures |r| == |rows|
    ensures forall i :: 0 <= i < |rows| ==> r[i] == EntryOf(rows[i])
  {
    seq(|rows|, i requires 0 <= i < |rows| => EntryOf(rows[i]))
  }

  /** Rows that are a permutation of each other give entries that are too. */
  lemma {:induction false} EntriesPermutation(a: seq<MessageRow>, b: seq<MessageRow>)
    requires multiset(a) == multiset(b)
    ensures multiset(Entries(a)) == multiset(Entries(b))
    decreases |a|
  {
    if |a| == 0 {
      assert |b| == |multiset(b)| == 0;
    } else {
      assert a[0] in multiset(b);
      var k := Sorting.IndexOf(b, a[0]);
      var rest := b[..k] + b[k+1..];
      assert b == b[..k] + [b[k]] + b[k+1..];
      assert a == [a[0]] + a[1..];
      assert multiset(b) == multiset(b[..k]) + multiset{b[k]} + multiset(b[k+1..]);
      assert multiset(a) == multiset{a[0]} + multiset(a[1..]);
      assert multiset(rest) == multiset(b[..k]) + multiset(b[k+1..]);
      assert b[k] == a[0];
      calc {
        multiset(a[1..]);
        multiset(a) - multiset{a[0]};
        multiset(b) - multiset{b[k]};
        multiset(rest);
      }
      EntriesPermutation(a[1..], rest);
      EntriesConcat([a[0]], a[1..]);
      EntriesConcat(b[..k], [b[k]]);
      EntriesConcat(b[..k] + [b[k]], b[k+1..]);
      EntriesConcat(b[..k], b[k+1..]);
    }
  }

  /** The entries of two row lists joined are the entries of each, joined. */
  lemma EntriesConcat(a: seq<MessageRow>, b: seq<MessageRow>)
    ensures Entries(a + b) == Entries(a) + Entries(b)
  {
  }

  /** Sorting the rows by timestamp loses none of them and invents none. */
  lemma SortedEntriesMembership(rows: seq<MessageRow>)
    ensures var r := Entries(Sorting.SortBy(rows, TimestampKey));
      && (forall m :: m in rows ==> EntryOf(m) in r)
      && (forall e :: e in r ==> exists m :: m in rows && EntryOf(m) == e)
  {
    var sorted := Sorting.SortBy(rows, TimestampKey);
    var r := Entries(sorted);
    forall m | m in rows
      ensures EntryOf(m) in r
    {
      assert m in multiset(sorted);
      var k := Sorting.IndexOf(sorted, m);
      assert r[k] == EntryOf(m);
    }
    forall e | e in r
      ensures exists m :: m in rows && EntryOf(m) == e
    {
      var k :| 0 <= k < |r| && r[k] == e;
      assert sorted[k] in multiset(rows);
    }
  }

  /** The entries of the sorted rows come by non-decreasing timestamp. */
  lemma SortedEntriesOrdered(rows: seq<MessageRow>)
    ensures var r := Entries(Sorting.SortBy(rows, TimestampKey));
      forall i, j :: 0 <= i < j < |r| ==> r[i].timestamp <= r[j].timestamp
  {
    var sorted := Sorting.SortBy(rows, TimestampKey);
    var r := Entries(sorted);
    forall i, j | 0 <= i < j < |r|
      ensures r[i].timestamp <= r[j].timestamp
    {
      assert TimestampKey(sorted[i]) <= TimestampKey(sorted[j]);
    }
  }

  /** The conversation as the panel shows it: the lead's rows by timestamp,
      ties in table order. */
  function Conversation(store: seq<MessageRow>, lead: LeadId, tenant: TenantId): (r: seq<Entry>)
    ensures forall i, j :: 0 <= i < j < |r| ==> r[i].timestamp <= r[j].timestamp
    ensures |r| == |LeadRows(store, lead, tenant)|
    ensures forall m :: m in store && m.lead == lead && m.tenant == tenant ==> EntryOf(m) in r
    ensures forall e :: e in r ==> exists m :: m in store && m.lead == lead && m.tenant == tenant && EntryOf(m) == e
    // each of the lead's rows is shown exactly as often as it is stored
    ensures multiset(r) == multiset(Entries(LeadRows(store, lead, tenant)))
  {
    var rows := LeadRows(store, lead, tenant);
    EntriesPermutation(Sorting.SortBy(rows, TimestampKey), rows);
    SortedEntriesMembership(rows);
    SortedEntriesOrdered(rows);
    Entries(Sorting.SortBy(rows, TimestampKey))
  }

  /** `loadWhatsappMessages` (DealDetail.php:242-270): with no deal open or
      no Connected connection nothing changes; a lead without a phone shows
      an empty list; otherwise the lead's conversation is shown and the
      error cleared. */
  function LoadWhatsappMessages(panel: Panel, lead: Option<Lead>, connections: seq<Connection>,
                                tenant: TenantId, store: seq<MessageRow>): (r: Panel)
    ensures lead.None? || !HasWhatsappConnection(connections, tenant) ==> r == panel
    ensures lead.Some? && HasWhatsappConnection(connections, tenant) && !Truthy(lead.value.phone) ==>
      r == panel.(messages := [])
    ensures lead.Some? && HasWhatsappConnection(connections, tenant) && Truthy(lead.value.phone) ==>
      && r.messages == Conversation(store, lead.value.id, tenant)
      && r.error == None
      && r.text == panel.text
  {
    if lead.None? || !HasWhatsappConnection(connections, tenant) then panel
    else if !Truthy(lead.value.phone) then panel.(messages := [])
    else panel.(messages := Conversation(store, lead.value.id, tenant), error := None)
  }

  /** A message the gateway accepted with a fresh (or no) id is stored, and is
      in the conversation the panel loads next. */
  lemma SentMessageIsLoaded(panel: Panel, lead: Lead, connection: Connection, reply: GatewayReply,
                            store: seq<MessageRow>, now: int, connections: seq<Connection>)
    requires HasWhatsappConnection(connections, connection.tenant)
    requires !IsBlank(panel.text) && Truthy(lead.phone) && reply.Sent?
    requires reply.keyId.None? || forall k :: 0 <= k < |store| ==> store[k].messageId != reply.keyId
    ensures var sent := SendWhatsappMessage(panel, lead, Some(connection), reply, store, now);
      && sent.store == store + [OutboundRow(connection, lead, lead.phone.value, reply.keyId, panel.text, now)]
      && Entry(reply.keyId, true, panel.text, now) in
           LoadWhatsappMessages(sent.panel, Some(lead), connections, connection.tenant, sent.store).messages
  {
    var sent := SendWhatsappMessage(panel, lead, Some(connection), reply, store, now);
    var row := OutboundRow(connection, lead, lead.phone.value, reply.keyId, panel.text, now);
    assert row in sent.store;
    assert EntryOf(row) == Entry(reply.keyId, true, panel.text, now);
  }

  /** The webhook's echo of a sent message does not duplicate it: the store
      keeps one row for the provider id. */
  lemma EchoOfSentMessageAddsNoRow(panel: Panel, lead: Lead, connection: Connection, id: string, store: seq<MessageRow>,
                                   now: int, secret: Option<string>, world: Webhook.World, req: Webhook.WebhookRequest, later: int)
    requires Messages.UniqueMessageIds(store)
    requires SendWhatsappMessage(panel, lead, Some(connection), Sent(Some(id)), store, now).store != store
    requires req.data.messageId == Some(id)
    ensures var sent := SendWhatsappMessage(panel, lead, Some(connection), Sent(Some(id)), store, now).store;
      var echoed := Webhook.Handle(secret, world.(messages := sent), req, later).world.messages;
      && |echoed| == |sent| == |store| + 1
      && Messages.UniqueMessageIds(echoed)
      && exists k :: 0 <= k < |echoed| && echoed[k].messageId == Some(id)
  {
    var sent := SendWhatsappMessage(panel, lead, Some(connection), Sent(Some(id)), store, now).store;
    SendKeepsIdsUnique(panel, lead, Some(connection), Sent(Some(id)), store, now);
    assert sent[|store|].messageId == Some(id);
    var w := world.(messages := sent);
    Webhook.KnownIdAddsNoRow(secret, w, req, later, |store|);
    Webhook.HandleKeepsIdsUnique(secret, w, req, later);
    var echoed := Webhook.Handle(secret, w, req, later).world.messages;
    if echoed != sent {
      var c := Webhook.FindConnection(w.connections, req.instance.value).value;
      var row := Webhook.InboundRow(c, Webhook.UpsertTarget(w.leads, c, req.data).value, req.data, later);
      assert row.(messageId := Some(id)) in echoed;
    } else {
      assert echoed[|store|].messageId == Some(id);
    }
  }

  /** A status update keeps each tenant's first connection, with its new status. */
  lemma {:induction false} TenantConnectionAfterUpdate(connections: seq<Connection>, connection: Connection,
                                                        data: Webhook.EventData, tenant: TenantId)
    ensures var after := TenantConnection(Webhook.HandleConnectionUpdate(connections, connection, data), tenant);
      var before := TenantConnection(connections, tenant);
      && after.Some? == before.Some?
      && (before.Some? ==>
            after.value.id == before.value.id
            && after.value.status == (if before.value.id == connection.id then Webhook.StatusFor(data.state) else before.value.status))
    decreases |connections|
  {
    if |connections| > 0 {
      var r := Webhook.HandleConnectionUpdate(connections, connection, data);
      assert r[1..] == Webhook.HandleConnectionUpdate(connections[1..], connection, data);
      TenantConnectionAfterUpdate(connections[1..], connection, data, tenant);
    }
  }

  /** The WhatsApp tab follows the gateway: after a `connection.update` on
      the tenant's connection the tab is available exactly when the state
      was "open". */
  lemma ConnectionUpdateDrivesTab(secret: Option<string>, world: Webhook.World, req: Webhook.WebhookRequest, now: int)
    requires Webhook.Authorized(secret, req.secretHeader) && Truthy(req.instance)
    requires req.event == Some(Webhook.ConnectionUpdateEvent)
    requires Webhook.FindConnection(world.connections, req.instance.value).Some?
    requires var c := Webhook.FindConnection(world.connections, req.instance.value).value;
      TenantConnection(world.connections, c.tenant) == Some(c)
    ensures var c := Webhook.FindConnection(world.connections, req.instance.value).value;
      (HasWhatsappConnection(Webhook.Handle(secret, world, req, now).world.connections, c.tenant)
       <==> req.data.state == Some(Webhook.OpenState))
  {
    var c := Webhook.FindConnection(world.connections, req.instance.value).value;
    TenantConnectionAfterUpdate(world.connections, c, req.data, c.tenant);
  }
}

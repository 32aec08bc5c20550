/** Ingestion of the gateway's webhook: the shared-secret check, the
    connection lookup by instance name, the event routing, the connection
    status update and the inbound message upsert. */
module Webhook {
  import opened Common
  import opened Entities
  import Phone
  import Messages
  import Gateway

  const ConnectionUpdateEvent: string := "connection.update"
  const MessagesUpsertEvent: string := "messages.upsert"
  const OpenState: string := "open"

  /** The `data` object of a webhook payload; every field may be absent.
      `conversation` and `extendedText` are `message.conversation` and
      `message.extendedTextMessage.text`; `timestamp` is `messageTimestamp`. */
  datatype EventData = EventData(
    state: Option<string>,
    remoteJid: Option<string>,
    messageId: Option<string>,
    fromMe: Option<bool>,
    conversation: Option<string>,
    extendedText: Option<string>,
    timestamp: Option<int>)

  /** A webhook call: the secret header, `event`, `instance` and `data`. */
  datatype WebhookRequest = WebhookRequest(
    secretHeader: Option<string>,
    event: Option<string>,
    instance: Option<string>,
    data: EventData)

  /** 200 `{"status":"ok"}` or 401 `{"error":"Unauthorized"}`. */
  datatype Response = StatusOk | Unauthorized

  /** The tables the webhook reads or writes. */
  datatype World = World(connections: seq<Connection>, leads: seq<Lead>, messages: seq<MessageRow>)

  datatype Reply = Reply(response: Response, world: World)

  /** The secret check: with a truthy secret configured the header must equal it. */
  function Authorized(secret: Option<string>, header: Option<string>): (r: bool)
    // no secret, or one PHP reads as false, lets every call through
    ensures secret.None? || secret == Some("") || secret == Some("0") ==> r
    // a real secret: the header must be sent and carry exactly the secret
    ensures Truthy(secret) ==> (r <==> header.Some? && header.value == secret.value)
    ensures Truthy(secret) && header.None? ==> !r
  {
    !Truthy(secret) || header == secret
  }

  /** The first connection, of any tenant, with this instance name. */
  function FindConnection(connections: seq<Connection>, name: string): (r: Option<Connection>)
    ensures r.Some? ==> r.value in connections && r.value.instanceName == name
    ensures r.None? ==> forall c :: c in connections ==> c.instanceName != name
    decreases |connections|
  {
    if |connections| == 0 then None
    else if connections[0].instanceName == name then Some(connections[0])
    else FindConnection(connections[1..], name)
  }

  /** The status a `connection.update` state maps to. */
  function StatusFor(state: Option<string>): (r: ConnectionStatus)
    ensures r == Connected <==> state == Some(OpenState)
  {
    if state == Some(OpenState) then Connected else Disconnected
  }

  /** `handleConnectionUpdate`: the connection's row takes the status the
      state maps to; no other field and no other row changes. */
  function HandleConnectionUpdate(connections: seq<Connection>, connection: Connection, data: EventData): (r: seq<Connection>)
    ensures |r| == |connections|
    ensures forall i :: 0 <= i < |connections| && connections[i].id != connection.id ==> r[i] == connections[i]
    ensures forall i :: 0 <= i < |connections| && connections[i].id == connection.id ==>
      r[i] == connections[i].(status := if data.state == Some(OpenState) then Connected else Disconnected)
  {
    seq(|connections|, i requires 0 <= i < |connections| =>
      if connections[i].id == connection.id then connections[i].(status := StatusFor(data.state)) else connections[i])
  }

  /** The first lead of `tenant`, across every tenant scope, whose stored
      phone is exactly `phone`. */
  function FindLeadByPhone(leads: seq<Lead>, tenant: TenantId, phone: string): (r: Option<Lead>)
    ensures r.Some? ==> r.value in leads && r.value.tenant == tenant && r.value.phone == Some(phone)
    ensures r.None? ==> forall l :: l in leads ==> !(l.tenant == tenant && l.phone == Some(phone))
    decreases |leads|
  {
    if |leads| == 0 then None
    else if leads[0].tenant == tenant && leads[0].phone == Some(phone) then Some(leads[0])
    else FindLeadByPhone(leads[1..], tenant, phone)
  }

  /** The message text: `conversation` when present at all, otherwise the
      extended text. */
  function MessageBody(data: EventData): (r: Option<string>)
    ensures data.conversation.Some? ==> r == data.conversation
    ensures data.conversation.None? ==> r == data.extendedText
  {
    if data.conversation.Some? then data.conversation else data.extendedText
  }

  /** The payload checks that do not look at the tables: truthy JID and id,
      not a group, a truthy digits phone in the JID, and a truthy body. */
  predicate PassesChecks(data: EventData)
  {
    && Truthy(data.remoteJid) && Truthy(data.messageId)
    && !Phone.Contains(data.remoteJid.value, Phone.GroupMarker)
    && Truthy(Phone.ExtractPhoneFromJid(data.remoteJid.value))
    && Truthy(MessageBody(data))
  }

  /** The lead an upsert payload is addressed to, when the drop chain lets
      it through: key fields truthy, not a group, digits only, a lead of
      the connection's tenant with phone "+" followed by the digits, and a
      truthy body. */
  function UpsertTarget(leads: seq<Lead>, connection: Connection, data: EventData): (r: Option<Lead>)
    ensures r.Some? ==> r.value in leads && r.value.tenant == connection.tenant
    ensures r.Some? ==> Truthy(data.remoteJid) && Truthy(data.messageId) && Truthy(MessageBody(data))
    ensures r.Some? ==> !Phone.Contains(data.remoteJid.value, Phone.GroupMarker)
    ensures r.Some? ==> exists digits :: (Phone.ExtractPhoneFromJid(data.remoteJid.value) == Some(digits)
                                          && r.value.phone == Some("+" + digits))
    ensures PassesChecks(data) ==>
      r == FindLeadByPhone(leads, connection.tenant, "+" + Phone.ExtractPhoneFromJid(data.remoteJid.value).value)
  {
    if !Truthy(data.remoteJid) || !Truthy(data.messageId) then None
    else if Phone.Contains(data.remoteJid.value, Phone.GroupMarker) then None
    else
      var phone := Phone.ExtractPhoneFromJid(data.remoteJid.value);
      if !Truthy(phone) then None
      else match FindLeadByPhone(leads, connection.tenant, "+" + phone.value)
        case None => None
        case Some(lead) => if !Truthy(MessageBody(data)) then None else Some(lead)
  }

  /** The row an accepted upsert writes. */
  function InboundRow(connection: Connection, lead: Lead, data: EventData, now: int): (r: MessageRow)
    requires data.remoteJid.Some? && MessageBody(data).Some?
    ensures r.tenant == connection.tenant && r.connection == connection.id && r.lead == lead.id
    ensures r.remoteJid == data.remoteJid.value && r.messageId == data.messageId
    ensures r.body == MessageBody(data).value
    ensures r.fromMe == (data.fromMe == Some(true))
    ensures r.timestamp == if data.timestamp.Some? then data.timestamp.value else now
  {
    MessageRow(connection.tenant, connection.id, lead.id, data.remoteJid.value, data.messageId,
               if data.fromMe.Some? then data.fromMe.value else false,
               MessageBody(data).value,
               if data.timestamp.Some? then data.timestamp.value else now)
  }

  /** `handleMessagesUpsert`: a payload the drop chain lets through is
      upserted by its message id; any other leaves the store alone. */
  function HandleMessagesUpsert(leads: seq<Lead>, store: seq<MessageRow>, connection: Connection, data: EventData, now: int): (r: seq<MessageRow>)
    ensures UpsertTarget(leads, connection, data).None? ==> r == store
    ensures UpsertTarget(leads, connection, data).Some? ==>
      r == Messages.UpdateOrCreate(store, data.messageId.value,
                                   InboundRow(connection, UpsertTarget(leads, connection, data).value, data, now))
  {
    match UpsertTarget(leads, connection, data)
    case None => store
    case Some(lead) => Messages.UpdateOrCreate(store, data.messageId.value, InboundRow(connection, lead, data, now))
  }

  /** The controller (`__invoke`): secret check, instance and connection
      lookup, then routing on the event name. */
  function Handle(secret: Option<string>, world: World, req: WebhookRequest, now: int): (r: Reply)
    ensures r.response == Unauthorized <==> !Authorized(secret, req.secretHeader)
    ensures r.response == Unauthorized ==> r.world == world
    ensures r.world.leads == world.leads
    ensures !Truthy(req.instance) ==> r.world == world
    ensures Truthy(req.instance) && FindConnection(world.connections, req.instance.value).None? ==> r.world == world
    ensures req.event != Some(ConnectionUpdateEvent) && req.event != Some(MessagesUpsertEvent) ==> r.world == world
    ensures req.event == Some(ConnectionUpdateEvent) ==> r.world.messages == world.messages
    ensures req.event == Some(MessagesUpsertEvent) ==> r.world.connections == world.connections
    ensures Authorized(secret, req.secretHeader) && Truthy(req.instance)
            && FindConnection(world.connections, req.instance.value).Some?
            && req.event == Some(ConnectionUpdateEvent) ==>
      r.world.connections
        == HandleConnectionUpdate(world.connections, FindConnection(world.connections, req.instance.value).value, req.data)
    ensures Authorized(secret, req.secretHeader) && Truthy(req.instance)
            && FindConnection(world.connections, req.instance.value).Some?
            && req.event == Some(MessagesUpsertEvent) ==>
      r.world.messages
        == HandleMessagesUpsert(world.leads, world.messages, FindConnection(world.connections, req.instance.value).value, req.data, now)
  {
    if !Authorized(secret, req.secretHeader) then Reply(Unauthorized, world)
    else if !Truthy(req.instance) then Reply(StatusOk, world)
    else match FindConnection(world.connections, req.instance.value)
      case None => Reply(StatusOk, world)
      case Some(connection) =>
        if req.event == Some(ConnectionUpdateEvent) then
          Reply(StatusOk, world.(connections := HandleConnectionUpdate(world.connections, connection, req.data)))
        else if req.event == Some(MessagesUpsertEvent) then
          Reply(StatusOk, world.(messages := HandleMessagesUpsert(world.leads, world.messages, connection, req.data, now)))
        else Reply(StatusOk, world)
  }

  // ---------------------------------------------------------------------
  // Properties of the ingestion

  /** A status update leaves every instance name in place. */
  lemma ConnectionUpdateKeepsNames(connections: seq<Connection>, connection: Connection, data: EventData, name: string)
    ensures FindConnection(HandleConnectionUpdate(connections, connection, data), name).Some?
      <==> FindConnection(connections, name).Some?
    ensures FindConnection(connections, name).Some? ==>
      FindConnection(HandleConnectionUpdate(connections, connection, data), name).value.id
        == FindConnection(connections, name).value.id
    decreases |connections|
  {
    if |connections| > 0 {
      var r := HandleConnectionUpdate(connections, connection, data);
      assert r[1..] == HandleConnectionUpdate(connections[1..], connection, data);
      ConnectionUpdateKeepsNames(connections[1..], connection, data, name);
    }
  }

  /** Replays: a payload delivered twice leaves the tables as its later
      delivery alone would (the clock only matters when the payload carries
      no timestamp). */
  lemma ReplayKeepsLastDelivery(secret: Option<string>, world: World, req: WebhookRequest, now1: int, now2: int)
    ensures Handle(secret, Handle(secret, world, req, now1).world, req, now2).world == Handle(secret, world, req, now2).world
  {
    var once := Handle(secret, world, req, now1).world;
    if Authorized(secret, req.secretHeader) && Truthy(req.instance) {
      var name := req.instance.value;
      if FindConnection(world.connections, name).Some? {
        var c := FindConnection(world.connections, name).value;
        ConnectionUpdateKeepsNames(world.connections, c, req.data, name);
        if req.event == Some(ConnectionUpdateEvent) {
          var c2 := FindConnection(once.connections, name).value;
          assert c2.id == c.id;
          assert HandleConnectionUpdate(once.connections, c2, req.data) == once.connections;
        } else if req.event == Some(MessagesUpsertEvent) {
          match UpsertTarget(world.leads, c, req.data)
          case None =>
          case Some(lead) =>
            Messages.UpdateOrCreateLastWins(world.messages, req.data.messageId.value,
              InboundRow(c, lead, req.data, now1), InboundRow(c, lead, req.data, now2));
        }
      }
    }
  }

  /** Delivering the same payload twice at the same time changes nothing
      more than delivering it once. */
  lemma ReplayIsIdempotent(secret: Option<string>, world: World, req: WebhookRequest, now: int)
    ensures Handle(secret, Handle(secret, world, req, now).world, req, now).world == Handle(secret, world, req, now).world
  {
    ReplayKeepsLastDelivery(secret, world, req, now, now);
  }

  /** Tenant isolation: every message row the webhook writes belongs to the
      tenant of the connection it arrived on and to a lead of that tenant. */
  lemma WrittenRowsStayInTenant(secret: Option<string>, world: World, req: WebhookRequest, now: int)
    ensures var r := Handle(secret, world, req, now).world;
      forall m :: m in r.messages && m !in world.messages ==>
        && (exists c :: c in world.connections && c.id == m.connection && c.tenant == m.tenant)
        && (exists l :: l in world.leads && l.id == m.lead && l.tenant == m.tenant)
  {
    var r := Handle(secret, world, req, now).world;
    if Authorized(secret, req.secretHeader) && Truthy(req.instance) && req.event == Some(MessagesUpsertEvent) {
      match FindConnection(world.connections, req.instance.value)
      case None =>
      case Some(c) =>
        match UpsertTarget(world.leads, c, req.data)
        case None =>
        case Some(lead) =>
          var row := InboundRow(c, lead, req.data, now).(messageId := Some(req.data.messageId.value));
          forall m | m in r.messages && m !in world.messages
            ensures m == row
          {
            var k :| 0 <= k < |r.messages| && r.messages[k] == m;
            UpsertChangesOnlyOneRow(world.messages, req.data.messageId.value, InboundRow(c, lead, req.data, now), k);
          }
    }
  }

  /** An upsert changes no row but the one it writes. */
  lemma UpsertChangesOnlyOneRow(store: seq<MessageRow>, id: string, row: MessageRow, k: nat)
    requires k < |Messages.UpdateOrCreate(store, id, row)|
    ensures var r := Messages.UpdateOrCreate(store, id, row);
      r[k] == row.(messageId := Some(id)) || (k < |store| && r[k] == store[k])
  {
  }

  /** A payload from a group chat stores nothing. */
  lemma GroupMessagesAreIgnored(secret: Option<string>, world: World, req: WebhookRequest, now: int)
    requires req.data.remoteJid.Some? && Phone.Contains(req.data.remoteJid.value, Phone.GroupMarker)
    ensures Handle(secret, world, req, now).world.messages == world.messages
  {
  }

  /** A status update maps "open" to Connected and anything else, including
      a missing state, to Disconnected, on the connection the instance names. */
  lemma ConnectionStatusFollowsState(secret: Option<string>, world: World, req: WebhookRequest, now: int)
    requires Authorized(secret, req.secretHeader) && Truthy(req.instance)
    requires req.event == Some(ConnectionUpdateEvent)
    requires FindConnection(world.connections, req.instance.value).Some?
    ensures var c := FindConnection(world.connections, req.instance.value).value;
      var r := Handle(secret, world, req, now).world;
      forall i :: 0 <= i < |r.connections| && world.connections[i].id == c.id ==>
        (r.connections[i].status == Connected <==> req.data.state == Some(OpenState))
  {
  }

  /** The lookup wants the stored phone to be "+" and the digits: a lead
      whose phone was stored as bare digits is not matched and the message
      is dropped. */
  lemma BareDigitPhoneIsNotMatched()
    ensures var conn := Connection(1, 1, Connected, "inst", "id", None);
      var lead := Lead(7, 1, 1, "Ana", "ana@example.com", Some("5511999999999"));
      var data := EventData(None, Some("5511999999999@s.whatsapp.net"), Some("MSG-001"), Some(false),
                            Some("Ola"), None, Some(1717689000));
      var req := WebhookRequest(None, Some(MessagesUpsertEvent), Some("inst"), data);
      var world := World([conn], [lead], []);
      Handle(None, world, req, 1717689001).world.messages == []
  {
    var conn := Connection(1, 1, Connected, "inst", "id", None);
    var lead := Lead(7, 1, 1, "Ana", "ana@example.com", Some("5511999999999"));
    var data := EventData(None, Some("5511999999999@s.whatsapp.net"), Some("MSG-001"), Some(false),
                          Some("Ola"), None, Some(1717689000));
    TestPayloadMissesBareLead(conn, lead, data);
    assert FindConnection([conn], "inst") == Some(conn);
  }

  /** A payload shaped like the feature test's (its JID and message id, with
      the short body "Ola" in place of its text) passes every check, yet finds
      no lead whose phone was stored as the bare digits. */
  lemma TestPayloadMissesBareLead(conn: Connection, lead: Lead, data: EventData)
    requires lead.phone == Some("5511999999999")
    requires data.remoteJid == Some("5511999999999@s.whatsapp.net") && data.messageId == Some("MSG-001")
    requires data.conversation == Some("Ola")
    ensures PassesChecks(data)
    ensures UpsertTarget([lead], conn, data) == None
  {
    TestJidIsDirect();
    var d := "5511999999999";
    assert Truthy(Some(d)) by { assert d[0] == '5'; }
    assert Truthy(data.messageId) by { assert "MSG-001"[0] == 'M'; }
    assert Truthy(MessageBody(data)) by { assert "Ola"[0] == 'O'; }
    assert FindLeadByPhone([lead], conn.tenant, "+" + d) == None by {
      assert ("+" + d)[0] == '+';
      assert lead.phone.value[0] == '5';
    }
  }

  /** A direct JID made of digits does not contain the group marker. */
  lemma GroupMarkerAbsent(d: string)
    requires Phone.AllDigits(d)
    ensures !Phone.Contains(d + Phone.DirectSuffix, Phone.GroupMarker)
  {
    var s := d + Phone.DirectSuffix;
    var g := Phone.GroupMarker;
    forall i | 0 <= i <= |s| - |g|
      ensures !Phone.OccursAt(s, g, i)
    {
      var w := s[i..i + |g|];
      assert g[0] == '@' && g[1] == 'g';
      if i < |d| {
        assert w[0] == d[i] && Phone.IsDigit(d[i]);
      } else if i == |d| {
        assert w[1] == Phone.DirectSuffix[1] == 's';
      } else {
        var k := i - |d|;
        assert 1 <= k <= 10;
        assert w[0] == Phone.DirectSuffix[k];
        assert Phone.DirectSuffix == "@s.whatsapp.net";
        assert Phone.DirectSuffix[k] != '@';
      }
    }
  }

  /** The webhook keeps the message ids unique. */
  lemma HandleKeepsIdsUnique(secret: Option<string>, world: World, req: WebhookRequest, now: int)
    requires Messages.UniqueMessageIds(world.messages)
    ensures Messages.UniqueMessageIds(Handle(secret, world, req, now).world.messages)
  {
    if Authorized(secret, req.secretHeader) && Truthy(req.instance) && req.event == Some(MessagesUpsertEvent) {
      match FindConnection(world.connections, req.instance.value)
      case None =>
      case Some(c) =>
        match UpsertTarget(world.leads, c, req.data)
        case None =>
        case Some(lead) =>
          Messages.UpdateOrCreateKeepsUnique(world.messages, req.data.messageId.value, InboundRow(c, lead, req.data, now));
    }
  }

  /** A delivery whose message id is already stored adds no row: at most the
      stored row is rewritten. */
  lemma KnownIdAddsNoRow(secret: Option<string>, world: World, req: WebhookRequest, now: int, k: nat)
    requires k < |world.messages| && req.data.messageId.Some? && world.messages[k].messageId == req.data.messageId
    ensures |Handle(secret, world, req, now).world.messages| == |world.messages|
  {
  }

  /** A payload that passes every check, for a lead of the connection's
      tenant, is stored: its row (with the payload's id) is in the store
      afterwards, the ids stay unique so it is the only row with that id,
      and the store grows by one row exactly when the id was new. */
  lemma ValidPayloadIsStored(secret: Option<string>, world: World, req: WebhookRequest, now: int)
    requires Authorized(secret, req.secretHeader) && Truthy(req.instance)
    requires req.event == Some(MessagesUpsertEvent)
    requires FindConnection(world.connections, req.instance.value).Some?
    requires PassesChecks(req.data)
    requires FindLeadByPhone(world.leads, FindConnection(world.connections, req.instance.value).value.tenant,
                             "+" + Phone.ExtractPhoneFromJid(req.data.remoteJid.value).value).Some?
    requires Messages.UniqueMessageIds(world.messages)
    ensures var c := FindConnection(world.connections, req.instance.value).value;
      var lead := FindLeadByPhone(world.leads, c.tenant, "+" + Phone.ExtractPhoneFromJid(req.data.remoteJid.value).value).value;
      var id := req.data.messageId.value;
      var r := Handle(secret, world, req, now).world.messages;
      && InboundRow(c, lead, req.data, now).(messageId := Some(id)) in r
      && Messages.UniqueMessageIds(r)
      && |r| == |world.messages| + (if exists k :: 0 <= k < |world.messages| && world.messages[k].messageId == Some(id) then 0 else 1)
  {
    var c := FindConnection(world.connections, req.instance.value).value;
    var lead := FindLeadByPhone(world.leads, c.tenant, "+" + Phone.ExtractPhoneFromJid(req.data.remoteJid.value).value).value;
    assert UpsertTarget(world.leads, c, req.data) == Some(lead);
    HandleKeepsIdsUnique(secret, world, req, now);
  }

  /** A delivery shaped like the feature test's (its JID and message id, with
      the short body "Ola"), with the lead's phone stored with a leading "+":
      the message is stored as one row of the connection's tenant. */
  lemma PlusPhoneIsStored()
    ensures var conn := Connection(1, 1, Connected, "inst", "id", None);
      var lead := Lead(7, 1, 1, "Ana", "ana@example.com", Some("+" + "5511999999999"));
      var data := EventData(None, Some("5511999999999@s.whatsapp.net"), Some("MSG-001"), Some(false),
                            Some("Ola"), None, Some(1717689000));
      var req := WebhookRequest(None, Some(MessagesUpsertEvent), Some("inst"), data);
      var world := World([conn], [lead], []);
      Handle(None, world, req, 1717689001).world.messages
        == [MessageRow(1, 1, 7, "5511999999999@s.whatsapp.net", Some("MSG-001"), false, "Ola", 1717689000)]
  {
    var conn := Connection(1, 1, Connected, "inst", "id", None);
    var lead := Lead(7, 1, 1, "Ana", "ana@example.com", Some("+" + "5511999999999"));
    var data := EventData(None, Some("5511999999999@s.whatsapp.net"), Some("MSG-001"), Some(false),
                          Some("Ola"), None, Some(1717689000));
    TestPayloadReachesLead(conn, lead, data);
    var row := InboundRow(conn, lead, data, 1717689001);
    assert Messages.UpdateOrCreate([], "MSG-001", row) == [row.(messageId := Some("MSG-001"))];
    assert FindConnection([conn], "inst") == Some(conn);
  }

  /** A payload shaped like the feature test's (its JID and message id, with
      the short body "Ola") passes every check and reaches a lead stored with
      phone "+5511999999999". */
  lemma TestPayloadReachesLead(conn: Connection, lead: Lead, data: EventData)
    requires lead.tenant == conn.tenant && lead.phone == Some("+" + "5511999999999")
    requires data.remoteJid == Some("5511999999999@s.whatsapp.net") && data.messageId == Some("MSG-001")
    requires data.conversation == Some("Ola")
    ensures UpsertTarget([lead], conn, data) == Some(lead)
  {
    TestJidIsDirect();
    var d := "5511999999999";
    assert Truthy(Some(d)) by { assert d[0] == '5'; }
    assert Truthy(data.messageId) by { assert "MSG-001"[0] == 'M'; }
    assert Truthy(MessageBody(data)) by { assert "Ola"[0] == 'O'; }
    assert FindLeadByPhone([lead], conn.tenant, "+" + d) == Some(lead);
  }

  /** The JID of the feature test is a direct chat whose phone is its digits. */
  lemma TestJidIsDirect()
    ensures Phone.ExtractPhoneFromJid("5511999999999@s.whatsapp.net") == Some("5511999999999")
    ensures !Phone.Contains("5511999999999@s.whatsapp.net", Phone.GroupMarker)
  {
    var d := "5511999999999";
    assert Phone.AllDigits(d);
    assert d + Phone.DirectSuffix == "5511999999999@s.whatsapp.net";
    Phone.StripSuffix(d);
    GroupMarkerAbsent(d);
  }

  /** The instance the gateway client provisions sends back a secret the
      controller accepts: with a truthy secret the webhook block carries it
      under `x-webhook-secret`, and echoing that header passes the check;
      without one no header is sent and every call passes. */
  lemma ProvisionedSecretPassesCheck(name: string, url: Option<string>, secret: Option<string>)
    requires Truthy(url)
    ensures var hook := Gateway.CreateInstanceRequest(name, url, secret).body.create.webhook;
      && hook.Some?
      && Gateway.SecretHeaderName == "x-webhook-secret"
      && (Truthy(secret) ==>
            && hook.value.headers.Some?
            && Gateway.SecretHeaderName in hook.value.headers.value
            && Authorized(secret, Some(hook.value.headers.value[Gateway.SecretHeaderName])))
      && (!Truthy(secret) ==> hook.value.headers.None? && forall h :: Authorized(secret, h))
  {
  }
}

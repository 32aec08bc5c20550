/** The rows of the CRM's tables that the pipeline and messaging engines read
    and write.  Every table is a sequence of rows in insertion order; ids are
    the tables' primary keys. */
module Entities {
  import opened Common

  type TenantId = nat
  type UserId = nat
  type LeadId = nat
  type DealId = nat
  type StageId = nat
  type ConnectionId = nat

  /** The two roles of the system; only Business Owners receive outcome mail. */
  datatype Role = BusinessOwner | Salesperson

  datatype User = User(id: UserId, tenant: TenantId, role: Role)

  /** A pipeline column, identified by its name ("New Lead", ..., "Won", "Lost"). */
  datatype Stage = Stage(id: StageId, name: string)

  /** A prospective customer; `phone` is nullable. */
  datatype Lead = Lead(
    id: LeadId,
    tenant: TenantId,
    owner: UserId,
    name: string,
    email: string,
    phone: Option<string>)

  /** A sales opportunity.  `value` is kept as the decimal string the forms
      pass through; `lossReason` is set when the deal is marked lost. */
  datatype Deal = Deal(
    id: DealId,
    tenant: TenantId,
    lead: LeadId,
    owner: UserId,
    stage: StageId,
    title: string,
    value: string,
    sortOrder: int,
    lossReason: Option<string>)

  /** The outcome string handed to the outcome notification ('won' / 'lost'). */
  datatype Outcome = WonOutcome | LostOutcome

  datatype NotificationKind =
    | DealOutcome(deal: DealId, outcome: Outcome)
    | LeadAssigned(lead: LeadId, deal: DealId)

  /** One notification handed to the dispatcher for one recipient. */
  datatype Notification = Notification(recipient: UserId, kind: NotificationKind)

  datatype ConnectionStatus = Connected | Disconnected

  /** A tenant's WhatsApp connection record. */
  datatype Connection = Connection(
    id: ConnectionId,
    tenant: TenantId,
    status: ConnectionStatus,
    instanceName: string,
    instanceId: string,
    phoneNumber: Option<string>)

  /** A row of `whatsapp_messages`.  `messageId` is the provider's message id,
      nullable and unique when present. */
  datatype MessageRow = MessageRow(
    tenant: TenantId,
    connection: ConnectionId,
    lead: LeadId,
    remoteJid: string,
    messageId: Option<string>,
    fromMe: bool,
    body: string,
    timestamp: int)

  /** Primary-key uniqueness of the deals table. */
  predicate UniqueDealIds(deals: seq<Deal>)
  {
    forall i, j :: 0 <= i < j < |deals| ==> deals[i].id != deals[j].id
  }

  /** Primary-key uniqueness of the users table. */
  predicate UniqueUserIds(users: seq<User>)
  {
    forall i, j :: 0 <= i < j < |users| ==> users[i].id != users[j].id
  }

  /** Primary-key uniqueness of the stages table. */
  predicate UniqueStageIds(stages: seq<Stage>)
  {
    forall i, j :: 0 <= i < j < |stages| ==> stages[i].id != stages[j].id
  }

  /** Primary-key uniqueness of the leads table. */
  predicate UniqueLeadIds(leads: seq<Lead>)
  {
    forall i, j :: 0 <= i < j < |leads| ==> leads[i].id != leads[j].id
  }

  /** The first stage carrying `name`, as `where('name', ...)->first()` finds it. */
  function FirstStageNamed(stages: seq<Stage>, name: string): (r: Option<Stage>)
    ensures r.Some? ==> r.value in stages && r.value.name == name
    ensures r.None? ==> forall st :: st in stages ==> st.name != name
    // the first such stage in table order
    ensures r.Some? ==> exists k :: 0 <= k < |stages| && stages[k] == r.value
                                   && forall j :: 0 <= j < k ==> stages[j].name != name
  {
    if |stages| == 0 then None
    else if stages[0].name == name then Some(stages[0])
    else FirstStageNamed(stages[1..], name)
  }
}

/** Lead creation and lead ownership: a new lead or an existing one gets a
    fresh deal in the "New Lead" stage, and handing a lead to another user
    hands over all of its deals with it. */
module Leads {
  import opened Common
  import opened Entities
  import Pipeline
  import Sorting

  const NewLeadStageName: string := "New Lead"

  /** The deals table after a deal was created, and the created row. */
  datatype DealCreated = DealCreated(deals: seq<Deal>, deal: Deal)

  /** The leads and deals tables after a lead was created with its deal. */
  datatype LeadCreated = LeadCreated(leads: seq<Lead>, deals: seq<Deal>, lead: Lead, deal: Deal)

  /** The tables after an ownership transfer and the notifications it sent. */
  datatype Assignment = Assignment(leads: seq<Lead>, deals: seq<Deal>, notifications: seq<Notification>)

  /** The id an auto-increment key hands out next: above every id in use. */
  function NextDealId(deals: seq<Deal>): (r: DealId)
    ensures forall d :: d in deals ==> d.id < r
    decreases |deals|
  {
    if |deals| == 0 then 1
    else
      var rest := NextDealId(deals[1..]);
      assert forall d :: d in deals ==> d == deals[0] || d in deals[1..];
      if deals[0].id < rest then rest else deals[0].id + 1
  }

  function NextLeadId(leads: seq<Lead>): (r: LeadId)
    ensures forall l :: l in leads ==> l.id < r
    decreases |leads|
  {
    if |leads| == 0 then 1
    else
      var rest := NextLeadId(leads[1..]);
      assert forall l :: l in leads ==> l == leads[0] || l in leads[1..];
      if leads[0].id < rest then rest else leads[0].id + 1
  }

  /** `createDealForLead` (LeadService.php:58-70): a deal of `lead` owned by
      `owner`, in the first stage named "New Lead", at sort order 0, appended
      to the table; no other row changes.  Without such a stage the stage
      lookup yields null and reading its id fails, so nothing is created.
      `tenant` is the signed-in user's tenant, which the tenant scope fills in. */
  function CreateDealForLead(stages: seq<Stage>, deals: seq<Deal>, lead: Lead, owner: User,
                             title: string, value: string, tenant: TenantId): (r: Result<DealCreated, Pipeline.ServiceError>)
    ensures r.Failure? <==> forall st :: st in stages ==> st.name != NewLeadStageName
    ensures r.Failure? ==> r.error == Pipeline.StageNotFound(NewLeadStageName)
    ensures r.Success? ==>
      && r.value.deals == deals + [r.value.deal]
      && (forall d :: d in deals ==> d.id != r.value.deal.id)
      && r.value.deal.lead == lead.id
      && r.value.deal.owner == owner.id
      && r.value.deal.tenant == tenant
      && r.value.deal.title == title && r.value.deal.value == value
      && r.value.deal.sortOrder == 0
      && r.value.deal.lossReason == None
      && exists st :: st in stages && st.name == NewLeadStageName && st.id == r.value.deal.stage
  {
    match FirstStageNamed(stages, NewLeadStageName)
    case None => Failure(Pipeline.StageNotFound(NewLeadStageName))
    case Some(st) =>
      var d := Deal(NextDealId(deals), tenant, lead.id, owner.id, st.id, title, value, 0, None);
      Success(DealCreated(deals + [d], d))
  }

  /** `createDealForExistingLead` (LeadService.php:34-41): the same deal
      `createDealForLead` makes, for a lead already on file. */
  function CreateDealForExistingLead(stages: seq<Stage>, deals: seq<Deal>, lead: Lead, owner: User,
                                     title: string, value: string, tenant: TenantId): (r: Result<DealCreated, Pipeline.ServiceError>)
    ensures r.Failure? <==> forall st :: st in stages ==> st.name != NewLeadStageName
    ensures r.Failure? ==> r.error == Pipeline.StageNotFound(NewLeadStageName)
    ensures r.Success? ==>
      && r.value.deals == deals + [r.value.deal]
      && (forall d :: d in deals ==> d.id != r.value.deal.id)
      && r.value.deal.lead == lead.id
      && r.value.deal.owner == owner.id
      && r.value.deal.tenant == tenant
      && r.value.deal.title == title && r.value.deal.value == value
      && r.value.deal.sortOrder == 0
      && r.value.deal.lossReason == None
      && exists st :: st in stages && st.name == NewLeadStageName && st.id == r.value.deal.stage
  {
    CreateDealForLead(stages, deals, lead, owner, title, value, tenant)
  }

  /** `createWithDeal` (LeadService.php:14-32): a new lead owned by `owner`
      and its first deal, both or neither (one transaction). */
  function CreateWithDeal(stages: seq<Stage>, leads: seq<Lead>, deals: seq<Deal>, owner: User,
                          name: string, email: string, phone: Option<string>,
                          title: string, value: string, tenant: TenantId): (r: Result<LeadCreated, Pipeline.ServiceError>)
    ensures r.Failure? <==> forall st :: st in stages ==> st.name != NewLeadStageName
    ensures r.Failure? ==> r.error == Pipeline.StageNotFound(NewLeadStageName)
    ensures r.Success? ==>
      && r.value.leads == leads + [r.value.lead]
      && r.value.deals == deals + [r.value.deal]
      && (forall l :: l in leads ==> l.id != r.value.lead.id)
      && r.value.lead == Lead(r.value.lead.id, tenant, owner.id, name, email, phone)
      && r.value.deal.lead == r.value.lead.id
      && r.value.deal.owner == r.value.lead.owner
      && r.value.deal.sortOrder == 0
  {
    var lead := Lead(NextLeadId(leads), tenant, owner.id, name, email, phone);
    match CreateDealForLead(stages, deals, lead, owner, title, value, tenant)
    case Failure(e) => Failure(e)
    case Success(c) => Success(LeadCreated(leads + [lead], c.deals, lead, c.deal))
  }

  /** The two creation paths agree: the deal `createWithDeal` opens for the new
      lead is the one `createDealForExistingLead` would open for that lead once
      it is on file. */
  lemma CreateWithDealIsLeadThenDeal(stages: seq<Stage>, leads: seq<Lead>, deals: seq<Deal>, owner: User,
                                     name: string, email: string, phone: Option<string>,
                                     title: string, value: string, tenant: TenantId)
    ensures var r := CreateWithDeal(stages, leads, deals, owner, name, email, phone, title, value, tenant);
      var existing := CreateDealForExistingLead(stages, deals, Lead(NextLeadId(leads), tenant, owner.id, name, email, phone),
                                                owner, title, value, tenant);
      && (r.Success? <==> existing.Success?)
      && (r.Success? ==> r.value.deals == existing.value.deals && r.value.deal == existing.value.deal)
  {
  }

  /** A created deal keeps the deals table's ids unique. */
  lemma CreateKeepsIdsUnique(stages: seq<Stage>, deals: seq<Deal>, lead: Lead, owner: User,
                             title: string, value: string, tenant: TenantId)
    requires UniqueDealIds(deals)
    ensures var r := CreateDealForLead(stages, deals, lead, owner, title, value, tenant);
      r.Success? ==> UniqueDealIds(r.value.deals)
  {
    var r := CreateDealForLead(stages, deals, lead, owner, title, value, tenant);
    if r.Success? {
      var ds := r.value.deals;
      forall i, j | 0 <= i < j < |ds|
        ensures ds[i].id != ds[j].id
      {
        assert ds[i] == deals[i];
        if j < |deals| {
          assert ds[j] == deals[j];
        } else {
          assert deals[i] in deals;
        }
      }
    }
  }

  /** Creation does not shift the "New Lead" column: when a deal of that
      column already holds sort order 0, afterwards two deals hold it. */
  lemma CreateCanDuplicateSortOrder(stages: seq<Stage>, deals: seq<Deal>, lead: Lead, owner: User,
                                    title: string, value: string, tenant: TenantId, k: nat)
    requires UniqueDealIds(deals)
    requires FirstStageNamed(stages, NewLeadStageName).Some?
    requires k < |deals|
    requires deals[k].tenant == tenant && deals[k].stage == FirstStageNamed(stages, NewLeadStageName).value.id
    requires deals[k].sortOrder == 0
    ensures var r := CreateDealForLead(stages, deals, lead, owner, title, value, tenant).value.deals;
      !Pipeline.DistinctSortOrders(r, tenant, FirstStageNamed(stages, NewLeadStageName).value.id, None)
  {
    var r := CreateDealForLead(stages, deals, lead, owner, title, value, tenant).value.deals;
    assert r[k] == deals[k];
    assert r[|deals|].sortOrder == 0;
    assert deals[k] in deals;
    assert r[k].id != r[|deals|].id;
  }

  // ---------------------------------------------------------------------
  // Ownership transfer

  /** The deals of a lead, in table order (`$lead->deals`). */
  function DealsOfLead(deals: seq<Deal>, lead: LeadId): (r: seq<Deal>)
    ensures |r| <= |deals|
    ensures forall d :: d in r <==> d in deals && d.lead == lead
    decreases |deals|
  {
    if |deals| == 0 then []
    else (if deals[0].lead == lead then [deals[0]] else []) + DealsOfLead(deals[1..], lead)
  }

  /** The deals of a lead in a table with unique ids have unique ids. */
  lemma {:induction false} DealsOfLeadUnique(deals: seq<Deal>, lead: LeadId)
    requires UniqueDealIds(deals)
    ensures UniqueDealIds(DealsOfLead(deals, lead))
    decreases |deals|
  {
    if |deals| > 0 {
      var rest := DealsOfLead(deals[1..], lead);
      DealsOfLeadUnique(deals[1..], lead);
      if deals[0].lead == lead {
        var r := DealsOfLead(deals, lead);
        assert r == [deals[0]] + rest;
        forall k | 0 <= k < |rest|
          ensures rest[k].id != deals[0].id
        {
          assert rest[k] in deals[1..];
          var p := Sorting.IndexOf(deals[1..], rest[k]);
          assert deals[p + 1] == rest[k];
        }
        forall i, j | 0 <= i < j < |r|
          ensures r[i].id != r[j].id
        {
          assert r[j] == rest[j - 1];
          if i > 0 {
            assert r[i] == rest[i - 1];
          }
        }
      } else {
        assert DealsOfLead(deals, lead) == rest;
      }
    }
  }

  /** One lead-assigned notification to `recipient` per deal listed. */
  function AssignedNotices(recipient: UserId, lead: LeadId, ds: seq<Deal>): (r: seq<Notification>)
    ensures |r| == |ds|
    ensures forall k :: 0 <= k < |ds| ==> r[k] == Notification(recipient, LeadAssigned(lead, ds[k].id))
  {
    seq(|ds|, k requires 0 <= k < |ds| => Notification(recipient, LeadAssigned(lead, ds[k].id)))
  }

  /** `assignTo` (LeadService.php:43-56): the lead and every deal of the
      lead pass to `newOwner`; the new owner is told once per deal of the
      lead unless they made the change themselves. */
  function AssignTo(leads: seq<Lead>, deals: seq<Deal>, lead: Lead, newOwner: User, actor: User): (r: Assignment)
    ensures |r.leads| == |leads| && |r.deals| == |deals|
    ensures forall i :: 0 <= i < |leads| ==>
      r.leads[i] == if leads[i].id == lead.id then leads[i].(owner := newOwner.id) else leads[i]
    ensures forall i :: 0 <= i < |deals| ==>
      r.deals[i] == if deals[i].lead == lead.id then deals[i].(owner := newOwner.id) else deals[i]
    ensures newOwner.id == actor.id ==> r.notifications == []
    ensures newOwner.id != actor.id ==>
      && |r.notifications| == |DealsOfLead(deals, lead.id)|
      && (forall n :: n in r.notifications ==>
            n.recipient == newOwner.id && n.kind.LeadAssigned? && n.kind.lead == lead.id)
      && (forall d :: d in deals && d.lead == lead.id ==>
            Notification(newOwner.id, LeadAssigned(lead.id, d.id)) in r.notifications)
  {
    var newLeads := seq(|leads|, i requires 0 <= i < |leads| =>
      if leads[i].id == lead.id then leads[i].(owner := newOwner.id) else leads[i]);
    var newDeals := seq(|deals|, i requires 0 <= i < |deals| =>
      if deals[i].lead == lead.id then deals[i].(owner := newOwner.id) else deals[i]);
    var notices := if newOwner.id != actor.id then AssignedNotices(newOwner.id, lead.id, DealsOfLead(newDeals, lead.id)) else [];
    SameDealsOfLead(deals, newDeals, lead.id, newOwner.id);
    Assignment(newLeads, newDeals, notices)
  }

  /** The owner cascade keeps the lead's deals, in order, with their ids. */
  lemma {:induction false} SameDealsOfLead(deals: seq<Deal>, newDeals: seq<Deal>, lead: LeadId, owner: UserId)
    requires |newDeals| == |deals|
    requires forall i :: 0 <= i < |deals| ==>
      newDeals[i] == if deals[i].lead == lead then deals[i].(owner := owner) else deals[i]
    ensures |DealsOfLead(newDeals, lead)| == |DealsOfLead(deals, lead)|
    ensures forall k :: 0 <= k < |DealsOfLead(deals, lead)| ==>
      DealsOfLead(newDeals, lead)[k] == DealsOfLead(deals, lead)[k].(owner := owner)
    decreases |deals|
  {
    if |deals| > 0 {
      SameDealsOfLead(deals[1..], newDeals[1..], lead, owner);
    }
  }

  /** After `assignTo` the lead and all of its deals have the same owner. */
  lemma AssignToAlignsOwners(leads: seq<Lead>, deals: seq<Deal>, lead: Lead, newOwner: User, actor: User)
    requires lead in leads
    ensures var r := AssignTo(leads, deals, lead, newOwner, actor);
      var i := Sorting.IndexOf(leads, lead);
      forall d :: d in r.deals && d.lead == lead.id ==> d.owner == r.leads[i].owner
  {
    var r := AssignTo(leads, deals, lead, newOwner, actor);
    forall d | d in r.deals && d.lead == lead.id
      ensures d.owner == newOwner.id
    {
      var k := Sorting.IndexOf(r.deals, d);
      assert deals[k].lead == lead.id;
    }
  }

  /** Handing a lead to the same owner twice leaves the tables as once. */
  lemma AssignToIdempotent(leads: seq<Lead>, deals: seq<Deal>, lead: Lead, newOwner: User, actor: User)
    ensures var once := AssignTo(leads, deals, lead, newOwner, actor);
      var twice := AssignTo(once.leads, once.deals, lead, newOwner, actor);
      twice.leads == once.leads && twice.deals == once.deals
  {
  }

  /** With unique deal ids every deal of the lead is announced exactly once. */
  lemma AssignToNotifiesOncePerDeal(leads: seq<Lead>, deals: seq<Deal>, lead: Lead, newOwner: User, actor: User)
    requires UniqueDealIds(deals)
    ensures var ns := AssignTo(leads, deals, lead, newOwner, actor).notifications;
      forall i, j :: 0 <= i < j < |ns| ==> ns[i] != ns[j]
  {
    var r := AssignTo(leads, deals, lead, newOwner, actor);
    if newOwner.id != actor.id {
      DealsOfLeadUnique(deals, lead.id);
      SameDealsOfLead(deals, r.deals, lead.id, newOwner.id);
      var ds := DealsOfLead(deals, lead.id);
      var ns := r.notifications;
      forall i, j | 0 <= i < j < |ns|
        ensures ns[i] != ns[j]
      {
        assert ns[i].kind.deal == DealsOfLead(r.deals, lead.id)[i].id == ds[i].id;
        assert ns[j].kind.deal == DealsOfLead(r.deals, lead.id)[j].id == ds[j].id;
      }
    }
  }
}

# Multi-tenant sales CRM: pipeline and WhatsApp engines in Dafny

This project models the core of a multi-tenant sales CRM written in PHP/Laravel.
It covers two engines that share one message store.

- **The deal pipeline** (`DealService`, `LeadService`).
  - Deals sit in stage columns ordered by `sort_order`.
  - Moving a deal to a stage and position re-numbers the other deals of the destination column. When the stage changed, it also re-numbers the column left behind.
  - Marking a deal won or lost moves it to the terminal stage and notifies every Business Owner of the tenant.
  - Reassigning a deal, or assigning a lead with all of its deals, changes owners. The new owner is notified unless they made the change.
  - Creating a lead, or a deal for an existing lead, puts a deal in the "New Lead" stage at sort order 0.
- **WhatsApp messaging** (`WhatsappWebhookController`, `WhatsappService`, the `DealDetail` panel).
  - The gateway webhook checks a shared secret and finds the connection by instance name. It then routes the event:
    - a status update sets the connection Connected or Disconnected;
    - an inbound message passes a chain of silent drops, then is upserted by provider message id.
  - The gateway client builds request bodies from phone numbers and JIDs.
  - The deal panel validates input, sends a message and stores the sent row. It loads the lead's conversation ordered by timestamp.

Modelling choices:

- Every table is an immutable sequence of rows in insertion order. Each operation is a pure function from the tables to the new tables, plus the notifications it emitted.
- `ORDER BY` on an integer column is modelled as a stable insertion sort (`Sorting.SortBy`). SQL leaves the order of ties unspecified; the model fixes it to table order, and `Sorting.SortByIsStable` proves that it does.
- Primary-key uniqueness is a predicate that the lemmas assume where they need it.
- PHP semantics are written out explicitly:
  - truthiness of strings: `null`, `""` and `"0"` are false;
  - `str_replace`: every non-overlapping occurrence is removed, left to right;
  - PCRE `^\d+$`: the `$` also accepts one trailing newline;
  - `??`: a present but empty `conversation` wins over the extended text.
- Laravel's `required|min:N` is modelled as well. A blank value fails `required`, and `min` is not applied to it.
- The clock and the gateway's replies are parameters.
- The message store is a sequence of rows, not a map keyed by message id. A sent row may have no provider id, and the table's unique index on `message_id` allows several null ids. Uniqueness of the non-null ids is the predicate `Messages.UniqueMessageIds`, and every write keeps it.
- A send with no tenant connection reads a property of null. Laravel raises that warning as an exception, so the send's catch block turns it into the generic send error. No gateway call is made.

Files:

- `common.dfy`: `Option`, `Result`, truthiness.
- `sorting.dfy`: the stable sort.
- `entities.dfy`: rows.
- `phone.dfy`: phone and JID strings.
- `gateway.dfy`: request bodies.
- `pipeline.dfy`: moves, terminal moves, notifications, reassignment.
- `leads.dfy`: creation and lead assignment.
- `messages.dfy`: the message store.
- `webhook.dfy`: the webhook controller.
- `dealdetail.dfy`: the panel.

## Model

| member | source | states |
|---|---|---|
| Phone.SanitizePhone | app/Services/WhatsappService.php:138-141 | The result is digits only and no longer than the input. It keeps every digit of the input, and an all-digit input comes back unchanged. |
| Phone.SanitizeConcat | app/Services/WhatsappService.php:138-141 | Filtering a concatenation equals concatenating the filtered parts. With the one-character case, this makes the result exactly the input's digits, in order. |
| Phone.SanitizeOneChar | app/Services/WhatsappService.php:140 | One character survives the filter exactly when it is an ASCII digit. |
| Phone.SanitizeIdempotent | app/Services/WhatsappService.php:138-141 | Filtering twice is the same as filtering once. |
| Phone.FormatRemoteJid | app/Services/WhatsappService.php:131-136 | The JID is the phone's digits followed by `@s.whatsapp.net`. |
| Phone.ExtractPhoneFromJid | app/Http/Controllers/WhatsappWebhookController.php:124-133 | It returns a phone only when the JID, with every `@s.whatsapp.net` removed, matches `^\d+$`. The phone returned is that remainder, which is never empty. Otherwise it returns null. |
| Phone.ReplaceAll | app/Http/Controllers/WhatsappWebhookController.php:126 | The result is never longer than the text, and a text without the pattern comes back unchanged. `Phone.StripFirstOccurrence` states how every occurrence is removed, `Phone.KeepFirst` and `Phone.KeepPrefix` that other characters are kept, and `Phone.NestedSuffixIsNotRescanned` that the result is not scanned again. |
| Phone.StripFirstOccurrence | app/Http/Controllers/WhatsappWebhookController.php:126 | For a prefix without the pattern's first character, the result on prefix, pattern, rest is the prefix followed by the result on the rest. So each occurrence is removed and the scan goes on after it. |
| Phone.KeepFirst | app/Http/Controllers/WhatsappWebhookController.php:126 | A first character that does not begin an occurrence is kept, even when it equals the pattern's first character, and the scan goes on from the next character. |
| Phone.KeepPrefix | app/Http/Controllers/WhatsappWebhookController.php:126 | A prefix without the pattern's first character is kept unchanged, and the scan goes on after it. |
| Phone.StripFirstSuffix | app/Http/Controllers/WhatsappWebhookController.php:126 | For an '@'-free prefix, the first `@s.whatsapp.net` after it is removed, and the text after it is scanned on its own. |
| Phone.InteriorSuffixIsRemoved | app/Http/Controllers/WhatsappWebhookController.php:124-133 | An occurrence inside the JID is removed as well. Digits, the suffix, more digits and the suffix again yield all the digits joined; for example `"55@s.whatsapp.net11@s.whatsapp.net"` yields `"5511"`. |
| Phone.StrayAtSignIsKept | app/Http/Controllers/WhatsappWebhookController.php:124-133 | An '@' before digits and the suffix does not begin an occurrence, so it stays: the remainder is '@' followed by the digits, and the JID is rejected. For example `"@5@s.whatsapp.net"` yields null. |
| Phone.NestedSuffixIsNotRescanned | app/Http/Controllers/WhatsappWebhookController.php:124-133 | Removal makes one left-to-right pass and does not rescan its output. `"55@s.whatsapp@s.whatsapp.net.net"` becomes `"55@s.whatsapp.net"` and is rejected. |
| Phone.DigitsPatternShape | app/Http/Controllers/WhatsappWebhookController.php:128 | `^\d+$` accepts a text iff it is its own non-empty digit string, or that digit string followed by one newline. |
| Phone.StripSuffix | app/Http/Controllers/WhatsappWebhookController.php:126 | Removing the suffix from an '@'-free text followed by the suffix gives back the text. |
| Phone.JidRoundTrip | app/Http/Controllers/WhatsappWebhookController.php:124-133 | For a phone with at least one digit, extraction applied to the gateway client's JID returns exactly the phone's digits. |
| Phone.DigitlessJidIsRejected | app/Http/Controllers/WhatsappWebhookController.php:126-130 | A phone without digits gives the bare-suffix JID, and extraction rejects it. |
| Phone.TrailingNewlineIsAccepted | app/Http/Controllers/WhatsappWebhookController.php:128-132 | `$` accepts a final newline, so `"5511\n@s.whatsapp.net"` yields the phone `"5511\n"`. |
| Gateway.WebhookConfig | app/Services/WhatsappService.php:39-56 | The webhook block is present iff the URL is truthy, and its events are then exactly `["CONNECTION_UPDATE"]`. It carries headers iff the secret is truthy, and the headers map `x-webhook-secret` to the secret. |
| Gateway.CreateInstanceRequest | app/Services/WhatsappService.php:26-61 | A POST to `/instance/create` naming the instance. It uses the Baileys integration, shows a QR code, rejects calls and ignores groups. It is not always online and does not mark messages or statuses as read. Its webhook block is exactly the one above. |
| Gateway.FetchMessagesRequest | app/Services/WhatsappService.php:94-108 | The message search filters on the phone's direct-chat JID. |
| Gateway.SendMessageRequest | app/Services/WhatsappService.php:110-119 | The number sent is the phone's digits (all digits) and the text is passed unchanged. |
| Gateway.SendAndFetchAddressSameChat | app/Services/WhatsappService.php:94-119 | The JID the fetch uses is the number the send uses plus the suffix. The webhook maps that JID back to the number. |
| Pipeline.PlaceDeal | app/Services/DealService.php:18-23 | Only the moved deal's row changes: it gets the target stage and the target position. The table keeps its length. |
| Pipeline.RecalculateSortOrder | app/Services/DealService.php:69-84 | The table keeps its length, and every row changes at most in its sort order. |
| Pipeline.RecalculateSortOrderAfterRemoval | app/Services/DealService.php:86-97 | The table keeps its length, and every row changes at most in its sort order. |
| Pipeline.MoveToStage | app/Services/DealService.php:15-31 | The table keeps its length. The moved deal changes only in stage (to the target) and sort order. Every other deal changes at most in its sort order. |
| Pipeline.Members | app/Services/DealService.php:71-72 | A deal is selected iff it is in the table, belongs to the tenant and stage, and is not the excluded deal. |
| Pipeline.ColumnFacts | app/Services/DealService.php:71-74 | The ordered column query returns exactly the column's deals, each once, in non-decreasing sort order. |
| Pipeline.SlotsValue | app/Services/DealService.php:76-83 | The destination walk gives its j-th deal the value j, plus one once the counter has stepped over the target. |
| Pipeline.DestinationSlots | app/Services/DealService.php:76-83 | The values handed out are strictly increasing, never equal the target, and lie in 0..n. If the target is in 0..n, every other value of 0..n is used. Otherwise the values are exactly 0..n-1. |
| Pipeline.AssignSpec | app/Services/DealService.php:77-83 | Writing values to a column's rows by id changes those rows' sort order and nothing else. Every other row stays as it was. |
| Pipeline.RenumberColumn | app/Services/DealService.php:77-83 | Writing increasing values along the sorted column changes only the column's sort orders and keeps their relative order. |
| Pipeline.RenumberedColumn | app/Services/DealService.php:77-83 | After such a write, the column holds exactly the values written, no two equal, with ids and membership unchanged. |
| Pipeline.SlotSet | app/Services/DealService.php:76-83 | The destination walk's values are 0..n without the target when the target is in 0..n, and 0..n-1 otherwise. |
| Pipeline.IndexSet | app/Services/DealService.php:92-96 | The source walk's values are 0..m-1. |
| Pipeline.DestinationReflow | app/Services/DealService.php:69-84 | The other deals of the destination column change only in sort order and keep their relative order. No two share a value and none holds the target. The values are 0..n minus the target when the target is in 0..n, and 0..n-1 otherwise. Every other deal is untouched. |
| Pipeline.SourceReflow | app/Services/DealService.php:86-97 | The column's deals change only in sort order and keep their relative order. They hold exactly 0..m-1, each once. Every other deal is untouched. |
| Pipeline.MoveToStagePlacesDeal | app/Services/DealService.php:15-31 | The moved deal ends in the target stage at the target position, with nothing else changed. A deal in neither the destination column nor (on a stage change) the source column is untouched. |
| Pipeline.MoveToStageReflowsDestination | app/Services/DealService.php:18-25 | After the whole move, the other destination deals change only in sort order and keep their order. Their values are distinct, avoid the position, and form 0..n minus the position, or 0..n-1. |
| Pipeline.MoveToStageDenseColumn | app/Services/DealService.php:76-83 | With 0 <= position <= n, the destination column afterwards holds exactly 0..n, each value once. |
| Pipeline.MoveToStageLeavesGap | app/Services/DealService.php:76-83 | With a position beyond n, the column afterwards holds the position but lacks n, so it is not dense. |
| Pipeline.MoveToStageIds | app/Services/DealService.php:15-31 | A move keeps the table's length and its ids unique. |
| Pipeline.MoveToStageReflowsSource | app/Services/DealService.php:27-29 | On a stage change, the deals left behind change only in sort order, keep their order, and hold exactly 0..m-1. |
| Pipeline.NotifyBusinessOwners | app/Services/DealService.php:99-110 | Every notification is the deal's outcome notification. Every Business Owner of the deal's tenant gets one, and nobody else gets one. |
| Pipeline.NotifiesEachOwnerOnce | app/Services/DealService.php:103-109 | With unique user ids, no recipient is notified twice. |
| Pipeline.MarkAsWon | app/Services/DealService.php:33-40 | It fails iff no stage is named "Won". Otherwise only the deal's row changes, and only its stage, to a "Won" stage. The notifications are the Business Owners' "won" notices. |
| Pipeline.MarkAsLost | app/Services/DealService.php:42-52 | It fails iff no stage is named "Lost". Otherwise only the deal's row changes: its stage becomes a "Lost" stage and its loss reason becomes the given one. The notifications are the "lost" notices. |
| Pipeline.RequiresLossReason | app/Services/DealService.php:64-67 | True iff some stage has this id and the name "Lost". |
| Pipeline.TerminalStagesAndLossReason | app/Services/DealService.php:64-67 | With unique stage ids, markAsLost lands on a stage that requires a loss reason, and markAsWon on one that does not. |
| Pipeline.MoveOutOfLostKeepsReason | app/Services/DealService.php:18-23 | A lost deal moved to another stage takes that stage and keeps its loss reason. |
| Pipeline.WonAfterLostKeepsReason | app/Services/DealService.php:33-40 | markAsWon after markAsLost leaves the deal in the Won stage with its loss reason still set. |
| Pipeline.Reassign | app/Services/DealService.php:54-62 | Only the deal's owner changes. Exactly one LeadAssigned notice goes to the new owner when they are not the actor, and none otherwise. |
| Pipeline.ReassignIdempotent | app/Services/DealService.php:56 | Reassigning to the same owner again leaves the table as it is. |
| Pipeline.ReassignKeepsColumns | app/Services/DealService.php:56 | Reassignment leaves every column's sort orders, and their distinctness, unchanged. |
| Entities.FirstStageNamed | app/Services/DealService.php:35 | It finds a stage with the name iff one exists, and it is the first such stage in table order. |
| Leads.NextLeadId | app/Services/LeadService.php:23-28 | The id given to a new lead is above every id in use. |
| Leads.NextDealId | app/Services/LeadService.php:62 | The id given to a new deal is above every id in use. |
| Leads.CreateDealForLead | app/Services/LeadService.php:58-70 | It fails iff no stage is named "New Lead". Otherwise exactly one deal is appended, with a fresh id, and no other row changes. The new deal has the lead, owner, title, value, tenant and a "New Lead" stage, sort order 0 and no loss reason. |
| Leads.CreateDealForExistingLead | app/Services/LeadService.php:34-41 | It fails iff no stage is named "New Lead", with the stage-not-found error. Otherwise exactly one deal is appended, with a fresh id, and no other row changes. The new deal has the lead, owner, title, value, tenant and a "New Lead" stage, sort order 0 and no loss reason. |
| Leads.CreateWithDealIsLeadThenDeal | app/Services/LeadService.php:14-41 | Creating a lead with its deal succeeds iff creating a deal for that lead once it is on file does, and both give the same deal and deals table. |
| Leads.CreateWithDeal | app/Services/LeadService.php:14-32 | It fails iff there is no "New Lead" stage, and then neither row is created. Otherwise one lead with a fresh id and the given fields is appended, and one deal of that lead with the same owner. |
| Leads.CreateKeepsIdsUnique | app/Services/LeadService.php:62-69 | Creating a deal keeps the deal ids unique. |
| Leads.CreateCanDuplicateSortOrder | app/Services/LeadService.php:68 | When a deal of the "New Lead" column already holds 0, two deals hold 0 afterwards. |
| Leads.DealsOfLead | app/Services/LeadService.php:51-52 | The deals listed are exactly the deals of the lead. |
| Leads.AssignedNotices | app/Services/LeadService.php:50-55 | One lead-assigned notice to the new owner per deal listed, in the same order, each naming the lead and its deal. |
| Leads.AssignTo | app/Services/LeadService.php:43-56 | The lead's owner and the owner of every deal of the lead become the new owner. Nothing else changes. There are no notices when the new owner is the actor. Otherwise there is one notice per deal of the lead, all to the new owner and about that lead. |
| Leads.SameDealsOfLead | app/Services/LeadService.php:47-52 | The owner cascade keeps the lead's deals, in order, changing only their owner. |
| Leads.AssignToAlignsOwners | app/Services/LeadService.php:45-48 | Afterwards the lead and all of its deals have the same owner. |
| Leads.AssignToIdempotent | app/Services/LeadService.php:45-48 | Assigning the lead to the same owner twice leaves the tables as once. |
| Leads.AssignToNotifiesOncePerDeal | app/Services/LeadService.php:50-55 | With unique deal ids, no notice is repeated. |
| Messages.FindByMessageId | app/Http/Controllers/WhatsappWebhookController.php:110-111 | The first row carrying the id, or null when no row carries it. |
| Messages.UpdateOrCreate | app/Http/Controllers/WhatsappWebhookController.php:110-121 | The new row is stored under the id. If a row with the id exists, the length is unchanged. If none exists, the row is appended. Rows with other ids are untouched. |
| Messages.UpdateOrCreateLastWins | app/Http/Controllers/WhatsappWebhookController.php:110-121 | Two upserts with the same id leave the store as the second one alone would. |
| Messages.UpdateOrCreateIdempotent | app/Http/Controllers/WhatsappWebhookController.php:110-121 | Upserting the same row twice is upserting it once. |
| Messages.UpdateOrCreateKeepsUnique | database/migrations/2026_02_26_022006_create_whatsapp_messages_table.php:25 | An upsert keeps non-null message ids unique. |
| Messages.Create | app/Livewire/DealDetail.php:297-306 | The insert is refused iff its non-null id is already stored. Otherwise the row is appended. |
| Messages.CreateKeepsUnique | database/migrations/2026_02_26_022006_create_whatsapp_messages_table.php:25 | An accepted insert keeps non-null message ids unique. |
| Webhook.FindConnection | app/Http/Controllers/WhatsappWebhookController.php:33-35 | A connection of any tenant carrying the instance name, or null when none does. |
| Webhook.HandleConnectionUpdate | app/Http/Controllers/WhatsappWebhookController.php:52-68 | The connection's row becomes Connected when the state is "open", and Disconnected for any other or missing state. No other field or row changes. |
| Webhook.StatusFor | app/Http/Controllers/WhatsappWebhookController.php:54-58 | The status is Connected iff the state is present and equals "open". |
| Webhook.FindLeadByPhone | app/Http/Controllers/WhatsappWebhookController.php:90-93 | A lead of the tenant whose stored phone equals the given text exactly, or null. |
| Webhook.MessageBody | app/Http/Controllers/WhatsappWebhookController.php:100-102 | `conversation` when present, even if empty. Otherwise the extended text. |
| Webhook.UpsertTarget | app/Http/Controllers/WhatsappWebhookController.php:72-106 | A payload passes only with a truthy JID, id and body and a JID without `@g.us`. The JID must extract to digits, and a lead of the connection's tenant must have phone "+" plus those digits. Conversely, when every check passes, the target is the tenant's lead with that phone. |
| Webhook.InboundRow | app/Http/Controllers/WhatsappWebhookController.php:108-120 | The row belongs to the connection's tenant, the connection and the lead. It carries the payload's JID, message id and body. `fromMe` defaults to false, and the timestamp defaults to the clock. |
| Webhook.HandleMessagesUpsert | app/Http/Controllers/WhatsappWebhookController.php:70-122 | A dropped payload leaves the store alone. An accepted one is upserted under its message id. |
| Webhook.Authorized | app/Http/Controllers/WhatsappWebhookController.php:18-21 | Without a secret, or with a secret PHP reads as false, every call passes. With a real secret, a call passes iff it sends the header with exactly the secret. |
| Webhook.Handle | app/Http/Controllers/WhatsappWebhookController.php:15-50 | The reply is 401 iff a truthy secret is configured and the header differs, and then nothing changes. Leads never change. A falsy instance, an unknown instance or another event changes nothing. A status update touches no message, and a message event touches no connection. For a known instance, a status update applies the connection update to that connection and a message event applies the message upsert. |
| Webhook.ValidPayloadIsStored | app/Http/Controllers/WhatsappWebhookController.php:70-121 | A message event whose payload passes every check and reaches a lead stores the inbound row under its id. Ids stay unique, and the store grows by one row unless the id was already stored. |
| Webhook.PlusPhoneIsStored | app/Http/Controllers/WhatsappWebhookController.php:15-121 | A direct message from 5511999999999 to a lead stored as "+5511999999999" leaves exactly one row, with the lead, the JID, the id, the body and the payload's timestamp. |
| Webhook.ProvisionedSecretPassesCheck | app/Services/WhatsappService.php:39-55 | An instance created with a webhook URL carries the secret under `x-webhook-secret` when a secret is set, and the webhook's check accepts that header. Without a secret no header is sent and the check accepts any request. |
| Webhook.ConnectionUpdateKeepsNames | app/Http/Controllers/WhatsappWebhookController.php:65-67 | A status update leaves the instance lookup finding the same connection. |
| Webhook.ReplayKeepsLastDelivery | app/Http/Controllers/WhatsappWebhookController.php:110-121 | A payload delivered twice leaves the tables as its later delivery alone would. |
| Webhook.ReplayIsIdempotent | app/Http/Controllers/WhatsappWebhookController.php:110-121 | Delivering the same payload twice at the same time equals delivering it once. |
| Webhook.WrittenRowsStayInTenant | app/Http/Controllers/WhatsappWebhookController.php:90-121 | Every row the webhook writes has the tenant of its connection and of its lead. |
| Webhook.UpsertChangesOnlyOneRow | app/Http/Controllers/WhatsappWebhookController.php:110-121 | After an upsert, every row is either the upserted row or unchanged. |
| Webhook.GroupMessagesAreIgnored | app/Http/Controllers/WhatsappWebhookController.php:81-83 | A JID containing `@g.us` stores nothing. |
| Webhook.ConnectionStatusFollowsState | app/Http/Controllers/WhatsappWebhookController.php:54-67 | The named connection ends Connected iff the state was "open". |
| Webhook.BareDigitPhoneIsNotMatched | app/Http/Controllers/WhatsappWebhookController.php:90-98 | A lead stored as "5511999999999", with no "+", is not matched, so the message is dropped. |
| Webhook.GroupMarkerAbsent | app/Http/Controllers/WhatsappWebhookController.php:81 | A direct JID made of digits never contains `@g.us`. |
| Webhook.HandleKeepsIdsUnique | app/Http/Controllers/WhatsappWebhookController.php:110-121 | The webhook keeps non-null message ids unique. |
| Webhook.KnownIdAddsNoRow | app/Http/Controllers/WhatsappWebhookController.php:110-121 | A delivery whose id is already stored never adds a row. |
| DealDetail.Validate | app/Livewire/DealDetail.php:166-171 | A value passes iff it is not blank and is at least N long. A blank value fails `required`, and a short non-blank one fails `min`. |
| DealDetail.MarkAsLost | app/Livewire/DealDetail.php:162-178 | A reason failing `required\|min:2` is rejected before the service runs. Otherwise the result is the service's markAsLost. |
| DealDetail.ShortLossReasonChangesNothing | app/Livewire/DealDetail.php:166-173 | A reason shorter than two characters is rejected by validation. |
| DealDetail.AddNote | app/Livewire/DealDetail.php:180-194 | It is rejected iff the body is blank or shorter than two characters. The error is `required` for a blank body and `min:2` otherwise. Otherwise exactly one note is appended. |
| DealDetail.TenantConnection | app/Livewire/DealDetail.php:64 | A connection of the tenant, or null when it has none. |
| DealDetail.HasWhatsappConnection | app/Livewire/DealDetail.php:61-70 | True iff the tenant's connection exists and is Connected. |
| DealDetail.OutboundRow | app/Livewire/DealDetail.php:297-306 | The sent row is from-me, with the text, the provider id, the clock, the JID of the phone's digits, and the connection's tenant. |
| DealDetail.SendWhatsappMessage | app/Livewire/DealDetail.php:272-320 | A blank text changes nothing. No phone gives the no-phone error and no call. The gateway is called iff the text is valid, a phone exists and a connection exists. At most one from-me row is added. Any later failure gives the send error and keeps the text. A row is stored iff the text is valid, a phone and a connection exist, the gateway accepted the message, and its id is null or not stored yet. Success appends one entry, clears the text and the error. |
| DealDetail.MessageMinIsImpliedByRequired | app/Livewire/DealDetail.php:277-281 | `min:1` adds nothing to `required`. |
| DealDetail.SendAfterEchoFails | app/Livewire/DealDetail.php:297-319 | If the webhook already stored the provider id, the send calls the gateway, stores nothing and shows the send error. |
| DealDetail.SendKeepsIdsUnique | app/Livewire/DealDetail.php:297-306 | A send keeps non-null message ids unique. |
| Sorting.SortBy | app/Services/DealService.php:71-74 | The result is a permutation of the input, sorted by the key. |
| Sorting.SortByIsStable | app/Services/DealService.php:71-74 | For every key value, the rows with that key appear in the result in the same order as in the input. |
| DealDetail.Entries | app/Livewire/DealDetail.php:261-266 | One entry per row, in the same order, carrying the row's message id, direction, body and timestamp. |
| DealDetail.LeadRows | app/Livewire/DealDetail.php:258 | The rows shown are exactly the stored rows of the lead in the viewer's tenant, each as many times as it is stored. |
| DealDetail.Conversation | app/Livewire/DealDetail.php:258-267 | One entry per row of the lead, ordered by non-decreasing timestamp. Every row of the lead appears, and every entry comes from such a row. As a multiset, the entries are exactly those of the lead's rows. |
| DealDetail.LoadWhatsappMessages | app/Livewire/DealDetail.php:242-270 | With no deal or no Connected connection, nothing changes. A lead without a phone shows an empty list. Otherwise the lead's conversation is shown and the error is cleared. |
| DealDetail.EntriesPermutation | app/Livewire/DealDetail.php:258-267 | Reordering the rows only reorders their entries. |
| DealDetail.SentMessageIsLoaded | app/Livewire/DealDetail.php:297-313 | A message the gateway accepted with a null or fresh id is stored as the outbound row, and is in the conversation loaded next. |
| DealDetail.EchoOfSentMessageAddsNoRow | app/Livewire/DealDetail.php:297-306 | The webhook's echo of a sent message adds no row. The store keeps one row for the id, and the ids stay unique. |
| DealDetail.TenantConnectionAfterUpdate | app/Livewire/DealDetail.php:64-69 | A status update keeps each tenant's first connection and gives it the new status. |
| DealDetail.ConnectionUpdateDrivesTab | app/Livewire/DealDetail.php:61-70 | After a status update on the tenant's connection, the WhatsApp tab is available iff the state was "open". |

## Code versus its tests

The model follows the code. The lemmas named here show where the code departs from its own tests, and two consequences of the code worth knowing.

- **Phone match with "+".** The webhook looks a lead up by phone equal to "+" followed by the JID's digits. The feature test at tests/Feature/WhatsApp/WhatsappWebhookTest.php:120-159 stores the lead's phone as "5511999999999", without "+", and still expects a stored row. `Webhook.BareDigitPhoneIsNotMatched` shows that the code drops that message. With the phone stored as "+5511999999999", the same payload is stored (`Webhook.PlusPhoneIsStored`).
- **A loss reason outlives the Lost stage.** `markAsLost` sets `loss_reason` (app/Services/DealService.php:45-48). Neither `markAsWon` (app/Services/DealService.php:33-40) nor a move to another stage (app/Services/DealService.php:18-23) clears it (`Pipeline.WonAfterLostKeepsReason`, `Pipeline.MoveOutOfLostKeepsReason`).
- **Sort orders are not always dense.** The renumbering makes a column's sort orders 0..n-1 only in part.
  - A move leaves the destination column dense only when the position is at most the number of other deals (`Pipeline.MoveToStageDenseColumn`, `Pipeline.MoveToStageLeavesGap`).
  - The terminal moves do not re-number any column.
  - Deal creation puts the new deal at 0 (app/Services/LeadService.php:68) without shifting its siblings (`Leads.CreateCanDuplicateSortOrder`).

## Left out

- The order of rows with equal sort key is not modelled as SQL leaves it (unspecified): `Sorting.SortBy` keeps ties in table order, and the column and conversation results rely on that choice.
- HTTP transport of the gateway client is not modelled: base URL, API-key header, JSON encoding and `throw()`. Each call is its request body, and the reply is a parameter: failure, or success with an optional `key.id`.
- Logging in the webhook controller is left out, because it has no effect on state.
- Transactions, concurrency and locking are left out. Each service call is one atomic transition.
- Authorization checks (`authorize`, the connection policy) are left out, because they are a policy over roles not in this model.
- The tenant global scope is not part of this model. Created rows and the panel's message query take the signed-in user's tenant as a parameter. `Pipeline.MoveToStage` selects columns by the moved deal's own tenant, where the code uses the signed-in user's tenant scope. The two agree only when the user may act on that deal, and that authorization is left out.
- The status lookup tables are assumed to be seeded: the `Business Owner` role row and the `Connected`/`Disconnected` status rows. The code's branches for a missing row (a null-property error, or the early return in the status update) are not modelled.
- Payload values that are not strings (or, for the timestamp, integers) are not modelled: arrays, numbers in string fields, `(int)` casts of strings.
- Database collation and padding in string comparison are not modelled. Comparison is exact.
- String length is counted in characters; multibyte-length subtleties of `mb_strlen` are not modelled.
- The two `time()` reads of a send are one clock value `now`.
- Livewire UI state is not modelled: tabs, modals, edit mode, resetting the loss-reason and note fields, and computed-property cache invalidation.
- Mail rendering of the notifications is not modelled. Only recipient, kind and outcome are.
- Deal editing (`EditDealForm`, decimal parsing) is left out.
- The note insert of `DealNoteService` is reduced to appending a `Note`.
- Auto-increment ids are modelled as one above the largest id in use, which assumes rows are never deleted.
- Stage rows are looked up by name across all stages, with the first match taken.

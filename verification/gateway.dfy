/** The request bodies the WhatsApp gateway client sends to the provider.
    Transport (base URL, API-key header, JSON encoding, HTTP errors) is not
    modelled: each call is reduced to the request it would issue. */
module Gateway {
  import opened Common
  import opened Phone

  /** The only provider event the instance subscribes its webhook to. */
  const SubscribedEvent: string := "CONNECTION_UPDATE"

  /** The header the provider echoes back on every webhook call. */
  const SecretHeaderName: string := "x-webhook-secret"

  /** The `webhook` block of an instance-creation payload. */
  datatype WebhookBlock = WebhookBlock(
    url: string,
    byEvents: bool,
    base64: bool,
    events: seq<string>,
    headers: Option<map<string, string>>)

  /** The body of `POST /instance/create`. */
  datatype CreateInstanceBody = CreateInstanceBody(
    instanceName: string,
    integration: string,
    qrcode: bool,
    rejectCall: bool,
    groupsIgnore: bool,
    alwaysOnline: bool,
    readMessages: bool,
    readStatus: bool,
    webhook: Option<WebhookBlock>)

  /** The modelled calls are all POSTs. */
  datatype Method = Post

  datatype Body =
    | CreateInstance(create: CreateInstanceBody)
    | FindMessages(remoteJid: string)
    | SendText(number: string, text: string)

  /** One request to the provider: method, path below the base URL, body. */
  datatype Request = Request(verb: Method, path: string, body: Body)

  /** The `webhook` block, present only when a webhook URL is configured; its
      secret header is present only when a webhook secret is configured. */
  function WebhookConfig(webhookUrl: Option<string>, webhookSecret: Option<string>): (r: Option<WebhookBlock>)
    ensures r.Some? <==> Truthy(webhookUrl)
    ensures r.Some? ==> r.value.url == webhookUrl.value && r.value.events == [SubscribedEvent]
    ensures r.Some? ==> !r.value.byEvents && !r.value.base64
    ensures r.Some? ==> (r.value.headers.Some? <==> Truthy(webhookSecret))
    ensures r.Some? && r.value.headers.Some? ==>
      r.value.headers.value == map[SecretHeaderName := webhookSecret.value]
  {
    if Truthy(webhookUrl) then
      var headers := if Truthy(webhookSecret) then Some(map[SecretHeaderName := webhookSecret.value]) else None;
      Some(WebhookBlock(webhookUrl.value, false, false, [SubscribedEvent], headers))
    else None
  }

  /** `createInstance`: a Baileys instance that shows a QR code, rejects calls
      and ignores groups, plus the optional webhook block. */
  function CreateInstanceRequest(instanceName: string, webhookUrl: Option<string>, webhookSecret: Option<string>): (r: Request)
    ensures r.verb == Post && r.path == "/instance/create" && r.body.CreateInstance?
    ensures r.body.create.instanceName == instanceName
    ensures r.body.create.integration == "WHATSAPP-BAILEYS"
    ensures r.body.create.qrcode && r.body.create.rejectCall && r.body.create.groupsIgnore
    ensures !r.body.create.alwaysOnline && !r.body.create.readMessages && !r.body.create.readStatus
    ensures r.body.create.webhook == WebhookConfig(webhookUrl, webhookSecret)
  {
    Request(Post, "/instance/create",
      CreateInstance(CreateInstanceBody(instanceName, "WHATSAPP-BAILEYS", true, true, true, false, false, false,
        WebhookConfig(webhookUrl, webhookSecret))))
  }

  /** `fetchMessages`: asks for the messages of the phone's direct-chat JID. */
  function FetchMessagesRequest(instanceName: string, phone: string): (r: Request)
    ensures r.verb == Post && r.path == "/chat/findMessages/" + instanceName
    ensures r.body.FindMessages? && r.body.remoteJid == FormatRemoteJid(phone)
  {
    Request(Post, "/chat/findMessages/" + instanceName, FindMessages(FormatRemoteJid(phone)))
  }

  /** `sendMessage`: the number is the phone's digits, the text is unchanged. */
  function SendMessageRequest(instanceName: string, phone: string, text: string): (r: Request)
    ensures r.verb == Post && r.path == "/message/sendText/" + instanceName
    ensures r.body.SendText? && r.body.text == text
    ensures r.body.number == SanitizePhone(phone) && AllDigits(r.body.number)
  {
    Request(Post, "/message/sendText/" + instanceName, SendText(SanitizePhone(phone), text))
  }

  /** The number a message is sent to and the JID its conversation is fetched
      by name the same chat: the JID is the number plus the direct suffix, and
      the webhook maps that JID back to the number. */
  lemma SendAndFetchAddressSameChat(instanceName: string, phone: string, text: string)
    requires SanitizePhone(phone) != ""
    ensures FetchMessagesRequest(instanceName, phone).body.remoteJid
         == SendMessageRequest(instanceName, phone, text).body.number + DirectSuffix
    ensures ExtractPhoneFromJid(FetchMessagesRequest(instanceName, phone).body.remoteJid)
         == Some(SendMessageRequest(instanceName, phone, text).body.number)
  {
    JidRoundTrip(phone);
  }
}

/** The mail tools: listing a folder, reading and searching messages,
    sending a message and replying to one. */
module MailTools {
  import opened Base
  import opened Text
  import opened Json
  import opened GraphClient
  import opened Toolkit

  const MailListFields: string :=
    "id,subject,from,toRecipients,receivedDateTime,bodyPreview,"
    + "isRead,hasAttachments,importance,flag"
  const MaxMail: int := 50
  const MailOrder: string := "receivedDateTime desc"
  const DefaultFolder: string := "inbox"
  const DefaultMailTop: int := 25

  /** `graph_list_mail`'s request: newest first, at most 50, and the OData
      filter only when one is given. */
  function ListMailRequest(folder: string, top: int, filterQuery: string): (r: Request)
    ensures r.verb == GET && r.path == "/me/mailFolders/" + folder + "/messages"
    ensures r.params.Keys == {"$select", "$top", "$orderby"} + (if filterQuery != "" then {"$filter"} else {})
    ensures r.params["$select"] == MailListFields && r.params["$orderby"] == MailOrder
    ensures r.params["$top"] == TopParam(top, MaxMail)
    ensures filterQuery != "" ==> r.params["$filter"] == filterQuery
  {
    var params := map["$select" := MailListFields, "$top" := TopParam(top, MaxMail), "$orderby" := MailOrder];
    var params := if filterQuery != "" then params["$filter" := filterQuery] else params;
    GetRequest("/me/mailFolders/" + folder + "/messages", params, map[])
  }

  /** The search term in double quotes, as `$search` wants it. */
  function Quoted(query: string): string {
    "\"" + query + "\""
  }

  /** The term inside a quoted search; `None` when it is not quoted. */
  function Unquoted(s: string): Option<string> {
    if |s| >= 2 && s[0] == '"' && s[|s| - 1] == '"' then Some(s[1..|s| - 1]) else None
  }

  /** Quoting loses nothing: the term comes back whole, whatever quotes it
      holds itself. */
  lemma QuotedRoundTrip(query: string)
    ensures Unquoted(Quoted(query)) == Some(query)
    ensures |Quoted(query)| == |query| + 2
  {
    var q := Quoted(query);
    assert q == ['"'] + query + ['"'];
    assert q[1..|q| - 1] == query;
  }

  function SearchMailRequest(query: string, top: int): Request {
    GetRequest("/me/messages", map["$search" := Quoted(query), "$select" := MailListFields, "$top" := TopParam(top, MaxMail)], map[])
  }

  /** Both listings read back the search term and a count of at most 50. */
  lemma MailQueries(folder: string, query: string, top: int, filterQuery: string)
    ensures Unquoted(SearchMailRequest(query, top).params["$search"]) == Some(query)
    ensures ParseInt(SearchMailRequest(query, top).params["$top"]) == Some(Min(top, MaxMail))
    ensures ParseInt(ListMailRequest(folder, top, filterQuery).params["$top"]) == Some(Min(top, MaxMail))
  {
    QuotedRoundTrip(query);
    TopParamMeaning(top, MaxMail);
  }

  // ----------------------------------------------------------- recipients

  function Recipient(address: string): Value {
    Obj(map["emailAddress" := Obj(map["address" := Str(address)])])
  }

  /** One recipient object per address, in order. */
  function Recipients(addresses: seq<string>): (r: seq<Value>)
    ensures |r| == |addresses|
    ensures forall i :: 0 <= i < |r| ==> r[i] == Recipient(addresses[i])
    decreases |addresses|
  {
    if |addresses| == 0 then [] else [Recipient(addresses[0])] + Recipients(addresses[1..])
  }

  /** The address a recipient object names. */
  function AddressOf(v: Value): Option<string> {
    if v.Obj? && "emailAddress" in v.fields && v.fields["emailAddress"].Obj?
       && "address" in v.fields["emailAddress"].fields && v.fields["emailAddress"].fields["address"].Str?
    then Some(v.fields["emailAddress"].fields["address"].s)
    else None
  }

  /** The addresses of a recipient list, or `None` if any entry names none. */
  function Addresses(vs: seq<Value>): Option<seq<string>>
    decreases |vs|
  {
    if |vs| == 0 then Some([])
    else match (AddressOf(vs[0]), Addresses(vs[1..]))
      case (Some(a), Some(rest)) => Some([a] + rest)
      case _ => None
  }

  /** Reading the recipients back gives the addresses, in order. */
  lemma {:induction false} RecipientsRoundTrip(addresses: seq<string>)
    ensures Addresses(Recipients(addresses)) == Some(addresses)
    decreases |addresses|
  {
    if |addresses| > 0 {
      var a, tail := addresses[0], addresses[1..];
      var rs := Recipients(addresses);
      assert rs == [Recipient(a)] + Recipients(tail);
      assert rs[0] == Recipient(a) && rs[1..] == Recipients(tail);
      RecipientsRoundTrip(tail);
      assert AddressOf(rs[0]) == Some(a);
      assert Addresses(rs) == Some([a] + tail);
      assert [a] + tail == addresses;
    }
  }

  // ------------------------------------------------------------ send mail

  /** `if cc:` is false both for no list and for an empty one. */
  predicate HasCc(cc: Option<seq<string>>) {
    cc.Some? && |cc.value| > 0
  }

  /** The `message` of `/me/sendMail`: subject, body with its content type,
      the recipients, and the copies only when there are some. */
  function MailMessage(to: seq<string>, subject: string, body: string, cc: Option<seq<string>>, isHtml: bool): (v: Value)
    ensures v.Obj? && v.fields.Keys == {"subject", "body", "toRecipients"} + (if HasCc(cc) then {"ccRecipients"} else {})
    ensures v.fields["subject"] == Str(subject) && v.fields["toRecipients"] == Arr(Recipients(to))
    ensures v.fields["body"] == Obj(map["contentType" := Str(if isHtml then "HTML" else "Text"), "content" := Str(body)])
    ensures HasCc(cc) ==> v.fields["ccRecipients"] == Arr(Recipients(cc.value))
  {
    var message := map["subject" := Str(subject),
                        "body" := Obj(map["contentType" := Str(if isHtml then "HTML" else "Text"),
                                          "content" := Str(body)]),
                        "toRecipients" := Arr(Recipients(to))];
    if HasCc(cc) then Obj(message["ccRecipients" := Arr(Recipients(cc.value))]) else Obj(message)
  }

  function SendMailRequest(to: seq<string>, subject: string, body: string, cc: Option<seq<string>>, isHtml: bool): Request {
    PostRequest("/me/sendMail",
      Obj(map["message" := MailMessage(to, subject, body, cc, isHtml), "saveToSentItems" := Bool(true)]),
      map[], map[])
  }

  /** Every recipient and every copy reaches the message, in order, and the
      message is always kept in Sent Items. */
  lemma SendMailCarriesRecipients(to: seq<string>, subject: string, body: string, cc: Option<seq<string>>, isHtml: bool)
    ensures var payload := SendMailRequest(to, subject, body, cc, isHtml).payload.json.fields;
      var m := payload["message"];
      && payload["saveToSentItems"] == Bool(true)
      && Addresses(m.fields["toRecipients"].items) == Some(to)
      && ("ccRecipients" in m.fields ==> cc.Some? && Addresses(m.fields["ccRecipients"].items) == Some(cc.value))
      && (cc.Some? && cc.value != [] ==> "ccRecipients" in m.fields)
  {
    RecipientsRoundTrip(to);
    if cc.Some? {
      RecipientsRoundTrip(cc.value);
    }
  }

  function SendMail(client: Client, to: seq<string>, subject: string, body: string,
                    cc: Option<seq<string>> := None, isHtml: bool := false): (run: Run)
    ensures run.requests == [SendMailRequest(to, subject, body, cc, isHtml)]
  {
    FixedReply(client, SendMailRequest(to, subject, body, cc, isHtml), Obj(map["status" := Str("Email sent")]))
  }

  // ---------------------------------------------------------------- reply

  function ReplyAction(replyAll: bool): string {
    if replyAll then "replyAll" else "reply"
  }

  function ReplyStatus(replyAll: bool): string {
    if replyAll then "Reply all sent" else "Reply sent"
  }

  function ReplyRequest(messageId: string, body: string, replyAll: bool): Request {
    PostRequest("/me/messages/" + messageId + "/" + ReplyAction(replyAll), Obj(map["comment" := Str(body)]), map[], map[])
  }

  /** `graph_reply_mail`: once the reply is posted the status names which
      reply was sent. */
  function ReplyMail(client: Client, messageId: string, body: string, replyAll: bool := false): (run: Run)
    ensures run.requests == [ReplyRequest(messageId, body, replyAll)]
  {
    FixedReply(client, ReplyRequest(messageId, body, replyAll), Obj(map["status" := Str(ReplyStatus(replyAll))]))
  }

  /** The two replies go to different endpoints and report different
      statuses. */
  lemma ReplyKinds(messageId: string, body: string)
    ensures ReplyRequest(messageId, body, true).path != ReplyRequest(messageId, body, false).path
    ensures ReplyStatus(true) != ReplyStatus(false)
  {
    var prefix := "/me/messages/" + messageId + "/";
    assert ReplyRequest(messageId, body, true).path == prefix + "replyAll";
    assert ReplyRequest(messageId, body, false).path == prefix + "reply";
    assert |prefix + "replyAll"| != |prefix + "reply"|;
    assert |ReplyStatus(true)| != |ReplyStatus(false)|;
  }

  /** `graph_list_mail`: one folder listing, answered with its `value`.
      By default the folder is the inbox, 25 messages are asked for and no
      filter is applied. */
  function ListMail(client: Client, folder: string := DefaultFolder, top: int := DefaultMailTop,
                    filterQuery: string := ""): (run: Run)
    ensures run.requests == [ListMailRequest(folder, top, filterQuery)]
  {
    ListReply(client, ListMailRequest(folder, top, filterQuery))
  }

  /** Without arguments the inbox's 25 newest messages are listed, unfiltered. */
  lemma ListMailDefaults(client: Client)
    ensures var r := ListMail(client).requests[0];
      && ListMail(client).requests == [ListMailRequest("inbox", 25, "")]
      && r.path == "/me/mailFolders/inbox/messages"
      && r.params.Keys == {"$select", "$top", "$orderby"}
      && r.params["$top"] == "25"
      && r.params["$orderby"] == "receivedDateTime desc"
  {
    TopParamMeaning(DefaultMailTop, MaxMail);
  }

  function ReadMail(client: Client, messageId: string): (run: Run)
    ensures run.requests == [GetRequest("/me/messages/" + messageId, map[], map[])]
  {
    ItemReply(client, GetRequest("/me/messages/" + messageId, map[], map[]))
  }

  function SearchMail(client: Client, query: string, top: int := DefaultMailTop): (run: Run)
    ensures run.requests == [SearchMailRequest(query, top)]
  {
    ListReply(client, SearchMailRequest(query, top))
  }

  /** Without a count a search asks for 25 messages. */
  lemma SearchMailDefaults(client: Client, query: string)
    ensures SearchMail(client, query).requests[0].params["$top"] == "25"
  {
    TopParamMeaning(DefaultMailTop, MaxMail);
  }

  /** Without the optional arguments a mail is plain text with no copy list. */
  lemma SendMailDefaults(client: Client, to: seq<string>, subject: string, body: string)
    ensures var message := SendMail(client, to, subject, body).requests[0].payload.json.fields["message"];
      && message.fields.Keys == {"subject", "body", "toRecipients"}
      && message.fields["body"] == Obj(map["contentType" := Str("Text"), "content" := Str(body)])
  {
    var m := MailMessage(to, subject, body, None, false);
    assert SendMail(client, to, subject, body).requests[0].payload.json.fields["message"] == m;
    assert !HasCc(None);
  }

  /** Without `reply_all` a reply goes to the sender only. */
  lemma ReplyMailDefaults(client: Client, messageId: string, body: string)
    ensures ReplyMail(client, messageId, body).requests[0].path == "/me/messages/" + messageId + "/reply"
  {
  }
}

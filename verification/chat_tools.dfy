/** The Teams chat tools: listing chats and their messages, sending a
    message, creating a chat (a one-on-one chat always includes the caller),
    and listing a chat's members. */
module ChatTools {
  import opened Base
  import opened Text
  import opened Json
  import opened Errors
  import opened GraphClient
  import opened Responses
  import opened Toolkit

  const ChatFields: string := "id,chatType,topic,createdDateTime,lastUpdatedDateTime"
  const MaxChats: int := 50
  const DefaultChatTop: int := 50
  const MemberType: string := "#microsoft.graph.aadUserConversationMember"
  const OneOnOne: string := "oneOnOne"
  const Group: string := "group"

  function ListChatsRequest(top: int): Request {
    GetRequest("/me/chats", map["$select" := ChatFields, "$top" := TopParam(top, MaxChats)], map[])
  }

  function ChatMessagesRequest(chatId: string, top: int): Request {
    GetRequest("/chats/" + chatId + "/messages", map["$top" := TopParam(top, MaxChats)], map[])
  }

  /** Both listings ask for at most 50 items. */
  lemma ChatClamps(chatId: string, top: int)
    ensures ParseInt(ListChatsRequest(top).params["$top"]) == Some(Min(top, MaxChats))
    ensures ParseInt(ChatMessagesRequest(chatId, top).params["$top"]) == Some(Min(top, MaxChats))
  {
    TopParamMeaning(top, MaxChats);
  }

  /** The message body: `html` content when asked for, plain `text` otherwise. */
  function MessageBody(message: string, isHtml: bool): Value {
    var contentType := if isHtml then "html" else "text";
    Obj(map["body" := Obj(map["contentType" := Str(contentType), "content" := Str(message)])])
  }

  function SendChatMessageRequest(chatId: string, message: string, isHtml: bool): Request {
    PostRequest("/chats/" + chatId + "/messages", MessageBody(message, isHtml), map[], map[])
  }

  /** The message text is sent untouched, and the content type is `html`
      exactly for an HTML message, `text` otherwise. */
  lemma MessageBodyReadsBack(message: string, isHtml: bool, other: string, otherHtml: bool)
    ensures var inner := MessageBody(message, isHtml).fields["body"].fields;
      && inner["content"] == Str(message)
      && (inner["contentType"] == Str("html") <==> isHtml)
      && (!isHtml ==> inner["contentType"] == Str("text"))
    ensures MessageBody(message, isHtml) == MessageBody(other, otherHtml) <==> message == other && isHtml == otherHtml
  {
    assert "html" != "text" by { assert "html"[0] != "text"[0]; }
    if MessageBody(message, isHtml) == MessageBody(other, otherHtml) {
      assert MessageBody(message, isHtml).fields["body"].fields["content"] == Str(message);
      assert MessageBody(message, isHtml).fields["body"].fields["contentType"]
        == MessageBody(other, otherHtml).fields["body"].fields["contentType"];
    }
  }

  // --------------------------------------------------------- create chat

  /** The directory reference of a member. */
  const UsersPrefix: string := BaseUrl + "/users('"

  function BindUrl(member: string): string {
    UsersPrefix + member + "')"
  }

  /** The member a directory reference names; `None` for anything else. */
  function BoundUser(url: string): Option<string> {
    if |url| >= |UsersPrefix| + 2 && url[..|UsersPrefix|] == UsersPrefix && url[|url| - 2..] == "')" then
      Some(url[|UsersPrefix|..|url| - 2])
    else None
  }

  /** The reference names exactly the member it was written for. */
  lemma BindRoundTrip(member: string)
    ensures BoundUser(BindUrl(member)) == Some(member)
  {
    var url := BindUrl(member);
    assert url == UsersPrefix + (member + "')");
    assert url[..|UsersPrefix|] == UsersPrefix;
    assert url[|url| - 2..] == "')";
    assert url[|UsersPrefix|..|url| - 2] == member;
  }

  /** One member of a new chat: a directory user with the owner role. */
  function MemberObject(member: string): Value {
    Obj(map["@odata.type" := Str(MemberType),
            "roles" := Arr([Str("owner")]),
            "user@odata.bind" := Str(BindUrl(member))])
  }

  /** The member objects, one per member, in order. */
  function MemberObjects(members: seq<string>): (r: seq<Value>)
    ensures |r| == |members|
    ensures forall i :: 0 <= i < |r| ==> r[i] == MemberObject(members[i])
    decreases |members|
  {
    if |members| == 0 then [] else [MemberObject(members[0])] + MemberObjects(members[1..])
  }

  /** The user a member object binds, read back from its reference. */
  function BoundMember(v: Value): Option<string> {
    if v.Obj? && "user@odata.bind" in v.fields && v.fields["user@odata.bind"].Str? then
      BoundUser(v.fields["user@odata.bind"].s)
    else None
  }

  /** Reading the member objects back gives the members, in order, and each
      is an owner. */
  lemma MemberObjectsReadBack(members: seq<string>)
    ensures var objs := MemberObjects(members);
      forall i :: 0 <= i < |objs| ==>
        BoundMember(objs[i]) == Some(members[i]) && objs[i].fields["roles"] == Arr([Str("owner")])
  {
    var objs := MemberObjects(members);
    forall i | 0 <= i < |objs|
      ensures BoundMember(objs[i]) == Some(members[i])
    {
      BindRoundTrip(members[i]);
    }
  }

  /** The member list of the new chat: a one-on-one chat gets the caller
      prepended when they are not already in it; other chats keep the list. */
  function ChatMembers(chatType: string, members: seq<string>, myId: string): (r: seq<string>)
    ensures chatType != OneOnOne ==> r == members
    ensures chatType == OneOnOne ==> myId in r
    ensures chatType == OneOnOne && myId in members ==> r == members
    ensures chatType == OneOnOne && myId !in members ==> |r| == |members| + 1 && r[0] == myId && r[1..] == members
  {
    if chatType == OneOnOne && myId !in members then [myId] + members else members
  }

  /** The body of `POST /chats`: its type and members, and the topic only
      for a group chat with a non-empty one. */
  function CreateChatBody(chatType: string, members: seq<string>, topic: string): (v: Value)
    ensures v.Obj? && "chatType" in v.fields && v.fields["chatType"] == Str(chatType)
    ensures "members" in v.fields && v.fields["members"] == Arr(MemberObjects(members))
    ensures "topic" in v.fields <==> topic != "" && chatType == Group
    ensures "topic" in v.fields ==> v.fields["topic"] == Str(topic)
    ensures v.fields.Keys <= {"chatType", "members", "topic"}
  {
    var body := map["chatType" := Str(chatType), "members" := Arr(MemberObjects(members))];
    if topic != "" && chatType == Group then Obj(body["topic" := Str(topic)]) else Obj(body)
  }

  function MeRequest(): Request {
    GetRequest("/me", map["$select" := "id"], map[])
  }

  /** The message of the `TypeError` Python raises for `v["id"]` when `v`
      is not a dictionary. */
  function SubscriptError(v: Value): string {
    match v
    case Arr(_) => "list indices must be integers or slices, not str"
    case Str(_) => "string indices must be integers, not 'str'"
    case _ => "'" + TypeName(v) + "' object is not subscriptable"
  }

  /** `me["id"]` on what `/me` returned: the id of an object holding one as
      text; `KeyError('id')` for an object without it; the `TypeError` of
      subscripting anything else (a 204 reads as `None`). */
  function MyId(me: Option<Value>): (r: Result<string, GraphError>)
    ensures r.Ok? <==> OrNull(me).Obj? && "id" in OrNull(me).fields && OrNull(me).fields["id"].Str?
    ensures r.Ok? ==> OrNull(me).fields["id"] == Str(r.value)
    ensures !OrNull(me).Obj? ==> r == Err(OtherError(SubscriptError(OrNull(me))))
    ensures OrNull(me).Obj? && "id" !in OrNull(me).fields ==> r == Err(OtherError("'id'"))
  {
    match OrNull(me)
    case Obj(fields) =>
      if "id" !in fields then Err(OtherError("'id'"))
      else if fields["id"].Str? then Ok(fields["id"].s)
      else Err(OtherError("the caller's id is not text"))
    case v => Err(OtherError(SubscriptError(v)))
  }

  function CreateChatRequest(chatType: string, members: seq<string>, topic: string): Request {
    PostRequest("/chats", CreateChatBody(chatType, members, topic), map[], map[])
  }

  /** `graph_create_chat`: a one-on-one chat asks `/me` for the caller's id
      first; other chats go straight to `POST /chats`. */
  function CreateChat(client: Client, chatType: string, members: seq<string>, topic: string := ""): (run: Run)
    ensures chatType != OneOnOne ==> run.requests == [CreateChatRequest(chatType, members, topic)]
    ensures chatType == OneOnOne ==> 1 <= |run.requests| <= 2 && run.requests[0] == MeRequest()
    ensures chatType == OneOnOne && |run.requests| == 2 ==>
      client(MeRequest()).Ok? && MyId(client(MeRequest()).value).Ok?
      && run.requests[1] == CreateChatRequest(chatType,
           ChatMembers(chatType, members, MyId(client(MeRequest()).value).value), topic)
  {
    if chatType == OneOnOne then
      match client(MeRequest())
      case Err(e) => Run([MeRequest()], RequireAuth(Err(e)))
      case Ok(me) =>
        match MyId(me)
        case Err(e) => Run([MeRequest()], RequireAuth(Err(e)))
        case Ok(myId) =>
          var post := ItemReply(client, CreateChatRequest(chatType, ChatMembers(chatType, members, myId), topic));
          Run([MeRequest()] + post.requests, post.reply)
    else ItemReply(client, CreateChatRequest(chatType, members, topic))
  }

  /** A one-on-one chat always binds the caller, and every member asked
      for, in the order given after the caller. */
  lemma OneOnOneIncludesCaller(members: seq<string>, myId: string, topic: string)
    ensures var body := CreateChatBody(OneOnOne, ChatMembers(OneOnOne, members, myId), topic);
      var objs := body.fields["members"].items;
      && "topic" !in body.fields
      && (exists i :: 0 <= i < |objs| && BoundMember(objs[i]) == Some(myId))
      && (myId !in members ==>
            && BoundMember(objs[0]) == Some(myId)
            && (forall i :: 0 <= i < |members| ==> BoundMember(objs[i + 1]) == Some(members[i])))
  {
    var chosen := ChatMembers(OneOnOne, members, myId);
    MemberObjectsReadBack(chosen);
    var objs := MemberObjects(chosen);
    var k :| 0 <= k < |chosen| && chosen[k] == myId;
    assert BoundMember(objs[k]) == Some(myId);
    if myId !in members {
      forall i | 0 <= i < |members|
        ensures BoundMember(objs[i + 1]) == Some(members[i])
      {
        assert chosen[i + 1] == members[i];
      }
    }
  }

  function ListChats(client: Client, top: int := DefaultChatTop): (run: Run)
    ensures run.requests == [ListChatsRequest(top)]
  {
    ListReply(client, ListChatsRequest(top))
  }

  function GetChatMessages(client: Client, chatId: string, top: int := DefaultChatTop): (run: Run)
    ensures run.requests == [ChatMessagesRequest(chatId, top)]
  {
    ListReply(client, ChatMessagesRequest(chatId, top))
  }

  function SendChatMessage(client: Client, chatId: string, message: string, isHtml: bool := false): (run: Run)
    ensures run.requests == [SendChatMessageRequest(chatId, message, isHtml)]
  {
    ItemReply(client, SendChatMessageRequest(chatId, message, isHtml))
  }

  /** Without the optional arguments both listings ask for 50 items, a
      message is plain text, and a chat is created without a topic. */
  lemma ChatDefaults(client: Client, chatId: string, message: string, chatType: string, members: seq<string>)
    ensures ListChats(client).requests[0].params["$top"] == "50"
    ensures GetChatMessages(client, chatId).requests[0].params["$top"] == "50"
    ensures SendChatMessage(client, chatId, message).requests[0].payload.json
      == Obj(map["body" := Obj(map["contentType" := Str("text"), "content" := Str(message)])])
    ensures chatType != OneOnOne ==>
      CreateChat(client, chatType, members).requests[0].payload.json
        == Obj(map["chatType" := Str(chatType), "members" := Arr(MemberObjects(members))])
  {
    TopParamMeaning(DefaultChatTop, MaxChats);
  }

  function ListChatMembers(client: Client, chatId: string): (run: Run)
    ensures run.requests == [GetRequest("/chats/" + chatId + "/members", map[], map[])]
  {
    ListReply(client, GetRequest("/chats/" + chatId + "/members", map[], map[]))
  }
}

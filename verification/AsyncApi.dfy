/** The AsyncAPI document: one channel per event or stream, and the messages the channels refer to. */
module AsyncApi {
  import opened Common
  import opened JsonValues
  import opened Specgen
  import opened EndpointTable

  datatype MessageDoc = MessageDoc(
    name: string, title: string, description: string, payload: Option<Json>, notes: Notes)

  datatype ChannelDoc = ChannelDoc(messageRef: string, confidence: string)

  predicate HasChannel(e: Endpoint) { e.kind != "operation" }

  function ChannelName(e: Endpoint): string { e.ns + "/" + e.name + "/v" + e.version }

  function MessageName(e: Endpoint): string { e.ns + "_" + e.name }

  function MessageOf(e: Endpoint): MessageDoc
  {
    MessageDoc(e.ns + "." + e.name, e.summary, e.description,
               if e.response.Object? then Some(e.response) else None, NotesOf(e))
  }

  function ChannelOf(e: Endpoint): ChannelDoc { ChannelDoc(MessageName(e), e.confidence) }

  function MessagesOf(e: Endpoint): map<string, MessageDoc>
  {
    if HasChannel(e) then map[MessageName(e) := MessageOf(e)] else map[]
  }

  function ChannelsOf(e: Endpoint): map<string, ChannelDoc>
  {
    if HasChannel(e) then map[ChannelName(e) := ChannelOf(e)] else map[]
  }

  method EmitAsyncApi(sorted: seq<Endpoint>)
    returns (channels: map<string, ChannelDoc>, messages: map<string, MessageDoc>)
    ensures channels == Table(sorted, ChannelsOf) && messages == Table(sorted, MessagesOf)
  {
    hide Table, ChannelName;
    channels, messages := map[], map[];
    TableEnds(sorted, ChannelsOf);
    TableEnds(sorted, MessagesOf);
    for i := 0 to |sorted|
      invariant channels == Table(sorted[..i], ChannelsOf) && messages == Table(sorted[..i], MessagesOf)
    {
      TableStep(sorted, ChannelsOf, i);
      TableStep(sorted, MessagesOf, i);
      var endpoint := sorted[i];
      if endpoint.kind == "operation" {
        PutNothing(channels);
        PutNothing(messages);
        continue;
      }
      var message := MakeMessage(endpoint);
      var messageName := endpoint.ns + "_" + endpoint.name;
      PutOne(messages, messageName, message);
      messages := messages[messageName := message];
      var channel := ChannelDoc(messageName, endpoint.confidence);
      PutOne(channels, ChannelName(endpoint), channel);
      channels := channels[ChannelName(endpoint) := channel];
    }
  }

  method MakeMessage(endpoint: Endpoint) returns (message: MessageDoc)
    ensures message == MessageOf(endpoint)
  {
    message := MessageDoc(
      endpoint.ns + "." + endpoint.name, endpoint.summary, endpoint.description, None, NotesOf(endpoint));
    if endpoint.response.Object? {
      message := message.(payload := Some(endpoint.response));
    }
  }

  lemma ChannelIsPath(e: Endpoint)
    ensures Path(e) == "/" + ChannelName(e)
  {
  }

  lemma SameEndpoint(es: seq<Endpoint>, e: Endpoint, f: Endpoint)
    requires DistinctKeys(es) && e in es && f in es && KeyOf(e) == KeyOf(f)
    ensures e == f
  {
    var i :| 0 <= i < |es| && es[i] == e;
    var j :| 0 <= j < |es| && es[j] == f;
  }

  /** Each event or stream has its own channel. */
  lemma OwnChannel(es: seq<Endpoint>, e: Endpoint)
    requires Ordered(es) && DistinctKeys(es) && (forall f :: f in es ==> ValidNames(f)) && e in es && HasChannel(e)
    ensures ChannelName(e) in Table(es, ChannelsOf) && Table(es, ChannelsOf)[ChannelName(e)] == ChannelOf(e)
  {
    hide Ordered, DistinctKeys, ValidNames, ChannelName, ChannelOf, Path, KeyOf;
    var name := ChannelName(e);
    forall f | LastUnder(es, ChannelsOf, f, name) ensures ChannelsOf(f)[name] == ChannelsOf(e)[name] {
      ChannelIsPath(e);
      ChannelIsPath(f);
      PathIsInjective(e, f);
      SameEndpoint(es, e, f);
    }
    FindsOwnEntry(es, ChannelsOf, e, name);
  }

  /** A channel describes its own endpoint: the message it refers to is that endpoint's. */
  ghost predicate Describes(channels: map<string, ChannelDoc>, messages: map<string, MessageDoc>, e: Endpoint)
  {
    && ChannelName(e) in channels && channels[ChannelName(e)].messageRef in messages
    && messages[channels[ChannelName(e)].messageRef] == MessageOf(e)
  }

  /** It does exactly when the canonically last message of that name equals the endpoint's. */
  lemma DescribesIff(es: seq<Endpoint>, e: Endpoint)
    requires Ordered(es) && DistinctKeys(es) && (forall f :: f in es ==> ValidNames(f)) && e in es && HasChannel(e)
    ensures Describes(Table(es, ChannelsOf), Table(es, MessagesOf), e) <==> Kept(es, MessagesOf, e, MessageName(e))
  {
    hide Ordered, DistinctKeys, ValidNames, Kept, Table;
    OwnChannel(es, e);
    FindsOwnEntry(es, MessagesOf, e, MessageName(e));
  }
}

/** The chat-history store (frontend/src/utils/chatStorage.ts): count-based pruning on save and
    structural filtering on load. The browser's storage is left out; what it holds is a parameter. */
module ChatStorage {
  import opened Wrappers
  import Seqs

  /** `MAX_MESSAGES`. */
  const MaxMessages := 1000

  /** A parsed JSON value. */
  datatype Json =
    | JNull
    | JBool(b: bool)
    | JNumber(n: real)
    | JString(s: string)
    | JArray(items: seq<Json>)
    | JObject(fields: map<string, Json>)

  datatype Role = User | Assistant

  datatype ChatMessage = ChatMessage(id: string, role: Role, content: string, createdAt: real)

  // ---- pruneMessages ----

  /** `pruneMessages`: the list itself when it holds at most 1000 messages, else its last 1000. */
  function PruneMessages<T>(messages: seq<T>): (r: seq<T>)
    ensures |messages| <= MaxMessages ==> r == messages
    ensures |messages| > MaxMessages ==> |r| == MaxMessages && messages == messages[..|messages| - MaxMessages] + r
    ensures |r| <= MaxMessages
  {
    if |messages| <= MaxMessages then messages else messages[|messages| - MaxMessages..]
  }

  /** Pruning a pruned list changes nothing, and the newest message always survives. */
  lemma PruneIdempotent<T>(messages: seq<T>)
    ensures PruneMessages(PruneMessages(messages)) == PruneMessages(messages)
    ensures messages != [] ==> PruneMessages(messages)[|PruneMessages(messages)| - 1] == messages[|messages| - 1]
  {
  }

  // ---- isValidMessage ----

  predicate StringField(fields: map<string, Json>, key: string) { key in fields && fields[key].JString? }

  /** `isValidMessage` on a non-null value: an object (arrays included, which never have the keys)
      with string `id` and `content`, role 'user' or 'assistant' and numeric `createdAt`. */
  predicate IsValidMessage(message: Json)
  {
    message.JObject? &&
    StringField(message.fields, "id") &&
    "role" in message.fields && message.fields["role"] in {JString("user"), JString("assistant")} &&
    StringField(message.fields, "content") &&
    "createdAt" in message.fields && message.fields["createdAt"].JNumber?
  }

  // ---- saveHistory / loadHistory ----

  function RoleJson(role: Role): Json
  {
    match role
    case User => JString("user")
    case Assistant => JString("assistant")
  }

  function MessageJson(m: ChatMessage): Json
  {
    JObject(map["id" := JString(m.id), "role" := RoleJson(m.role), "content" := JString(m.content),
                "createdAt" := JNumber(m.createdAt)])
  }

  function MessagesJson(messages: seq<ChatMessage>): (r: seq<Json>)
    ensures |r| == |messages| && forall i :: 0 <= i < |r| ==> r[i] == MessageJson(messages[i])
  {
    seq(|messages|, i requires 0 <= i < |messages| => MessageJson(messages[i]))
  }

  /** `saveHistory`: the object it stores, `{ messages: pruned, lastUpdated: now }`; `now` is the clock reading. */
  function SaveHistory(messages: seq<ChatMessage>, now: real): Json
  {
    JObject(map["messages" := JArray(MessagesJson(PruneMessages(messages))), "lastUpdated" := JNumber(now)])
  }

  /** What the storage returns for the key: nothing (or an empty string), text `JSON.parse` rejects,
      or a parsed value. */
  datatype Stored = NothingStored | Unparseable | Parsed(data: Json)

  /** `loadHistory`. A null entry makes `isValidMessage` throw inside the filter; the `catch` then
      returns an empty history, like every other failure. */
  function LoadHistory(stored: Stored): seq<Json>
  {
    match stored
    case NothingStored => []
    case Unparseable => []
    case Parsed(data) =>
      if !data.JObject? || "messages" !in data.fields || !data.fields["messages"].JArray? then []
      else
        var messages := data.fields["messages"].items;
        if JNull in messages then [] else Seqs.Filter(messages, IsValidMessage)
  }

  /** A loaded history holds only valid messages, in their stored order, and every valid stored message. */
  lemma LoadHistoryKeepsValid(stored: Stored)
    ensures forall i :: 0 <= i < |LoadHistory(stored)| ==> IsValidMessage(LoadHistory(stored)[i])
    ensures stored.Parsed? && stored.data.JObject? && "messages" in stored.data.fields &&
            stored.data.fields["messages"].JArray? && JNull !in stored.data.fields["messages"].items ==>
              var items := stored.data.fields["messages"].items;
              LoadHistory(stored) == Seqs.Filter(items, IsValidMessage) &&
              |LoadHistory(stored)| <= |items| &&
              forall i :: 0 <= i < |items| && IsValidMessage(items[i]) ==> items[i] in LoadHistory(stored)
  {
  }

  /** A missing, unparseable or ill-shaped store, or a `messages` that is not an array, loads as empty. */
  lemma LoadHistoryEmptyCases(stored: Stored)
    requires stored.NothingStored? || stored.Unparseable? ||
             (stored.Parsed? && (!stored.data.JObject? || "messages" !in stored.data.fields ||
                                 !stored.data.fields["messages"].JArray?))
    ensures LoadHistory(stored) == []
  {
  }

  /** Every saved message is a valid one. */
  lemma MessageJsonValid(m: ChatMessage)
    ensures IsValidMessage(MessageJson(m))
  {
    assert RoleJson(m.role) in {JString("user"), JString("assistant")};
  }

  /** Saving then loading gives back the (pruned) history: at most the newest 1000 messages, in order. */
  lemma SaveThenLoad(messages: seq<ChatMessage>, now: real)
    ensures LoadHistory(Parsed(SaveHistory(messages, now))) == MessagesJson(PruneMessages(messages))
    ensures |LoadHistory(Parsed(SaveHistory(messages, now)))| <= MaxMessages
  {
    var items := MessagesJson(PruneMessages(messages));
    var saved := SaveHistory(messages, now);
    assert "messages" in saved.fields && saved.fields["messages"] == JArray(items);
    forall i | 0 <= i < |items| ensures IsValidMessage(items[i]) {
      MessageJsonValid(PruneMessages(messages)[i]);
    }
    assert JNull !in items by {
      forall i | 0 <= i < |items| ensures items[i] != JNull {
        MessageJsonValid(PruneMessages(messages)[i]);
      }
    }
    Seqs.FilterKeepsAll(items, IsValidMessage);
    assert LoadHistory(Parsed(saved)) == Seqs.Filter(items, IsValidMessage);
  }
}

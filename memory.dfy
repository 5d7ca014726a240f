/**
 * The per-user memory record: how it is loaded at session start (fail-open),
 * which greeting it selects, how a reply updates it, and the write sent back.
 */
module Memory {
  import opened Wrappers

  /** A JSON value, as the client holds the opaque `userProfile` entries. */
  datatype Json =
    | JNull
    | JBool(b: bool)
    | JNumber(n: int)
    | JString(s: string)
    | JArray(items: seq<Json>)
    | JObject(fields: map<string, Json>)

  /** `{lastInteraction, lastMessage, userProfile}`; `lastInteraction` is a `Date.now()`
      value in milliseconds or `null`. */
  datatype UserMemory = UserMemory(lastInteraction: Option<nat>, lastMessage: string, userProfile: map<string, Json>)

  /** `{lastInteraction: null, lastMessage: "", userProfile: {}}` */
  const DefaultMemory := UserMemory(None, "", map[])

  /** The parsed body of the memory response: not JSON at all, the JSON `null`, or a record. */
  datatype Body = Unparseable | NullBody | Record(memory: UserMemory)

  /** Outcome of `GET /api/memory?userId=...`. */
  datatype MemoryResponse = NetworkError | HttpResponse(status: int, body: Body)

  /** `Response.ok`: a status in the range 200-299. */
  predicate IsOk(status: int) {
    200 <= status <= 299
  }

  /** Every way the load ends in its `catch` block. */
  predicate LoadFailed(resp: MemoryResponse) {
    resp.NetworkError? || !IsOk(resp.status) || resp.body.Unparseable?
  }

  /** The value `loadMemory` assigns to `userMemory`; there is no error outcome. */
  function LoadedMemory(resp: MemoryResponse): (m: Option<UserMemory>)
    ensures LoadFailed(resp) ==> m == Some(DefaultMemory)
    ensures !LoadFailed(resp) && resp.body.Record? ==> m == Some(resp.body.memory)
    ensures m.None? <==> !LoadFailed(resp) && resp.body.NullBody?
  {
    match resp
    case NetworkError => Some(DefaultMemory)
    case HttpResponse(status, body) =>
      if !IsOk(status) then Some(DefaultMemory)
      else match body
        case Unparseable => Some(DefaultMemory)
        case NullBody => None
        case Record(m) => Some(m)
  }

  const GenericGreeting := "hey babe... i'm right here, what's on your mind? 💜"
  const ReturningPrefix := "hey, you came back... still thinking about: "
  const ReturningSuffix := " ? 😌"

  /** A greeting of the memory-aware shape: the returning prefix, some text, the suffix. */
  predicate IsReturningGreeting(g: string) {
    |ReturningPrefix| + |ReturningSuffix| <= |g|
    && g[..|ReturningPrefix|] == ReturningPrefix
    && g[|g| - |ReturningSuffix|..] == ReturningSuffix
  }

  /** The text embedded in a memory-aware greeting. */
  function RecalledText(g: string): string
    requires IsReturningGreeting(g)
  {
    g[|ReturningPrefix|..|g| - |ReturningSuffix|]
  }

  /** The greeting shown once memory has loaded; the memory-aware variant needs a
      truthy `userMemory` whose `lastMessage` is truthy. */
  function Greeting(m: Option<UserMemory>): string
  {
    if m.Some? && m.value.lastMessage != "" then ReturningPrefix + m.value.lastMessage + ReturningSuffix
    else GenericGreeting
  }

  /** The memory-aware greeting appears exactly when there is a non-empty last message,
      and then it quotes that message verbatim. */
  lemma GreetingRecallsLastMessage(m: Option<UserMemory>)
    ensures IsReturningGreeting(Greeting(m)) <==> m.Some? && m.value.lastMessage != ""
    ensures IsReturningGreeting(Greeting(m)) ==> RecalledText(Greeting(m)) == m.value.lastMessage
    ensures !IsReturningGreeting(Greeting(m)) ==> Greeting(m) == GenericGreeting
  {
  }

  /** A failed load never produces the memory-aware greeting. */
  lemma FailedLoadGreetsGenerically(resp: MemoryResponse)
    requires LoadFailed(resp)
    ensures Greeting(LoadedMemory(resp)) == GenericGreeting
    ensures !IsReturningGreeting(Greeting(LoadedMemory(resp)))
  {
  }

  /** The memory after a successful reply: a missing record is first replaced by the
      default, then `lastInteraction` and `lastMessage` are overwritten in place. */
  function RecordReply(m: Option<UserMemory>, reply: string, now: nat): (r: UserMemory)
    ensures r.lastInteraction == Some(now)
    ensures r.lastMessage == reply
    ensures m.Some? ==> r.userProfile == m.value.userProfile
    ensures m.None? ==> r.userProfile == map[]
  {
    var base := if m.None? then DefaultMemory else m.value;
    base.(lastInteraction := Some(now)).(lastMessage := reply)
  }

  /** Body of `POST /api/memory`: the whole record replaces the stored one. */
  datatype MemoryWrite = MemoryWrite(userId: string, memory: UserMemory)

  /** A recorded reply that the backend later returns on load is what the next
      session's greeting quotes. */
  lemma RecordedReplyIsRecalled(m: Option<UserMemory>, reply: string, now: nat, status: int)
    requires reply != "" && IsOk(status)
    ensures IsReturningGreeting(Greeting(LoadedMemory(HttpResponse(status, Record(RecordReply(m, reply, now))))))
    ensures RecalledText(Greeting(LoadedMemory(HttpResponse(status, Record(RecordReply(m, reply, now)))))) == reply
  {
  }
}

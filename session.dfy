/**
 * The turn controller: the session state the page keeps in module-level
 * variables and DOM elements, the memory load that runs on page load, the
 * typed reveal of a reply, the typing indicator, and one user turn.
 */
module Session {
  import opened Wrappers
  import JsText
  import Memory
  import Render

  datatype Role = User | Assistant

  /** `{role, content}` as kept in `conversation` and sent to the backend. */
  datatype Entry = Entry(role: Role, content: string)

  /** Body of `POST /api/chat`: the user id and the whole conversation so far. */
  datatype ChatRequest = ChatRequest(userId: string, messages: seq<Entry>)

  /** Outcome of the chat call. The status code is not inspected, so any parsed object
      body is a reply (an absent `reply` field held as ""); a transport error, a body
      that is not JSON, or a `null` body lands in the `catch` block. */
  datatype ChatOutcome = ChatFailed | ChatReply(reply: string, media: Option<Render.Media>)

  const GlitchReply := "mm... something glitched babe..."
  const ConnectionApology := "ugh, my connection glitched... can you try again in a sec?"
  const TypingLabel := "typing..."
  const OnlineLabel := "online ●"

  /** `data.reply || "mm... something glitched babe..."` */
  function ReplyText(reply: string): (r: string)
    ensures r != ""
    ensures reply != "" ==> r == reply
    ensures reply == "" ==> r == GlitchReply
  {
    if reply != "" then reply else GlitchReply
  }

  /** The observable state of a session. */
  datatype SessionState = SessionState(
    conversation: seq<Entry>,
    userMemory: Option<Memory.UserMemory>,
    transcript: seq<Render.Bubble>,
    typingHidden: bool,
    status: string,
    input: string,
    chatRequests: seq<ChatRequest>,
    memoryWrites: seq<Memory.MemoryWrite>)

  /** The status label always matches the indicator. */
  predicate IndicatorConsistent(s: SessionState) {
    s.status == (if s.typingHidden then OnlineLabel else TypingLabel)
  }

  function UserBubble(text: string): Render.Bubble {
    Render.Bubble(Render.UserSender, text, [], false)
  }

  /** A finished typed reveal of a reply: voice button, full text, then its media. */
  function ReplyBubble(text: string, media: Option<Render.Media>): Render.Bubble {
    Render.AttachMedia(Render.Bubble(Render.VioletSender, text, [], true), media)
  }

  function ApologyBubble(): Render.Bubble {
    Render.Bubble(Render.VioletSender, ConnectionApology, [], false)
  }

  /** The state after `sendMessage()` has run to its end, given the chat call's outcome
      and the clock reading taken when the reply is recorded. */
  function Submit(s: SessionState, userId: string, outcome: ChatOutcome, now: nat): SessionState
  {
    var text := JsText.Trim(s.input);
    if text == "" then s
    else
      var conv := s.conversation + [Entry(User, text)];
      var transcript := s.transcript + [UserBubble(text)];
      var requests := s.chatRequests + [ChatRequest(userId, conv)];
      match outcome
      case ChatFailed =>
        s.(conversation := conv, transcript := transcript + [ApologyBubble()],
           typingHidden := true, status := OnlineLabel, input := "", chatRequests := requests)
      case ChatReply(reply, media) =>
        var replyText := ReplyText(reply);
        var memory := Memory.RecordReply(s.userMemory, replyText, now);
        s.(conversation := conv + [Entry(Assistant, replyText)],
           userMemory := Some(memory),
           transcript := transcript + [ReplyBubble(replyText, media)],
           typingHidden := true, status := OnlineLabel, input := "", chatRequests := requests,
           memoryWrites := s.memoryWrites + [Memory.MemoryWrite(userId, memory)])
  }

  /** Input that trims to nothing (whitespace only) changes nothing: no bubble, no entry,
      no indicator change, no request. */
  lemma BlankInputChangesNothing(s: SessionState, userId: string, outcome: ChatOutcome, now: nat)
    requires JsText.AllWhitespace(s.input)
    ensures Submit(s, userId, outcome, now) == s
  {
  }

  /** A non-blank submission shows the trimmed text as a user bubble, clears the input,
      and sends exactly one request carrying the conversation with the user entry last. */
  lemma SubmissionSendsUserEntry(s: SessionState, userId: string, outcome: ChatOutcome, now: nat)
    requires !JsText.AllWhitespace(s.input)
    ensures var t := Submit(s, userId, outcome, now);
      && t.input == ""
      && |t.transcript| == |s.transcript| + 2
      && t.transcript[|s.transcript|] == UserBubble(JsText.Trim(s.input))
      && t.chatRequests == s.chatRequests + [ChatRequest(userId, s.conversation + [Entry(User, JsText.Trim(s.input))])]
      && t.typingHidden && IndicatorConsistent(t)
  {
  }

  /** A successful turn adds the user entry and then the assistant entry, shows the reply
      bubble, records the reply in memory without touching the profile, and writes the
      memory back once. */
  lemma SuccessfulTurn(s: SessionState, userId: string, reply: string, media: Option<Render.Media>, now: nat)
    requires !JsText.AllWhitespace(s.input)
    ensures var t := Submit(s, userId, ChatReply(reply, media), now);
      var text := JsText.Trim(s.input);
      var replyText := ReplyText(reply);
      && t.conversation == s.conversation + [Entry(User, text), Entry(Assistant, replyText)]
      && t.transcript == s.transcript + [UserBubble(text), ReplyBubble(replyText, media)]
      && t.userMemory.Some?
      && t.userMemory.value.lastMessage == replyText
      && t.userMemory.value.lastInteraction == Some(now)
      && t.userMemory.value.userProfile == (if s.userMemory.Some? then s.userMemory.value.userProfile else map[])
      && t.memoryWrites == s.memoryWrites + [Memory.MemoryWrite(userId, t.userMemory.value)]
  {
  }

  /** A failed turn keeps the user entry but adds no assistant entry, leaves memory
      alone, and shows exactly one apology bubble after the user bubble. */
  lemma FailedTurn(s: SessionState, userId: string, now: nat)
    requires !JsText.AllWhitespace(s.input)
    ensures var t := Submit(s, userId, ChatFailed, now);
      var text := JsText.Trim(s.input);
      && t.conversation == s.conversation + [Entry(User, text)]
      && t.transcript == s.transcript + [UserBubble(text), ApologyBubble()]
      && t.userMemory == s.userMemory
      && t.memoryWrites == s.memoryWrites
      && t.typingHidden && t.status == OnlineLabel
  {
  }

  /** After a successful turn, a later load that returns the written record greets the
      user with the reply just received. */
  lemma ReplyIsRecalledNextSession(s: SessionState, userId: string, reply: string, media: Option<Render.Media>, now: nat, status: int)
    requires !JsText.AllWhitespace(s.input) && Memory.IsOk(status)
    ensures var t := Submit(s, userId, ChatReply(reply, media), now);
      var written := t.memoryWrites[|t.memoryWrites| - 1].memory;
      var g := Memory.Greeting(Memory.LoadedMemory(Memory.HttpResponse(status, Memory.Record(written))));
      Memory.IsReturningGreeting(g) && Memory.RecalledText(g) == ReplyText(reply)
  {
  }

  /** The page's session. `userId` comes from the identity bootstrap; typing indicator
      and status start as the page markup sets them. */
  class ChatClient {
    const userId: string
    var conversation: seq<Entry>
    var userMemory: Option<Memory.UserMemory>
    var transcript: seq<Render.Bubble>
    var typingHidden: bool
    var status: string
    var input: string
    /** Requests issued to `/api/chat` and `POST /api/memory`, in order. */
    var chatRequests: seq<ChatRequest>
    var memoryWrites: seq<Memory.MemoryWrite>

    function State(): SessionState
      reads this
    {
      SessionState(conversation, userMemory, transcript, typingHidden, status, input, chatRequests, memoryWrites)
    }

    constructor (userId: string, typingHidden: bool, status: string)
      ensures this.userId == userId && this.typingHidden == typingHidden && this.status == status
      ensures conversation == [] && userMemory == None && transcript == [] && input == ""
      ensures chatRequests == [] && memoryWrites == []
    {
      this.userId := userId;
      this.typingHidden := typingHidden;
      this.status := status;
      conversation := [];
      userMemory := None;
      transcript := [];
      input := "";
      chatRequests := [];
      memoryWrites := [];
    }

    /** `loadMemory()`: assigns and returns the loaded (or default) record. */
    method LoadMemory(resp: Memory.MemoryResponse) returns (m: Option<Memory.UserMemory>)
      modifies this`userMemory
      ensures userMemory == Memory.LoadedMemory(resp) && m == userMemory
      ensures Memory.LoadFailed(resp) ==> userMemory == Some(Memory.DefaultMemory)
    {
      match resp {
        case NetworkError =>
          userMemory := Some(Memory.DefaultMemory);
        case HttpResponse(status, body) =>
          if !Memory.IsOk(status) {
            userMemory := Some(Memory.DefaultMemory);
          } else if body.Unparseable? {
            userMemory := Some(Memory.DefaultMemory);
          } else if body.NullBody? {
            userMemory := None;
          } else {
            userMemory := Some(body.memory);
          }
      }
      m := userMemory;
    }

    /** The `load` handler: load memory, then show the greeting as a static bubble. */
    method OnLoad(resp: Memory.MemoryResponse)
      modifies this`userMemory, this`transcript
      ensures userMemory == Memory.LoadedMemory(resp)
      ensures transcript == old(transcript) + [Render.Bubble(Render.VioletSender, Memory.Greeting(userMemory), [], false)]
    {
      var _ := LoadMemory(resp);
      var greeting := Memory.GenericGreeting;
      if userMemory.Some? && userMemory.value.lastMessage != "" {
        greeting := Memory.ReturningPrefix + userMemory.value.lastMessage + Memory.ReturningSuffix;
      }
      var _ := AddMessage(Render.VioletSender, greeting);
    }

    /** `saveMemory()`: nothing without a record, otherwise one fire-and-forget write. */
    method SaveMemory()
      modifies this`memoryWrites
      ensures userMemory.None? ==> memoryWrites == old(memoryWrites)
      ensures userMemory.Some? ==> memoryWrites == old(memoryWrites) + [Memory.MemoryWrite(userId, userMemory.value)]
    {
      if userMemory.None? {
        return;
      }
      memoryWrites := memoryWrites + [Memory.MemoryWrite(userId, userMemory.value)];
    }

    /** `addMessage(sender, text)`: a complete bubble; returns its position as the handle. */
    method AddMessage(sender: Render.Sender, text: string) returns (b: nat)
      modifies this`transcript
      ensures transcript == old(transcript) + [Render.Bubble(sender, text, [], false)]
      ensures b == |old(transcript)|
    {
      transcript := transcript + [Render.Bubble(sender, text, [], false)];
      b := |transcript| - 1;
    }

    /** `addMediaToMessage(container, media)` on the bubble at position `b`. */
    method AddMediaToMessage(b: nat, media: Option<Render.Media>)
      requires b < |transcript|
      modifies this`transcript
      ensures transcript == old(transcript)[b := Render.AttachMedia(old(transcript)[b], media)]
    {
      if media.None? || media.value.kind == "" || media.value.src == "" {
        assert Render.MediaElements(media) == [];
        assert transcript[b].attachments + [] == transcript[b].attachments;
        assert transcript == transcript[b := transcript[b]];
        return;
      }
      var bubble := transcript[b];
      if media.value.kind == "image" {
        bubble := bubble.(attachments := bubble.attachments + [Render.Image(media.value.src)]);
      }
      if media.value.kind == "video" {
        bubble := bubble.(attachments := bubble.attachments + [Render.Video(media.value.src)]);
      }
      assert bubble == Render.AttachMedia(transcript[b], media);
      transcript := transcript[b := bubble];
    }

    /** `typeOutMessage(sender, fullText, media)`, the timer chain run as a loop. After
        character `k` is shown the chain waits `StepDelay(draw(k))`; `delays` are those
        waits, `elapsed` their total (the time from the first character to the media
        attachment), and `frames` the texts the bubble held, one per step. */
    method TypeOutMessage(sender: Render.Sender, fullText: string, media: Option<Render.Media>, draw: nat -> real)
      returns (elapsed: real, ghost frames: seq<string>, ghost delays: seq<real>)
      requires forall k :: 0.0 <= draw(k) < 1.0
      modifies this`transcript
      ensures transcript == old(transcript) + [Render.AttachMedia(Render.Bubble(sender, fullText, [], sender == Render.VioletSender), media)]
      ensures |frames| == |fullText| + 1 && frames[0] == "" && frames[|fullText|] == fullText
      ensures forall k :: 0 <= k <= |fullText| ==> frames[k] == fullText[..k]
      ensures forall j, k :: 0 <= j < k <= |fullText| ==> frames[j] < frames[k]
      ensures |delays| == |fullText|
      ensures forall k :: 0 <= k < |fullText| ==> delays[k] == Render.StepDelay(draw(k))
      ensures forall k :: 0 <= k < |fullText| ==> Render.MinDelay <= delays[k] < Render.MaxDelay
      ensures elapsed == Render.Sum(delays)
      ensures Render.MinDelay * |fullText| as real <= elapsed <= Render.MaxDelay * |fullText| as real
      ensures fullText != "" ==> elapsed < Render.MaxDelay * |fullText| as real
    {
      transcript := transcript + [Render.Bubble(sender, "", [], false)];
      var b := |transcript| - 1;
      if sender == Render.VioletSender {
        transcript := transcript[b := transcript[b].(voiceButton := true)];
      }
      elapsed, frames, delays := TypeChain(b, fullText, draw);
      if media.Some? {
        AddMediaToMessage(b, media);
      }
      Render.PrefixTraceGrows(frames, fullText);
      Render.SumOfStepDelays(delays);
    }

    /** The `typeNext()` chain on the empty span of bubble `b`: one character per step,
        each followed by a wait of `StepDelay(draw(k))`, until the text is complete. */
    method TypeChain(b: nat, fullText: string, draw: nat -> real)
      returns (elapsed: real, ghost frames: seq<string>, ghost delays: seq<real>)
      requires b < |transcript| && transcript[b].text == ""
      requires forall k :: 0.0 <= draw(k) < 1.0
      modifies this`transcript
      ensures transcript == old(transcript)[b := old(transcript)[b].(text := fullText)]
      ensures |frames| == |fullText| + 1
      ensures forall k :: 0 <= k <= |fullText| ==> frames[k] == fullText[..k]
      ensures |delays| == |fullText|
      ensures forall k :: 0 <= k < |fullText| ==> delays[k] == Render.StepDelay(draw(k))
      ensures elapsed == Render.Sum(delays)
    {
      var i := 0;
      elapsed := 0.0;
      frames := [transcript[b].text];
      delays := [];
      while i < |fullText|
        invariant 0 <= i <= |fullText|
        invariant transcript == old(transcript)[b := old(transcript)[b].(text := fullText[..i])]
        invariant |frames| == i + 1 && frames[i] == transcript[b].text
        invariant forall k :: 0 <= k <= i ==> frames[k] == fullText[..k]
        invariant |delays| == i && forall k :: 0 <= k < i ==> delays[k] == Render.StepDelay(draw(k))
        invariant elapsed == Render.Sum(delays)
      {
        TypeNext(b, fullText[i]);
        assert transcript[b].text == fullText[..i + 1];
        frames := frames + [transcript[b].text];
        i := i + 1;
        var delay := Render.StepDelay(draw(i - 1));
        Render.SumAppend(delays, delay);
        delays := delays + [delay];
        elapsed := elapsed + delay;
      }
      assert fullText[..|fullText|] == fullText;
    }

    /** One step of `typeNext()`: the character joins the span of bubble `b`. */
    method TypeNext(b: nat, c: char)
      requires b < |transcript|
      modifies this`transcript
      ensures transcript == old(transcript)[b := old(transcript)[b].(text := old(transcript)[b].text + [c])]
    {
      transcript := transcript[b := transcript[b].(text := transcript[b].text + [c])];
    }

    /** `showTyping()` */
    method ShowTyping()
      modifies this`typingHidden, this`status
      ensures !typingHidden && status == TypingLabel
    {
      typingHidden := false;
      status := TypingLabel;
    }

    /** `hideTyping()` */
    method HideTyping()
      modifies this`typingHidden, this`status
      ensures typingHidden && status == OnlineLabel
    {
      typingHidden := true;
      status := OnlineLabel;
    }

    /** `sendMessage()` run to its end: the chat call's outcome, the clock reading and the
        random draws of the reveal are given. */
    method SendMessage(outcome: ChatOutcome, now: nat, draw: nat -> real)
      requires forall k :: 0.0 <= draw(k) < 1.0
      modifies this
      ensures State() == Submit(old(State()), userId, outcome, now)
    {
      ghost var s0 := State();
      var text := JsText.Trim(input);
      if text == "" {
        return;
      }
      var _ := AddMessage(Render.UserSender, text);
      conversation := conversation + [Entry(User, text)];
      input := "";
      ShowTyping();
      chatRequests := chatRequests + [ChatRequest(userId, conversation)];
      ghost var s1 := State();
      assert s1 == s0.(conversation := s0.conversation + [Entry(User, text)],
                       transcript := s0.transcript + [UserBubble(text)],
                       typingHidden := false, status := TypingLabel, input := "",
                       chatRequests := s0.chatRequests + [ChatRequest(userId, s0.conversation + [Entry(User, text)])]);
      match outcome {
        case ChatReply(reply, media) =>
          ReceiveReply(reply, media, now, draw);
          assert State() == Submit(s0, userId, outcome, now);
        case ChatFailed =>
          ReceiveFailure();
          assert State() == Submit(s0, userId, outcome, now);
      }
    }

    /** The `try` block after the chat call returned a parsed body. */
    method ReceiveReply(reply: string, media: Option<Render.Media>, now: nat, draw: nat -> real)
      requires forall k :: 0.0 <= draw(k) < 1.0
      modifies this
      ensures typingHidden && status == OnlineLabel && input == old(input) && chatRequests == old(chatRequests)
      ensures transcript == old(transcript) + [ReplyBubble(ReplyText(reply), media)]
      ensures conversation == old(conversation) + [Entry(Assistant, ReplyText(reply))]
      ensures userMemory == Some(Memory.RecordReply(old(userMemory), ReplyText(reply), now))
      ensures memoryWrites == old(memoryWrites) + [Memory.MemoryWrite(userId, userMemory.value)]
    {
      HideTyping();
      var replyText := ReplyText(reply);
      var elapsed: real;
      ghost var frames: seq<string>, delays: seq<real>;
      elapsed, frames, delays := TypeOutMessage(Render.VioletSender, replyText, media, draw);
      conversation := conversation + [Entry(Assistant, replyText)];
      if userMemory.None? {
        userMemory := Some(Memory.DefaultMemory);
      }
      userMemory := Some(userMemory.value.(lastInteraction := Some(now)));
      userMemory := Some(userMemory.value.(lastMessage := replyText));
      SaveMemory();
    }

    /** The `catch` block: hide the indicator and show the static apology. */
    method ReceiveFailure()
      modifies this`typingHidden, this`status, this`transcript
      ensures typingHidden && status == OnlineLabel
      ensures transcript == old(transcript) + [ApologyBubble()]
    {
      HideTyping();
      var _ := AddMessage(Render.VioletSender, ConnectionApology);
    }
  }
}

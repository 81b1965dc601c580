/**
 * The message handler (`handle_message`): for every text or caption
 * message, it deletes a mention written by someone else, then answers only
 * in chats switched on with `.chat on` or to replies to the owner. The
 * messaging client is not modelled: whether deletion succeeds and what the
 * providers answer (or that the time limit ran out) are inputs.
 */
module Pipeline {
  import opened Wrappers
  import opened Text
  import opened Limiter
  import opened Json
  import opened Siputzx
  import opened Store
  import Config
  import LimiterExamples

  // `MENTION_REGEX.search(text)` for `@\w+`.

  /** `\w` on ASCII: letters, digits and '_'. */
  predicate IsWordChar(c: char) {
    ('a' <= c <= 'z') || ('A' <= c <= 'Z') || ('0' <= c <= '9') || c == '_'
  }

  /** A match of `@\w+` can start at `p`. */
  predicate MentionAt(s: string, p: int) {
    0 <= p && p + 1 < |s| && s[p] == '@' && IsWordChar(s[p + 1])
  }

  /** The start of the leftmost match of `@\w+` at or after `p`. */
  function SearchMention(s: string, p: nat): (r: Option<nat>)
    requires p <= |s|
    ensures r.None? <==> forall i :: p <= i < |s| ==> !MentionAt(s, i)
    ensures r.Some? ==> p <= r.value < |s| && MentionAt(s, r.value) &&
                        forall i :: p <= i < r.value ==> !MentionAt(s, i)
    decreases |s| - p
  {
    if p == |s| then None
    else if MentionAt(s, p) then Some(p)
    else SearchMention(s, p + 1)
  }

  // The facts the handler reads.

  /**
   * A message as the handler sees it: its chat (none for some service
   * updates), its text and caption ("" when absent), whether the owner sent
   * it, and whether it replies to a message of the owner.
   */
  datatype Message = Message(chat: Option<int>, text: string, caption: string,
                             fromSelf: bool, replyToSelf: bool)

  /** `(m.text or m.caption or "").strip()`. */
  function MessageText(m: Message): (r: string)
    ensures IsTrimmed(r)
    ensures r == [] <==> AllSpace(if m.text != [] then m.text else m.caption)
  {
    Trim(if m.text != [] then m.text else m.caption)
  }

  /** A non-empty text with a mention, from someone other than the owner, is to be deleted. */
  predicate ShouldDelete(text: string, fromSelf: bool)
    ensures ShouldDelete(text, fromSelf) <==>
            text != [] && !fromSelf && exists i :: 0 <= i < |text| && MentionAt(text, i)
  {
    text != [] && !fromSelf && SearchMention(text, 0).Some?
  }

  /** What the generation did: the time limit ran out, or `call_siputzx` finished with these provider outcomes. */
  datatype GenOutcome = TimedOut | Finished(primary: Outcome, fallback: Outcome)

  /** MAX_SENTENCES and MAX_CHARS. */
  datatype Settings = Settings(maxSentences: int, maxChars: int)

  const DefaultSettings := Settings(Config.DefaultMaxSentences, Config.DefaultMaxChars)

  datatype Action = Ignore | Deleted | Reply(text: string)

  /** The answer for `text` in a chat with this role; a timeout is no answer. */
  function Generated(text: string, role: string, gen: GenOutcome): (r: Option<string>)
    ensures IsAnswer(r)
    ensures AllSpace(text) ==> r.None?
    ensures gen.TimedOut? ==> r.None?
    ensures gen.Finished? ==> r == CallSiputzx(text, RoleOrDefault(role), gen.primary, gen.fallback).answer
  {
    match gen
    case TimedOut => None
    case Finished(primary, fallback) => CallSiputzx(text, RoleOrDefault(role), primary, fallback).answer
  }

  /** `limit_response(answer or fallback_reply(text), MAX_SENTENCES, MAX_CHARS)`. */
  function ReplyText(answer: Option<string>, settings: Settings): (r: string)
    ensures IsTrimmed(r)
    ensures 0 <= settings.maxChars ==> |r| <= settings.maxChars
    ensures (answer.Some? && answer.value != []) ==>
              r == LimitResponse(answer.value, settings.maxSentences, settings.maxChars)
    ensures (answer.None? || answer.value == []) ==>
              r == LimitResponse(Config.FallbackReply, settings.maxSentences, settings.maxChars)
  {
    var full := if answer.Some? && answer.value != [] then answer.value else Config.FallbackReply;
    LimitResponse(full, settings.maxSentences, settings.maxChars)
  }

  /**
   * The handler's decision for a message, given the chat's settings,
   * whether `m.delete()` succeeds, and the generation outcome.
   */
  function Decide(m: Message, cfg: Cfg, deleteOk: bool, gen: GenOutcome, settings: Settings): (a: Action)
    ensures a.Deleted? <==> m.chat.Some? && ShouldDelete(MessageText(m), m.fromSelf) && deleteOk
    ensures a.Reply? <==> (m.chat.Some? && MessageText(m) != [] &&
                           !(ShouldDelete(MessageText(m), m.fromSelf) && deleteOk) &&
                           (m.replyToSelf || cfg.enabled))
    ensures a.Reply? ==> a.text == ReplyText(Generated(MessageText(m), cfg.role, gen), settings)
    ensures a.Reply? ==> IsTrimmed(a.text) && (0 <= settings.maxChars ==> |a.text| <= settings.maxChars)
  {
    var text := MessageText(m);
    if m.chat.None? then Ignore
    else if ShouldDelete(text, m.fromSelf) && deleteOk then Deleted
    else if text == [] then Ignore
    else if !m.replyToSelf && !cfg.enabled then Ignore
    else Reply(ReplyText(Generated(text, cfg.role, gen), settings))
  }

  /** A mention from someone else that is deleted gets no reply, whatever the chat's settings. */
  lemma DeletedMentionIsNotAnswered(m: Message, cfg: Cfg, gen: GenOutcome, settings: Settings)
    requires m.chat.Some? && SearchMention(MessageText(m), 0).Some? && !m.fromSelf
    ensures Decide(m, cfg, true, gen, settings) == Deleted
  {
  }

  /**
   * When deletion fails (the owner is not an admin), the handler carries on:
   * an eligible message is answered as if it had no mention.
   */
  lemma FailedDeleteStillAnswers(m: Message, cfg: Cfg, gen: GenOutcome, settings: Settings)
    requires m.chat.Some? && MessageText(m) != [] && (m.replyToSelf || cfg.enabled)
    ensures Decide(m, cfg, false, gen, settings) ==
            Reply(ReplyText(Generated(MessageText(m), cfg.role, gen), settings))
  {
  }

  /** A chat seen for the first time is switched off: only replies to the owner are answered there. */
  lemma NewChatAnswersOnlyReplies(m: Message, deleteOk: bool, gen: GenOutcome, settings: Settings)
    requires m.chat.Some? && !m.replyToSelf
    ensures !Decide(m, DefaultCfg, deleteOk, gen, settings).Reply?
  {
  }

  /** With the default limits, no answer (a timeout, or both providers failing) is replied to with "wkwk". */
  lemma NoAnswerRepliesFallback()
    ensures ReplyText(None, DefaultSettings) == Config.FallbackReply
  {
    var w := Config.FallbackReply;
    assert forall i :: 0 <= i < |w| ==> !IsMarkup(w[i]);
    NoMarkupMatchesNothing(w);
    ShortPlainTextUnchanged(w, Config.DefaultMaxSentences, Config.DefaultMaxChars);
  }

  /** A message answered after a timeout gets "wkwk" under the default limits. */
  lemma TimeoutRepliesFallback(m: Message, cfg: Cfg, deleteOk: bool)
    requires m.chat.Some? && MessageText(m) != [] && !(ShouldDelete(MessageText(m), m.fromSelf) && deleteOk)
    requires m.replyToSelf || cfg.enabled
    ensures Decide(m, cfg, deleteOk, TimedOut, DefaultSettings) == Reply(Config.FallbackReply)
  {
    NoAnswerRepliesFallback();
  }

  /** A message answered after both providers failed gets "wkwk" under the default limits. */
  lemma FailedProvidersReplyFallback(m: Message, cfg: Cfg, deleteOk: bool, primary: Outcome, fallback: Outcome)
    requires m.chat.Some? && MessageText(m) != [] && !(ShouldDelete(MessageText(m), m.fromSelf) && deleteOk)
    requires m.replyToSelf || cfg.enabled
    requires PrimaryFails(primary) && FallbackFails(fallback)
    ensures Decide(m, cfg, deleteOk, Finished(primary, fallback), DefaultSettings) == Reply(Config.FallbackReply)
  {
    FailedProvidersGiveNothing(MessageText(m), cfg.role, primary, fallback);
    NoAnswerRepliesFallback();
  }

  /** When both providers fail, the generation has no answer. */
  lemma FailedProvidersGiveNothing(text: string, role: string, primary: Outcome, fallback: Outcome)
    requires PrimaryFails(primary) && FallbackFails(fallback)
    ensures Generated(text, role, Finished(primary, fallback)).None?
  {
    if !AllSpace(text) {
      FallbackConsultedIff(text, RoleOrDefault(role), primary, fallback);
    }
  }

  /**
   * An eligible message whose primary provider answers with JSON that
   * yields an answer is replied to with that answer, limited.
   */
  lemma PrimaryAnswerIsReplied(m: Message, cfg: Cfg, deleteOk: bool, js: Json, fallback: Outcome, settings: Settings)
    requires m.chat.Some? && MessageText(m) != [] && !(ShouldDelete(MessageText(m), m.fromSelf) && deleteOk)
    requires m.replyToSelf || cfg.enabled
    requires PrimaryExtract(js).Some?
    ensures Decide(m, cfg, deleteOk, Finished(Response(200, Parsed(js)), fallback), settings) ==
            Reply(LimitResponse(PrimaryExtract(js).value, settings.maxSentences, settings.maxChars))
  {
    assert !AllSpace(MessageText(m));
    PrimaryAnswerIsGenerated(MessageText(m), cfg.role, js, fallback);
  }

  /** The primary provider's extracted answer is what the generation yields. */
  lemma PrimaryAnswerIsGenerated(text: string, role: string, js: Json, fallback: Outcome)
    requires !AllSpace(text) && PrimaryExtract(js).Some?
    ensures Generated(text, role, Finished(Response(200, Parsed(js)), fallback)) == PrimaryExtract(js)
  {
    PrimaryAnswerIsExtract(text, RoleOrDefault(role), js, fallback);
  }

  /**
   * The primary provider is asked with the chat's role (or the default
   * persona when it has none), stripped, and the message text.
   */
  lemma GenerationUsesChatRole(m: Message, role: string, primary: Outcome, fallback: Outcome)
    requires MessageText(m) != []
    ensures var g := CallSiputzx(MessageText(m), RoleOrDefault(role), primary, fallback);
            Generated(MessageText(m), role, Finished(primary, fallback)) == g.answer &&
            g.requests != [] && g.requests[0] == PrimaryRequest(Trim(RoleOrDefault(role)), MessageText(m))
  {
    assert !AllSpace(MessageText(m));
  }

  /** An answer that is only a heading line is cut down to an empty reply. */
  lemma HeadingAnswerGivesEmptyReply()
    ensures ReplyText(Some("# h"), DefaultSettings) == []
  {
    LimiterExamples.HeadingOnlyLimit();
  }

  /**
   * `handle_message(client, m)` over the store: the chat's entry is created
   * for every message that has a chat, even one that is then ignored.
   */
  method HandleMessage(store: ChatStore, m: Message, deleteOk: bool, gen: GenOutcome, settings: Settings)
    returns (action: Action)
    modifies store
    ensures m.chat.None? ==> action == Ignore && store.chats == old(store.chats) &&
                             store.persisted == old(store.persisted)
    ensures m.chat.Some? ==>
              store.chats == WithDefault(old(store.chats), ChatKey(m.chat.value)) &&
              action == Decide(m, store.chats[ChatKey(m.chat.value)], deleteOk, gen, settings) &&
              store.persisted == if ChatKey(m.chat.value) in old(store.chats) then old(store.persisted)
                                 else Some(EncodeData(store.chats))
  {
    if m.chat.None? {
      return Ignore;
    }
    var cfg := store.GetChatCfg(m.chat.value);
    var text := MessageText(m);
    if ShouldDelete(text, m.fromSelf) && deleteOk {
      return Deleted;
    }
    if text == [] {
      return Ignore;
    }
    if !m.replyToSelf && !cfg.enabled {
      return Ignore;
    }
    var answer := Generated(text, cfg.role, gen);
    action := Reply(ReplyText(answer, settings));
  }
}

/** The offline chat assistant: the canned-reply selector and the message log it feeds.
    A reply is chosen by an ordered chain of keyword tests on the lower-cased message, the
    first test that matches deciding the reply; the log starts with one greeting and only
    ever grows at its end. */
module Chat {
  import opened Text

  datatype Sender = User | Ai

  /** A chat message; its identifier and timestamp are not modelled. */
  datatype Message = Message(content: string, sender: Sender)

  const GreetingText: string :=
    "Hi there! I'm your MindTrack assistant. How are you feeling today?"

  const Greeting: Message := Message(GreetingText, Ai)

  /** The mood chips offered under the greeting, in display order. */
  const MoodSuggestions: seq<string> := ["Happy", "Stressed", "Tired", "Motivated", "Anxious"]

  /** The five canned replies. */
  datatype Reply = Positive | Stress | Tired | Motivated | Fallback

  const ReplyTexts: seq<string> := [
    "That's wonderful to hear! When you're in a positive mood, it's a great time to tackle challenging tasks. Would you like some suggestions for making the most of your productive state?",
    "I'm sorry to hear you're feeling stressed. This can definitely impact your focus and learning. Would you like to try a quick 2-minute breathing exercise that can help reduce anxiety?",
    "Feeling tired can make studying difficult. Consider taking a short 20-minute power nap or going for a brief walk outside. Studies show both can improve alertness. Would you like more energy-boosting tips?",
    "It's great that you're feeling motivated! This is a perfect time to work on your most challenging assignments or start projects you've been putting off. Would you like me to help you prioritize your tasks?",
    "Thanks for sharing how you're feeling. Your emotional state can significantly impact your learning. Would you like some personalized suggestions based on your current mood?"
  ]

  function ReplyText(r: Reply): string {
    match r
    case Positive => ReplyTexts[0]
    case Stress => ReplyTexts[1]
    case Tired => ReplyTexts[2]
    case Motivated => ReplyTexts[3]
    case Fallback => ReplyTexts[4]
  }

  predicate PositiveWord(lower: string) {
    Includes(lower, "happy") || Includes(lower, "good") || Includes(lower, "great")
  }

  predicate StressWord(lower: string) {
    Includes(lower, "stress") || Includes(lower, "anxious") || Includes(lower, "worried")
  }

  predicate TiredWord(lower: string) {
    Includes(lower, "tired") || Includes(lower, "exhausted")
  }

  predicate MotivatedWord(lower: string) {
    Includes(lower, "motivated")
  }

  /** The reply the assistant gives to a message: the first keyword group found in the
      lower-cased text decides. */
  function SelectReply(messageText: string): Reply {
    var lower := Lower(messageText);
    if PositiveWord(lower) then Positive
    else if StressWord(lower) then Stress
    else if TiredWord(lower) then Tired
    else if MotivatedWord(lower) then Motivated
    else Fallback
  }

  /** The same chain written as data: keyword groups paired with their reply, in priority order. */
  const ReplyRules: seq<(seq<string>, Reply)> := [
    (["happy", "good", "great"], Positive),
    (["stress", "anxious", "worried"], Stress),
    (["tired", "exhausted"], Tired),
    (["motivated"], Motivated)
  ]

  predicate AnyIncluded(lower: string, words: seq<string>) {
    words != [] && (Includes(lower, words[0]) || AnyIncluded(lower, words[1..]))
  }

  /** First-match-wins evaluation of a rule list; no match gives the fallback reply. */
  function FirstMatch(rules: seq<(seq<string>, Reply)>, lower: string): Reply {
    if rules == [] then Fallback
    else if AnyIncluded(lower, rules[0].0) then rules[0].1
    else FirstMatch(rules[1..], lower)
  }

  lemma {:induction false} AnyIncludedOf3(lower: string, a: string, b: string, c: string)
    ensures AnyIncluded(lower, [a, b, c]) <==> Includes(lower, a) || Includes(lower, b) || Includes(lower, c)
  {
    assert [a, b, c][1..] == [b, c];
    AnyIncludedOf2(lower, b, c);
  }

  lemma {:induction false} AnyIncludedOf2(lower: string, a: string, b: string)
    ensures AnyIncluded(lower, [a, b]) <==> Includes(lower, a) || Includes(lower, b)
  {
    assert [a, b][1..] == [b] && [b][1..] == [];
    assert AnyIncluded(lower, [b]) <==> Includes(lower, b);
  }

  /** The if/else chain and the rule table agree on every input. */
  lemma {:induction false} SelectReplyIsFirstMatch(messageText: string)
    ensures SelectReply(messageText) == FirstMatch(ReplyRules, Lower(messageText))
  {
    var lower := Lower(messageText);
    var r := ReplyRules;
    AnyIncludedOf3(lower, "happy", "good", "great");
    AnyIncludedOf3(lower, "stress", "anxious", "worried");
    AnyIncludedOf2(lower, "tired", "exhausted");
    assert AnyIncluded(lower, ["motivated"]) <==> MotivatedWord(lower) by {
      assert ["motivated"][1..] == [];
    }
    var r1 := r[1..];
    var r2 := r1[1..];
    var r3 := r2[1..];
    assert r3[0] == (["motivated"], Motivated) && r3[1..] == [];
    assert FirstMatch(r3, lower) == if MotivatedWord(lower) then Motivated else Fallback;
    assert r2[0] == (["tired", "exhausted"], Tired);
    assert FirstMatch(r2, lower) == if TiredWord(lower) then Tired else FirstMatch(r3, lower);
    assert r1[0] == (["stress", "anxious", "worried"], Stress);
    assert FirstMatch(r1, lower) == if StressWord(lower) then Stress else FirstMatch(r2, lower);
    assert r[0] == (["happy", "good", "great"], Positive);
  }

  /** Each reply is given exactly when its keyword group matches and no earlier group does:
      a positive word wins over every other word, a stress word over tired and motivated
      words, and so on; the fallback is given only when no keyword occurs. */
  lemma {:induction false} SelectReplyPriority(messageText: string)
    ensures var lower := Lower(messageText); var r := SelectReply(messageText);
      (r == Positive <==> PositiveWord(lower)) &&
      (r == Stress <==> !PositiveWord(lower) && StressWord(lower)) &&
      (r == Tired <==> !PositiveWord(lower) && !StressWord(lower) && TiredWord(lower)) &&
      (r == Motivated <==> !PositiveWord(lower) && !StressWord(lower) && !TiredWord(lower)
                           && MotivatedWord(lower)) &&
      (r == Fallback <==> !PositiveWord(lower) && !StressWord(lower) && !TiredWord(lower)
                          && !MotivatedWord(lower))
  {
  }

  /** Matching ignores case: messages that agree after lower-casing get the same reply. */
  lemma {:induction false} SelectReplyIgnoresCase(a: string, b: string)
    requires Lower(a) == Lower(b)
    ensures SelectReply(a) == SelectReply(b)
    ensures SelectReply(a) == SelectReply(Lower(a))
  {
    LowerIdempotent(a);
  }

  /** Text without 'p' and 'g' holds none of "happy", "good", "great". */
  lemma NoPositiveWord(lower: string)
    requires 'p' !in lower && 'g' !in lower
    ensures !PositiveWord(lower)
  {
    NotIncludedWithoutChar(lower, "happy", 2);
    NotIncludedWithoutChar(lower, "good", 0);
    NotIncludedWithoutChar(lower, "great", 0);
  }

  /** Text without 's' and 'w' holds none of "stress", "anxious", "worried". */
  lemma NoStressWord(lower: string)
    requires 's' !in lower && 'w' !in lower
    ensures !StressWord(lower)
  {
    NotIncludedWithoutChar(lower, "stress", 0);
    NotIncludedWithoutChar(lower, "anxious", 6);
    NotIncludedWithoutChar(lower, "worried", 0);
  }

  /** Text without 'r' and 'x' holds neither "tired" nor "exhausted". */
  lemma NoTiredWord(lower: string)
    requires 'r' !in lower && 'x' !in lower
    ensures !TiredWord(lower)
  {
    NotIncludedWithoutChar(lower, "tired", 2);
    NotIncludedWithoutChar(lower, "exhausted", 1);
  }

  /** A message holding "stress" (in any case) and none of the letters p and g gets the
      stress reply, whatever else it holds. */
  lemma StressReplyWithoutPositiveLetters(s: string, i: nat)
    requires 'p' !in s && 'P' !in s && 'g' !in s && 'G' !in s
    requires i + 6 <= |s| && Lower(s)[i..i + 6] == "stress"
    ensures SelectReply(s) == Stress
  {
    LowerExcludes(s, 'p');
    LowerExcludes(s, 'g');
    NoPositiveWord(Lower(s));
    IncludesAt(Lower(s), "stress", i);
  }

  /** "I'm exhausted and stressed" is answered with the stress reply: the stress test comes
      before the tired test. */
  lemma ExhaustedAndStressed()
    ensures SelectReply("I'm exhausted and stressed") == Stress
  {
    var s := "I'm exhausted and stressed";
    assert Lower(s)[18..24] == "stress";
    StressReplyWithoutPositiveLetters(s, 18);
  }

  /** The reply each offered mood chip produces. */
  lemma MoodChipReplies()
    ensures SelectReply(MoodSuggestions[0]) == Positive   // Happy
    ensures SelectReply(MoodSuggestions[1]) == Stress     // Stressed
    ensures SelectReply(MoodSuggestions[2]) == Tired      // Tired
    ensures SelectReply(MoodSuggestions[3]) == Motivated  // Motivated
    ensures SelectReply(MoodSuggestions[4]) == Stress     // Anxious
  {
    assert MoodSuggestions[0] == "Happy" && MoodSuggestions[1] == "Stressed";
    assert MoodSuggestions[2] == "Tired" && MoodSuggestions[3] == "Motivated";
    assert MoodSuggestions[4] == "Anxious";
    ChipHappy();
    ChipStressed();
    ChipAnxious();
    ChipTired();
    ChipMotivated();
  }

  lemma ChipHappy()
    ensures SelectReply("Happy") == Positive
  {
    var l := Lower("Happy");
    assert l == "happy";
    IncludesAt(l, "happy", 0);
  }

  lemma ChipStressed()
    ensures SelectReply("Stressed") == Stress
  {
    var l := Lower("Stressed");
    assert l == "stressed";
    NoPositiveWord(l);
    IncludesAt(l, "stress", 0);
  }

  lemma ChipAnxious()
    ensures SelectReply("Anxious") == Stress
  {
    var l := Lower("Anxious");
    assert l == "anxious";
    NoPositiveWord(l);
    IncludesAt(l, "anxious", 0);
  }

  lemma ChipTired()
    ensures SelectReply("Tired") == Tired
  {
    var l := Lower("Tired");
    assert l == "tired";
    NoPositiveWord(l);
    NoStressWord(l);
    IncludesAt(l, "tired", 0);
  }

  lemma ChipMotivated()
    ensures SelectReply("Motivated") == Motivated
  {
    var s := "Motivated";
    var l := Lower(s);
    LowerExcludes(s, 'p');
    LowerExcludes(s, 'g');
    LowerExcludes(s, 's');
    LowerExcludes(s, 'w');
    LowerExcludes(s, 'r');
    LowerExcludes(s, 'x');
    NoPositiveWord(l);
    NoStressWord(l);
    NoTiredWord(l);
    assert l[..9] == "motivated";
    IncludesAt(l, "motivated", 0);
  }

  /** The argument `handleSend` receives: none (its parameter is optional, though no caller
      omits it), the message form's submit event, whose target is the form element, or a
      mood chip's synthetic event, which carries the chip text as its target. */
  datatype SendEvent = NoEvent | FormSubmit | MoodChip(mood: string)

  /** A send is dropped only when the input is blank and the event's target is falsy: there
      is no event, or the chip text is the empty string. */
  predicate SendDropped(e: SendEvent, input: string) {
    Trim(input) == [] && (e.NoEvent? || e == MoodChip(""))
  }

  /** Every chip on offer sends, whatever the input holds; a form submit always sends. */
  lemma OfferedChipsAreSent(i: nat, input: string)
    requires i < |MoodSuggestions|
    ensures !SendDropped(MoodChip(MoodSuggestions[i]), input)
    ensures !SendDropped(FormSubmit, input)
  {
    assert MoodSuggestions[i] != "";
  }

  /** The text that becomes the user's message: the chip text, or the untrimmed input. */
  function MessageText(e: SendEvent, input: string): string {
    if e.MoodChip? then e.mood else input
  }

  /** The contents of the user messages of a log, in order. */
  function UserTexts(ms: seq<Message>): seq<string> {
    if ms == [] then []
    else UserTexts(ms[..|ms| - 1]) + (if ms[|ms| - 1].sender == User then [ms[|ms| - 1].content] else [])
  }

  /** The contents of the assistant messages of a log, in order. */
  function AiTexts(ms: seq<Message>): seq<string> {
    if ms == [] then []
    else AiTexts(ms[..|ms| - 1]) + (if ms[|ms| - 1].sender == Ai then [ms[|ms| - 1].content] else [])
  }

  lemma {:induction false} TextsPartitionLog(ms: seq<Message>)
    ensures |UserTexts(ms)| + |AiTexts(ms)| == |ms|
  {
    if ms != [] {
      TextsPartitionLog(ms[..|ms| - 1]);
    }
  }

  /** The assistant's answer to a user message. */
  function Respond(text: string): string {
    ReplyText(SelectReply(text))
  }

  /** The log after the greeting answers its user messages in order: the k-th assistant
      message is `respond` applied to the k-th user message, and the user messages not yet
      answered are exactly the pending ones. */
  ghost predicate Answered(log: seq<Message>, pending: seq<string>, respond: string -> string) {
    var u := UserTexts(log);
    var a := AiTexts(log);
    |a| <= |u| && pending == u[|a|..] &&
    forall k :: 0 <= k < |a| ==> a[k] == respond(u[k])
  }

  lemma {:induction false} UserTextsSnoc(ms: seq<Message>, m: Message)
    ensures UserTexts(ms + [m]) == UserTexts(ms) + (if m.sender == User then [m.content] else [])
  {
    assert (ms + [m])[..|ms|] == ms;
  }

  lemma {:induction false} AiTextsSnoc(ms: seq<Message>, m: Message)
    ensures AiTexts(ms + [m]) == AiTexts(ms) + (if m.sender == Ai then [m.content] else [])
  {
    assert (ms + [m])[..|ms|] == ms;
  }

  /** A new user message joins the end of the pending ones. */
  lemma {:induction false} AnsweredAfterSend(log: seq<Message>, pending: seq<string>,
                                             respond: string -> string, text: string)
    requires Answered(log, pending, respond)
    ensures Answered(log + [Message(text, User)], pending + [text], respond)
  {
    UserTextsSnoc(log, Message(text, User));
    AiTextsSnoc(log, Message(text, User));
    var u := UserTexts(log);
    assert (u + [text])[|AiTexts(log)|..] == u[|AiTexts(log)|..] + [text];
  }

  /** The answer to the oldest pending message answers the first unanswered user message. */
  lemma {:induction false} AnsweredAfterReply(log: seq<Message>, pending: seq<string>,
                                              respond: string -> string)
    requires Answered(log, pending, respond) && pending != []
    ensures Answered(log + [Message(respond(pending[0]), Ai)], pending[1..], respond)
  {
    var reply := respond(pending[0]);
    var m := Message(reply, Ai);
    UserTextsSnoc(log, m);
    AiTextsSnoc(log, m);
    var u, a := UserTexts(log), AiTexts(log);
    var a' := a + [reply];
    assert pending[0] == u[|a|];
    assert u[|a'|..] == pending[1..];
    forall k | 0 <= k < |a'|
      ensures a'[k] == respond(u[k])
    {
      if k < |a| {
        assert a'[k] == a[k];
      }
    }
  }

  /** The chat view's state. `pending` lists, in firing order, the texts whose delayed replies
      are scheduled but have not yet fired (every reply uses the same delay, so they fire in
      the order they were scheduled). */
  class ChatSession {
    var messages: seq<Message>
    var input: string
    var isTyping: bool
    var pending: seq<string>

    ghost predicate Valid()
      reads this
    {
      |messages| >= 1 && messages[0] == Greeting &&
      Answered(messages[1..], pending, Respond) &&
      (isTyping ==> pending != [])
    }

    constructor ()
      ensures Valid()
      ensures messages == [Greeting] && input == "" && !isTyping && pending == []
    {
      messages := [Greeting];
      input := "";
      isTyping := false;
      pending := [];
    }

    /** The input field's change handler. */
    method EditInput(text: string)
      modifies this
      ensures input == text
      ensures messages == old(messages) && isTyping == old(isTyping) && pending == old(pending)
    {
      input := text;
    }

    /** `handleSend`: unless dropped, appends one user message, clears the input, shows the
        typing indicator and schedules the reply. */
    method Send(e: SendEvent) returns (sent: bool)
      requires Valid()
      modifies this
      ensures Valid()
      ensures sent == !SendDropped(e, old(input))
      ensures sent ==>
        messages == old(messages) + [Message(MessageText(e, old(input)), User)] &&
        input == "" && isTyping && pending == old(pending) + [MessageText(e, old(input))]
      ensures !sent ==>
        messages == old(messages) && input == old(input) &&
        isTyping == old(isTyping) && pending == old(pending)
    {
      if SendDropped(e, input) {
        return false;
      }
      var text := MessageText(e, input);
      assert (messages + [Message(text, User)])[1..] == messages[1..] + [Message(text, User)];
      AnsweredAfterSend(messages[1..], pending, Respond, text);
      messages := messages + [Message(text, User)];
      input := "";
      isTyping := true;
      pending := pending + [text];
      sent := true;
    }

    /** `handleMoodSelect`: a chip click sends the chip text, whatever the input holds,
        unless both the chip text and the input are empty or blank. */
    method SelectMood(mood: string)
      requires Valid()
      modifies this
      ensures Valid()
      ensures mood == "" && IsBlank(old(input)) ==>
        messages == old(messages) && input == old(input) &&
        isTyping == old(isTyping) && pending == old(pending)
      ensures !(mood == "" && IsBlank(old(input))) ==>
        messages == old(messages) + [Message(mood, User)] &&
        input == "" && isTyping && pending == old(pending) + [mood]
    {
      TrimEmptyIffBlank(input);
      var _ := Send(MoodChip(mood));
    }

    /** The delayed reply for the oldest pending send fires: one assistant message carrying
        the reply chosen for that text is appended and the typing indicator is cleared. */
    method CompleteReply()
      requires Valid() && pending != []
      modifies this
      ensures Valid()
      ensures messages == old(messages) + [Message(Respond(old(pending)[0]), Ai)]
      ensures pending == old(pending)[1..] && !isTyping && input == old(input)
    {
      var reply := Message(Respond(pending[0]), Ai);
      assert (messages + [reply])[1..] == messages[1..] + [reply];
      AnsweredAfterReply(messages[1..], pending, Respond);
      messages := messages + [reply];
      pending := pending[1..];
      isTyping := false;
    }

    /** The log holds the greeting, two messages per answered send, and one per pending send. */
    lemma LogSize()
      requires Valid()
      ensures |messages| == 1 + 2 * |AiTexts(messages[1..])| + |pending|
    {
      TextsPartitionLog(messages[1..]);
    }

    /** The mood chips are shown while the log has at most two messages, that is, until a
        reply has arrived or a second message has been sent. */
    function ChipsVisible(): (r: bool)
      reads this
      requires Valid()
      ensures r <==> AiTexts(messages[1..]) == [] && |pending| <= 1
    {
      LogSize();
      |messages| <= 2
    }

    /** The send button is disabled exactly for a blank input or while a reply is pending;
        an enabled button therefore never sends a blank message. */
    function SendDisabled(): (r: bool)
      reads this
      ensures r <==> IsBlank(input) || isTyping
    {
      TrimEmptyIffBlank(input);
      Trim(input) == [] || isTyping
    }
  }
}

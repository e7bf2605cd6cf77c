/**
 * `src/components/ai-bot/BotChat.tsx`: the chatbot's canned answers and its
 * message list.
 *
 * Message ids and timestamps come from the clock and are parameters (the
 * timestamp is left out). The reply is scheduled with a random delay, so
 * replies that are still pending may arrive in any order: they are kept in
 * `pending` and delivered one at a time by index. Speech output is left out.
 */
module BotChat {
  import opened Base
  import opened JsText

  /** The keys of `FAQ_RESPONSES`, in declaration order (which is also the
      order of `Object.entries`, none of them being an array index). */
  const Keys: seq<string> := [
    "hello",
    "hi",
    "help",
    "services",
    "contact",
    "about",
    "pricing",
    "portfolio",
    "how are you",
    "thank you",
    "thanks",
    "bye",
    "goodbye"
  ]

  /** The answer to each key, at the key's index. */
  const Replies: seq<string> := [
    "Hello! Welcome to our website! How can I help you today?",
    "Hi there! Great to see you! What can I do for you?",
    "I'm here to help! You can ask me about our services, contact information, or any general questions.",
    "We offer web development, design services, and digital solutions. Would you like to know more about any specific service?",
    "You can reach us through our contact form on the website, or feel free to ask me any questions directly!",
    "We are a creative digital agency focused on delivering exceptional web experiences and innovative solutions.",
    "Our pricing varies based on project requirements. Please contact us for a custom quote tailored to your needs.",
    "You can check out our amazing portfolio showcasing our recent projects and creative work!",
    "I'm doing great, thank you for asking! I'm excited to help you today.",
    "You're very welcome! Is there anything else I can help you with?",
    "My pleasure! Feel free to ask if you need anything else.",
    "Goodbye! It was great talking with you. Have a wonderful day!",
    "Take care! Don't hesitate to come back if you have more questions."
  ]

  const DefaultReply := "That's an interesting question! While I focus on helping with our services and general information, feel free to contact us directly for more detailed assistance."

  /** `input.toLowerCase().trim()`. */
  function Normalize(input: string): string {
    Trim(UnicodeLower(input))
  }

  /** The index of the key equal to `q`, if any. */
  function ExactIndex(q: string, k: nat): (r: Option<nat>)
    requires k <= |Keys|
    ensures r.Some? ==> k <= r.value < |Keys| && Keys[r.value] == q
    ensures r.None? ==> forall j :: k <= j < |Keys| ==> Keys[j] != q
    decreases |Keys| - k
  {
    if k == |Keys| then None
    else if Keys[k] == q then Some(k)
    else ExactIndex(q, k + 1)
  }

  /** The first key at or after `k` that occurs in `q`. */
  function FirstContained(q: string, k: nat): (r: Option<nat>)
    requires k <= |Keys|
    ensures r.Some? ==> k <= r.value < |Keys| && Contains(q, Keys[r.value])
    ensures r.Some? ==> forall j :: k <= j < r.value ==> !Contains(q, Keys[j])
    ensures r.None? ==> forall j :: k <= j < |Keys| ==> !Contains(q, Keys[j])
    decreases |Keys| - k
  {
    if k == |Keys| then None
    else if Contains(q, Keys[k]) then Some(k)
    else FirstContained(q, k + 1)
  }

  /** What `getResponse` answers, when only the table's own keys are looked
      up. */
  function ResponseOf(input: string): string {
    var q := Normalize(input);
    match ExactIndex(q, 0)
    case Some(k) => Replies[k]
    case None =>
      match FirstContained(q, 0)
      case Some(k) => Replies[k]
      case None => DefaultReply
  }

  /** The keys are distinct, so a lookup by key is well defined. */
  lemma KeysDistinct()
    ensures forall i, j :: 0 <= i < j < |Keys| ==> Keys[i] != Keys[j]
  {
  }

  /** An exact key wins over every key it merely contains. */
  lemma ExactMatchWins(input: string, k: nat)
    requires k < |Keys| && Normalize(input) == Keys[k]
    ensures ResponseOf(input) == Replies[k]
  {
    KeysDistinct();
  }

  /** Without an exact key, the first key in declaration order that occurs in
      the input decides. */
  lemma FirstContainedKeyWins(input: string, k: nat)
    requires forall j :: 0 <= j < |Keys| ==> Keys[j] != Normalize(input)
    requires k < |Keys| && Contains(Normalize(input), Keys[k])
    requires forall j :: 0 <= j < k ==> !Contains(Normalize(input), Keys[j])
    ensures ResponseOf(input) == Replies[k]
  {
    assert ExactIndex(Normalize(input), 0).None?;
    FirstContainedIs(Normalize(input), k);
  }

  /** Helper: the scan finds the first contained key. */
  lemma FirstContainedIs(q: string, k: nat)
    requires k < |Keys| && Contains(q, Keys[k])
    requires forall j :: 0 <= j < k ==> !Contains(q, Keys[j])
    ensures FirstContained(q, 0) == Some(k)
  {
  }

  /** Without any key in it, the input gets the default. */
  lemma NoKeyGivesDefault(input: string)
    requires forall j :: 0 <= j < |Keys| ==> !Contains(Normalize(input), Keys[j])
    ensures ResponseOf(input) == DefaultReply
  {
    NoContainedKeyNoExactKey(Normalize(input));
  }

  /** A text equal to a key contains it. */
  lemma NoContainedKeyNoExactKey(q: string)
    requires forall j :: 0 <= j < |Keys| ==> !Contains(q, Keys[j])
    ensures ExactIndex(q, 0).None?
  {
    var e := ExactIndex(q, 0);
    if e.Some? {
      assert OccursAt(q, Keys[e.value], 0);
    }
  }

  /** A key is absent from a text missing one of its characters. */
  lemma MissingCharacter(q: string, key: string, c: char)
    requires c in key && c !in q
    ensures !Contains(q, key)
  {
    var j :| 0 <= j < |key| && key[j] == c;
  }

  /** What `Contains` says about the first two characters of a match. */
  lemma MatchStart(q: string, key: string, i: int)
    requires |key| >= 2 && OccursAt(q, key, i)
    ensures q[i] == key[0] && q[i + 1] == key[1]
  {
    assert q[i..i + |key|][1] == q[i + 1];
  }

  /** "this" gets the reply to "hi", the first key it contains. */
  lemma ThisGetsTheHiReply()
    ensures ResponseOf("this") == Replies[1]
  {
    ThisIsNormal();
    ThisHasNoExactKey();
    ThisContainsHi();
    MissingCharacter("this", "hello", 'e');
    FirstContainedKeyWins("this", 1);
  }

  lemma ThisIsNormal()
    ensures Normalize("this") == "this"
  {
    LowerKept("this");
    TrimKept("this");
  }

  /** Literal texts, as lemmas of their own: the solver handles a literal's
      lower-casing and its trimming far more cheaply one at a time. */
  lemma LowerKept(s: string)
    requires forall i :: 0 <= i < |s| ==> ' ' <= s[i] <= '~' && !('A' <= s[i] <= 'Z')
    ensures UnicodeLower(s) == s
  {
    UnicodeLowerKeepsLowerText(s);
  }

  lemma TrimKept(s: string)
    requires s != [] && 'a' <= s[0] <= 'z' && 'a' <= s[|s| - 1] <= 'z'
    ensures Trim(s) == s
  {
    TrimOfTrimmed(s);
  }

  lemma ThisHasNoExactKey()
    ensures forall j :: 0 <= j < |Keys| ==> Keys[j] != "this"
  {
  }

  lemma ThisContainsHi()
    ensures Contains("this", Keys[1])
  {
    assert OccursAt("this", "hi", 1);
  }

  /** "Goodbye" gets the goodbye reply, not the reply to "bye", a key
      declared earlier that it contains. */
  lemma GoodbyeGetsItsOwnReply()
    ensures ResponseOf("Goodbye") == Replies[12]
  {
    GoodbyeIsNormal();
    ExactMatchWins("Goodbye", 12);
  }

  lemma GoodbyeLowered()
    ensures UnicodeLower("Goodbye") == "goodbye"
  {
    var s := "Goodbye";
    assert s[1..] == "oodbye";
    LowerKept("oodbye");
  }

  lemma GoodbyeIsNormal()
    ensures Normalize("Goodbye") == "goodbye"
  {
    GoodbyeLowered();
    TrimKept("goodbye");
  }

  /** A key is absent from a text in which its first character is never
      followed by its second. */
  lemma MissingPair(q: string, key: string)
    requires |key| >= 2
    requires forall i :: 0 <= i < |q| - 1 && q[i] == key[0] ==> q[i + 1] != key[1]
    ensures !Contains(q, key)
  {
    forall i | 0 <= i <= |q| - |key|
      ensures !OccursAt(q, key, i)
    {
      if OccursAt(q, key, i) {
        MatchStart(q, key, i);
      }
    }
  }

  /** The suggested question about prices gets the default reply: it
      contains no key ("pricing" included). */
  /** The suggestion, lower-cased. */
  const PricesLowered := ['w'] + "hat are your prices?"

  lemma PricesSuggestionGetsDefault()
    ensures ResponseOf(SuggestedQuestions[3]) == DefaultReply
  {
    PricesSuggestionIsNormal(SuggestedQuestions[3]);
    PricesLacksKeys();
    NoKeyGivesDefault(SuggestedQuestions[3]);
  }

  lemma PricesSuggestionIsNormal(s: string)
    requires s == SuggestedQuestions[3]
    ensures Normalize(s) == PricesLowered
  {
    PricesSuggestionSplit(s);
    PricesSuggestionLowered(s);
    PricesSuggestionTrimmed();
  }

  lemma PricesSuggestionSplit(s: string)
    requires s == SuggestedQuestions[3]
    ensures s != [] && s[0] == 'W' && s[1..] == "hat are your prices?"
  {
  }

  lemma PricesSuggestionLowered(s: string)
    requires s != [] && s[0] == 'W' && s[1..] == "hat are your prices?"
    ensures UnicodeLower(s) == PricesLowered
  {
    CapitalizedLowered(s, 'w', "hat are your prices?");
  }

  lemma PricesSuggestionTrimmed()
    ensures Trim(PricesLowered) == PricesLowered
  {
    TrimOfTrimmed(PricesLowered);
  }

  /** The text's parameters keep the solver from unfolding the lower-casing
      of a literal character by character. */
  lemma CapitalizedLowered(s: string, c: char, t: string)
    requires s != [] && 'A' <= s[0] <= 'Z' && c == (s[0] as int + 32) as char && t == s[1..]
    requires forall i :: 0 <= i < |t| ==> ' ' <= t[i] <= '~' && !('A' <= t[i] <= 'Z')
    ensures UnicodeLower(s) == [c] + t
  {
    assert s == [s[0]] + t;
    LowerKept(t);
  }

  lemma PricesLacksKeys()
    ensures forall j :: 0 <= j < |Keys| ==> !Contains(PricesLowered, Keys[j])
  {
    PricesLacksKeys0();
    PricesLacksKeys1();
    PricesLacksKeys2();
    PricesLacksKeys3();
  }

  lemma PricesLacksKeys0()
    ensures !Contains(PricesLowered, "hello")
    ensures !Contains(PricesLowered, "hi")
    ensures !Contains(PricesLowered, "help")
  {
    MissingCharacter(PricesLowered, "hello", 'l');
    MissingPair(PricesLowered, "hi");
    MissingCharacter(PricesLowered, "help", 'l');
  }

  lemma PricesLacksKeys1()
    ensures !Contains(PricesLowered, "services")
    ensures !Contains(PricesLowered, "contact")
    ensures !Contains(PricesLowered, "about")
    ensures !Contains(PricesLowered, "pricing")
  {
    MissingCharacter(PricesLowered, "services", 'v');
    MissingCharacter(PricesLowered, "contact", 'n');
    MissingCharacter(PricesLowered, "about", 'b');
    MissingCharacter(PricesLowered, "pricing", 'n');
  }

  lemma PricesLacksKeys2()
    ensures !Contains(PricesLowered, "portfolio")
    ensures !Contains(PricesLowered, "how are you")
    ensures !Contains(PricesLowered, "thank you")
  {
    MissingCharacter(PricesLowered, "portfolio", 'f');
    MissingPair(PricesLowered, "how are you");
    MissingCharacter(PricesLowered, "thank you", 'k');
  }

  lemma PricesLacksKeys3()
    ensures !Contains(PricesLowered, "thanks")
    ensures !Contains(PricesLowered, "bye")
    ensures !Contains(PricesLowered, "goodbye")
  {
    MissingCharacter(PricesLowered, "thanks", 'k');
    MissingCharacter(PricesLowered, "bye", 'b');
    MissingCharacter(PricesLowered, "goodbye", 'g');
  }

  /** `getResponse`. */
  method GetResponse(input: string) returns (reply: string)
    ensures reply == ResponseOf(input)
  {
    var lowercaseInput := Normalize(input);
    var exact := ExactIndex(lowercaseInput, 0);
    if exact.Some? {
      return Replies[exact.value];
    }
    var i := 0;
    while i < |Keys|
      invariant 0 <= i <= |Keys|
      invariant FirstContained(lowercaseInput, 0) == FirstContained(lowercaseInput, i)
    {
      if Contains(lowercaseInput, Keys[i]) {
        return Replies[i];
      }
      i := i + 1;
    }
    return DefaultReply;
  }

  // ---------------------------------------------------------------------------
  // The lookup as written

  /** `FAQ_RESPONSES[lowercaseInput]` also finds the members every object
      inherits. Of those, only `constructor` and `__proto__` have names
      without capitals, which is all a lower-cased input can spell. */
  const InheritedNames: set<string> := {"constructor", "__proto__"}

  /** A reply as written: the table's text, or an inherited member (a function
      or an object, both truthy), which is not text at all. */
  datatype Reply = ReplyText(text: string) | InheritedMember(name: string)

  function ResponseAsWritten(input: string): Reply {
    var q := Normalize(input);
    if ExactIndex(q, 0).None? && q in InheritedNames then InheritedMember(q)
    else ReplyText(ResponseOf(input))
  }

  /** Typing "constructor" makes the bot answer with `Object` itself. */
  lemma ConstructorIsNotAnswerText()
    ensures ResponseAsWritten("constructor").InheritedMember?
  {
    ConstructorIsNormal();
    ConstructorIsNoKey();
    NoContainedKeyNoExactKey("constructor");
    assert "constructor" in InheritedNames;
  }

  lemma ConstructorIsNormal()
    ensures Normalize("constructor") == "constructor"
  {
    LowerKept("constructor");
    TrimKept("constructor");
  }

  lemma ConstructorIsNoKey()
    ensures forall j :: 0 <= j < |Keys| ==> !Contains("constructor", Keys[j])
  {
    ConstructorLacksEarlyKeys();
    ConstructorLacksLateKeys();
  }

  lemma ConstructorLacksEarlyKeys()
    ensures !Contains("constructor", "hello") && !Contains("constructor", "hi")
    ensures !Contains("constructor", "help") && !Contains("constructor", "services")
    ensures !Contains("constructor", "contact") && !Contains("constructor", "about")
    ensures !Contains("constructor", "pricing")
  {
    MissingCharacter("constructor", "hello", 'h');
    MissingCharacter("constructor", "hi", 'h');
    MissingCharacter("constructor", "help", 'h');
    MissingCharacter("constructor", "services", 'v');
    MissingCharacter("constructor", "contact", 'a');
    MissingCharacter("constructor", "about", 'a');
    MissingCharacter("constructor", "pricing", 'p');
  }

  lemma ConstructorLacksLateKeys()
    ensures !Contains("constructor", "portfolio") && !Contains("constructor", "how are you")
    ensures !Contains("constructor", "thank you") && !Contains("constructor", "thanks")
    ensures !Contains("constructor", "bye") && !Contains("constructor", "goodbye")
  {
    MissingCharacter("constructor", "portfolio", 'p');
    MissingCharacter("constructor", "how are you", 'h');
    MissingCharacter("constructor", "thank you", 'h');
    MissingCharacter("constructor", "thanks", 'h');
    MissingCharacter("constructor", "bye", 'b');
    MissingCharacter("constructor", "goodbye", 'g');
  }

  /** Looking up own keys only, "constructor" gets the default reply. */
  lemma ConstructorGetsDefault()
    ensures ResponseOf("constructor") == DefaultReply
  {
    ConstructorIsNormal();
    ConstructorIsNoKey();
    NoKeyGivesDefault("constructor");
  }

  /** Elsewhere the two lookups agree, and the answer is always one of the
      table's texts or the default. */
  lemma OwnKeysAgreeElsewhere(input: string)
    requires Normalize(input) !in InheritedNames
    ensures ResponseAsWritten(input) == ReplyText(ResponseOf(input))
    ensures ResponseOf(input) == DefaultReply || exists k :: 0 <= k < |Keys| && ResponseOf(input) == Replies[k]
  {
  }

  // ---------------------------------------------------------------------------
  // The chat

  datatype Message = Message(id: string, text: string, isBot: bool)

  /** The "Try asking" buttons. */
  const SuggestedQuestions: seq<string> := [
    "Tell me about your services",
    "How can I contact you?",
    "Show me your portfolio",
    "What are your prices?"
  ]

  const WelcomeText := "Hello! \U{1F44B} Welcome! I'm your AI assistant. I can help you with questions about our services, contact info, and general inquiries. How can I help you today?"

  class BotChatState {
    var messages: seq<Message>
    var input: string
    var isTyping: bool
    /** The inputs whose replies are scheduled and not yet delivered. */
    var pending: seq<string>

    constructor ()
      ensures messages == [] && input == "" && !isTyping && pending == []
    {
      messages := [];
      input := "";
      isTyping := false;
      pending := [];
    }

    /** The mount effect: the welcome message replaces the list. */
    method Mount()
      modifies this
      ensures messages == [Message("1", WelcomeText, true)]
      ensures input == old(input) && isTyping == old(isTyping) && pending == old(pending)
    {
      messages := [Message("1", WelcomeText, true)];
    }

    /** The suggested questions show under the welcome message only. */
    predicate ShowsSuggestions()
      reads this
    {
      |messages| == 1
    }

    /** A "Try asking" button fills the input with its question. */
    method ClickSuggestion(k: nat)
      requires k < |SuggestedQuestions|
      modifies this
      ensures input == SuggestedQuestions[k]
      ensures messages == old(messages) && isTyping == old(isTyping) && pending == old(pending)
    {
      input := SuggestedQuestions[k];
    }

    /** The input box's `onChange`. */
    method SetInput(value: string)
      modifies this
      ensures input == value
      ensures messages == old(messages) && isTyping == old(isTyping) && pending == old(pending)
    {
      input := value;
    }

    /** `handleSend`, up to scheduling the reply; `id` is `Date.now()`. */
    method HandleSend(id: string)
      modifies this
      ensures Trim(old(input)) == "" ==>
        messages == old(messages) && input == old(input) && isTyping == old(isTyping) && pending == old(pending)
      ensures Trim(old(input)) != "" ==>
        && messages == old(messages) + [Message(id, old(input), false)]
        && input == "" && isTyping
        && pending == old(pending) + [old(input)]
    {
      if Trim(input) == "" {
        return;
      }
      messages := messages + [Message(id, input, false)];
      pending := pending + [input];
      input := "";
      isTyping := true;
    }

    /** The scheduled callback of the `k`-th pending reply; `id` is
        `Date.now() + 1`. */
    method DeliverReply(k: nat, id: string)
      requires k < |pending|
      modifies this
      ensures messages == old(messages) + [Message(id, ResponseOf(old(pending)[k]), true)]
      ensures pending == old(pending)[..k] + old(pending)[k + 1..]
      ensures !isTyping && input == old(input)
    {
      var response := GetResponse(pending[k]);
      messages := messages + [Message(id, response, true)];
      pending := pending[..k] + pending[k + 1..];
      isTyping := false;
    }
  }

  /** One question and its answer add exactly two messages, after which the
      suggestions are gone. */
  method ConversationScenario(question: string)
    requires Trim(question) != ""
  {
    var chat := new BotChatState();
    chat.Mount();
    assert chat.ShowsSuggestions();
    chat.SetInput(question);
    chat.HandleSend("1700000000000");
    chat.DeliverReply(0, "1700000000001");
    assert chat.messages[1..] == [Message("1700000000000", question, false),
                                  Message("1700000000001", ResponseOf(question), true)];
    assert |chat.messages| == 3 && !chat.ShowsSuggestions();
  }
}

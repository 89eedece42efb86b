/** The three agents (`RestaurantAgent`, `WeatherAgent`, `GeneralAgent`).
    They differ only in their prompt text, so one function parameterised by
    the category stands for all three `process` methods. */
module Agents {

  import opened Maybe
  import opened Text
  import opened Router

  /** What one call of the language-model generator yields: the reply text,
      or the description of the exception it raised. */
  datatype GenResult = Ok(text: string) | Err(detail: string)

  /** The generator as an oracle: given how many generator calls came before
      this one and the prompt, what the call yields. The call index lets two
      calls with the same prompt yield different text. */
  type Generator = (nat, string) -> GenResult

  /** The class-name stem used in the error reply. */
  function AgentName(c: Category): string {
    match c
    case Restaurant => "Restaurant"
    case Weather => "Weather"
    case General => "General"
  }

  /** The persona sentence each template opens with. */
  function Persona(c: Category): string {
    match c
    case Restaurant => "Pakistani restaurant assistant"
    case Weather => "Pakistani weather assistant"
    case General => "helpful Pakistani assistant"
  }

  /** The second line of each template. */
  function Guidance(c: Category): string {
    match c
    case Restaurant => "Help with: food recommendations, restaurant suggestions, menu questions."
    case Weather => "Help with: weather info, temperature, forecasts."
    case General => "Answer general questions in a friendly way."
  }

  /** A line break followed by the eight spaces of indentation the
      triple-quoted templates carry. */
  const LineBreak: string := "\n        "

  const WordLimit: string := "Keep response under 100 words."

  const RomanUrdu: string := "Reply in Roman Urdu"

  /** The template text before the persona. */
  const Opening: string := LineBreak + "You are a "

  /** The template text between the persona and the user's message. */
  function Briefing(c: Category): string {
    ". " + WordLimit + Instructions(c)
  }

  function Instructions(c: Category): string {
    LineBreak + Guidance(c) + LineBreak + LineBreak + "User: "
  }

  /** Everything of the template up to the user's message. */
  function PromptHead(c: Category): string {
    Opening + Persona(c) + Briefing(c)
  }

  const Closing: string := ", be helpful and friendly."

  /** Everything of the template after the user's message. */
  const PromptTail: string := LineBreak + RomanUrdu + Closing + LineBreak

  /** The prompt an agent sends to the generator: its template with the
      user's message inserted verbatim, without escaping. */
  function BuildPrompt(c: Category, message: string): string {
    PromptHead(c) + message + PromptTail
  }

  lemma PromptHasMessage(c: Category, message: string)
    ensures Occurs(message, BuildPrompt(c, message))
  {
    OccursInMiddle(PromptHead(c), message, PromptTail);
  }

  lemma PromptHasPersona(c: Category, message: string)
    ensures Occurs(Persona(c), BuildPrompt(c, message))
  {
    OccursSecondOfFive(Opening, Persona(c), Briefing(c), message, PromptTail);
  }

  lemma PromptHasWordLimit(c: Category, message: string)
    ensures Occurs(WordLimit, BuildPrompt(c, message))
  {
    OccursInMiddle(". ", WordLimit, Instructions(c));
    OccursInThirdOfFive(WordLimit, Opening, Persona(c), Briefing(c), message, PromptTail);
  }

  lemma PromptHasRomanUrdu(c: Category, message: string)
    ensures Occurs(RomanUrdu, BuildPrompt(c, message))
  {
    OccursInMiddle(LineBreak, RomanUrdu, Closing + LineBreak);
    assert LineBreak + RomanUrdu + (Closing + LineBreak) == PromptTail;
    OccursInLastOfThree(RomanUrdu, PromptHead(c), message, PromptTail);
  }

  /** Every prompt holds the user's message verbatim, the persona of its
      category, the word limit and the Roman Urdu instruction. */
  lemma PromptContents(c: Category, message: string)
    ensures Occurs(message, BuildPrompt(c, message))
    ensures Occurs(Persona(c), BuildPrompt(c, message))
    ensures Occurs(WordLimit, BuildPrompt(c, message))
    ensures Occurs(RomanUrdu, BuildPrompt(c, message))
  {
    PromptHasMessage(c, message);
    PromptHasPersona(c, message);
    PromptHasWordLimit(c, message);
    PromptHasRomanUrdu(c, message);
  }

  /** The text `s` holds between a leading `head` and a trailing `tail`, or
      `None` when `s` does not start with `head` and end with `tail` without
      the two overlapping. */
  function Between(head: string, tail: string, s: string): (m: Option<string>)
    ensures m.Some? ==> head + m.value + tail == s
  {
    if |head| + |tail| <= |s| && head <= s && s[|s| - |tail|..] == tail then
      SplitAround(s, head, tail);
      Some(s[|head|..|s| - |tail|])
    else None
  }

  /** Recovers the user's message from a prompt built from the template of
      `c`, or `None` when `prompt` is not such a prompt. */
  function MessageOf(c: Category, prompt: string): (m: Option<string>)
    ensures m.Some? ==> BuildPrompt(c, m.value) == prompt
  {
    Between(PromptHead(c), PromptTail, prompt)
  }

  /** The message is inserted verbatim: it can be read back unchanged. */
  lemma MessageOfBuildPrompt(c: Category, message: string)
    ensures MessageOf(c, BuildPrompt(c, message)) == Some(message)
  {
    ConcatParts(PromptHead(c), message, PromptTail);
  }

  /** Two templates that share their opening and differ within the persona
      cannot both begin the same prompt. */
  lemma PersonasDiverge(opening: string, p1: string, b1: string, p2: string, b2: string,
                        prompt: string, j: nat)
    requires j < |p1| && j < |p2| && p1[j] != p2[j]
    requires opening + p1 + b1 <= prompt
    ensures !(opening + p2 + b2 <= prompt)
  {
    assert prompt[|opening| + j] == (opening + p1 + b1)[|opening| + j] == p1[j];
    assert (opening + p2 + b2)[|opening| + j] == p2[j];
  }

  /** The personas of different categories differ at some position: the
      first letter when one of them is General, else the eleventh. */
  lemma PersonasDifferAt(c1: Category, c2: Category) returns (j: nat)
    requires c1 != c2
    ensures j < |Persona(c1)| && j < |Persona(c2)| && Persona(c1)[j] != Persona(c2)[j]
  {
    j := if c1 == General || c2 == General then 0 else 10;
  }

  /** The templates of different categories differ within the persona
      sentence, so no prompt of one category is a prompt of another. */
  lemma HeadsDiverge(c1: Category, c2: Category, p: string)
    requires c1 != c2
    requires PromptHead(c1) <= p
    ensures !(PromptHead(c2) <= p)
  {
    var j := PersonasDifferAt(c1, c2);
    PersonasDiverge(Opening, Persona(c1), Briefing(c1), Persona(c2), Briefing(c2), p, j);
  }

  /** A prompt determines both the category and the message it was built
      from. */
  lemma BuildPromptInjective(c1: Category, m1: string, c2: Category, m2: string)
    requires BuildPrompt(c1, m1) == BuildPrompt(c2, m2)
    ensures c1 == c2 && m1 == m2
  {
    ConcatParts(PromptHead(c1), m1, PromptTail);
    ConcatParts(PromptHead(c2), m2, PromptTail);
    if c1 != c2 {
      HeadsDiverge(c1, c2, BuildPrompt(c1, m1));
    }
    MessageOfBuildPrompt(c1, m1);
    MessageOfBuildPrompt(c2, m2);
  }

  /** The reply `process` returns once the generator has answered: its text
      on success, otherwise the agent's error line with the detail. */
  function Respond(c: Category, outcome: GenResult): (reply: string)
    ensures outcome.Ok? ==> reply == outcome.text
    ensures outcome.Err? ==> ErrorReply(reply) == Some((c, outcome.detail))
  {
    match outcome
    case Ok(text) => text
    case Err(detail) =>
      var reply := AgentName(c) + " agent error: " + detail;
      ErrorReplyOfRespond(c, detail);
      reply
  }

  const ErrorMarker: string := " agent error: "

  /** Reads an error reply back into the category it names and the detail,
      or `None` when `reply` does not have that shape. */
  function ErrorReply(reply: string): Option<(Category, string)> {
    if ErrorPrefix(Restaurant) <= reply then Some((Restaurant, reply[|ErrorPrefix(Restaurant)|..]))
    else if ErrorPrefix(Weather) <= reply then Some((Weather, reply[|ErrorPrefix(Weather)|..]))
    else if ErrorPrefix(General) <= reply then Some((General, reply[|ErrorPrefix(General)|..]))
    else None
  }

  function ErrorPrefix(c: Category): string {
    AgentName(c) + ErrorMarker
  }

  /** The error line of `c` reads back as `c` and the detail. */
  lemma ErrorReplyOfRespond(c: Category, detail: string)
    ensures ErrorReply(AgentName(c) + ErrorMarker + detail) == Some((c, detail))
  {
    var reply := ErrorPrefix(c) + detail;
    assert AgentName(c) + ErrorMarker + detail == reply;
    assert reply[|ErrorPrefix(c)|..] == detail;
    if c != Restaurant {
      assert reply[0] != 'R';
    }
    if c == General {
      assert reply[0] != 'W';
    }
  }

  /** `process(message)` of the agent for `c`: builds the prompt, makes
      generator call number `call` with it and answers with the reply. */
  function Process(c: Category, message: string, generate: Generator, call: nat): (reply: string)
    ensures generate(call, BuildPrompt(c, message)).Ok? ==>
              reply == generate(call, BuildPrompt(c, message)).text
    ensures generate(call, BuildPrompt(c, message)).Err? ==>
              ErrorReply(reply) == Some((c, generate(call, BuildPrompt(c, message)).detail))
  {
    Respond(c, generate(call, BuildPrompt(c, message)))
  }

  /** The generator is asked about the built prompt only: two generators
      that answer that prompt alike give the same reply. */
  lemma ProcessAsksOnlyTheBuiltPrompt(c: Category, message: string, g1: Generator, g2: Generator, call: nat)
    requires g1(call, BuildPrompt(c, message)) == g2(call, BuildPrompt(c, message))
    ensures Process(c, message, g1, call) == Process(c, message, g2, call)
  {
  }

  /** When the generator call fails, the agent answers with its error line:
      its class-name stem, " agent error: " and the exception's detail. */
  lemma FailureReply(c: Category, message: string, generate: Generator, call: nat, detail: string)
    requires generate(call, BuildPrompt(c, message)) == Err(detail)
    ensures Process(c, message, generate, call) == AgentName(c) + ErrorMarker + detail
  {
  }

  /** A message routed to the weather agent whose generator call fails is
      answered with a line starting "Weather agent error: ". */
  lemma WeatherFailureReply(message: string, generate: Generator, call: nat, detail: string)
    requires Classify(message) == Weather
    requires generate(call, BuildPrompt(Weather, message)) == Err(detail)
    ensures Process(Classify(message), message, generate, call) == "Weather agent error: " + detail
  {
    FailureReply(Weather, message, generate, call, detail);
    WeatherErrorPrefix();
  }

  lemma WeatherErrorPrefix()
    ensures AgentName(Weather) + ErrorMarker == "Weather agent error: "
  {
  }
}

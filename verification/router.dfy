/** The keyword router (`get_agent`): picks the agent for an incoming text. */
module Router {

  import opened Text

  /** The three agents a message can be routed to. */
  datatype Category = Restaurant | Weather | General

  const RestaurantWords: seq<string> :=
    ["food", "khana", "restaurant", "menu", "order", "pizza", "biryani", "karahi", "nihari", "chai"]

  const WeatherWords: seq<string> :=
    ["weather", "mausam", "temperature", "garmi", "sardi", "barish", "dhoop", "thanda"]

  /** Some keyword of `words` occurs in `text` (reference meaning). */
  ghost predicate Mentions(words: seq<string>, text: string) {
    exists w :: w in words && Occurs(w, text)
  }

  /** Python's `any(word in text for word in words)`. */
  predicate AnyContained(words: seq<string>, text: string) {
    if words == [] then false
    else Contains(text, words[0]) || AnyContained(words[1..], text)
  }

  /** The keyword scan succeeds exactly when some keyword occurs. */
  lemma {:induction false} AnyContainedIffMentions(words: seq<string>, text: string)
    ensures AnyContained(words, text) <==> Mentions(words, text)
  {
    if words != [] {
      ContainsIffOccurs(text, words[0]);
      AnyContainedIffMentions(words[1..], text);
      if Mentions(words, text) {
        var w :| w in words && Occurs(w, text);
        if w != words[0] {
          assert w in words[1..];
        }
      }
    }
  }

  /** No keyword of either list is empty, so none occurs in the empty text. */
  lemma NothingMentionedInEmpty(words: seq<string>)
    requires forall w :: w in words ==> w != []
    ensures !Mentions(words, [])
  {
    forall w | w in words
      ensures !Occurs(w, [])
    {
      OccursInEmpty(w);
    }
  }

  /** `get_agent(message)`: restaurant keywords are tried before weather
      keywords, and text matching neither goes to the general agent. */
  function Classify(message: string): Category {
    if message == [] then General
    else
      var lower := ToLower(message);
      if AnyContained(RestaurantWords, lower) then Restaurant
      else if AnyContained(WeatherWords, lower) then Weather
      else General
  }

  /** Routing in terms of keyword occurrence in the lower-cased text: the
      empty text goes to General; Restaurant exactly when a restaurant
      keyword occurs; Weather exactly when none does and a weather keyword
      does; General exactly when neither list matches. */
  lemma ClassifySpec(message: string)
    ensures message == [] ==> Classify(message) == General
    ensures Classify(message) == Restaurant <==> Mentions(RestaurantWords, ToLower(message))
    ensures Classify(message) == Weather <==>
              !Mentions(RestaurantWords, ToLower(message)) && Mentions(WeatherWords, ToLower(message))
    ensures Classify(message) == General <==>
              !Mentions(RestaurantWords, ToLower(message)) && !Mentions(WeatherWords, ToLower(message))
  {
    var lower := ToLower(message);
    AnyContainedIffMentions(RestaurantWords, lower);
    AnyContainedIffMentions(WeatherWords, lower);
    if message == [] {
      assert lower == [];
      NothingMentionedInEmpty(RestaurantWords);
      NothingMentionedInEmpty(WeatherWords);
    }
  }

  /** Only the lower-cased text is inspected, so two messages that differ
      only in ASCII letter case are routed alike. */
  lemma ClassifyIgnoresCase(a: string, b: string)
    requires ToLower(a) == ToLower(b)
    ensures Classify(a) == Classify(b)
  {
  }

  /** `classify(s) == classify(s.lower())`. */
  lemma ClassifyOfLower(s: string)
    ensures Classify(ToLower(s)) == Classify(s)
  {
    ToLowerIdempotent(s);
    ClassifyIgnoresCase(ToLower(s), s);
  }

  /** A restaurant keyword wins over any weather keyword in the same text. */
  lemma RestaurantWinsTies(message: string, r: string, w: string)
    requires r in RestaurantWords && w in WeatherWords
    requires Occurs(r, ToLower(message)) && Occurs(w, ToLower(message))
    ensures Classify(message) == Restaurant
  {
    ClassifySpec(message);
  }

  /** Every restaurant keyword starts with a letter. */
  lemma KeywordStartsNonSpace(w: string)
    requires w in RestaurantWords
    ensures |w| > 0 && !IsSpace(w[0])
  {
  }

  /** A keyword that has a character the text lacks does not occur in it. */
  lemma MissingCharNotOccurs(w: string, text: string, j: nat)
    requires j < |w| && w[j] !in text
    ensures !Occurs(w, text)
  {
    forall i | 0 <= i <= |text| - |w|
      ensures !OccursAt(w, text, i)
    {
      assert text[i..i + |w|][j] == text[i + j];
      assert text[i + j] in text;
    }
  }

  /** For the k-th keyword of `words`, `missing[k]` indexes a character of
      it that `text` lacks. */
  predicate LacksAll(words: seq<string>, text: string, missing: seq<nat>) {
    |missing| == |words| &&
    forall k :: 0 <= k < |words| ==> missing[k] < |words[k]| && words[k][missing[k]] !in text
  }

  /** No keyword of `words` occurs in `text`, shown by naming a missing
      character of each. */
  lemma NoneMentioned(words: seq<string>, text: string, missing: seq<nat>)
    requires LacksAll(words, text, missing)
    ensures !Mentions(words, text)
  {
    forall k | 0 <= k < |words|
      ensures !Occurs(words[k], text)
    {
      MissingCharNotOccurs(words[k], text, missing[k]);
    }
  }

  /** A message in whose lower-cased text a restaurant keyword occurs goes
      to the restaurant agent. */
  lemma RoutedToRestaurant(message: string, lower: string, w: string, i: int)
    requires ToLower(message) == lower
    requires w in RestaurantWords && OccursAt(w, lower, i)
    ensures Classify(message) == Restaurant
  {
    ClassifySpec(message);
  }

  /** A message with a weather keyword and no restaurant keyword goes to the
      weather agent. */
  lemma RoutedToWeather(message: string, lower: string, w: string, i: int)
    requires ToLower(message) == lower
    requires w in WeatherWords && OccursAt(w, lower, i)
    requires !Mentions(RestaurantWords, lower)
    ensures Classify(message) == Weather
  {
    ClassifySpec(message);
  }

  /** A message with neither kind of keyword goes to the general agent. */
  lemma RoutedToGeneral(message: string, lower: string)
    requires ToLower(message) == lower
    requires !Mentions(RestaurantWords, lower) && !Mentions(WeatherWords, lower)
    ensures Classify(message) == General
  {
    ClassifySpec(message);
  }

  // Each sample below first settles the facts about its literal text in a
  // lemma of its own, then applies one of the three routing lemmas above.

  lemma BorderFacts(text: string)
    requires text == "border"
    ensures ToLower(text) == text && OccursAt("order", text, 1)
  {
  }

  lemma ChairsFacts(text: string)
    requires text == "Chairs"
    ensures ToLower(text) == "chairs" && OccursAt("chai", "chairs", 0)
  {
  }

  /** Matching is by substring, not by whole word: "border" contains
      "order" and "Chairs" lower-cases to a text containing "chai". */
  lemma SubstringNotWord()
    ensures Classify("border") == Restaurant
    ensures Classify("Chairs") == Restaurant
  {
    BorderFacts("border");
    RoutedToRestaurant("border", "border", "order", 1);
    ChairsFacts("Chairs");
    RoutedToRestaurant("Chairs", "chairs", "chai", 0);
  }

  lemma MausamLower(text: string)
    requires text == "mausam kaisa hai"
    ensures ToLower(text) == text && OccursAt("mausam", text, 0)
  {
  }

  lemma MausamLacksRestaurantWords(text: string)
    requires text == "mausam kaisa hai"
    ensures LacksAll(RestaurantWords, text, [0, 3, 0, 1, 0, 0, 0, 2, 0, 0])
  {
  }

  /** A weather phrase with no restaurant keyword goes to the weather agent. */
  lemma WeatherPhraseRouting()
    ensures Classify("mausam kaisa hai") == Weather
  {
    var text := "mausam kaisa hai";
    MausamLower(text);
    MausamLacksRestaurantWords(text);
    NoneMentioned(RestaurantWords, text, [0, 3, 0, 1, 0, 0, 0, 2, 0, 0]);
    RoutedToWeather(text, text, "mausam", 0);
  }

  lemma PizzaFacts(text: string)
    requires text == "PIZZA"
    ensures ToLower(text) == "pizza" && OccursAt("pizza", "pizza", 0)
  {
  }

  /** An upper-case keyword is recognised. */
  lemma UpperCaseRouting()
    ensures Classify("PIZZA") == Restaurant
  {
    PizzaFacts("PIZZA");
    RoutedToRestaurant("PIZZA", "pizza", "pizza", 0);
  }

  lemma BarishFacts(text: string)
    requires text == "barish mein chai"
    ensures ToLower(text) == text && OccursAt("chai", text, 12)
  {
  }

  /** A text with a weather keyword and a later restaurant keyword goes to
      the restaurant agent. */
  lemma MixedRouting()
    ensures Classify("barish mein chai") == Restaurant
  {
    BarishFacts("barish mein chai");
    RoutedToRestaurant("barish mein chai", "barish mein chai", "chai", 12);
  }

  lemma HelloFacts(text: string)
    requires text == "hello"
    ensures ToLower(text) == text
    ensures LacksAll(RestaurantWords, text, [0, 0, 0, 0, 1, 0, 0, 0, 0, 0])
    ensures LacksAll(WeatherWords, text, [0, 0, 0, 0, 0, 0, 0, 0])
  {
  }

  /** A text with no keyword goes to the general agent. */
  lemma UnmatchedRouting()
    ensures Classify("hello") == General
  {
    HelloFacts("hello");
    NoneMentioned(RestaurantWords, "hello", [0, 0, 0, 0, 1, 0, 0, 0, 0, 0]);
    NoneMentioned(WeatherWords, "hello", [0, 0, 0, 0, 0, 0, 0, 0]);
    RoutedToGeneral("hello", "hello");
  }
}

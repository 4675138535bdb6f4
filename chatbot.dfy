/**
 * The keyword chatbot: the lower-cased question is scanned against an
 * ordered knowledge table and the first keyword occurring in it wins; only
 * when no keyword occurs are the greeting words, then "help", consulted,
 * and otherwise a fixed fallback answer is given.
 */
module Chatbot {
  import opened Options
  import opened Text

  datatype Entry = Entry(keyword: string, response: string)

  /** The knowledge table, in the insertion order the source iterates it in. */
  const Knowledge: seq<Entry> := [
    Entry("rice", "Rice cultivation: Best in clayey soil, needs 1500-2000mm rainfall, 25-35°C. Kharif crop, 4-6 months. Varieties: Basmati, IR-64."),
    Entry("wheat", "Wheat: Loamy soil, 600-800mm rainfall, 15-25°C. Rabi crop, 4-5 months. Varieties: HD-2967, PBW-343."),
    Entry("cotton", "Cotton: Black soil, 600-1200mm rainfall, 21-27°C. Kharif crop, 5-6 months. Requires pest management."),
    Entry("pm kisan", "PM-KISAN: ₹6,000/year to farmers. ₹2,000 every 4 months. Register at pmkisan.gov.in"),
    Entry("loan", "Agricultural loans: KCC provides up to ₹3 lakhs at 7% interest (4% after subsidy)."),
    Entry("soil test", "Soil testing: Test every 2-3 years for NPK. Cost: ₹50-200. Visit nearest KVK."),
    Entry("irrigation", "Drip irrigation saves 40-60% water. Sprinkler saves 20-30%. Government subsidies available.")
  ]

  const GreetingWords: seq<string> := ["hello", "hi", "namaste"]

  const GreetingReply: string :=
    "🙏 Namaste! I'm SmartAgri AI. Ask me about crops, loans, schemes, or farming practices!"

  const HelpReply: string :=
    "I can help with: 🌾 Crops, 💰 Loans, 🏛️ Schemes, 💧 Irrigation, 🦗 Pests, 📈 Markets. Ask anything!"

  const FallbackReply: string :=
    "I can help with farming questions. Try asking about crops, PM-KISAN, loans, or soil testing!"

  /** Every answer the chatbot can give. */
  ghost predicate IsCannedReply(s: string)
  {
    s == GreetingReply || s == HelpReply || s == FallbackReply
    || exists i :: 0 <= i < |Knowledge| && s == Knowledge[i].response
  }

  /** Does the i-th keyword of the table occur in the (lower-cased) text? */
  ghost predicate KeywordOccurs(table: seq<Entry>, i: int, text: string)
    requires 0 <= i < |table|
  {
    IsSubstring(table[i].keyword, text)
  }

  /** The index of the earliest entry whose keyword occurs in text, if any. */
  function FirstMatch(table: seq<Entry>, text: string): (r: Option<nat>)
    ensures r.Some? ==> r.value < |table| && KeywordOccurs(table, r.value, text)
    ensures r.Some? ==> forall j :: 0 <= j < r.value ==> !KeywordOccurs(table, j, text)
    ensures r.None? <==> forall j :: 0 <= j < |table| ==> !KeywordOccurs(table, j, text)
  {
    if table == [] then None
    else if Contains(text, table[0].keyword) then
      assert KeywordOccurs(table, 0, text);
      Some(0)
    else
      var rest := FirstMatch(table[1..], text);
      assert forall j :: 1 <= j < |table| ==>
          KeywordOccurs(table, j, text) == KeywordOccurs(table[1..], j - 1, text);
      match rest
      case None => None
      case Some(k) =>
        assert KeywordOccurs(table, k + 1, text);
        Some(k + 1)
  }

  /** The greeting test of the source: any of the greeting words occurs. */
  function HasGreeting(text: string): (found: bool)
    ensures found <==> exists w :: w in GreetingWords && IsSubstring(w, text)
  {
    assert GreetingWords == ["hello", "hi", "namaste"];
    Contains(text, "hello") || Contains(text, "hi") || Contains(text, "namaste")
  }

  /**
   * The chatbot's answer to a question, as a specification. It is total
   * and always one of the fixed, non-empty texts.
   */
  function Reply(userInput: string): (r: string)
    ensures IsCannedReply(r)
    ensures r != ""
  {
    var userLower := Lower(userInput);
    match FirstMatch(Knowledge, userLower)
    case Some(i) => Knowledge[i].response
    case None =>
      if HasGreeting(userLower) then GreetingReply
      else if Contains(userLower, "help") then HelpReply
      else FallbackReply
  }

  /**
   * The matcher as the source runs it: a loop over the table that returns
   * on the first keyword found, then the greeting, help and fallback tests.
   */
  method GetChatbotResponse(userInput: string) returns (response: string)
    ensures response == Reply(userInput)
  {
    var userLower := Lower(userInput);
    var i := 0;
    while i < |Knowledge|
      invariant 0 <= i <= |Knowledge|
      invariant forall j :: 0 <= j < i ==> !KeywordOccurs(Knowledge, j, userLower)
    {
      if Contains(userLower, Knowledge[i].keyword) {
        EarliestKeywordWins(userInput, i);
        return Knowledge[i].response;
      }
      i := i + 1;
    }
    assert FirstMatch(Knowledge, userLower).None?;
    if Contains(userLower, "hello") || Contains(userLower, "hi") || Contains(userLower, "namaste") {
      return GreetingReply;
    }
    if Contains(userLower, "help") {
      return HelpReply;
    }
    return FallbackReply;
  }

  /**
   * Table order decides: when the i-th keyword is the earliest one that
   * occurs, its answer is given, whatever greeting or "help" also occurs.
   */
  lemma EarliestKeywordWins(userInput: string, i: nat)
    requires i < |Knowledge|
    requires KeywordOccurs(Knowledge, i, Lower(userInput))
    requires forall j :: 0 <= j < i ==> !KeywordOccurs(Knowledge, j, Lower(userInput))
    ensures Reply(userInput) == Knowledge[i].response
  {
    var m := FirstMatch(Knowledge, Lower(userInput));
    assert m.Some? && m.value == i;
  }

  /** With no keyword present, a greeting word gives the greeting, before "help" is looked at. */
  lemma GreetingBeforeHelp(userInput: string)
    requires forall j :: 0 <= j < |Knowledge| ==> !KeywordOccurs(Knowledge, j, Lower(userInput))
    requires exists w :: w in GreetingWords && IsSubstring(w, Lower(userInput))
    ensures Reply(userInput) == GreetingReply
  {
  }

  /** With neither a keyword nor a greeting word, "help" gives the capability summary. */
  lemma HelpAfterGreeting(userInput: string)
    requires forall j :: 0 <= j < |Knowledge| ==> !KeywordOccurs(Knowledge, j, Lower(userInput))
    requires forall w :: w in GreetingWords ==> !IsSubstring(w, Lower(userInput))
    requires IsSubstring("help", Lower(userInput))
    ensures Reply(userInput) == HelpReply
  {
    var text := Lower(userInput);
    assert FirstMatch(Knowledge, text).None?;
    assert !Contains(text, "hello") by { assert "hello" in GreetingWords; }
    assert !Contains(text, "hi") by { assert "hi" in GreetingWords; }
    assert !Contains(text, "namaste") by { assert "namaste" in GreetingWords; }
    assert Contains(text, "help");
  }

  /** With nothing recognised, the fixed fallback answer is given. */
  lemma FallbackWhenNothingMatches(userInput: string)
    requires forall j :: 0 <= j < |Knowledge| ==> !KeywordOccurs(Knowledge, j, Lower(userInput))
    requires forall w :: w in GreetingWords ==> !IsSubstring(w, Lower(userInput))
    requires !IsSubstring("help", Lower(userInput))
    ensures Reply(userInput) == FallbackReply
  {
    var text := Lower(userInput);
    assert FirstMatch(Knowledge, text).None?;
    assert !Contains(text, "hello") by { assert "hello" in GreetingWords; }
    assert !Contains(text, "hi") by { assert "hi" in GreetingWords; }
    assert !Contains(text, "namaste") by { assert "namaste" in GreetingWords; }
  }

  /** Matching ignores letter case: a question and its lower-cased form get the same answer. */
  lemma ReplyIgnoresCase(userInput: string)
    ensures Reply(userInput) == Reply(Lower(userInput))
  {
    LowerIdempotent(userInput);
  }

  /** "Hello, how do I grow rice?" gets the rice answer, not the greeting. */
  lemma RiceQuestionWithGreeting()
    ensures Reply("Hello, how do I grow rice?") == Knowledge[0].response
  {
    var text := Lower("Hello, how do I grow rice?");
    assert text == "hello, how do i grow rice?";
    assert "rice" <= text[21..];
    OccursAt("rice", text, 21);
    EarliestKeywordWins("Hello, how do I grow rice?", 0);
  }
}

/**
  The simulated assistant of `trainAI.ts`: the company knowledge handed on
  from training, the keyword responder that answers by the first matching
  rule on the lower-cased message, and the word-count sentiment scorer.
 */
module Responder {
  import opened Wrappers
  import opened Strings

  /** A product as training sees it; the price is kept as the text JavaScript renders for it. */
  datatype Product = Product(name: string, description: string, priceText: string)

  datatype TrainingData = TrainingData(
    companyName: string,
    products: seq<Product>,
    companyDescription: string,
    whatsappNumber: Option<string>)

  /** What training hands on to the responder (the serialised "knowledge" object, without its timestamp). */
  datatype Knowledge = Knowledge(company: string, description: string, products: seq<Product>)

  /** `trainAIWithCompanyData`: the company name, description and product list, passed on unchanged. */
  function TrainAIWithCompanyData(data: TrainingData): (k: Knowledge)
    ensures k.company == data.companyName
    ensures k.description == data.companyDescription
    ensures k.products == data.products
  {
    Knowledge(data.companyName, data.companyDescription, data.products)
  }

  datatype AIResponse = AIResponse(response: string, confidence: real, suggestedActions: seq<string>)

  /** What the responder decided the customer wants. */
  datatype Intent = Greeting | Catalogue | Pricing | Contact | Fallback

  /** A rule fires when any of its keywords occurs in the lower-cased message. */
  datatype Rule = Rule(keywords: seq<string>, intent: Intent)

  /** The rules, highest priority first. */
  const Rules: seq<Rule> := [
    Rule(["olá", "oi"], Greeting),
    Rule(["produto", "produtos"], Catalogue),
    Rule(["preço", "valor"], Pricing),
    Rule(["contato", "telefone"], Contact)
  ]

  predicate Matches(rule: Rule, lower: string)
  {
    exists k :: 0 <= k < |rule.keywords| && Contains(lower, rule.keywords[k])
  }

  /**
    The chain of keyword tests `generateAIResponse` runs, in its order. It
    falls back exactly when no rule of the table matches, and any other
    intent is that of a rule that matches.
   */
  function DetectIntent(lower: string): (r: Intent)
    ensures r == Fallback <==> forall i :: 0 <= i < |Rules| ==> !Matches(Rules[i], lower)
    ensures r != Fallback ==> exists i :: 0 <= i < |Rules| && Rules[i].intent == r && Matches(Rules[i], lower)
  {
    RuleMatches(lower);
    if Contains(lower, "olá") || Contains(lower, "oi") then Greeting
    else if Contains(lower, "produto") || Contains(lower, "produtos") then Catalogue
    else if Contains(lower, "preço") || Contains(lower, "valor") then Pricing
    else if Contains(lower, "contato") || Contains(lower, "telefone") then Contact
    else Fallback
  }

  /**
    The chain is a first-match over the rule table: the intent is rule i's
    exactly when rule i matches and no earlier rule does, and the fallback
    exactly when no rule matches.
   */
  lemma IntentIsFirstMatchingRule(lower: string)
    ensures forall i :: 0 <= i < |Rules| ==>
              (DetectIntent(lower) == Rules[i].intent <==>
                 Matches(Rules[i], lower) && forall j :: 0 <= j < i ==> !Matches(Rules[j], lower))
    ensures DetectIntent(lower) == Fallback <==> forall i :: 0 <= i < |Rules| ==> !Matches(Rules[i], lower)
  {
    RuleMatches(lower);
  }

  /** Each rule of the table matches exactly when one of its two keywords occurs. */
  lemma RuleMatches(lower: string)
    ensures Matches(Rules[0], lower) <==> Contains(lower, "olá") || Contains(lower, "oi")
    ensures Matches(Rules[1], lower) <==> Contains(lower, "produto") || Contains(lower, "produtos")
    ensures Matches(Rules[2], lower) <==> Contains(lower, "preço") || Contains(lower, "valor")
    ensures Matches(Rules[3], lower) <==> Contains(lower, "contato") || Contains(lower, "telefone")
  {
    forall i | 0 <= i < |Rules|
      ensures Matches(Rules[i], lower) <==> Contains(lower, Rules[i].keywords[0]) || Contains(lower, Rules[i].keywords[1])
    {
      MatchesEitherKeyword(Rules[i], lower);
    }
  }

  lemma MatchesEitherKeyword(rule: Rule, lower: string)
    requires |rule.keywords| == 2
    ensures Matches(rule, lower) <==> Contains(lower, rule.keywords[0]) || Contains(lower, rule.keywords[1])
  {
    if Contains(lower, rule.keywords[0]) {
      assert 0 < |rule.keywords|;
    }
  }

  /** The second keyword of the catalogue rule adds nothing: "produtos" contains "produto". */
  lemma ProdutosImpliesProduto(lower: string)
    requires Contains(lower, "produtos")
    ensures Contains(lower, "produto")
  {
    assert "produto" + "s" == "produtos";
    ContainsPrefixOfWord(lower, "produto", "s");
  }

  /** `• name - R$ price`: the line names the product and its price, and breaks only where they do. */
  function ProductLine(p: Product): (line: string)
    ensures Contains(line, p.name) && Contains(line, p.priceText)
    ensures '\n' in line <==> '\n' in p.name || '\n' in p.priceText
  {
    ContainsInMiddle("• ", p.name, " - R$ " + p.priceText);
    assert "• " + p.name + " - R$ " + p.priceText == "• " + p.name + (" - R$ " + p.priceText);
    ContainsInMiddle("• " + p.name + " - R$ ", p.priceText, "");
    assert "• " + p.name + " - R$ " + p.priceText + "" == "• " + p.name + " - R$ " + p.priceText;
    "• " + p.name + " - R$ " + p.priceText
  }

  function ProductLines(products: seq<Product>): (lines: seq<string>)
    ensures |lines| == |products|
    ensures forall i :: 0 <= i < |products| ==> lines[i] == ProductLine(products[i])
  {
    seq(|products|, i requires 0 <= i < |products| => ProductLine(products[i]))
  }

  /** The product lines joined by newlines. */
  function ProductListing(products: seq<Product>): string
  {
    Join(ProductLines(products), '\n')
  }

  const CatalogueHeader := "Aqui estão nossos produtos:\n"
  const CatalogueFooter := "\n\nGostaria de saber mais sobre algum produto específico?"
  const PricingText := "Posso ajudá-lo(a) com informações sobre preços. Qual produto te interessa?"
  const ContactText := "Para mais informações, você pode nos contatar através do WhatsApp. Como posso ajudá-lo(a) hoje?"

  /**
    What an answer for an intent looks like: the confidence tells the intent
    apart, greeting and fallback answers name the company, only the fallback
    offers a third action, the catalogue answer is the product listing
    between its header and footer, and the pricing and contact answers are
    their fixed texts.
   */
  predicate AnswersIntent(r: AIResponse, intent: Intent, knowledge: Knowledge)
  {
    && (r.confidence == 0.9 <==> intent == Greeting)
    && (r.confidence == 0.5 <==> intent == Fallback)
    && (r.confidence == 0.7 <==> intent == Pricing)
    && (r.confidence == 0.8 <==> intent == Catalogue || intent == Contact)
    && (intent == Greeting || intent == Fallback ==> Contains(r.response, knowledge.company))
    && |r.suggestedActions| == (if intent == Fallback then 3 else 2)
    && (intent == Catalogue ==> r.response == CatalogueHeader + ProductListing(knowledge.products) + CatalogueFooter)
    && (intent == Pricing ==> r.response == PricingText)
    && (intent == Contact ==> r.response == ContactText)
  }

  /** The answer for an intent: its confidence, text and suggested actions. */
  function AnswerFor(intent: Intent, knowledge: Knowledge): (r: AIResponse)
    ensures AnswersIntent(r, intent, knowledge)
  {
    match intent
    case Greeting => GreetingAnswer(knowledge)
    case Catalogue => CatalogueAnswer(knowledge)
    case Pricing => PricingAnswer(knowledge)
    case Contact => ContactAnswer(knowledge)
    case Fallback => FallbackAnswer(knowledge)
  }

  // The five fixed answers, one per intent.

  function GreetingAnswer(knowledge: Knowledge): (r: AIResponse)
    ensures AnswersIntent(r, Greeting, knowledge)
  {
    var company := knowledge.company;
    ContainsInMiddle("Olá! Bem-vindo(a) à ", company, "! Como posso ajudá-lo(a) hoje?");
    AIResponse("Olá! Bem-vindo(a) à " + company + "! Como posso ajudá-lo(a) hoje?", 0.9,
               ["Ver produtos", "Falar com atendente"])
  }

  function CatalogueAnswer(knowledge: Knowledge): (r: AIResponse)
    ensures AnswersIntent(r, Catalogue, knowledge)
  {
    AIResponse(CatalogueHeader + ProductListing(knowledge.products) + CatalogueFooter, 0.8,
               ["Ver detalhes", "Fazer pedido"])
  }

  function PricingAnswer(knowledge: Knowledge): (r: AIResponse)
    ensures AnswersIntent(r, Pricing, knowledge)
  {
    AIResponse(PricingText, 0.7,
               ["Ver produtos", "Falar com vendedor"])
  }

  function ContactAnswer(knowledge: Knowledge): (r: AIResponse)
    ensures AnswersIntent(r, Contact, knowledge)
  {
    AIResponse(ContactText, 0.8,
               ["Ver produtos", "Falar com atendente"])
  }

  function FallbackAnswer(knowledge: Knowledge): (r: AIResponse)
    ensures AnswersIntent(r, Fallback, knowledge)
  {
    var company := knowledge.company;
    ContainsInMiddle("Entendi sua mensagem. Como posso ajudá-lo(a) com informações sobre a ", company, "?");
    AIResponse("Entendi sua mensagem. Como posso ajudá-lo(a) com informações sobre a " + company + "?", 0.5,
               ["Ver produtos", "Falar com atendente", "Ver informações"])
  }

  /** `generateAIResponse`, given the knowledge training handed on: the answer for the intent of the lower-cased message. */
  function GenerateAIResponse(userMessage: string, knowledge: Knowledge): (r: AIResponse)
    ensures r.confidence in {0.9, 0.8, 0.7, 0.5}
    ensures AnswersIntent(r, DetectIntent(ToLower(userMessage)), knowledge)
  {
    AnswerFor(DetectIntent(ToLower(userMessage)), knowledge)
  }

  /** Products whose texts have no line breaks. */
  predicate SingleLine(products: seq<Product>)
  {
    forall i :: 0 <= i < |products| ==> '\n' !in products[i].name && '\n' !in products[i].priceText
  }

  /**
    The catalogue answer lists every trained product, in input order, one
    per line: splitting the part between header and footer on newlines
    gives back exactly the product lines.
   */
  lemma CatalogueListsEveryProduct(userMessage: string, data: TrainingData)
    requires DetectIntent(ToLower(userMessage)) == Catalogue
    requires |data.products| > 0 && SingleLine(data.products)
    ensures var r := GenerateAIResponse(userMessage, TrainAIWithCompanyData(data)).response;
            exists listing ::
              && r == CatalogueHeader + listing + CatalogueFooter
              && Split(listing, '\n') == ProductLines(data.products)
  {
    var lines := ProductLines(data.products);
    forall k | 0 <= k < |lines| ensures '\n' !in lines[k] {
      var p := data.products[k];
      assert lines[k] == "• " + p.name + " - R$ " + p.priceText;
    }
    SplitJoin(lines, '\n');
  }

  /** The answer depends on the message only through its lower-cased form. */
  lemma ResponseIgnoresCase(userMessage: string, knowledge: Knowledge)
    ensures GenerateAIResponse(ToLower(userMessage), knowledge) == GenerateAIResponse(userMessage, knowledge)
  {
    ToLowerIdempotent(userMessage);
  }

  /** A shouted greeting is still a greeting: "OI" lower-cases to "oi". */
  lemma ShoutedGreetingGreets()
    ensures DetectIntent(ToLower("OI")) == Greeting
  {
    ShoutedOiLowerCase();
    assert OccursAt("oi", "oi", 0);
  }

  lemma ShoutedOiLowerCase()
    ensures ToLower("OI") == "oi"
  {
    AsciiLowerCase();
    assert AsciiCapitals[14] == 'O' && AsciiCapitals[8] == 'I';
  }

  const PositiveWords: seq<string> := ["obrigado", "obrigada", "ótimo", "excelente", "perfeito", "gostei"]
  const NegativeWords: seq<string> := ["ruim", "péssimo", "horrível", "problema", "erro", "não gostei"]

  /** How many of `words` occur in `lower` (`words.filter(w => lower.includes(w)).length`). */
  function HitCount(words: seq<string>, lower: string): (n: nat)
    ensures n <= |words|
    ensures n == 0 <==> forall i :: 0 <= i < |words| ==> !Contains(lower, words[i])
    decreases |words|
  {
    if |words| == 0 then 0
    else HitCount(words[..|words| - 1], lower) + (if Contains(lower, words[|words| - 1]) then 1 else 0)
  }

  /** The positions in `words` of the words that occur in `lower`. */
  function HitPositions(words: seq<string>, lower: string): set<nat>
  {
    set i: nat | i < |words| && Contains(lower, words[i])
  }

  /** The count is the number of listed words that occur. */
  lemma {:induction false} HitCountCountsOccurringWords(words: seq<string>, lower: string)
    ensures HitCount(words, lower) == |HitPositions(words, lower)|
    decreases |words|
  {
    if |words| > 0 {
      var front := words[..|words| - 1];
      var last := |words| - 1;
      HitCountCountsOccurringWords(front, lower);
      HitPositionsSnoc(words, lower);
      assert last !in HitPositions(front, lower);
    }
  }

  /** Dropping the last word drops at most its own position. */
  lemma HitPositionsSnoc(words: seq<string>, lower: string)
    requires |words| > 0
    ensures var last := |words| - 1;
            HitPositions(words, lower)
              == HitPositions(words[..last], lower) + (if Contains(lower, words[last]) then {last} else {})
  {
    var last := |words| - 1;
    forall i: nat | i < last
      ensures words[..last][i] == words[i]
    {
    }
  }

  datatype Sentiment = Positive | Negative | Neutral

  /** `analyzeSentiment`: compare how many positive and negative words the lower-cased message contains. */
  function AnalyzeSentiment(message: string): (r: Sentiment)
    ensures var lower := ToLower(message);
            var positive := |HitPositions(PositiveWords, lower)|;
            var negative := |HitPositions(NegativeWords, lower)|;
            && (r == Positive <==> positive > negative)
            && (r == Negative <==> negative > positive)
            && (r == Neutral <==> positive == negative)
  {
    var lower := ToLower(message);
    var positive := HitCount(PositiveWords, lower);
    var negative := HitCount(NegativeWords, lower);
    HitCountCountsOccurringWords(PositiveWords, lower);
    HitCountCountsOccurringWords(NegativeWords, lower);
    if positive > negative then Positive
    else if negative > positive then Negative
    else Neutral
  }

  /** Scoring ignores letter case. */
  lemma SentimentIgnoresCase(message: string)
    ensures AnalyzeSentiment(ToLower(message)) == AnalyzeSentiment(message)
  {
    ToLowerIdempotent(message);
  }

  /** "não gostei" hits "gostei" on the positive side and "não gostei" on the negative side, so it scores neutral. */
  lemma NaoGosteiIsNeutral()
    ensures AnalyzeSentiment("não gostei") == Neutral
  {
    var m := "não gostei";
    NaoGosteiIsLowerCase();
    NaoGosteiPositiveHits();
    NaoGosteiNegativeHits();
    HitCountCountsOccurringWords(PositiveWords, m);
    HitCountCountsOccurringWords(NegativeWords, m);
  }

  lemma NaoGosteiIsLowerCase()
    ensures ToLower("não gostei") == "não gostei"
  {
    var m := "não gostei";
    forall k | 0 <= k < |m| ensures LowerChar(m[k]) == m[k] {
    }
  }

  lemma NaoGosteiPositiveHits()
    ensures HitPositions(PositiveWords, "não gostei") == {5}
  {
    var m := "não gostei";
    assert m[4..10] == PositiveWords[5];
    assert OccursAt(m, PositiveWords[5], 4);
    AbsentChar(m, PositiveWords[0], 1);
    AbsentChar(m, PositiveWords[1], 1);
    AbsentChar(m, PositiveWords[2], 0);
    AbsentChar(m, PositiveWords[3], 1);
    AbsentChar(m, PositiveWords[4], 0);
  }

  lemma NaoGosteiNegativeHits()
    ensures HitPositions(NegativeWords, "não gostei") == {5}
  {
    var m := "não gostei";
    assert m[0..10] == NegativeWords[5];
    assert OccursAt(m, NegativeWords[5], 0);
    AbsentChar(m, NegativeWords[0], 0);
    AbsentChar(m, NegativeWords[1], 0);
    AbsentChar(m, NegativeWords[2], 0);
    AbsentChar(m, NegativeWords[3], 0);
    AbsentChar(m, NegativeWords[4], 1);
  }
}

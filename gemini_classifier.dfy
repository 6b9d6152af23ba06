/**
 * Label selection: `classifyEmailWithGemini` in backend/geminiClassifier.js.
 *
 * The Gemini call is not modelled; the reply it would give is an input
 * (`OracleReply`). The source's string-or-object result ("NONE" or the label
 * object) becomes the tagged `Outcome`, and the function also reports the
 * prompt it sent, if it sent one, so that "no oracle call" can be stated.
 */
module GeminiClassifier {
  import opened Wrappers
  import Strings

  /** The body is cut to this many characters before it goes into the prompt. */
  const MaxBodyChars: nat := 1500
  /** The label names are listed in the prompt joined by this separator. */
  const NameSeparator := ", "

  /** A Gmail label object `{id, name, type}` as `labels.list` returns it. */
  datatype Label = Label(id: string, name: string, kind: string)

  /** The `emailContent` object: sender, subject and body (the snippet, which may be absent). */
  datatype EmailContent = EmailContent(from: string, subject: string, body: Option<string>)

  /**
   * What `ai.models.generateContent` does: it resolves with a response whose
   * `text` may be missing, or it throws (transport, auth, quota, ...).
   */
  datatype OracleReply = Text(text: Option<string>) | Failure

  /** The parts of the prompt that the code fills in; the surrounding wording is free text. */
  datatype Prompt = Prompt(labelNames: string, from: string, subject: string, bodySnippet: string)

  /** The classifier's result: a catalog label, or the "NONE" sentinel. */
  datatype Outcome = Selected(choice: Label) | NoDecision

  /** The outcome together with the prompt sent to the oracle (`None` when it was not called). */
  datatype Classification = Classification(outcome: Outcome, asked: Option<Prompt>)

  /** `!emailContent.body` is false: the body is present and not the empty string. */
  predicate HasBody(email: EmailContent)
  {
    email.body.Some? && email.body.value != ""
  }

  /** `availableLabels.map(l => l.name)`. */
  function Names(catalog: seq<Label>): (names: seq<string>)
    ensures |names| == |catalog|
    ensures forall i :: 0 <= i < |catalog| ==> names[i] == catalog[i].name
  {
    if catalog == [] then [] else [catalog[0].name] + Names(catalog[1..])
  }

  /** `s.substring(0, n)`. */
  function Prefix(s: string, n: nat): (r: string)
    ensures |r| == (if |s| <= n then |s| else n)
    ensures r == s[..|r|]
  {
    if |s| <= n then s else s[..n]
  }

  /** The filled-in parts of the prompt for an email that has a body. */
  function BuildPrompt(email: EmailContent, catalog: seq<Label>): (p: Prompt)
    requires email.body.Some?
    ensures p.labelNames == Strings.Join(Names(catalog), NameSeparator)
    ensures p.from == email.from && p.subject == email.subject
    ensures |p.bodySnippet| <= MaxBodyChars
    ensures |p.bodySnippet| <= |email.body.value| && p.bodySnippet == email.body.value[..|p.bodySnippet|]
    ensures |email.body.value| <= MaxBodyChars ==> p.bodySnippet == email.body.value
    ensures |email.body.value| > MaxBodyChars ==> |p.bodySnippet| == MaxBodyChars
  {
    Prompt(Strings.Join(Names(catalog), NameSeparator), email.from, email.subject,
           Prefix(email.body.value, MaxBodyChars))
  }

  /** `response.text ? response.text.trim() : ""`. */
  function ReplyName(text: Option<string>): string
  {
    match text
    case Some(t) => Strings.Trim(t)
    case None => ""
  }

  /** The predicate of the `find`: names equal once both are lower-cased. */
  predicate NameMatches(entry: Label, name: string)
  {
    Strings.Lower(entry.name) == Strings.Lower(name)
  }

  /** The index `availableLabels.find(...)` stops at: the first label whose name matches. */
  function FirstMatch(catalog: seq<Label>, name: string): (r: Option<nat>)
    ensures r.Some? ==> r.value < |catalog| && NameMatches(catalog[r.value], name)
    ensures r.Some? ==> forall j :: 0 <= j < r.value ==> !NameMatches(catalog[j], name)
    ensures r.None? ==> forall j :: 0 <= j < |catalog| ==> !NameMatches(catalog[j], name)
  {
    if catalog == [] then None
    else if NameMatches(catalog[0], name) then Some(0)
    else match FirstMatch(catalog[1..], name)
      case Some(k) => Some(k + 1)
      case None => None
  }

  /**
   * `classifyEmailWithGemini(emailContent, availableLabels)`, with the API key's
   * presence and the reply the oracle gives to this prompt as inputs.
   */
  function Classify(hasApiKey: bool, email: EmailContent, catalog: seq<Label>, reply: OracleReply)
    : (c: Classification)
    // The oracle is asked exactly when both guard clauses pass, and with the prompt built from the inputs.
    ensures c.asked.Some? <==> hasApiKey && HasBody(email)
    ensures c.asked.Some? ==> c.asked.value == BuildPrompt(email, catalog)
    // A decision is always a whole entry of the catalog, picked from a reply the oracle gave.
    ensures c.outcome.Selected? ==> c.outcome.choice in catalog
    ensures c.outcome.Selected? ==> c.asked.Some? && reply.Text?
    ensures c.outcome.Selected? ==> NameMatches(c.outcome.choice, ReplyName(reply.text))
    // A thrown oracle call is swallowed into "no decision".
    ensures reply.Failure? ==> c.outcome == NoDecision
    // Otherwise the first catalog entry whose name matches the trimmed reply is selected, and only
    // when there is none is there no decision.
    ensures hasApiKey && HasBody(email) && reply.Text? ==>
      match FirstMatch(catalog, ReplyName(reply.text))
      case Some(i) => c.outcome == Selected(catalog[i])
      case None => c.outcome == NoDecision
  {
    if !hasApiKey then Classification(NoDecision, None)
    else if !HasBody(email) then Classification(NoDecision, None)
    else
      var prompt := BuildPrompt(email, catalog);
      match reply
      case Failure => Classification(NoDecision, Some(prompt))
      case Text(text) =>
        match FirstMatch(catalog, ReplyName(text))
        case Some(i) => Classification(Selected(catalog[i]), Some(prompt))
        case None => Classification(NoDecision, Some(prompt))
  }

  /** When several labels match, the first one in catalog order wins. */
  lemma SelectsFirstMatching(email: EmailContent, catalog: seq<Label>, text: Option<string>, i: nat)
    requires HasBody(email)
    requires i < |catalog| && NameMatches(catalog[i], ReplyName(text))
    requires forall j :: 0 <= j < i ==> !NameMatches(catalog[j], ReplyName(text))
    ensures Classify(true, email, catalog, Text(text)).outcome == Selected(catalog[i])
  {
  }

  /** A reply that names no catalog label yields no decision. */
  lemma UnknownReplyIsNoDecision(hasApiKey: bool, email: EmailContent, catalog: seq<Label>, text: Option<string>)
    requires forall j :: 0 <= j < |catalog| ==> !NameMatches(catalog[j], ReplyName(text))
    ensures Classify(hasApiKey, email, catalog, Text(text)).outcome == NoDecision
  {
  }

  /** A response without text behaves exactly like an empty reply. */
  lemma MissingTextIsEmptyReply(hasApiKey: bool, email: EmailContent, catalog: seq<Label>)
    ensures Classify(hasApiKey, email, catalog, Text(None)) == Classify(hasApiKey, email, catalog, Text(Some("")))
  {
    assert Strings.Trim("") == "";
  }

  /** Whitespace around the reply is ignored: a padded name gives the same classification as the bare name. */
  lemma PaddedReplySelectsSameLabel(hasApiKey: bool, email: EmailContent, catalog: seq<Label>,
                                    pre: string, name: string, post: string)
    requires Strings.AllSpace(pre) && Strings.AllSpace(post)
    requires Strings.Trim(name) == name
    ensures Classify(hasApiKey, email, catalog, Text(Some(pre + name + post)))
         == Classify(hasApiKey, email, catalog, Text(Some(name)))
  {
    PaddedReplyName(pre, name, post);
  }

  lemma PaddedReplyName(pre: string, name: string, post: string)
    requires Strings.AllSpace(pre) && Strings.AllSpace(post)
    requires Strings.Trim(name) == name
    ensures ReplyName(Some(pre + name + post)) == ReplyName(Some(name))
  {
    assert name != [] ==> !Strings.IsSpace(name[0]) && !Strings.IsSpace(name[|name| - 1]);
    Strings.TrimPadded(pre, name, post);
  }

  /** Only the lower-cased name takes part in matching, so two names equal up to case find the same label. */
  lemma {:induction false} FirstMatchIgnoresCase(catalog: seq<Label>, a: string, b: string)
    requires Strings.Lower(a) == Strings.Lower(b)
    ensures FirstMatch(catalog, a) == FirstMatch(catalog, b)
  {
    if catalog != [] {
      FirstMatchIgnoresCase(catalog[1..], a, b);
    }
  }

  /** Matching ignores case: replies that differ only in letter case ("Invoices", "invoices") classify alike. */
  lemma ReplyCaseIgnored(hasApiKey: bool, email: EmailContent, catalog: seq<Label>, a: string, b: string)
    requires Strings.Lower(Strings.Trim(a)) == Strings.Lower(Strings.Trim(b))
    ensures Classify(hasApiKey, email, catalog, Text(Some(a))) == Classify(hasApiKey, email, catalog, Text(Some(b)))
  {
    FirstMatchIgnoresCase(catalog, ReplyName(Some(a)), ReplyName(Some(b)));
    SameMatchSameClassification(hasApiKey, email, catalog, Some(a), Some(b));
  }

  /** The reply enters the classification only through the label it matches. */
  lemma SameMatchSameClassification(hasApiKey: bool, email: EmailContent, catalog: seq<Label>,
                                    a: Option<string>, b: Option<string>)
    requires FirstMatch(catalog, ReplyName(a)) == FirstMatch(catalog, ReplyName(b))
    ensures Classify(hasApiKey, email, catalog, Text(a)) == Classify(hasApiKey, email, catalog, Text(b))
  {
  }

  /** The reply "Invoices" selects the label named "invoices", wherever the rest of the catalog is. */
  lemma InvoicesSelectsInvoices(email: EmailContent, rest: seq<Label>)
    requires HasBody(email)
    ensures Classify(true, email, [Label("L1", "invoices", "user")] + rest, Text(Some("Invoices"))).outcome
         == Selected(Label("L1", "invoices", "user"))
  {
    TrimmedWord("Invoices");
    InvoicesLower();
    SelectsFirstMatching(email, [Label("L1", "invoices", "user")] + rest, Some("Invoices"), 0);
  }

  lemma InvoicesLower()
    ensures Strings.Lower("Invoices") == Strings.Lower("invoices")
  {
    assert Strings.Lower("Invoices") == "invoices";
    assert Strings.Lower("invoices") == "invoices";
  }

  lemma TrimmedWord(w: string)
    requires forall k :: 0 <= k < |w| ==> !Strings.IsSpace(w[k])
    ensures Strings.Trim(w) == w
  {
    assert w == [] + w + [];
    Strings.TrimPadded([], w, []);
  }
}

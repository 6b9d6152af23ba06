/**
 * Concrete runs of the handler, worked through against the model. Each concrete
 * fact is proved in a lemma of its own and the runs are assembled from the
 * general lemmas of `ClassifyProperties`.
 */
module Scenarios {
  import opened Wrappers
  import opened GeminiClassifier
  import opened ClassifyEndpoint
  import opened ClassifyProperties
  import Strings

  const Finance := Label("L1", "Finance", "user")
  const Travel := Label("L2", "Travel", "user")
  const Inbox := Label("INBOX", "INBOX", "system")
  const Mail := Message([Header("From", "alice@example.com"), Header("Subject", "Hello")], Some("Hi there"))
  /** A message that has a `From` header but no `Subject` header. */
  const Bare := Message([Header("From", "bob@example.com")], Some("Hi"))

  const M1 := ListedMessage("m1", Fetched(Mail), Text(Some("Finance")), true)
  const M2 := ListedMessage("m2", Fetched(Mail), Text(Some("NONE")), true)
  const M3 := ListedMessage("m3", Fetched(Mail), Text(Some("Travel")), true)
  const B2 := ListedMessage("m2", Fetched(Bare), Text(Some("Finance")), true)

  // General steps: a run that completes or fails, and one more iteration of the loop.

  /** A run whose loop does not throw completes, with the labelling `Assignments` describes and its size as count. */
  lemma CompletedRun(hasApiKey: bool, mailbox: Mailbox)
    requires mailbox.labels.Fetched? && UserLabels(mailbox.labels.value) != []
    requires mailbox.messages.Fetched?
    requires !Tally(hasApiKey, UserLabels(mailbox.labels.value), ListedOf(mailbox.messages.value)).aborted
    ensures var run := ClassifyRun(hasApiKey, mailbox);
            var a := Assignments(hasApiKey, UserLabels(mailbox.labels.value), ListedOf(mailbox.messages.value));
            run.response == Complete(|a|) && ModifyLog(run.calls) == a
  {
    RunCount(hasApiKey, mailbox);
    RunAppliesAssignments(hasApiKey, mailbox);
  }

  /** A run whose loop throws fails, and the modifications made before the throw stay made. */
  lemma AbortedRun(hasApiKey: bool, mailbox: Mailbox)
    requires mailbox.labels.Fetched? && UserLabels(mailbox.labels.value) != []
    requires mailbox.messages.Fetched?
    requires Tally(hasApiKey, UserLabels(mailbox.labels.value), ListedOf(mailbox.messages.value)).aborted
    ensures var run := ClassifyRun(hasApiKey, mailbox);
            var t := Tally(hasApiKey, UserLabels(mailbox.labels.value), ListedOf(mailbox.messages.value));
            run.response == Failed && ModifyLog(run.calls) == ModifyLog(t.calls)
  {
    var t := Tally(hasApiKey, UserLabels(mailbox.labels.value), ListedOf(mailbox.messages.value));
    PreludeModifiesNothing();
    ModifyLogAppend(Prelude, t.calls);
  }

  /** For a fetched message with both headers and a body, the choice is the first label the reply names. */
  lemma ChosenByReply(catalog: seq<Label>, m: ListedMessage, email: EmailContent)
    requires m.get.Fetched? && ContentOf(m.get.value) == Some(email) && HasBody(email)
    requires m.reply.Text?
    ensures Chosen(true, catalog, m)
         == match FirstMatch(catalog, ReplyName(m.reply.text))
            case Some(i) => Some(catalog[i])
            case None => None
  {
  }

  lemma Snoc3<T>(a: T, b: T, c: T)
    ensures [] + [a] + [b] + [c] == [a, b, c]
  {
  }

  lemma Snoc2<T>(a: T, b: T)
    ensures [] + [a] + [b] == [a, b]
  {
  }

  /** An iteration that does not throw, after a loop that did not throw, leaves the loop running. */
  lemma VisitContinues(catalog: seq<Label>, ms: seq<ListedMessage>, m: ListedMessage)
    requires !Tally(true, catalog, ms).aborted
    requires Visit(true, catalog, m).effect != Aborted
    ensures !Tally(true, catalog, ms + [m]).aborted
  {
    TallySnoc(true, catalog, ms, m);
  }

  /** A message given a label adds one pair to the labelling. */
  lemma AssignsLabel(catalog: seq<Label>, ms: seq<ListedMessage>, m: ListedMessage, l: Label)
    requires Chosen(true, catalog, m) == Some(l)
    ensures Assignments(true, catalog, ms + [m]) == Assignments(true, catalog, ms) + [(m.id, l.id)]
  {
    AssignmentsSnoc(true, catalog, ms, m);
  }

  /** A message given no label leaves the labelling as it was. */
  lemma AssignsNothing(catalog: seq<Label>, ms: seq<ListedMessage>, m: ListedMessage)
    requires Chosen(true, catalog, m) == None
    ensures Assignments(true, catalog, ms + [m]) == Assignments(true, catalog, ms)
  {
    AssignmentsSnoc(true, catalog, ms, m);
  }

  /** A three-message loop in which no iteration throws. */
  lemma ThreeVisitsComplete(catalog: seq<Label>, m1: ListedMessage, m2: ListedMessage, m3: ListedMessage)
    requires Visit(true, catalog, m1).effect != Aborted
    requires Visit(true, catalog, m2).effect != Aborted
    requires Visit(true, catalog, m3).effect != Aborted
    ensures !Tally(true, catalog, [m1, m2, m3]).aborted
  {
    var s0: seq<ListedMessage> := [];
    var s1 := s0 + [m1];
    var s2 := s1 + [m2];
    VisitContinues(catalog, s0, m1);
    VisitContinues(catalog, s1, m2);
    VisitContinues(catalog, s2, m3);
    Snoc3(m1, m2, m3);
  }

  /** A three-message loop whose first and third messages are given labels and whose second is not. */
  lemma ThreeVisitsAssign(catalog: seq<Label>, m1: ListedMessage, m2: ListedMessage, m3: ListedMessage, l1: Label, l3: Label)
    requires Chosen(true, catalog, m1) == Some(l1)
    requires Chosen(true, catalog, m2) == None
    requires Chosen(true, catalog, m3) == Some(l3)
    ensures Assignments(true, catalog, [m1, m2, m3]) == [(m1.id, l1.id), (m3.id, l3.id)]
  {
    var s0: seq<ListedMessage> := [];
    var s1 := s0 + [m1];
    var s2 := s1 + [m2];
    AssignsLabel(catalog, s0, m1, l1);
    AssignsNothing(catalog, s1, m2);
    AssignsLabel(catalog, s2, m3, l3);
    Snoc3(m1, m2, m3);
  }

  /** A two-message loop whose first iteration labels its message and whose second throws before any modification. */
  lemma SecondVisitAborts(catalog: seq<Label>, m1: ListedMessage, m2: ListedMessage, l1: Label)
    requires Visit(true, catalog, m1).effect == Labelled && Chosen(true, catalog, m1) == Some(l1)
    requires Visit(true, catalog, m2).effect == Aborted && ModifyLog(Visit(true, catalog, m2).calls) == []
    ensures Tally(true, catalog, [m1, m2]).aborted
    ensures ModifyLog(Tally(true, catalog, [m1, m2]).calls) == [(m1.id, l1.id)]
  {
    var s0: seq<ListedMessage> := [];
    var s1 := s0 + [m1];
    TallySnoc(true, catalog, s0, m1);
    TallySnoc(true, catalog, s1, m2);
    VisitFacts(true, catalog, m1);
    ModifyLogAppend([], Visit(true, catalog, m1).calls);
    ModifyLogAppend(Tally(true, catalog, s1).calls, Visit(true, catalog, m2).calls);
    Snoc2(m1, m2);
  }

  // Concrete facts about the messages and replies.

  lemma MailContent()
    ensures ContentOf(Mail) == Some(EmailContent("alice@example.com", "Hello", Some("Hi there")))
  {
    assert Mail.headers[1..][0] == Header("Subject", "Hello");
  }

  lemma BareContent()
    ensures ContentOf(Bare) == None
  {
    assert Bare.headers[1..] == [];
  }

  lemma FinanceReply()
    ensures FirstMatch([Finance, Travel], ReplyName(Some("Finance"))) == Some(0)
    ensures FirstMatch([Finance], ReplyName(Some("Finance"))) == Some(0)
  {
    TrimmedWord("Finance");
  }

  lemma NoneMatchesNeither()
    ensures !NameMatches(Finance, "NONE") && !NameMatches(Travel, "NONE")
  {
    Strings.LowerDiffers(Finance.name, "NONE");
    Strings.LowerDiffers(Travel.name, "NONE");
  }

  lemma NoneReply()
    ensures FirstMatch([Finance, Travel], ReplyName(Some("NONE"))) == None
  {
    TrimmedWord("NONE");
    NoneMatchesNeither();
    assert [Finance, Travel][1..] == [Travel];
  }

  lemma TravelReply()
    ensures FirstMatch([Finance, Travel], ReplyName(Some("Travel"))) == Some(1)
  {
    TrimmedWord("Travel");
    Strings.LowerDiffers(Finance.name, "Travel");
    assert [Finance, Travel][1..] == [Travel];
  }

  /** The classifier's choices for the three messages against the catalog [Finance, Travel]. */
  lemma ScenarioChoices()
    ensures Chosen(true, [Finance, Travel], M1) == Some(Finance)
    ensures Chosen(true, [Finance, Travel], M2) == None
    ensures Chosen(true, [Finance, Travel], M3) == Some(Travel)
  {
    var email := EmailContent("alice@example.com", "Hello", Some("Hi there"));
    MailContent();
    FinanceReply();
    NoneReply();
    TravelReply();
    ChosenByReply([Finance, Travel], M1, email);
    ChosenByReply([Finance, Travel], M2, email);
    ChosenByReply([Finance, Travel], M3, email);
  }

  /** None of the three iterations throws; the first and third label their message. */
  lemma ScenarioEffects()
    ensures Visit(true, [Finance, Travel], M1).effect == Labelled
    ensures Visit(true, [Finance, Travel], M2).effect == Unlabelled
    ensures Visit(true, [Finance, Travel], M3).effect == Labelled
  {
    ScenarioChoices();
    VisitFacts(true, [Finance, Travel], M1);
    VisitFacts(true, [Finance, Travel], M2);
    VisitFacts(true, [Finance, Travel], M3);
  }

  lemma ScenarioLoopCompletes()
    ensures !Tally(true, [Finance, Travel], [M1, M2, M3]).aborted
  {
    ScenarioEffects();
    ThreeVisitsComplete([Finance, Travel], M1, M2, M3);
  }

  lemma ScenarioAssignments()
    ensures Assignments(true, [Finance, Travel], [M1, M2, M3]) == [("m1", "L1"), ("m3", "L2")]
  {
    ScenarioChoices();
    ThreeVisitsAssign([Finance, Travel], M1, M2, M3, Finance, Travel);
  }

  lemma ScenarioCatalog()
    ensures UserLabels([Inbox, Finance, Travel]) == [Finance, Travel]
  {
    assert [Inbox, Finance, Travel][1..] == [Finance, Travel];
    assert [Finance, Travel][1..] == [Travel];
  }

  // The runs.

  /**
   * A catalog {Finance, Travel} beside a system label, three unread messages, and
   * oracle replies "Finance", "NONE" and "Travel": the run completes with count 2,
   * labelling the first message L1 and the third L2; the second is left alone.
   */
  lemma ThreeMessageRun()
    ensures var run := ClassifyRun(true, Mailbox(Fetched([Inbox, Finance, Travel]), Fetched(Some([M1, M2, M3]))));
            run.response == Complete(2) && ModifyLog(run.calls) == [("m1", "L1"), ("m3", "L2")]
  {
    ScenarioCatalog();
    ScenarioLoopCompletes();
    ScenarioAssignments();
    CompletedRun(true, Mailbox(Fetched([Inbox, Finance, Travel]), Fetched(Some([M1, M2, M3]))));
  }

  /** A user with only system labels gets the "no custom labels" reply and nothing else happens. */
  lemma OnlySystemLabels(hasApiKey: bool, messages: Fetch<Option<seq<ListedMessage>>>)
    ensures ClassifyRun(hasApiKey, Mailbox(Fetched([Inbox]), messages)) == Run(NoCustomLabels, [ListLabels])
  {
    assert UserLabels([Inbox]) == [];
  }

  lemma BareEffects()
    ensures Visit(true, [Finance], M1).effect == Labelled && Chosen(true, [Finance], M1) == Some(Finance)
    ensures Visit(true, [Finance], B2).effect == Aborted && ModifyLog(Visit(true, [Finance], B2).calls) == []
  {
    MailContent();
    BareContent();
    FinanceReply();
    ChosenByReply([Finance], M1, EmailContent("alice@example.com", "Hello", Some("Hi there")));
    VisitFacts(true, [Finance], M1);
    VisitFacts(true, [Finance], B2);
  }

  lemma BareLoopAborts()
    ensures Tally(true, [Finance], [M1, B2]).aborted
    ensures ModifyLog(Tally(true, [Finance], [M1, B2]).calls) == [("m1", "L1")]
  {
    BareEffects();
    SecondVisitAborts([Finance], M1, B2, Finance);
  }

  /**
   * A message without a `Subject` header aborts the whole run with a 500, even after
   * an earlier message was labelled: that modification stays made, but no count is reported.
   */
  lemma MissingSubjectAborts()
    ensures var run := ClassifyRun(true, Mailbox(Fetched([Finance]), Fetched(Some([M1, B2]))));
            run.response == Failed && ModifyLog(run.calls) == [("m1", "L1")]
  {
    assert UserLabels([Finance]) == [Finance];
    BareLoopAborts();
    AbortedRun(true, Mailbox(Fetched([Finance]), Fetched(Some([M1, B2]))));
  }
}

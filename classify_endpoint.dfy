/**
 * The run-classification pipeline: the `POST /api/classify` handler in
 * backend/server.js.
 *
 * The Gmail API is not modelled; what each call would answer is an input
 * (`Mailbox`, `ListedMessage`). Every call the handler makes is recorded, in
 * order, in a trace of `Call`s; the `messages.modify` calls in it are the
 * labels applied to the mailbox. `ClassifyRun` is the specification of one
 * run and `HandleClassify` is the handler's loop, proved equal to it.
 */
module ClassifyEndpoint {
  import opened Wrappers
  import GeminiClassifier

  type Label = GeminiClassifier.Label

  /** The query the handler lists candidate messages with, and its result cap. */
  const Query := "in:inbox -category:{promotions,social,updates,forums} is:unread"
  const MaxResults: nat := 20

  /** The outcome of an awaited Gmail call: its data, or a thrown error. */
  datatype Fetch<T> = Fetched(value: T) | Threw

  /** One entry of `message.data.payload.headers`. */
  datatype Header = Header(name: string, value: string)

  /** The parts of a fetched message (`format: 'full'`) that the handler reads. */
  datatype Message = Message(headers: seq<Header>, snippet: Option<string>)

  /**
   * One entry of the `messages.list` result, with what the world answers for it:
   * the `messages.get` result, the oracle's reply to its prompt, and whether
   * `messages.modify` on it succeeds.
   */
  datatype ListedMessage = ListedMessage(id: string, get: Fetch<Message>, reply: GeminiClassifier.OracleReply,
                                         modifySucceeds: bool)

  /**
   * The mailbox as the handler sees it: the `labels.list` result, and the
   * `messages.list` result, whose `messages` field may be absent.
   */
  datatype Mailbox = Mailbox(labels: Fetch<seq<Label>>, messages: Fetch<Option<seq<ListedMessage>>>)

  /** The external calls the handler makes. */
  datatype Call =
    | ListLabels
    | ListMessages(query: string, maxResults: nat)
    | GetMessage(id: string)
    | AskOracle(prompt: GeminiClassifier.Prompt)
    | ModifyMessage(messageId: string, labelId: string)

  /** The HTTP reply: the "no custom labels" message, the completion message with its count, or a 500. */
  datatype Response = NoCustomLabels | Complete(count: nat) | Failed

  /** One run: the reply sent and every external call made, in order. */
  datatype Run = Run(response: Response, calls: seq<Call>)

  /** The calls made before the message loop when the catalog is not empty. */
  const Prelude := [ListLabels, ListMessages(Query, MaxResults)]

  /** `labels.filter(l => l.type === 'user')`. */
  function UserLabels(labels: seq<Label>): (r: seq<Label>)
    ensures |r| <= |labels|
    ensures forall l :: l in r <==> l in labels && l.kind == "user"
  {
    if labels == [] then []
    else (if labels[0].kind == "user" then [labels[0]] else []) + UserLabels(labels[1..])
  }

  /** The filter keeps the catalog order: filtering a concatenation concatenates the filtered parts. */
  lemma {:induction false} UserLabelsAppend(a: seq<Label>, b: seq<Label>)
    ensures UserLabels(a + b) == UserLabels(a) + UserLabels(b)
  {
    if a == [] {
      assert a + b == b;
    } else {
      assert (a + b)[1..] == a[1..] + b;
      UserLabelsAppend(a[1..], b);
    }
  }

  /** `headers.find(h => h.name === name)`, then its `value`; `None` where `.value` would throw. */
  function FindHeader(headers: seq<Header>, name: string): Option<string>
  {
    if headers == [] then None
    else if headers[0].name == name then Some(headers[0].value)
    else FindHeader(headers[1..], name)
  }

  /** The lookup is absent exactly when no header has the name, and otherwise yields the first such header's value. */
  lemma {:induction false} FindHeaderFirst(headers: seq<Header>, name: string)
    ensures FindHeader(headers, name).None? <==> forall j :: 0 <= j < |headers| ==> headers[j].name != name
    ensures FindHeader(headers, name).Some? ==>
      exists i :: 0 <= i < |headers| && headers[i] == Header(name, FindHeader(headers, name).value) &&
                  forall j :: 0 <= j < i ==> headers[j].name != name
  {
    if headers != [] && headers[0].name != name {
      var rest := headers[1..];
      FindHeaderFirst(rest, name);
      if FindHeader(rest, name).Some? {
        var i :| 0 <= i < |rest| && rest[i] == Header(name, FindHeader(rest, name).value) &&
                 forall j :: 0 <= j < i ==> rest[j].name != name;
        assert headers[i + 1] == rest[i];
      } else {
        assert forall j :: 0 < j < |headers| ==> headers[j] == rest[j - 1];
      }
    }
  }

  /** The `emailContent` built from a fetched message; `None` when a `From` or `Subject` header is missing. */
  function ContentOf(msg: Message): Option<GeminiClassifier.EmailContent>
  {
    match FindHeader(msg.headers, "From")
    case None => None
    case Some(from) =>
      match FindHeader(msg.headers, "Subject")
      case None => None
      case Some(subject) => Some(GeminiClassifier.EmailContent(from, subject, msg.snippet))
  }

  /** What one iteration of the loop does to the run. */
  datatype Effect = Labelled | Unlabelled | Aborted

  /** One iteration: the calls it makes and its effect. */
  datatype Step = Step(calls: seq<Call>, effect: Effect)

  /** One iteration of the `for...of` loop, for the listed message `m`. */
  function Visit(hasApiKey: bool, catalog: seq<Label>, m: ListedMessage): Step
  {
    var fetch := [GetMessage(m.id)];
    match m.get
    case Threw => Step(fetch, Aborted)
    case Fetched(msg) =>
      match ContentOf(msg)
      case None => Step(fetch, Aborted)
      case Some(email) =>
        var c := GeminiClassifier.Classify(hasApiKey, email, catalog, m.reply);
        var ask := if c.asked.Some? then [AskOracle(c.asked.value)] else [];
        match c.outcome
        case NoDecision => Step(fetch + ask, Unlabelled)
        case Selected(l) =>
          Step(fetch + ask + [ModifyMessage(m.id, l.id)], if m.modifySucceeds then Labelled else Aborted)
  }

  /** The state of the loop: `classifiedCount`, the calls made so far, and whether an error was thrown. */
  datatype Progress = Progress(count: nat, calls: seq<Call>, aborted: bool)

  /** The loop run over `ms`, stopping at the first iteration that throws. */
  function Tally(hasApiKey: bool, catalog: seq<Label>, ms: seq<ListedMessage>): Progress
    decreases |ms|
  {
    if ms == [] then Progress(0, [], false)
    else
      var prev := Tally(hasApiKey, catalog, ms[..|ms| - 1]);
      if prev.aborted then prev
      else
        var s := Visit(hasApiKey, catalog, ms[|ms| - 1]);
        Progress(prev.count + (if s.effect == Labelled then 1 else 0), prev.calls + s.calls, s.effect == Aborted)
  }

  /** The listed messages, with an absent `messages` field read as `[]`. */
  function ListedOf(list: Option<seq<ListedMessage>>): seq<ListedMessage>
  {
    match list
    case Some(ms) => ms
    case None => []
  }

  /** The specification of one run of the handler. */
  function ClassifyRun(hasApiKey: bool, mailbox: Mailbox): Run
  {
    match mailbox.labels
    case Threw => Run(Failed, [ListLabels])
    case Fetched(all) =>
      var catalog := UserLabels(all);
      if |catalog| == 0 then Run(NoCustomLabels, [ListLabels])
      else
        match mailbox.messages
        case Threw => Run(Failed, Prelude)
        case Fetched(list) =>
          var t := Tally(hasApiKey, catalog, ListedOf(list));
          Run(if t.aborted then Failed else Complete(t.count), Prelude + t.calls)
  }

  /** Once an iteration has thrown, later messages change nothing. */
  lemma {:induction false} TallyStops(hasApiKey: bool, catalog: seq<Label>, ms: seq<ListedMessage>, k: nat)
    requires k <= |ms|
    requires Tally(hasApiKey, catalog, ms[..k]).aborted
    ensures Tally(hasApiKey, catalog, ms) == Tally(hasApiKey, catalog, ms[..k])
    decreases |ms| - k
  {
    if k < |ms| {
      var n := |ms| - 1;
      assert ms[..n][..k] == ms[..k];
      TallyStops(hasApiKey, catalog, ms[..n], k);
    } else {
      assert ms[..k] == ms;
    }
  }

  /** One more iteration of the loop, when the earlier ones did not throw. */
  lemma TallyNext(hasApiKey: bool, catalog: seq<Label>, ms: seq<ListedMessage>, i: nat)
    requires i < |ms|
    requires !Tally(hasApiKey, catalog, ms[..i]).aborted
    ensures var prev := Tally(hasApiKey, catalog, ms[..i]);
            var s := Visit(hasApiKey, catalog, ms[i]);
            Tally(hasApiKey, catalog, ms[..i + 1])
              == Progress(prev.count + (if s.effect == Labelled then 1 else 0), prev.calls + s.calls, s.effect == Aborted)
  {
    assert ms[..i + 1][..i] == ms[..i];
  }

  /**
   * One pass of the loop body for `messageHeader`: fetch it, read its headers,
   * classify it and apply the label; `Aborted` when a step throws.
   */
  method VisitMessage(hasApiKey: bool, userLabels: seq<Label>, messageHeader: ListedMessage)
    returns (made: seq<Call>, effect: Effect)
    ensures Step(made, effect) == Visit(hasApiKey, userLabels, messageHeader)
  {
    made := [GetMessage(messageHeader.id)];
    if messageHeader.get.Threw? {
      return made, Aborted;
    }
    var email := ContentOf(messageHeader.get.value);
    if email.None? {
      return made, Aborted;
    }
    var suggested := GeminiClassifier.Classify(hasApiKey, email.value, userLabels, messageHeader.reply);
    if suggested.asked.Some? {
      made := made + [AskOracle(suggested.asked.value)];
    }
    if suggested.outcome.NoDecision? {
      return made, Unlabelled;
    }
    made := made + [ModifyMessage(messageHeader.id, suggested.outcome.choice.id)];
    effect := if messageHeader.modifySucceeds then Labelled else Aborted;
  }

  /**
   * The `for...of` loop of the handler over the listed messages, with the
   * catalog fixed: `classifiedCount` and the calls it makes, stopping at the
   * first thrown error.
   */
  method ClassifyMessages(hasApiKey: bool, userLabels: seq<Label>, messages: seq<ListedMessage>)
    returns (progress: Progress)
    ensures progress == Tally(hasApiKey, userLabels, messages)
  {
    var classifiedCount := 0;
    var calls := [];
    var i := 0;
    while i < |messages|
      invariant 0 <= i <= |messages|
      invariant Tally(hasApiKey, userLabels, messages[..i]) == Progress(classifiedCount, calls, false)
    {
      var made, effect := VisitMessage(hasApiKey, userLabels, messages[i]);
      TallyNext(hasApiKey, userLabels, messages, i);
      if effect == Aborted {
        TallyStops(hasApiKey, userLabels, messages, i + 1);
        return Progress(classifiedCount, calls + made, true);
      }
      if effect == Labelled {
        classifiedCount := classifiedCount + 1;
      }
      calls := calls + made;
      i := i + 1;
    }
    assert messages[..i] == messages;
    progress := Progress(classifiedCount, calls, false);
  }

  /**
   * The handler: `POST /api/classify`, with the API key's presence and the
   * mailbox's answers as inputs. A thrown error ends the run with a 500.
   */
  method HandleClassify(hasApiKey: bool, mailbox: Mailbox) returns (run: Run)
    ensures run == ClassifyRun(hasApiKey, mailbox)
  {
    var calls := [ListLabels];
    if mailbox.labels.Threw? {
      return Run(Failed, calls);
    }
    var userLabels := UserLabels(mailbox.labels.value);
    if |userLabels| == 0 {
      return Run(NoCustomLabels, calls);
    }
    calls := calls + [ListMessages(Query, MaxResults)];
    if mailbox.messages.Threw? {
      return Run(Failed, calls);
    }
    var messages := ListedOf(mailbox.messages.value);
    var progress := ClassifyMessages(hasApiKey, userLabels, messages);
    calls := calls + progress.calls;
    if progress.aborted {
      return Run(Failed, calls);
    }
    return Run(Complete(progress.count), calls);
  }
}

/**
 * What one run of the handler guarantees, stated over `ClassifyRun` and
 * the trace of calls it makes.
 */
module ClassifyProperties {
  import opened Wrappers
  import GeminiClassifier
  import opened ClassifyEndpoint

  /** The `(messageId, labelId)` pairs of the `messages.modify` calls in a trace, in order. */
  function ModifyLog(calls: seq<Call>): seq<(string, string)>
  {
    if calls == [] then []
    else (if calls[0].ModifyMessage? then [(calls[0].messageId, calls[0].labelId)] else []) + ModifyLog(calls[1..])
  }

  /** The ids of the `messages.get` calls in a trace, in order. */
  function FetchedIds(calls: seq<Call>): seq<string>
  {
    if calls == [] then []
    else (if calls[0].GetMessage? then [calls[0].id] else []) + FetchedIds(calls[1..])
  }

  lemma {:induction false} ModifyLogAppend(a: seq<Call>, b: seq<Call>)
    ensures ModifyLog(a + b) == ModifyLog(a) + ModifyLog(b)
  {
    if a == [] {
      assert a + b == b;
    } else {
      assert (a + b)[1..] == a[1..] + b;
      ModifyLogAppend(a[1..], b);
    }
  }

  lemma {:induction false} FetchedIdsAppend(a: seq<Call>, b: seq<Call>)
    ensures FetchedIds(a + b) == FetchedIds(a) + FetchedIds(b)
  {
    if a == [] {
      assert a + b == b;
    } else {
      assert (a + b)[1..] == a[1..] + b;
      FetchedIdsAppend(a[1..], b);
    }
  }

  /** The ids of the listed messages, in the order the query returned them. */
  function Ids(ms: seq<ListedMessage>): seq<string>
    decreases |ms|
  {
    if ms == [] then [] else Ids(ms[..|ms| - 1]) + [ms[|ms| - 1].id]
  }

  /** The ids of the catalog's labels. */
  function LabelIds(catalog: seq<Label>): set<string>
  {
    set l | l in catalog :: l.id
  }

  /** The label the classifier picks for `m`, when its fetch succeeds and it has both headers. */
  function Chosen(hasApiKey: bool, catalog: seq<Label>, m: ListedMessage): Option<Label>
  {
    if m.get.Threw? then None
    else match ContentOf(m.get.value)
      case None => None
      case Some(email) =>
        match GeminiClassifier.Classify(hasApiKey, email, catalog, m.reply).outcome
        case Selected(l) => Some(l)
        case NoDecision => None
  }

  /** The labelling a run that does not fail applies: one pair per message a label was chosen for, in message order. */
  function Assignments(hasApiKey: bool, catalog: seq<Label>, ms: seq<ListedMessage>): seq<(string, string)>
    decreases |ms|
  {
    if ms == [] then []
    else
      var m := ms[|ms| - 1];
      Assignments(hasApiKey, catalog, ms[..|ms| - 1])
        + (match Chosen(hasApiKey, catalog, m) case Some(l) => [(m.id, l.id)] case None => [])
  }

  lemma TallySnoc(hasApiKey: bool, catalog: seq<Label>, ms: seq<ListedMessage>, m: ListedMessage)
    ensures var prev := Tally(hasApiKey, catalog, ms);
            var s := Visit(hasApiKey, catalog, m);
            Tally(hasApiKey, catalog, ms + [m])
              == if prev.aborted then prev
                 else Progress(prev.count + (if s.effect == Labelled then 1 else 0), prev.calls + s.calls,
                               s.effect == Aborted)
  {
    assert (ms + [m])[..|ms|] == ms;
  }

  lemma AssignmentsSnoc(hasApiKey: bool, catalog: seq<Label>, ms: seq<ListedMessage>, m: ListedMessage)
    ensures Assignments(hasApiKey, catalog, ms + [m])
         == Assignments(hasApiKey, catalog, ms)
            + (match Chosen(hasApiKey, catalog, m) case Some(l) => [(m.id, l.id)] case None => [])
  {
    assert (ms + [m])[..|ms|] == ms;
  }

  /** One iteration fetches exactly its own message, and modifies it at most once, with a catalog label. */
  lemma VisitFacts(hasApiKey: bool, catalog: seq<Label>, m: ListedMessage)
    ensures var s := Visit(hasApiKey, catalog, m);
      && FetchedIds(s.calls) == [m.id]
      && (s.effect == Aborted <==>
            m.get.Threw? || ContentOf(m.get.value).None? ||
            (Chosen(hasApiKey, catalog, m).Some? && !m.modifySucceeds))
      && (s.effect == Labelled <==> Chosen(hasApiKey, catalog, m).Some? && m.modifySucceeds)
      && ModifyLog(s.calls)
           == (match Chosen(hasApiKey, catalog, m) case Some(l) => [(m.id, l.id)] case None => [])
      && (forall p :: p in ModifyLog(s.calls) ==> p.0 == m.id && p.1 in LabelIds(catalog))
  {
    var s := Visit(hasApiKey, catalog, m);
    var fetch := [GetMessage(m.id)];
    if m.get.Fetched? && ContentOf(m.get.value).Some? {
      var email := ContentOf(m.get.value).value;
      var c := GeminiClassifier.Classify(hasApiKey, email, catalog, m.reply);
      var ask := if c.asked.Some? then [AskOracle(c.asked.value)] else [];
      ModifyLogAppend(fetch, ask);
      FetchedIdsAppend(fetch, ask);
      if c.outcome.Selected? {
        var l := c.outcome.choice;
        ModifyLogAppend(fetch + ask, [ModifyMessage(m.id, l.id)]);
        FetchedIdsAppend(fetch + ask, [ModifyMessage(m.id, l.id)]);
        assert l.id in LabelIds(catalog);
      }
    }
  }

  /** A loop that does not throw applies exactly `Assignments`, and its count is the number of modifications. */
  lemma {:induction false} TallyLog(hasApiKey: bool, catalog: seq<Label>, ms: seq<ListedMessage>)
    ensures var t := Tally(hasApiKey, catalog, ms);
      && t.count <= |ms|
      && (!t.aborted ==> ModifyLog(t.calls) == Assignments(hasApiKey, catalog, ms))
      && (!t.aborted ==> t.count == |ModifyLog(t.calls)|)
    decreases |ms|
  {
    if ms != [] {
      var n := |ms| - 1;
      TallyLog(hasApiKey, catalog, ms[..n]);
      var prev := Tally(hasApiKey, catalog, ms[..n]);
      if !prev.aborted {
        VisitFacts(hasApiKey, catalog, ms[n]);
        ModifyLogAppend(prev.calls, Visit(hasApiKey, catalog, ms[n]).calls);
      }
    }
  }

  /** The loop fails exactly when one of its iterations throws. */
  lemma {:induction false} TallyAborts(hasApiKey: bool, catalog: seq<Label>, ms: seq<ListedMessage>)
    ensures Tally(hasApiKey, catalog, ms).aborted
        <==> exists i :: 0 <= i < |ms| && Visit(hasApiKey, catalog, ms[i]).effect == Aborted
    decreases |ms|
  {
    if ms != [] {
      var n := |ms| - 1;
      TallyAborts(hasApiKey, catalog, ms[..n]);
      if Tally(hasApiKey, catalog, ms[..n]).aborted {
        var i :| 0 <= i < n && Visit(hasApiKey, catalog, ms[..n][i]).effect == Aborted;
        assert ms[..n][i] == ms[i];
      } else {
        forall i | 0 <= i < n
          ensures Visit(hasApiKey, catalog, ms[i]).effect != Aborted
        {
          assert ms[..n][i] == ms[i];
        }
      }
    }
  }

  /** A loop that does not throw fetches every listed message once, in query order. */
  lemma {:induction false} TallyFetchesAll(hasApiKey: bool, catalog: seq<Label>, ms: seq<ListedMessage>)
    ensures var t := Tally(hasApiKey, catalog, ms);
      !t.aborted ==> FetchedIds(t.calls) == Ids(ms)
    decreases |ms|
  {
    if ms != [] && !Tally(hasApiKey, catalog, ms).aborted {
      var n := |ms| - 1;
      TallyFetchesAll(hasApiKey, catalog, ms[..n]);
      var prev := Tally(hasApiKey, catalog, ms[..n]);
      VisitFacts(hasApiKey, catalog, ms[n]);
      FetchedIdsAppend(prev.calls, Visit(hasApiKey, catalog, ms[n]).calls);
    }
  }

  /** No iteration among the first `n` listed messages throws. */
  predicate NoneAbortBefore(hasApiKey: bool, catalog: seq<Label>, ms: seq<ListedMessage>, n: nat)
    requires n <= |ms|
  {
    forall j :: 0 <= j < n ==> Visit(hasApiKey, catalog, ms[j]).effect != Aborted
  }

  /**
   * `calls` are those of a loop that stopped at the `k`-th message: that message
   * is the first whose iteration threw, the messages up to it were fetched in
   * order and no others, and the labels applied are those chosen for the
   * messages before it, plus the modify of the failing message itself (when
   * it was the modify that threw).
   */
  predicate StoppedAt(hasApiKey: bool, catalog: seq<Label>, ms: seq<ListedMessage>, k: nat, calls: seq<Call>)
  {
    && 0 < k <= |ms|
    && Visit(hasApiKey, catalog, ms[k - 1]).effect == Aborted
    && NoneAbortBefore(hasApiKey, catalog, ms, k - 1)
    && FetchedIds(calls) == Ids(ms[..k])
    && ModifyLog(calls) == Assignments(hasApiKey, catalog, ms[..k - 1]) + ModifyLog(Visit(hasApiKey, catalog, ms[k - 1]).calls)
  }

  /** Stopping inside a prefix of the messages is stopping inside the whole list. */
  lemma StoppedAtPrefix(hasApiKey: bool, catalog: seq<Label>, ms: seq<ListedMessage>, n: nat, k: nat, calls: seq<Call>)
    requires n <= |ms|
    requires StoppedAt(hasApiKey, catalog, ms[..n], k, calls)
    ensures StoppedAt(hasApiKey, catalog, ms, k, calls)
  {
    assert ms[..n][..k] == ms[..k];
    assert ms[..n][..k - 1] == ms[..k - 1];
    assert ms[..n][k - 1] == ms[k - 1];
    forall j | 0 <= j < k - 1
      ensures Visit(hasApiKey, catalog, ms[j]).effect != Aborted
    {
      assert ms[..n][j] == ms[j];
    }
  }

  /** A loop whose earlier iterations did not throw and whose last one did stops at the last message. */
  lemma StoppedAtLast(hasApiKey: bool, catalog: seq<Label>, ms: seq<ListedMessage>)
    requires ms != []
    requires !Tally(hasApiKey, catalog, ms[..|ms| - 1]).aborted
    requires Visit(hasApiKey, catalog, ms[|ms| - 1]).effect == Aborted
    ensures StoppedAt(hasApiKey, catalog, ms, |ms|, Tally(hasApiKey, catalog, ms).calls)
  {
    var n := |ms| - 1;
    var prev := Tally(hasApiKey, catalog, ms[..n]);
    var s := Visit(hasApiKey, catalog, ms[n]);
    TallyAborts(hasApiKey, catalog, ms[..n]);
    forall j | 0 <= j < n
      ensures Visit(hasApiKey, catalog, ms[j]).effect != Aborted
    {
      assert ms[..n][j] == ms[j];
    }
    TallyFetchesAll(hasApiKey, catalog, ms[..n]);
    TallyLog(hasApiKey, catalog, ms[..n]);
    VisitFacts(hasApiKey, catalog, ms[n]);
    FetchedIdsAppend(prev.calls, s.calls);
    ModifyLogAppend(prev.calls, s.calls);
    assert ms[..|ms|] == ms;
  }

  /**
   * A loop that throws stops at the first message whose iteration throws: no
   * later message is fetched, and only the labels applied before the throw
   * remain in the mailbox.
   */
  lemma {:induction false} TallyStopsAtFirstAbort(hasApiKey: bool, catalog: seq<Label>, ms: seq<ListedMessage>)
    ensures var t := Tally(hasApiKey, catalog, ms);
      t.aborted ==> exists k :: StoppedAt(hasApiKey, catalog, ms, k, t.calls)
    decreases |ms|
  {
    if ms != [] && Tally(hasApiKey, catalog, ms).aborted {
      var n := |ms| - 1;
      var prev := Tally(hasApiKey, catalog, ms[..n]);
      if prev.aborted {
        TallyStopsAtFirstAbort(hasApiKey, catalog, ms[..n]);
        var k :| StoppedAt(hasApiKey, catalog, ms[..n], k, prev.calls);
        StoppedAtPrefix(hasApiKey, catalog, ms, n, k, prev.calls);
      } else {
        StoppedAtLast(hasApiKey, catalog, ms);
      }
    }
  }

  /** Every modification the loop makes is of a listed message, with the id of a catalog label. */
  lemma {:induction false} TallyLabelsFromCatalog(hasApiKey: bool, catalog: seq<Label>, ms: seq<ListedMessage>)
    ensures forall p :: p in ModifyLog(Tally(hasApiKey, catalog, ms).calls) ==>
              p.0 in Ids(ms) && p.1 in LabelIds(catalog)
    decreases |ms|
  {
    if ms != [] {
      var n := |ms| - 1;
      TallyLabelsFromCatalog(hasApiKey, catalog, ms[..n]);
      var prev := Tally(hasApiKey, catalog, ms[..n]);
      if !prev.aborted {
        VisitFacts(hasApiKey, catalog, ms[n]);
        ModifyLogAppend(prev.calls, Visit(hasApiKey, catalog, ms[n]).calls);
      }
    }
  }

  /** Without an API key the oracle is never asked and nothing is labelled. */
  lemma {:induction false} TallyWithoutKey(catalog: seq<Label>, ms: seq<ListedMessage>)
    ensures var t := Tally(false, catalog, ms);
      && t.count == 0
      && forall c :: c in t.calls ==> !c.AskOracle? && !c.ModifyMessage?
    decreases |ms|
  {
    if ms != [] {
      var n := |ms| - 1;
      TallyWithoutKey(catalog, ms[..n]);
      var m := ms[n];
      if m.get.Fetched? && ContentOf(m.get.value).Some? {
        var c := GeminiClassifier.Classify(false, ContentOf(m.get.value).value, catalog, m.reply);
        assert c.asked.None? && c.outcome == GeminiClassifier.NoDecision;
      }
    }
  }

  /** Listing labels and messages modifies nothing. */
  lemma PreludeModifiesNothing()
    ensures ModifyLog([ListLabels]) == [] && ModifyLog(Prelude) == []
  {
    assert ModifyLog([ListMessages(Query, MaxResults)]) == [];
    ModifyLogAppend([ListLabels], [ListMessages(Query, MaxResults)]);
  }

  /** The provider kept to the query's `maxResults`. */
  predicate HonoursMaxResults(mailbox: Mailbox)
  {
    mailbox.messages.Fetched? ==> |ListedOf(mailbox.messages.value)| <= MaxResults
  }

  /** An empty user catalog ends the run at once: no listing of messages, no fetch, no oracle call, no modification. */
  lemma RunEmptyCatalog(hasApiKey: bool, mailbox: Mailbox)
    requires mailbox.labels.Fetched? && UserLabels(mailbox.labels.value) == []
    ensures ClassifyRun(hasApiKey, mailbox) == Run(NoCustomLabels, [ListLabels])
  {
  }

  /** A `messages.list` result without a `messages` field is an empty run: count 0 and nothing after the listing. */
  lemma RunWithoutMessages(hasApiKey: bool, mailbox: Mailbox)
    requires mailbox.labels.Fetched? && UserLabels(mailbox.labels.value) != []
    requires mailbox.messages == Fetched(None)
    ensures ClassifyRun(hasApiKey, mailbox) == Run(Complete(0), Prelude)
  {
    assert Prelude + [] == Prelude;
  }

  /**
   * The reported count is the number of modifications made; it never exceeds the
   * number of listed messages, so never exceeds 20 when the provider honours the cap.
   */
  lemma RunCount(hasApiKey: bool, mailbox: Mailbox)
    ensures var run := ClassifyRun(hasApiKey, mailbox);
      run.response.Complete? ==>
        && run.response.count == |ModifyLog(run.calls)|
        && mailbox.messages.Fetched?
        && run.response.count <= |ListedOf(mailbox.messages.value)|
        && (HonoursMaxResults(mailbox) ==> run.response.count <= MaxResults)
  {
    var run := ClassifyRun(hasApiKey, mailbox);
    if run.response.Complete? {
      var t := Tally(hasApiKey, UserLabels(mailbox.labels.value), ListedOf(mailbox.messages.value));
      TallyLog(hasApiKey, UserLabels(mailbox.labels.value), ListedOf(mailbox.messages.value));
      ModifyLogAppend(Prelude, t.calls);
    }
  }

  /**
   * A run that completes has labelled exactly the messages the classifier chose a
   * label for, once each, in query order, each with the id of the chosen label.
   */
  lemma RunAppliesAssignments(hasApiKey: bool, mailbox: Mailbox)
    ensures var run := ClassifyRun(hasApiKey, mailbox);
      run.response.Complete? ==>
        && mailbox.labels.Fetched? && mailbox.messages.Fetched?
        && ModifyLog(run.calls)
           == Assignments(hasApiKey, UserLabels(mailbox.labels.value), ListedOf(mailbox.messages.value))
  {
    var run := ClassifyRun(hasApiKey, mailbox);
    if run.response.Complete? {
      var t := Tally(hasApiKey, UserLabels(mailbox.labels.value), ListedOf(mailbox.messages.value));
      TallyLog(hasApiKey, UserLabels(mailbox.labels.value), ListedOf(mailbox.messages.value));
      ModifyLogAppend(Prelude, t.calls);
    }
  }

  /**
   * Messages are fetched once each in query order: all of them in a run that
   * completes; in a run that fails in the loop, those up to the first one whose
   * iteration threw, with only the labels applied before that throw.
   */
  lemma RunVisitsInOrder(hasApiKey: bool, mailbox: Mailbox)
    ensures var run := ClassifyRun(hasApiKey, mailbox);
      && (run.response.Complete? ==>
            mailbox.messages.Fetched? && FetchedIds(run.calls) == Ids(ListedOf(mailbox.messages.value)))
      && (run.response.Failed? && mailbox.labels.Fetched? && mailbox.messages.Fetched? ==>
            exists k :: StoppedAt(hasApiKey, UserLabels(mailbox.labels.value), ListedOf(mailbox.messages.value),
                                  k, run.calls))
  {
    var run := ClassifyRun(hasApiKey, mailbox);
    if mailbox.labels.Fetched? && UserLabels(mailbox.labels.value) != [] && mailbox.messages.Fetched? {
      var catalog := UserLabels(mailbox.labels.value);
      var ms := ListedOf(mailbox.messages.value);
      var t := Tally(hasApiKey, catalog, ms);
      TallyFetchesAll(hasApiKey, catalog, ms);
      FetchedIdsAppend(Prelude, t.calls);
      if t.aborted {
        TallyStopsAtFirstAbort(hasApiKey, catalog, ms);
        var k :| StoppedAt(hasApiKey, catalog, ms, k, t.calls);
        PreludeModifiesNothing();
        ModifyLogAppend(Prelude, t.calls);
        assert StoppedAt(hasApiKey, catalog, ms, k, run.calls);
      }
    }
  }

  /** Every label applied is a user label of the catalog, and every message labelled was listed by the query. */
  lemma RunLabelsFromCatalog(hasApiKey: bool, mailbox: Mailbox)
    ensures forall p :: p in ModifyLog(ClassifyRun(hasApiKey, mailbox).calls) ==>
      && mailbox.labels.Fetched? && mailbox.messages.Fetched?
      && p.0 in Ids(ListedOf(mailbox.messages.value))
      && p.1 in LabelIds(UserLabels(mailbox.labels.value))
  {
    var run := ClassifyRun(hasApiKey, mailbox);
    if mailbox.labels.Fetched? && UserLabels(mailbox.labels.value) != [] && mailbox.messages.Fetched? {
      var catalog := UserLabels(mailbox.labels.value);
      var ms := ListedOf(mailbox.messages.value);
      TallyLabelsFromCatalog(hasApiKey, catalog, ms);
      ModifyLogAppend(Prelude, Tally(hasApiKey, catalog, ms).calls);
    } else {
      PreludeModifiesNothing();
    }
  }

  /**
   * A run fails exactly when a listing throws or some visited message throws (its
   * fetch fails, it lacks a `From` or `Subject` header, or its modification fails);
   * a failed run reports no count at all.
   */
  lemma RunFails(hasApiKey: bool, mailbox: Mailbox)
    ensures ClassifyRun(hasApiKey, mailbox).response.Failed? <==>
      || mailbox.labels.Threw?
      || (UserLabels(mailbox.labels.value) != [] &&
          (|| mailbox.messages.Threw?
           || exists i :: 0 <= i < |ListedOf(mailbox.messages.value)| &&
                Visit(hasApiKey, UserLabels(mailbox.labels.value), ListedOf(mailbox.messages.value)[i]).effect == Aborted))
  {
    if mailbox.labels.Fetched? && mailbox.messages.Fetched? {
      TallyAborts(hasApiKey, UserLabels(mailbox.labels.value), ListedOf(mailbox.messages.value));
    }
  }

  /** Without an API key no oracle is asked and nothing is labelled; messages are still fetched. */
  lemma RunWithoutApiKey(mailbox: Mailbox)
    ensures var run := ClassifyRun(false, mailbox);
      && (forall c :: c in run.calls ==> !c.AskOracle? && !c.ModifyMessage?)
      && (run.response.Complete? ==> run.response.count == 0)
  {
    if mailbox.labels.Fetched? && UserLabels(mailbox.labels.value) != [] && mailbox.messages.Fetched? {
      TallyWithoutKey(UserLabels(mailbox.labels.value), ListedOf(mailbox.messages.value));
    }
  }
}

/** The bot's `main`: the start-up credential check and the poll loop, one
    cycle of which fetches, validates, translates and sends, and turns any
    exception into a logged failure. */
module PollLoop {
  import opened PyValues
  import opened Homework

  /** The prefix of the line logged when a cycle fails. */
  const FailurePrefix := "Сбой в работе программы: "

  /** What one cycle does that can be observed: the alerts it attempts, the
      message it hands to the chat (`sent`), the exception that ended it
      instead (`failure`), and the line the handler then logs (`logged`). */
  datatype CycleReport = CycleReport(alerts: seq<string>, sent: Option<string>, failure: Option<PyError>,
                                     logged: Option<string>)

  /** The line a failed cycle logs. */
  function FailureLog(e: PyError): string {
    FailurePrefix + ErrorText(e)
  }

  /** A cycle that ends in exception `e` after attempting `alerts`. */
  function Failed(alerts: seq<string>, e: PyError): CycleReport {
    CycleReport(alerts, None, Some(e), Some(FailureLog(e)))
  }

  /** The message a cycle sends once the body has been validated. A reader
      of the chat finds a notification exactly when the record was truthy,
      naming the record's homework and status; a falsy record gives the
      fallback message. */
  function ChooseMessage(homework: Json): (r: Result<string>)
    ensures !Truthy(homework) ==> r == Ok(NoReviewMessage)
    ensures r.Ok? ==> (ReadNotification(r.value) == None <==> !Truthy(homework))
    ensures r.Ok? && Truthy(homework) ==>
              homework.JObj? && "homework_name" in homework.fields && "status" in homework.fields
              && homework.fields["status"].JStr?
              && ReadNotification(r.value)
                 == Some((Display(homework.fields["homework_name"]), homework.fields["status"].s))
    ensures r.Err? ==> Truthy(homework) && r == ParseStatus(homework)
  {
    if Truthy(homework) then
      var r := ParseStatus(homework);
      if r.Ok? then
        ReadNotificationRoundTrip(Display(homework.fields["homework_name"]), homework.fields["status"].s);
        r
      else
        r
    else
      NoReviewMessageIsNotANotification("", "approved");
      Ok(NoReviewMessage)
  }

  /** The body of one iteration of the `while True` loop. An exception from
      any stage skips the remaining stages and ends the cycle in the logged
      failure; every cycle either sends exactly one message or fails. */
  function Cycle(outcome: FetchOutcome, alertFault: Option<string>): (r: CycleReport)
    ensures r.sent.Some? <==> r.failure.None?
    ensures r.logged.Some? <==> r.sent.None?
    ensures r.failure.Some? ==> r.logged == Some(FailurePrefix + ErrorText(r.failure.value))
    ensures r.sent.Some? ==> outcome.Reply? && outcome.statusCode == StatusOk
                             && DocumentedShape(outcome.body)
  {
    var fetched := GetApiAnswer(outcome, alertFault);
    match fetched.result
    case Err(e) => Failed(fetched.alerts, e)
    case Ok(response) =>
      var checked := CheckResponse(response, alertFault);
      var alerts := fetched.alerts + checked.alerts;
      match checked.result
      case Err(e) => Failed(alerts, e)
      case Ok(homework) =>
        match ChooseMessage(homework)
        case Ok(message) => CycleReport(alerts, Some(message), None, None)
        case Err(e) => Failed(alerts, e)
  }

  /** What a cycle sends, in terms of the body of a 200 reply. */
  lemma CycleSends(outcome: FetchOutcome, alertFault: Option<string>, message: string)
    ensures Cycle(outcome, alertFault).sent == Some(message) <==>
              outcome.Reply? && outcome.statusCode == StatusOk && DocumentedShape(outcome.body)
              && var items := outcome.body.fields["homeworks"].items;
                 if items == [] || !Truthy(items[0]) then message == NoReviewMessage
                 else ParseStatus(items[0]) == Ok(message)
  {
  }

  /** A 200 reply whose first record has a known status sends exactly the
      notification for it, whatever follows in the list. */
  lemma CycleSendsVerdict(fields: map<string, Json>, record: map<string, Json>, rest: seq<Json>,
                          name: string, status: string, alertFault: Option<string>)
    requires status in HomeworkVerdicts
    ensures var first := JObj(record["homework_name" := JStr(name)]["status" := JStr(status)]);
            var body := JObj(fields["homeworks" := JList([first] + rest)]);
            Cycle(Reply(StatusOk, body), alertFault)
              == CycleReport([], Some(Notification(name, HomeworkVerdicts[status])), None, None)
  {
    var first := JObj(record["homework_name" := JStr(name)]["status" := JStr(status)]);
    assert Truthy(first) by {
      assert "status" in first.fields;
    }
  }

  /** An empty list, or a falsy first record such as `{}`, sends the
      fallback message. */
  lemma CycleSendsFallback(fields: map<string, Json>, items: seq<Json>, alertFault: Option<string>)
    requires items == [] || !Truthy(items[0])
    ensures Cycle(Reply(StatusOk, JObj(fields["homeworks" := JList(items)])), alertFault)
         == CycleReport([], Some(NoReviewMessage), None, None)
  {
  }

  /** A failed request (any status but 200, or a transport fault) sends no
      message: the fetch alert is attempted and, when that alert returns, the
      `None` it leaves is rejected with `TypeError` after a second alert. */
  lemma CycleAfterFailedRequest(outcome: FetchOutcome, alertFault: Option<string>)
    requires !(outcome.Reply? && outcome.statusCode == StatusOk)
    ensures var r := Cycle(outcome, alertFault);
            var fetchAlert := if outcome.Reply? then ServerFaultAlert else TransportFaultAlert;
            r.sent == None
            && (alertFault.None? ==> r == Failed([fetchAlert, NotDictAlert], TypeError(NotDictText)))
            && (alertFault.Some? ==> r == Failed([fetchAlert], AlertFault(alertFault.value)))
  {
  }

  /** A 200 body that is not a dict, or a dict without `homeworks`, sends no
      message and attempts one alert; a `homeworks` that is not a list sends
      no message and attempts no alert. */
  lemma CycleOnMalformedBody(body: Json, alertFault: Option<string>)
    requires !DocumentedShape(body)
    ensures var r := Cycle(Reply(StatusOk, body), alertFault);
            r.sent == None
            && (!body.JObj? ==> r.alerts == [NotDictAlert])
            && (!body.JObj? && alertFault.None? ==> r.failure == Some(TypeError(NotDictText)))
            && (body.JObj? && "homeworks" !in body.fields ==> r.alerts == [MissingKeyAlert])
            && (body.JObj? && "homeworks" !in body.fields && alertFault.None? ==>
                  r.failure == Some(KeyError(MissingHomeworksKey)))
            && (body.JObj? && "homeworks" in body.fields ==> r.alerts == [] && r.failure.value.TypeError?)
  {
  }

  /** Whether the alert calls raise changes only which exception a failed
      cycle logs: the message sent, and whether one is sent, are the same. */
  lemma CycleSentIgnoresAlertFault(outcome: FetchOutcome, fault1: Option<string>, fault2: Option<string>)
    ensures Cycle(outcome, fault1).sent == Cycle(outcome, fault2).sent
  {
  }

  /** For a body without `homeworks` the handler logs, after the fixed
      prefix, the key error's message in quotes when the alert call returns,
      and the text of the alert call's own exception when it raises. */
  lemma CycleLogsFailure(fields: map<string, Json>, alertFault: Option<string>)
    requires "homeworks" !in fields
    ensures var logged := Cycle(Reply(StatusOk, JObj(fields)), alertFault).logged;
            (alertFault.None? ==> logged == Some("Сбой в работе программы: " + "'В ответе нет ключа homeworks'"))
            && (alertFault.Some? ==> logged == Some("Сбой в работе программы: " + alertFault.value))
  {
    assert ErrorText(KeyError(MissingHomeworksKey)) == "'В ответе нет ключа homeworks'";
  }

  /** The two examples of a successful cycle: an empty list, and one
      approved homework named "X". */
  lemma CycleExamples()
    ensures Cycle(Reply(200, JObj(map["homeworks" := JList([])])), None).sent == Some("Работа не взята на проверку")
    ensures var record := JObj(map["homework_name" := JStr("X"), "status" := JStr("approved")]);
            Cycle(Reply(200, JObj(map["homeworks" := JList([record])])), None).sent
              == Some("Изменился статус проверки работы \"X\". " + "Работа проверена: ревьюеру всё понравилось. Ура!")
  {
    var record := JObj(map["homework_name" := JStr("X"), "status" := JStr("approved")]);
    assert Truthy(record) by {
      assert "status" in record.fields;
    }
    assert ParseStatus(record) == Ok(Notification("X", HomeworkVerdicts["approved"]));
    assert NotificationPrefix + "X" + NameSeparator == "Изменился статус проверки работы \"X\". ";
  }

  /** One pass of the loop as it can be observed: the `from_date` sent with
      the request, what the cycle did, and the sleep in `finally`. */
  datatype Iteration = Iteration(fromDate: int, report: CycleReport, sleepSeconds: int)

  /** `main` over a finite run of request outcomes: it exits before the loop
      when a secret is missing; otherwise every request asks from timestamp
      0, the cursor is never advanced, each cycle is independent of the ones
      before it, and each is followed by the fixed sleep whether it
      succeeded or failed. */
  method RunBot(env: Env, outcomes: seq<FetchOutcome>, alertFault: Option<string>)
    returns (exited: bool, trace: seq<Iteration>)
    ensures exited <==> !CheckTokens(env)
    ensures exited ==> trace == []
    ensures !exited ==> |trace| == |outcomes|
    ensures !exited ==> forall i :: 0 <= i < |trace| ==>
              trace[i] == Iteration(0, Cycle(outcomes[i], alertFault), RetryPeriod)
  {
    if !CheckTokens(env) {
      return true, [];
    }
    exited := false;
    var timestamp := 0;
    trace := [];
    var n := 0;
    while n < |outcomes|
      invariant 0 <= n <= |outcomes|
      invariant timestamp == 0
      invariant |trace| == n
      invariant forall i :: 0 <= i < n ==> trace[i] == Iteration(0, Cycle(outcomes[i], alertFault), RetryPeriod)
    {
      var report := Cycle(outcomes[n], alertFault);
      trace := trace + [Iteration(timestamp, report, RetryPeriod)];
      n := n + 1;
    }
  }
}

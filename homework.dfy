/** The decision logic of the bot: the credential check, the outcome of one
    request to the homework-status API, the validation of its body and the
    translation of a homework record into the chat message. */
module Homework {
  import opened PyValues

  /** Seconds slept after every cycle of the poll loop. */
  const RetryPeriod := 600

  /** The only HTTP status whose body is read. */
  const StatusOk := 200

  /** The closed vocabulary of review statuses and their verdict texts. */
  const HomeworkVerdicts: map<string, string> := map[
    "approved" := "Работа проверена: ревьюеру всё понравилось. Ура!",
    "reviewing" := "Работа взята на проверку ревьюером.",
    "rejected" := "Работа проверена: у ревьюера есть замечания."
  ]

  /** The statuses in the order the table lists them. */
  const Statuses: seq<string> := ["approved", "reviewing", "rejected"]

  const NotificationPrefix := "Изменился статус проверки работы \""
  const NameSeparator := "\". "
  /** The message sent when there is no homework record to report. */
  const NoReviewMessage := "Работа не взята на проверку"

  // Texts of the out-of-band alerts.
  const ServerFaultAlert := "Сбой подключения к API"
  const TransportFaultAlert := "Сбой подкл."
  const NotDictAlert := "неверный ответ api"
  const MissingKeyAlert := "отсутствует ключ"

  // Arguments of the exceptions raised.
  const NotDictText := "В документации написано по-другому!"
  const MissingHomeworksKey := "В ответе нет ключа homeworks"
  const MissingNameKey := "нет ключа homework_name в ответе"
  const UnknownStatusText := "статус отстутствует"

  /** The three secrets read from the environment; `None` when unset. */
  datatype Env = Env(practicumToken: Option<string>, telegramToken: Option<string>, chatId: Option<string>)

  /** Python's truth value of an environment variable: set and non-empty. */
  predicate Present(v: Option<string>) {
    v.Some? && v.value != ""
  }

  /** `check_tokens`: the bot may start only when every secret is set to a
      non-empty string. */
  function CheckTokens(env: Env): (ok: bool)
    ensures ok <==> env.practicumToken != None && env.practicumToken != Some("")
                    && env.telegramToken != None && env.telegramToken != Some("")
                    && env.chatId != None && env.chatId != Some("")
  {
    Present(env.practicumToken) && Present(env.telegramToken) && Present(env.chatId)
  }

  /** What one `requests.get` to the endpoint does: it returns a reply with
      a status code and the body `response.json()` decodes, or it raises a
      `RequestException`. */
  datatype FetchOutcome =
    | Reply(statusCode: int, body: Json)
    | RequestFailed

  /** The effect of a call that may send out-of-band alerts before it
      returns or raises: the alert texts in the order they were attempted,
      then the result. */
  datatype Step<+T> = Step(alerts: seq<string>, result: Result<T>)

  /** An attempted alert with text `text`, followed by `next` unless the
      alert call itself raises (`alertFault` is the text of what it raises). */
  function Alert<T>(text: string, alertFault: Option<string>, next: Result<T>): (s: Step<T>)
    ensures s.alerts == [text]
    ensures alertFault.None? ==> s.result == next
    ensures alertFault.Some? ==> s.result == Err(AlertFault(alertFault.value))
  {
    Step([text], if alertFault.Some? then Err(AlertFault(alertFault.value)) else next)
  }

  /** `get_api_answer`: the decoded body of a 200 reply; on any other status
      or on a transport failure an alert is attempted and the function falls
      off its end, returning `None`. */
  function GetApiAnswer(outcome: FetchOutcome, alertFault: Option<string>): (s: Step<Json>)
    ensures outcome.Reply? && outcome.statusCode == StatusOk ==> s == Step([], Ok(outcome.body))
    ensures outcome.Reply? && outcome.statusCode != StatusOk ==> s.alerts == [ServerFaultAlert]
    ensures outcome.RequestFailed? ==> s.alerts == [TransportFaultAlert]
    ensures !(outcome.Reply? && outcome.statusCode == StatusOk) ==>
              s.result == if alertFault.Some? then Err(AlertFault(alertFault.value)) else Ok(JNull)
  {
    match outcome
    case Reply(code, body) =>
      if code == StatusOk then Step([], Ok(body)) else Alert(ServerFaultAlert, alertFault, Ok(JNull))
    case RequestFailed =>
      Alert(TransportFaultAlert, alertFault, Ok(JNull))
  }

  /** The shape the API documents: a dict whose `homeworks` is a list. */
  predicate DocumentedShape(response: Json) {
    response.JObj? && "homeworks" in response.fields && response.fields["homeworks"].JList?
  }

  /** `check_response`: `None` for an empty `homeworks` list, its first
      element otherwise, or the exception for the first shape rule the body
      breaks. The first two rules attempt an alert; the third does not. */
  function CheckResponse(response: Json, alertFault: Option<string>): (s: Step<Json>)
    ensures s.result.Ok? <==> DocumentedShape(response)
    ensures DocumentedShape(response) ==> s.alerts == []
    ensures DocumentedShape(response) ==>
              var items := response.fields["homeworks"].items;
              s.result.value == if items == [] then JNull else items[0]
    ensures !response.JObj? ==> s.alerts == [NotDictAlert]
    ensures !response.JObj? && alertFault.None? ==> s.result == Err(TypeError(NotDictText))
    ensures response.JObj? && "homeworks" !in response.fields ==> s.alerts == [MissingKeyAlert]
    ensures response.JObj? && "homeworks" !in response.fields && alertFault.None? ==>
              s.result == Err(KeyError(MissingHomeworksKey))
    ensures alertFault.Some? && |s.alerts| > 0 ==> s.result == Err(AlertFault(alertFault.value))
    ensures response.JObj? && "homeworks" in response.fields && !response.fields["homeworks"].JList? ==>
              s.alerts == [] && s.result.Err? && s.result.error.TypeError?
  {
    if !response.JObj? then
      Alert(NotDictAlert, alertFault, Err(TypeError(NotDictText)))
    else if "homeworks" !in response.fields then
      Alert(MissingKeyAlert, alertFault, Err(KeyError(MissingHomeworksKey)))
    else
      var homeworks := response.fields["homeworks"];
      if !homeworks.JList? then
        Step([], Err(TypeError("homeworks - не список, <class '" + TypeName(homeworks) + "'>")))
      else if |homeworks.items| == 0 then
        Step([], Ok(JNull))
      else
        Step([], Ok(homeworks.items[0]))
  }

  /** The message announcing that homework `name` received `verdict`. */
  function Notification(name: string, verdict: string): string {
    NotificationPrefix + name + NameSeparator + verdict
  }

  /** `parse_status`. The name is checked before the status: a record without
      `homework_name` raises `KeyError` whatever its status. A missing status
      reads as `None`; it and every status outside the table raise
      `ValueError`, except a list or a dict, whose membership test raises
      `TypeError`. A value that is not a dict has no `get` method. */
  function ParseStatus(homework: Json): (r: Result<string>)
    ensures r.Ok? <==> homework.JObj? && "homework_name" in homework.fields
                       && "status" in homework.fields && homework.fields["status"].JStr?
                       && homework.fields["status"].s in HomeworkVerdicts
    ensures r.Ok? ==>
              r.value == Notification(Display(homework.fields["homework_name"]),
                                      HomeworkVerdicts[homework.fields["status"].s])
    ensures !homework.JObj? ==> r.Err? && r.error.AttributeError?
    ensures homework.JObj? && "homework_name" !in homework.fields ==> r == Err(KeyError(MissingNameKey))
    ensures homework.JObj? && "homework_name" in homework.fields && !Hashable(Get(homework.fields, "status")) ==>
              r.Err? && r.error.TypeError?
  {
    match homework
    case JObj(fields) =>
      var name := Get(fields, "homework_name");
      var status := Get(fields, "status");
      if "homework_name" !in fields then
        Err(KeyError(MissingNameKey))
      else if !Hashable(status) then
        Err(TypeError("unhashable type: '" + TypeName(status) + "'"))
      else if !status.JStr? || status.s !in HomeworkVerdicts then
        Err(ValueError(UnknownStatusText))
      else
        Ok(Notification(Display(name), HomeworkVerdicts[status.s]))
    case _ =>
      Err(AttributeError("'" + TypeName(homework) + "' object has no attribute 'get'"))
  }

  /** The verdict table has exactly the three statuses, and no verdict text
      is shared by two statuses. */
  lemma VerdictTableIsClosed()
    ensures HomeworkVerdicts.Keys == {"approved", "reviewing", "rejected"}
    ensures forall k :: k in Statuses <==> k in HomeworkVerdicts
    ensures forall k1, k2 :: k1 in HomeworkVerdicts && k2 in HomeworkVerdicts && k1 != k2 ==>
              HomeworkVerdicts[k1] != HomeworkVerdicts[k2]
  {
  }

  /** Only the first element of `homeworks` matters: the rest of the list has
      no influence on what `check_response` returns, raises or alerts. */
  lemma CheckResponseIgnoresTail(fields: map<string, Json>, first: Json, rest1: seq<Json>, rest2: seq<Json>,
                                 alertFault: Option<string>)
    ensures CheckResponse(JObj(fields["homeworks" := JList([first] + rest1)]), alertFault)
         == CheckResponse(JObj(fields["homeworks" := JList([first] + rest2)]), alertFault)
         == Step([], Ok(first))
  {
  }

  /** A `None` body, which is what `get_api_answer` hands on after a failed
      request, is rejected with `TypeError` after an alert. */
  lemma CheckResponseRejectsNone(alertFault: Option<string>)
    ensures CheckResponse(JNull, alertFault).alerts == [NotDictAlert]
    ensures alertFault.None? ==> CheckResponse(JNull, alertFault).result == Err(TypeError(NotDictText))
  {
  }

  /** A record without `homework_name` raises `KeyError`, whether its status
      is missing, unknown, unhashable or valid. */
  lemma ParseStatusChecksNameFirst(fields: map<string, Json>, status: Option<Json>)
    requires "homework_name" !in fields
    ensures var record := if status.Some? then fields["status" := status.value] else fields - {"status"};
            ParseStatus(JObj(record)) == Err(KeyError(MissingNameKey))
  {
  }

  /** With a name present, a status that is absent, or a string, number,
      boolean or null outside the table, raises `ValueError`. */
  lemma ParseStatusRejectsUnknownStatus(fields: map<string, Json>)
    requires "homework_name" in fields
    requires "status" !in fields || (Hashable(fields["status"]) && !(fields["status"].JStr? && fields["status"].s in HomeworkVerdicts))
    ensures ParseStatus(JObj(fields)) == Err(ValueError(UnknownStatusText))
  {
  }

  /** What a reader of the chat can recover from a message: the name and the
      status of a notification, or `None` for any other text. */
  function ReadNotification(message: string): Option<(string, string)> {
    if |message| >= |NotificationPrefix| && message[..|NotificationPrefix|] == NotificationPrefix then
      MatchVerdict(message[|NotificationPrefix|..], Statuses)
    else
      None
  }

  /** Whether `rest` ends with the separator and the verdict of `status`. */
  predicate EndsWithVerdict(rest: string, status: string)
    requires status in HomeworkVerdicts
  {
    var tail := NameSeparator + HomeworkVerdicts[status];
    |rest| >= |tail| && rest[|rest| - |tail|..] == tail
  }

  /** The first of `statuses` whose verdict ends `rest`, with what precedes
      the separator. */
  function MatchVerdict(rest: string, statuses: seq<string>): Option<(string, string)>
    requires forall k :: k in statuses ==> k in HomeworkVerdicts
  {
    if statuses == [] then None
    else if EndsWithVerdict(rest, statuses[0]) then
      Some((rest[..|rest| - |NameSeparator + HomeworkVerdicts[statuses[0]]|], statuses[0]))
    else
      MatchVerdict(rest, statuses[1..])
  }

  lemma {:induction false} MatchVerdictFindsFirst(rest: string, statuses: seq<string>, i: nat)
    requires forall k :: k in statuses ==> k in HomeworkVerdicts
    requires i < |statuses| && EndsWithVerdict(rest, statuses[i])
    requires forall j :: 0 <= j < i ==> !EndsWithVerdict(rest, statuses[j])
    ensures MatchVerdict(rest, statuses)
         == Some((rest[..|rest| - |NameSeparator + HomeworkVerdicts[statuses[i]]|], statuses[i]))
  {
    if i > 0 {
      MatchVerdictFindsFirst(rest, statuses[1..], i - 1);
    }
  }

  /** A notification is never mistaken for the verdict of another status:
      the last two characters of the three verdict texts differ. */
  lemma VerdictsDoNotOverlap(rest: string, status: string, other: string)
    requires status in HomeworkVerdicts && other in HomeworkVerdicts && status != other
    requires EndsWithVerdict(rest, status)
    ensures !EndsWithVerdict(rest, other)
  {
    var tail := NameSeparator + HomeworkVerdicts[status];
    assert rest[|rest| - 1] == tail[|tail| - 1] && rest[|rest| - 2] == tail[|tail| - 2];
  }

  /** The status of a notification is determined by its text, and so is the
      name it was built from. */
  lemma ReadNotificationRoundTrip(name: string, status: string)
    requires status in HomeworkVerdicts
    ensures ReadNotification(Notification(name, HomeworkVerdicts[status])) == Some((name, status))
  {
    var m := Notification(name, HomeworkVerdicts[status]);
    var tail := NameSeparator + HomeworkVerdicts[status];
    var rest := name + tail;
    assert m == NotificationPrefix + rest;
    assert m[..|NotificationPrefix|] == NotificationPrefix && m[|NotificationPrefix|..] == rest;
    assert ReadNotification(m) == MatchVerdict(rest, Statuses);
    assert rest[|rest| - |tail|..] == tail && rest[..|rest| - |tail|] == name;
    var i := if status == "approved" then 0 else if status == "reviewing" then 1 else 2;
    assert Statuses[i] == status;
    forall j | 0 <= j < i ensures !EndsWithVerdict(rest, Statuses[j]) {
      VerdictsDoNotOverlap(rest, status, Statuses[j]);
    }
    MatchVerdictFindsFirst(rest, Statuses, i);
  }

  /** The fallback message is not a notification about any homework. */
  lemma NoReviewMessageIsNotANotification(name: string, status: string)
    requires status in HomeworkVerdicts
    ensures ReadNotification(NoReviewMessage) == None
    ensures NoReviewMessage != Notification(name, HomeworkVerdicts[status])
  {
    assert NoReviewMessage[0] != NotificationPrefix[0];
    assert Notification(name, HomeworkVerdicts[status])[0] == NotificationPrefix[0];
  }
}

/** The notification exit handler (`exit_handler`), which runs when the Argo
    workflow ends: it decides whether to email and whom, and whether to send
    the flow parameters to the failure queue. Sending mail and SQS messages
    is left to the caller: the model returns the actions to take, and whether
    the mail server accepted the mail is a parameter. */
module ExitHandler {
  import opened Results
  import opened Text

  // ---------------------------------------------------------------------------
  // Configuration lookup
  // ---------------------------------------------------------------------------

  /** The environment variables passed as JSON (a JSON `null` is `None`) and
      the process environment. */
  datatype Environment = Environment(json: map<string, Option<string>>, process: map<string, string>)

  /** `get_env`: a name present in the JSON wins, even with a `null` value;
      otherwise the process environment; otherwise the default. */
  function GetEnv(e: Environment, name: string, default: Option<string>): (r: Option<string>)
    ensures name in e.json ==> r == e.json[name]
    ensures name !in e.json && name in e.process ==> r == Some(e.process[name])
    ensures name !in e.json && name !in e.process ==> r == default
  {
    if name in e.json then e.json[name]
    else if name in e.process then Some(e.process[name])
    else default
  }

  /** The two sources layered into one map, the JSON on top. */
  function Layered(e: Environment): (m: map<string, Option<string>>)
    ensures m.Keys == e.json.Keys + e.process.Keys
  {
    map k | k in e.json.Keys + e.process.Keys :: if k in e.json then e.json[k] else Some(e.process[k])
  }

  /** `get_env` is a lookup in the layered map, falling back to the default:
      the process environment only fills in what the JSON leaves out. */
  lemma GetEnvIsLayeredLookup(e: Environment, name: string, default: Option<string>)
    ensures GetEnv(e, name, default) == if name in Layered(e) then Layered(e)[name] else default
  {
  }

  // ---------------------------------------------------------------------------
  // The dispatch decision
  // ---------------------------------------------------------------------------

  /** A message for the failure queue: the queue, the body and the role to
      assume, if any. */
  datatype SqsMessage = SqsMessage(queueUrl: string, body: string, roleArn: Option<string>)

  /** What the handler does: the address it emails, if any, and the message
      it sends, if any. */
  datatype Actions = Actions(emailTo: Option<string>, sqs: Option<SqsMessage>)

  /** What `exit_handler` is called with. */
  datatype HandlerArgs = HandlerArgs(status: string, flowParametersJson: string, runEmailNotify: bool, runSqsOnError: bool)

  /** The email decision: the success address on success when one is set,
      otherwise the error address when one is set, otherwise nobody. */
  function EmailTarget(a: HandlerArgs, e: Environment): (to: Option<string>)
    ensures to.Some? ==> a.runEmailNotify
    ensures a.runEmailNotify && Truthy(GetEnv(e, "METAFLOW_NOTIFY_ON_SUCCESS", None)) && a.status == "Succeeded" ==>
              to == GetEnv(e, "METAFLOW_NOTIFY_ON_SUCCESS", None)
    ensures a.runEmailNotify && !(Truthy(GetEnv(e, "METAFLOW_NOTIFY_ON_SUCCESS", None)) && a.status == "Succeeded") ==>
              (to.Some? <==> Truthy(GetEnv(e, "METAFLOW_NOTIFY_ON_ERROR", None))) &&
              (to.Some? ==> to == GetEnv(e, "METAFLOW_NOTIFY_ON_ERROR", None))
  {
    if !a.runEmailNotify then None
    else
      var onError := GetEnv(e, "METAFLOW_NOTIFY_ON_ERROR", None);
      var onSuccess := GetEnv(e, "METAFLOW_NOTIFY_ON_SUCCESS", None);
      if Truthy(onSuccess) && a.status == "Succeeded" then onSuccess
      else if Truthy(onError) then onError
      else None
  }

  /** The queue decision: on any status but `Succeeded`, when the queue flag
      is on and a queue URL is set, the flow parameters JSON goes to that
      queue with the configured role. */
  function SqsAction(a: HandlerArgs, e: Environment): (m: Option<SqsMessage>)
    ensures m.Some? <==> a.runSqsOnError && Truthy(GetEnv(e, "METAFLOW_SQS_URL_ON_ERROR", None)) && a.status != "Succeeded"
    ensures m.Some? ==> m.value.queueUrl == GetEnv(e, "METAFLOW_SQS_URL_ON_ERROR", None).value
    ensures m.Some? ==> m.value.body == a.flowParametersJson
    ensures m.Some? ==> m.value.roleArn == GetEnv(e, "METAFLOW_SQS_ROLE_ARN_ON_ERROR", None)
  {
    if !a.runSqsOnError then None
    else
      var url := GetEnv(e, "METAFLOW_SQS_URL_ON_ERROR", None);
      if !Truthy(url) || a.status == "Succeeded" then None
      else Some(SqsMessage(url.value, a.flowParametersJson, GetEnv(e, "METAFLOW_SQS_ROLE_ARN_ON_ERROR", None)))
  }

  const SmtpPortKey := "METAFLOW_NOTIFY_EMAIL_SMTP_PORT"

  /** `int(get_env("METAFLOW_NOTIFY_EMAIL_SMTP_PORT"))` in `email_notify`: an
      unset port is `int(None)`, a TypeError; a port that is not a number is
      a ValueError. */
  function SmtpPort(e: Environment): (r: Result<int>)
    ensures GetEnv(e, SmtpPortKey, None).None? ==> r == Err(MissingAttribute(SmtpPortKey))
    ensures GetEnv(e, SmtpPortKey, None).Some? ==> r == ParseInt(GetEnv(e, SmtpPortKey, None).value)
    ensures r.Ok? <==> GetEnv(e, SmtpPortKey, None).Some? && ParseInt(GetEnv(e, SmtpPortKey, None).value).Ok?
  {
    match GetEnv(e, SmtpPortKey, None)
    case None => Err(MissingAttribute(SmtpPortKey))
    case Some(port) => ParseInt(port)
  }

  /** A port configured as the decimal form of `n` is read back as `n`. */
  lemma SmtpPortReadsBack(e: Environment, n: int)
    requires GetEnv(e, SmtpPortKey, None) == Some(IntToString(n))
    ensures SmtpPort(e) == Ok(n)
  {
    IntToStringRoundTrip(n);
  }

  /** `exit_handler`: the email step, then the queue step. An exception in the
      email step (reading the SMTP port, or sending, whose outcome is the
      parameter `mailSent`) ends the handler before the queue step. */
  function Dispatch(a: HandlerArgs, e: Environment, mailSent: bool): (r: Result<Actions>)
    ensures r.Ok? <==> EmailTarget(a, e).None? || (SmtpPort(e).Ok? && mailSent)
    ensures r.Ok? ==> r.value.emailTo == EmailTarget(a, e) && r.value.sqs == SqsAction(a, e)
    ensures EmailTarget(a, e).Some? && SmtpPort(e).Err? ==> r == Err(SmtpPort(e).error)
    ensures EmailTarget(a, e).Some? && SmtpPort(e).Ok? && !mailSent ==> r == Err(MailNotSent)
  {
    var to := EmailTarget(a, e);
    if to.Some? then
      var _ :- SmtpPort(e);
      if mailSent then Ok(Actions(to, SqsAction(a, e))) else Err(MailNotSent)
    else Ok(Actions(to, SqsAction(a, e)))
  }

  /** The queue message is sent only once the email step is done: when the
      queue decision asks for a message but the email step raises, nothing
      is sent. Without notification the queue decision always stands. */
  lemma QueueFollowsEmail(a: HandlerArgs, e: Environment, mailSent: bool)
    ensures Dispatch(a, e, mailSent).Ok? && Dispatch(a, e, mailSent).value.sqs.Some? ==>
              SqsAction(a, e).Some? && (EmailTarget(a, e).None? || (SmtpPort(e).Ok? && mailSent))
    ensures !a.runEmailNotify ==> Dispatch(a, e, mailSent) == Ok(Actions(None, SqsAction(a, e)))
  {
  }

  /** A failed run with notification on, an error address, no SMTP port and
      the queue on: the handler raises the TypeError and queues nothing,
      although the queue decision alone would send the parameters. */
  lemma MissingPortStopsQueue(e: Environment, params: string)
    requires e.json == map["METAFLOW_NOTIFY_ON_ERROR" := Some("team@example.com"),
                           "METAFLOW_SQS_URL_ON_ERROR" := Some("https://sqs/queue")]
    requires SmtpPortKey !in e.process
    ensures SqsAction(HandlerArgs("Failed", params, true, true), e).Some?
    ensures Dispatch(HandlerArgs("Failed", params, true, true), e, true) == Err(MissingAttribute(SmtpPortKey))
  {
    assert GetEnv(e, SmtpPortKey, None).None?;
  }

  /** On success nothing is queued and the success address, when set, is the
      one emailed; on any other status the error address is the only one
      emailed. */
  lemma DispatchByStatus(a: HandlerArgs, e: Environment)
    ensures a.status == "Succeeded" ==>
              SqsAction(a, e).None? &&
              (EmailTarget(a, e).Some? && Truthy(GetEnv(e, "METAFLOW_NOTIFY_ON_SUCCESS", None)) ==>
                 EmailTarget(a, e) == GetEnv(e, "METAFLOW_NOTIFY_ON_SUCCESS", None))
    ensures a.status != "Succeeded" ==>
              (EmailTarget(a, e).Some? <==> a.runEmailNotify && Truthy(GetEnv(e, "METAFLOW_NOTIFY_ON_ERROR", None))) &&
              (EmailTarget(a, e).Some? ==> EmailTarget(a, e) == GetEnv(e, "METAFLOW_NOTIFY_ON_ERROR", None))
  {
  }

  /** A success with no success address still emails the error address when
      one is set. */
  lemma SuccessFallsBackToErrorAddress(a: HandlerArgs, e: Environment)
    requires a.runEmailNotify && a.status == "Succeeded"
    requires !Truthy(GetEnv(e, "METAFLOW_NOTIFY_ON_SUCCESS", None))
    requires Truthy(GetEnv(e, "METAFLOW_NOTIFY_ON_ERROR", None))
    ensures EmailTarget(a, e) == GetEnv(e, "METAFLOW_NOTIFY_ON_ERROR", None)
  {
  }
}

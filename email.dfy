/**
 * `Email` (src/component/email/index.ts): a message is validated, then
 * handed to the configured provider.  The provider's own delivery is not
 * modelled: the model says whether the message was handed to mailgun.
 */
module Email {
  import opened Js
  import opened Errors

  /**
   * `validata(message)`.  The debug line before the checks reads
   * `message.from`, so a null or undefined message throws a TypeError
   * there, before the `!message` guard.
   */
  function Validata(message: JsValue): (r: Result<()>)
    ensures Nullish(message) ==> r == Err(TypeError)
    ensures !Nullish(message) ==>
      (r.Ok? <==> Truthy(message) && Truthy(Get(message, "from")) && Truthy(Get(message, "to")) &&
                  Truthy(Get(message, "subject")) && (Truthy(Get(message, "text")) || Truthy(Get(message, "html"))))
    ensures !Nullish(message) && r.Err? ==> IsError(r.ex, "validation_error")
  {
    if Nullish(message) then Err(TypeError)
    else if !Truthy(message) then Err(Fail("validation_error", "Message not specified", "com_email_v1"))
    else if !Truthy(Get(message, "from")) then Err(Fail("validation_error", "Message FROM not specified", "com_email_v2"))
    else if !Truthy(Get(message, "to")) then Err(Fail("validation_error", "Message TO not specified", "com_email_v3"))
    else if !Truthy(Get(message, "subject")) then Err(Fail("validation_error", "Message not specified", "com_email_v4"))
    else if !Truthy(Get(message, "text")) && !Truthy(Get(message, "html")) then
      Err(Fail("validation_error", "Message text or html must be specified", "com_email_v5"))
    else Ok(())
  }

  /** What `send(message)` does: its result, and whether mailgun was handed the message. */
  datatype Sent = Sent(result: Result<JsValue>, handedToMailgun: bool)

  /**
   * `send(message)` with the `email` configuration `conf`: a valid message
   * goes to mailgun when that is the provider, and the promise resolves
   * with no value whatever mailgun does; any other provider rejects.
   */
  function Send(conf: JsValue, message: JsValue): (s: Sent)
    ensures Validata(message).Err? ==> s == Sent(Err(Validata(message).ex), false)
    ensures Validata(message).Ok? && StrictEquals(Get(conf, "provider"), Str("mailgun")) ==> s == Sent(Ok(Undefined), true)
    ensures Validata(message).Ok? && !StrictEquals(Get(conf, "provider"), Str("mailgun")) ==>
      !s.handedToMailgun && s.result.Err? && HasTrace(s.result.ex, "com_email_se1") && IsError(s.result.ex, "validation_error")
  {
    var v := Validata(message);
    if v.Err? then Sent(Err(v.ex), false)
    else if StrictEquals(Get(conf, "provider"), Str("mailgun")) then Sent(Ok(Undefined), true)
    else Sent(Err(Fail("validation_error", "Unsupported email provider " + ToStr(Get(conf, "provider")), "com_email_se1")), false)
  }

  /** A message with only text, or only html, passes. */
  lemma TextOrHtmlSuffices(from: string, to: string, subject: string, body: string, asHtml: bool)
    requires from != "" && to != "" && subject != "" && body != ""
    ensures var m := map["from" := Str(from), "to" := Str(to), "subject" := Str(subject)];
      Validata(Obj(m[(if asHtml then "html" else "text") := Str(body)])).Ok?
  {
    var m := map["from" := Str(from), "to" := Str(to), "subject" := Str(subject)];
    var k := if asHtml then "html" else "text";
    var msg := Obj(m[k := Str(body)]);
    assert Get(msg, "from") == Str(from) && Get(msg, "to") == Str(to) && Get(msg, "subject") == Str(subject);
    assert Get(msg, k) == Str(body);
  }

  /** The checks run in order: a message without `from` fails at the first of them even when nothing else is set. */
  lemma FromCheckedFirst(message: JsValue)
    requires message.Obj? && !Truthy(Get(message, "from"))
    ensures Validata(message).Err? && HasTrace(Validata(message).ex, "com_email_v2")
  {
  }
}

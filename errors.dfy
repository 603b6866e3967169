/**
 * The error handler the dispatcher calls when a command throws: the error's message and
 * code choose the text, checked in a fixed order; the text is sent as an embed reply, and
 * when that reply fails, once more as a plain channel message. Whether each send works
 * and whether the process runs in development mode are parameters.
 */
module ErrorHandler {
  import opened Wrappers
  import opened JsText

  /** The parts of a thrown error the handler reads. */
  datatype Error = Error(message: string, code: Option<int>)

  const DefaultText: string := "There was an error executing that command. Please try again later."
  const PermissionsText: string := "I don't have the required permissions to perform this action."
  const RateLimitText: string := "I'm being rate limited. Please try again in a few seconds."
  const MissingPermissionsText: string := "I don't have permission to do that. Please check my role permissions."

  /** The platform's error code for a request the bot lacks permissions for. */
  const MissingPermissionsCode: int := 50013

  /** What the user is sent: nothing, the embed reply, or the plain fallback message. */
  datatype Delivery =
    | Silent
    | NotDelivered
    | EmbedReply(text: string, details: Option<string>)
    | PlainSend(content: string)

  /**
   * The text for an error, or `None` for a deleted message, which is not answered. The
   * tests run in order: "permissions", "rate limit", "Unknown Message", code 50013, and
   * the first that matches decides.
   */
  function Classify(e: Error): (r: Option<string>)
    ensures Includes(e.message, "permissions") ==> r == Some(PermissionsText)
    ensures !Includes(e.message, "permissions") && Includes(e.message, "rate limit") ==> r == Some(RateLimitText)
    ensures r.None? <==>
      !Includes(e.message, "permissions") && !Includes(e.message, "rate limit") && Includes(e.message, "Unknown Message")
    ensures r == Some(MissingPermissionsText) <==>
      && !Includes(e.message, "permissions") && !Includes(e.message, "rate limit")
      && !Includes(e.message, "Unknown Message") && e.code == Some(MissingPermissionsCode)
    ensures r == Some(DefaultText) <==>
      && !Includes(e.message, "permissions") && !Includes(e.message, "rate limit")
      && !Includes(e.message, "Unknown Message") && e.code != Some(MissingPermissionsCode)
  {
    if Includes(e.message, "permissions") then Some(PermissionsText)
    else if Includes(e.message, "rate limit") then Some(RateLimitText)
    else if Includes(e.message, "Unknown Message") then None
    else if e.code == Some(MissingPermissionsCode) then Some(MissingPermissionsText)
    else Some(DefaultText)
  }

  /** The message test comes first: an error that mentions permissions and has code 50013 gets the first text. */
  lemma MessageBeforeCode(message: string)
    requires Includes(message, "permissions")
    ensures Classify(Error(message, Some(MissingPermissionsCode))) == Some(PermissionsText)
    ensures Classify(Error(message, Some(MissingPermissionsCode))) != Some(MissingPermissionsText)
  {
  }

  /**
   * `handleCommandError`: the classified text as an embed reply (with the error's message
   * as a detail in development mode); if the reply fails, one plain send; if that fails
   * too, nothing reaches the user.
   */
  function HandleCommandError(e: Error, development: bool, replyWorks: bool, sendWorks: bool): (d: Delivery)
    ensures Classify(e).None? <==> d == Silent
    ensures d.EmbedReply? <==> Classify(e).Some? && replyWorks
    ensures d.EmbedReply? ==> d.text == Classify(e).value
    ensures d.EmbedReply? ==> (d.details.Some? <==> development)
    ensures d.PlainSend? <==> Classify(e).Some? && !replyWorks && sendWorks
    ensures d.PlainSend? ==> d.content == "Error executing command: " + Classify(e).value
  {
    match Classify(e)
    case None => Silent
    case Some(text) =>
      if replyWorks then EmbedReply(text, if development then Some("```" + e.message + "```") else None)
      else if sendWorks then PlainSend("Error executing command: " + text)
      else NotDelivered
  }

  /** The fallback message carries the same text as the embed would have. */
  lemma FallbackSameText(e: Error, development: bool)
    requires Classify(e).Some?
    ensures var embed := HandleCommandError(e, development, true, true);
      var plain := HandleCommandError(e, development, false, true);
      plain.content == "Error executing command: " + embed.text
  {
  }

  const ApiErrorLead: string := "There was an error "
  const ApiErrorTail: string := ". Please try again later."
  const DefaultAction: string := "performing that action"

  /** `handleApiError`'s text; an action that is not passed defaults to `performing that action`. */
  function ApiErrorText(action: Option<string>): (r: string)
    ensures |r| == |ApiErrorLead| + |action.GetOr(DefaultAction)| + |ApiErrorTail|
    ensures r[..|ApiErrorLead|] == ApiErrorLead && r[|r| - |ApiErrorTail|..] == ApiErrorTail
    ensures r[|ApiErrorLead|..|r| - |ApiErrorTail|] == action.GetOr(DefaultAction)
  {
    ApiErrorLead + action.GetOr(DefaultAction) + ApiErrorTail
  }

  /** The action can be read back from the text: different actions give different texts. */
  lemma ApiErrorTextInjective(a: Option<string>, b: Option<string>)
    requires ApiErrorText(a) == ApiErrorText(b)
    ensures a.GetOr(DefaultAction) == b.GetOr(DefaultAction)
  {
    assert ApiErrorText(a)[|ApiErrorLead|..|ApiErrorText(a)| - |ApiErrorTail|] == a.GetOr(DefaultAction);
  }
}

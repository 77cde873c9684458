// services/policy_service.py and the text classifiers of services/email_service.py.
module PolicyText {
  import opened Prelude

  // Python's str.strip and str.lower, as arbitrary functions: nothing below depends on them.
  datatype TextLib = TextLib(strip: string -> string, lower: string -> string)

  datatype Category = ReadOnly | DraftOnly | OutboundSend | Publish | Destructive

  datatype Evaluation = Evaluation(allowed: bool, blocked: bool, requiresApproval: bool)

  datatype Intent = IntentOutbound | IntentInboxRead | IntentDraftReply

  datatype Disposition = Blocked | NeedsApproval | Completed

  const OUTBOUND_MARKERS: seq<string> := [
    "send email", "send an email", "send this email", "send the email", "send that email",
    "reply to all", "mail this" ]
  const DESTRUCTIVE_MARKERS: seq<string> := [ "delete ", "remove ", " wipe", "destroy ", "drop " ]
  const PUBLISH_MARKERS: seq<string> := [
    "publish", "post to youtube", "go live", "upload video", "push to channel" ]
  const READ_MARKERS: seq<string> := [ "list my emails", "fetch inbox", "read messages", "show thread" ]
  const EMAIL_WORDS: seq<string> := [ " email", "email ", "gmail", "inbox", "reply to" ]

  predicate AnyIn(markers: seq<string>, text: string) {
    exists k :: 0 <= k < |markers| && Contains(text, markers[k])
  }

  function EvaluateAction(c: Category): Evaluation {
    match c
    case ReadOnly => Evaluation(true, false, false)
    case DraftOnly => Evaluation(true, false, false)
    case OutboundSend => Evaluation(true, false, true)
    case Publish => Evaluation(true, false, true)
    case Destructive => Evaluation(false, true, false)
  }

  function ClassifyCategory(tx: TextLib, message: string): Category {
    var t := tx.lower(message);
    if AnyIn(DESTRUCTIVE_MARKERS, t) then Destructive
    else if AnyIn(PUBLISH_MARKERS, t) then Publish
    else if AnyIn(OUTBOUND_MARKERS, t) then OutboundSend
    else if AnyIn(READ_MARKERS, t) then ReadOnly
    else DraftOnly
  }

  predicate IsEmailRelated(tx: TextLib, message: string) {
    var t := tx.lower(message);
    AnyIn(OUTBOUND_MARKERS, t) || AnyIn(READ_MARKERS, t) || AnyIn(EMAIL_WORDS, t)
  }

  function ClassifyIntent(tx: TextLib, message: string): Intent {
    var t := tx.lower(message);
    if AnyIn(OUTBOUND_MARKERS, t) then IntentOutbound
    else if AnyIn(READ_MARKERS, t) then IntentInboxRead
    else IntentDraftReply
  }

  // How execute_chat_orchestrate disposes of a message.
  function Dispose(tx: TextLib, message: string): Disposition {
    var e := EvaluateAction(ClassifyCategory(tx, message));
    if e.blocked || !e.allowed then Blocked else if e.requiresApproval then NeedsApproval else Completed
  }

  // The message gets a Gmail draft behind an approval gate.
  predicate DraftsOutbound(tx: TextLib, message: string) {
    Dispose(tx, message) == NeedsApproval && IsEmailRelated(tx, message)
    && ClassifyIntent(tx, message) == IntentOutbound
  }

  // The two classifiers agree where it matters: a message the email workflow would send never
  // completes ungated, and one the policy routes to outbound_send always gets a gated draft.
  lemma OutboundIsGated(tx: TextLib, message: string)
    ensures ClassifyIntent(tx, message) == IntentOutbound ==> Dispose(tx, message) != Completed
    ensures ClassifyCategory(tx, message) == OutboundSend ==> DraftsOutbound(tx, message)
    ensures DraftsOutbound(tx, message) <==>
            Dispose(tx, message) == NeedsApproval && AnyIn(OUTBOUND_MARKERS, tx.lower(message))
  {
  }

  // ---- The classifiers in the words they look for ----

  predicate SaysDestroy(t: string) {
    Contains(t, "delete ") || Contains(t, "remove ") || Contains(t, " wipe") || Contains(t, "destroy ") ||
    Contains(t, "drop ")
  }

  predicate SaysPublish(t: string) {
    Contains(t, "publish") || Contains(t, "post to youtube") || Contains(t, "go live") ||
    Contains(t, "upload video") || Contains(t, "push to channel")
  }

  predicate SaysSend(t: string) {
    Contains(t, "send email") || Contains(t, "send an email") || Contains(t, "send this email") ||
    Contains(t, "send the email") || Contains(t, "send that email") || Contains(t, "reply to all") ||
    Contains(t, "mail this")
  }

  predicate SaysRead(t: string) {
    Contains(t, "list my emails") || Contains(t, "fetch inbox") || Contains(t, "read messages") ||
    Contains(t, "show thread")
  }

  predicate SaysMail(t: string) {
    Contains(t, " email") || Contains(t, "email ") || Contains(t, "gmail") || Contains(t, "inbox") ||
    Contains(t, "reply to")
  }

  lemma MarkersAre(t: string)
    ensures AnyIn(DESTRUCTIVE_MARKERS, t) <==> SaysDestroy(t)
    ensures AnyIn(PUBLISH_MARKERS, t) <==> SaysPublish(t)
    ensures AnyIn(READ_MARKERS, t) <==> SaysRead(t)
    ensures AnyIn(EMAIL_WORDS, t) <==> SaysMail(t)
  {
    var d := DESTRUCTIVE_MARKERS;
    assert d[0] == "delete " && d[1] == "remove " && d[2] == " wipe" && d[3] == "destroy " && d[4] == "drop ";
    var p := PUBLISH_MARKERS;
    assert p[0] == "publish" && p[1] == "post to youtube" && p[2] == "go live";
    assert p[3] == "upload video" && p[4] == "push to channel";
    var r := READ_MARKERS;
    assert r[0] == "list my emails" && r[1] == "fetch inbox" && r[2] == "read messages" && r[3] == "show thread";
    var e := EMAIL_WORDS;
    assert e[0] == " email" && e[1] == "email " && e[2] == "gmail" && e[3] == "inbox" && e[4] == "reply to";
  }

  lemma OutboundMarkersAre(t: string)
    ensures AnyIn(OUTBOUND_MARKERS, t) <==> SaysSend(t)
  {
    var o := OUTBOUND_MARKERS;
    assert o[0] == "send email" && o[1] == "send an email" && o[2] == "send this email" && o[3] == "send the email";
    assert o[4] == "send that email" && o[5] == "reply to all" && o[6] == "mail this";
  }

  // A message is blocked exactly if it speaks of destroying, needs approval exactly if it speaks
  // of publishing or sending instead, and completes otherwise; it gets a draft behind the gate
  // exactly if it speaks of sending and not of destroying.
  lemma DispositionInWords(tx: TextLib, message: string, t: string)
    requires t == tx.lower(message)
    ensures Dispose(tx, message) == Blocked <==> SaysDestroy(t)
    ensures Dispose(tx, message) == NeedsApproval <==> !SaysDestroy(t) && (SaysPublish(t) || SaysSend(t))
    ensures DraftsOutbound(tx, message) <==> !SaysDestroy(t) && SaysSend(t)
    ensures IsEmailRelated(tx, message) <==> SaysSend(t) || SaysRead(t) || SaysMail(t)
  {
    MarkersAre(t);
    OutboundMarkersAre(t);
  }

  // Which category and intent a message has: the first of its words in the order of the source.
  lemma CategoryInWords(tx: TextLib, message: string, t: string)
    requires t == tx.lower(message)
    ensures ClassifyCategory(tx, message) == Destructive <==> SaysDestroy(t)
    ensures ClassifyCategory(tx, message) == Publish <==> SaysPublish(t) && !SaysDestroy(t)
    ensures ClassifyCategory(tx, message) == OutboundSend <==> SaysSend(t) && !SaysPublish(t) && !SaysDestroy(t)
    ensures ClassifyCategory(tx, message) == ReadOnly <==>
            SaysRead(t) && !SaysSend(t) && !SaysPublish(t) && !SaysDestroy(t)
    ensures ClassifyIntent(tx, message) == IntentOutbound <==> SaysSend(t)
    ensures ClassifyIntent(tx, message) == IntentInboxRead <==> SaysRead(t) && !SaysSend(t)
  {
    MarkersAre(t);
    OutboundMarkersAre(t);
  }
}

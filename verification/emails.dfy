/**
 * Notification emails about trip requests (transportation/emails.py). Each
 * email has a message for the requestor and, for some kinds, one for the
 * manager. Sending is modelled as appending (subject, body, recipients) to an
 * outbox; the formatted subject and body strings are not modelled, only which
 * email and which part they are.
 */
module Emails {
  import opened Wrappers
  import opened TripRequests

  /** The kind of email, with the two status labels a status email quotes. */
  datatype EmailKind =
    | CreatedKind | CanceledKind | ApprovedKind | DeniedKind
    | StatusKind(oldText: string, newText: string)

  /** A formatted text of an email: its kind, its part, and whether it is the manager's. */
  datatype Text = Text(kind: EmailKind, forManager: bool, isBody: bool)

  /** A TripRequestEmail once constructed. `contactEmail` is the request's contact_email. */
  datatype Email = Email(
    contactEmail: string,
    requestorSubject: Text,
    requestorBody: Text,
    managerNotify: bool,
    managerSubject: Option<Text>,
    managerBody: Option<Text>)

  /** One call of send_mail. */
  datatype Message = Message(subject: Text, body: Text, recipients: seq<string>)

  /** TripRequestEmail.__init__: the manager is notified only when asked to and both texts exist. */
  function NewEmail(contactEmail: string, requestorSubject: Text, requestorBody: Text,
                    notify: bool, managerSubject: Option<Text>, managerBody: Option<Text>): (e: Email)
    ensures e.managerNotify <==> notify && managerSubject.Some? && managerBody.Some?
    ensures e.contactEmail == contactEmail
    ensures e.requestorSubject == requestorSubject && e.requestorBody == requestorBody
    ensures e.managerSubject == managerSubject && e.managerBody == managerBody
  {
    Email(contactEmail, requestorSubject, requestorBody,
          notify && managerSubject.Some? && managerBody.Some?, managerSubject, managerBody)
  }

  /** The requestor's texts and, when given, the manager's texts of one kind of email. */
  function EmailOf(t: TripRow, kind: EmailKind, notify: bool): Email
  {
    NewEmail(t.contactEmail, Text(kind, false, false), Text(kind, false, true), notify,
             if notify then Some(Text(kind, true, false)) else None,
             if notify then Some(Text(kind, true, true)) else None)
  }

  /**
   * The constructors of the four fixed kinds. Each requestor body starts with
   * the requestor's first name, so a request without a requestor raises
   * AttributeError. Created and Canceled also notify the manager.
   */
  function CreatedEmail(t: TripRow): (r: Result<Email>)
    ensures r.Err? <==> t.requestor.None?
    ensures r.Err? ==> r.error == AttributeError
    ensures r.Ok? ==> r.value.managerNotify && r.value.contactEmail == t.contactEmail
  {
    if t.requestor.None? then Err(AttributeError) else Ok(EmailOf(t, CreatedKind, true))
  }

  function CanceledEmail(t: TripRow): (r: Result<Email>)
    ensures r.Err? <==> t.requestor.None?
    ensures r.Err? ==> r.error == AttributeError
    ensures r.Ok? ==> r.value.managerNotify && r.value.contactEmail == t.contactEmail
  {
    if t.requestor.None? then Err(AttributeError) else Ok(EmailOf(t, CanceledKind, true))
  }

  function ApprovedEmail(t: TripRow): (r: Result<Email>)
    ensures r.Err? <==> t.requestor.None?
    ensures r.Err? ==> r.error == AttributeError
    ensures r.Ok? ==> !r.value.managerNotify && r.value.contactEmail == t.contactEmail
  {
    if t.requestor.None? then Err(AttributeError) else Ok(EmailOf(t, ApprovedKind, false))
  }

  function DeniedEmail(t: TripRow): (r: Result<Email>)
    ensures r.Err? <==> t.requestor.None?
    ensures r.Err? ==> r.error == AttributeError
    ensures r.Ok? ==> !r.value.managerNotify && r.value.contactEmail == t.contactEmail
  {
    if t.requestor.None? then Err(AttributeError) else Ok(EmailOf(t, DeniedKind, false))
  }

  /**
   * _get_status_display: STATUS_CHOICES[status][1] with Python indexing, so
   * -8..-1 count from the end and anything else raises IndexError.
   */
  function StatusDisplay(k: int): (r: Result<string>)
    ensures r.Ok? <==> -|STATUS_CHOICES| <= k < |STATUS_CHOICES|
    ensures r.Err? ==> r.error == IndexError
    ensures 0 <= k < |STATUS_CHOICES| ==> r.Ok? && (k, r.value) in STATUS_CHOICES
  {
    if 0 <= k < |STATUS_CHOICES| then Ok(STATUS_CHOICES[k].1)
    else if -|STATUS_CHOICES| <= k < 0 then Ok(STATUS_CHOICES[k + |STATUS_CHOICES|].1)
    else Err(IndexError)
  }

  /** A negative index names the same label as the index eight places further on. */
  lemma StatusDisplayWraps(k: int)
    requires -|STATUS_CHOICES| <= k < 0
    ensures StatusDisplay(k) == StatusDisplay(k + |STATUS_CHOICES|)
  {
  }

  /** A status's own code displays as the status's label, so different statuses display differently. */
  lemma StatusDisplayOfStatus(a: Status, b: Status)
    ensures StatusDisplay(a.Code()) == Ok(StatusLabel(a))
    ensures StatusDisplay(a.Code()) == StatusDisplay(b.Code()) <==> a == b
  {
    StatusLabelsDistinct(a, b);
  }

  /**
   * TripRequestStatusEmail.__init__: refuses unless the request already has
   * the new status, then looks up both labels, then formats the body with the
   * requestor's first name.
   */
  function StatusEmail(t: TripRow, oldStatus: int, newStatus: int): (r: Result<Email>)
    ensures r == Err(ValidationError) <==> t.status.Code() != newStatus
    ensures r.Ok? <==>
      t.status.Code() == newStatus && StatusDisplay(oldStatus).Ok? && t.requestor.Some?
    ensures r.Err? && r.error != ValidationError ==>
      (r.error == IndexError <==> StatusDisplay(oldStatus).Err?)
    ensures r.Err? && r.error != ValidationError && StatusDisplay(oldStatus).Ok? ==>
      r.error == AttributeError && t.requestor.None?
    ensures r.Ok? ==>
      !r.value.managerNotify && r.value.contactEmail == t.contactEmail &&
      r.value.requestorSubject.kind
        == StatusKind(StatusDisplay(oldStatus).value, StatusDisplay(newStatus).value)
  {
    if t.status.Code() != newStatus then Err(ValidationError)
    else
      match StatusDisplay(oldStatus)
      case Err(e) => Err(e)
      case Ok(oldText) =>
        match StatusDisplay(newStatus)
        case Err(e) => Err(e)
        case Ok(newText) =>
          if t.requestor.None? then Err(AttributeError)
          else Ok(EmailOf(t, StatusKind(oldText, newText), false))
  }

  /**
   * send_manager as written: the message raised for a missing text reads
   * `self.__className__`, which no object has, so the call fails with
   * AttributeError before any ValidationError is built. The manager message
   * goes to the request's contact address only.
   */
  function ManagerMessage(e: Email): (r: Result<Message>)
    ensures r.Err? <==> e.managerSubject.None? || e.managerBody.None?
    ensures r.Err? ==> r.error == AttributeError
    ensures r.Ok? ==> r.value.recipients == [e.contactEmail]
  {
    if e.managerSubject.None? || e.managerBody.None? then Err(AttributeError)
    else Ok(Message(e.managerSubject.value, e.managerBody.value, [e.contactEmail]))
  }

  /** send_manager raising the ValidationError its code constructs. */
  function ManagerMessageCorrected(e: Email): (r: Result<Message>)
    ensures r.Err? <==> e.managerSubject.None? || e.managerBody.None?
    ensures r.Err? ==> r.error == ValidationError
    ensures r.Ok? ==> r.value.recipients == [e.contactEmail]
  {
    if e.managerSubject.None? || e.managerBody.None? then Err(ValidationError)
    else Ok(Message(e.managerSubject.value, e.managerBody.value, [e.contactEmail]))
  }

  /** The discrepancy: the missing-text path raises AttributeError instead of ValidationError. */
  lemma ManagerMessageWithoutText(contactEmail: string, s: Text, b: Text)
    ensures ManagerMessage(NewEmail(contactEmail, s, b, true, None, None)) == Err(AttributeError)
    ensures ManagerMessageCorrected(NewEmail(contactEmail, s, b, true, None, None)) == Err(ValidationError)
  {
  }

  /** Where send() calls send_manager the texts exist, so both versions send the same message. */
  lemma ManagerMessageWhenNotified(e: Email)
    requires e.managerNotify == (e.managerSubject.Some? && e.managerBody.Some?)
    requires e.managerNotify
    ensures ManagerMessage(e).Ok? && ManagerMessage(e) == ManagerMessageCorrected(e)
  {
  }

  /** A Python list of addresses, which `_recipients` may append to in place. */
  class EmailList {
    var items: seq<string>

    constructor (items: seq<string>)
      ensures this.items == items
    {
      this.items := items;
    }
  }

  /** Everything handed to send_mail, in order. */
  class Outbox {
    var sent: seq<Message>

    constructor ()
      ensures sent == []
    {
      sent := [];
    }
  }

  /**
   * _recipients: the caller's list, or a fresh one, with the contact address
   * appended. The caller's list itself grows; `manager_only` plays no part.
   */
  method Recipients(e: Email, extra: EmailList?) returns (r: EmailList)
    modifies extra
    ensures extra != null ==> r == extra && r.items == old(extra.items) + [e.contactEmail]
    ensures extra == null ==> fresh(r) && r.items == [e.contactEmail]
  {
    if extra != null {
      r := extra;
    } else {
      r := new EmailList([]);
    }
    r.items := r.items + [e.contactEmail];
  }

  /** send_manager. */
  method SendManager(e: Email, outbox: Outbox) returns (r: Outcome)
    modifies outbox
    ensures ManagerMessage(e).Err? ==> r == Fail(ManagerMessage(e).error) && outbox.sent == old(outbox.sent)
    ensures ManagerMessage(e).Ok? ==> r == Pass && outbox.sent == old(outbox.sent) + [ManagerMessage(e).value]
  {
    if e.managerSubject.None? || e.managerBody.None? {
      return Fail(AttributeError);
    }
    var recipients := Recipients(e, null);
    outbox.sent := outbox.sent + [Message(e.managerSubject.value, e.managerBody.value, recipients.items)];
    r := Pass;
  }

  /** The messages send() hands over, given the addresses already in the caller's list. */
  function SentMessages(e: Email, extra: seq<string>): (ms: seq<Message>)
    requires e.managerNotify ==> ManagerMessage(e).Ok?
  {
    (if e.managerNotify then [ManagerMessage(e).value] else [])
      + [Message(e.requestorSubject, e.requestorBody, extra + [e.contactEmail])]
  }

  /**
   * send: the manager message only when managerNotify holds, then always the
   * requestor message, to the caller's addresses followed by the contact address.
   */
  lemma SendShape(e: Email, extra: seq<string>)
    requires e.managerNotify ==> ManagerMessage(e).Ok?
    ensures |SentMessages(e, extra)| == if e.managerNotify then 2 else 1
    ensures var last := SentMessages(e, extra)[|SentMessages(e, extra)| - 1];
      last.subject == e.requestorSubject && last.recipients[..|extra|] == extra
      && last.recipients[|extra|] == e.contactEmail && |last.recipients| == |extra| + 1
    ensures e.managerNotify ==> SentMessages(e, extra)[0].recipients == [e.contactEmail]
  {
  }

  /** An email built by NewEmail that notifies its manager has both texts, so send() never loses the manager copy. */
  lemma NotifiedEmailSendsBoth(contactEmail: string, rs: Text, rb: Text, notify: bool, ms: Option<Text>, mb: Option<Text>)
    ensures var e := NewEmail(contactEmail, rs, rb, notify, ms, mb);
      e.managerNotify ==> ManagerMessage(e).Ok?
  {
  }

  /**
   * send(emails). The caller's list, when given, is extended in place with the
   * contact address, so sending twice with the same list repeats that address.
   */
  method Send(e: Email, extra: EmailList?, outbox: Outbox)
    requires e.managerNotify ==> ManagerMessage(e).Ok?
    modifies extra, outbox
    ensures outbox.sent == old(outbox.sent) + SentMessages(e, if extra == null then [] else old(extra.items))
    ensures extra != null ==> extra.items == old(extra.items) + [e.contactEmail]
  {
    ghost var given := if extra == null then [] else extra.items;
    if e.managerNotify {
      var ignored := SendManager(e, outbox);
    }
    ghost var afterManager := outbox.sent;
    assert afterManager == old(outbox.sent) + (if e.managerNotify then [ManagerMessage(e).value] else []);
    var recipients := Recipients(e, extra);
    assert recipients.items == given + [e.contactEmail];
    outbox.sent := outbox.sent + [Message(e.requestorSubject, e.requestorBody, recipients.items)];
  }
}

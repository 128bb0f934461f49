/**
 * The contact-form controller of script.js: the email/Telegram mode toggle,
 * and the submit handler's decision sequence (honeypot, handle check,
 * record, request, outcome) with the submit button's state.
 */
module ContactForm {
  import opened Wrappers
  import TelegramHandle

  /** The two values of the `contact-method` radio group. */
  datatype Method = Email | Telegram

  function MethodValue(m: Method): string {
    match m
    case Email => "email"
    case Telegram => "telegram"
  }

  /** How the request ended: a 2xx response, another status, the 60-second abort, or a network error. */
  datatype Outcome = Ok | NotOk | Abort | NetworkError

  /** The feedback element's text and class. */
  datatype Feedback = Feedback(text: string, cls: string)

  const NoFeedback: Feedback := Feedback("", "")
  const InvalidHandleFeedback: Feedback :=
    Feedback("❌ Please enter a valid Telegram username (5-32 characters, letters, numbers, underscore)", "error")
  const SentFeedback: Feedback := Feedback("✓ Request sent! We'll reach out soon.", "success")
  const TimeoutFeedback: Feedback :=
    Feedback("⏱️ Request timeout. Server may be starting up. Please try again.", "error")
  const FailedFeedback: Feedback :=
    Feedback("❌ Failed to send. Please try again or contact via the buttons below.", "error")

  const SendingText: string := "Sending..."
  const SentText: string := "✓ Sent!"

  // ---------------------------------------------------------------------------
  // Pure parts of the controller
  // ---------------------------------------------------------------------------

  /** Which input is required and which group is displayed. */
  datatype Layout = Layout(emailRequired: bool, telegramRequired: bool, emailShown: bool, telegramShown: bool)

  /** The layout updateFormState gives a checked mode. */
  function LayoutFor(m: Method): (l: Layout)
    ensures l.emailRequired == l.emailShown && l.telegramRequired == l.telegramShown
    ensures l.emailShown != l.telegramShown
    ensures l.emailShown <==> m == Email
  {
    match m
    case Email => Layout(true, false, true, false)
    case Telegram => Layout(false, true, false, true)
  }

  /** Exactly one input group is shown, and it is exactly the required one. */
  predicate ExactlyOneActive(l: Layout) {
    l.emailRequired == l.emailShown && l.telegramRequired == l.telegramShown
    && (l.emailShown != l.telegramShown)
  }

  /** The layout of a mode is the only one that shows that mode's input alone. */
  lemma LayoutDeterminedByMode(m: Method, l: Layout)
    requires ExactlyOneActive(l)
    requires (m == Email) == l.emailShown
    ensures l == LayoutFor(m)
  {
  }

  /** What the user has typed: email, handle, message and the hidden decoy field. */
  datatype Entries = Entries(email: string, telegram: string, message: string, honeypot: string)

  /** The JSON body posted to the endpoint, without its wall-clock timestamp. */
  datatype Record = Record(
    contactMethod: string,
    email: Option<string>,
    telegram: Option<string>,
    message: Option<string>,
    honeypot: string)

  /** `value || null`: the empty string becomes null, anything else is kept as typed. */
  function OrNull(value: string): (r: Option<string>)
    ensures r == None <==> value == ""
    ensures r.Some? ==> r.value == value
  {
    if value == "" then None else Some(value)
  }

  /** The record the handler builds. */
  function BuildRecord(m: Method, e: Entries, hasHoneypot: bool): Record {
    Record(MethodValue(m), OrNull(e.email), OrNull(e.telegram), OrNull(e.message),
           if hasHoneypot then e.honeypot else "")
  }

  /**
   * How one submit event ends before the network: dropped as a bot, rejected
   * for its handle, sent with a record, or crashed (no radio checked, so
   * reading the checked radio's value throws after the button was disabled).
   */
  datatype SubmitResult = DroppedAsBot | RejectedHandle | Sent(record: Record) | Crashed

  predicate IsBot(hasHoneypot: bool, e: Entries) {
    hasHoneypot && e.honeypot != ""
  }

  /** The decision sequence of the submit handler. */
  function Decide(hasHoneypot: bool, e: Entries, checked: Option<Method>): (r: SubmitResult)
    ensures r == DroppedAsBot <==> IsBot(hasHoneypot, e)
    ensures r == RejectedHandle <==>
      !IsBot(hasHoneypot, e) && checked == Some(Telegram) && !TelegramHandle.IsValidHandle(e.telegram)
    ensures r == Crashed <==>
      !IsBot(hasHoneypot, e) && checked.None?
    ensures r.Sent? ==> checked.Some? && r.record == BuildRecord(checked.value, e, hasHoneypot)
    // what a request can carry
    ensures r.Sent? ==> r.record.honeypot == ""
    ensures r.Sent? && checked == Some(Telegram) ==>
      TelegramHandle.IsValidHandle(e.telegram) && r.record.telegram == Some(e.telegram)
  {
    if IsBot(hasHoneypot, e) then DroppedAsBot
    else if checked == Some(Telegram) && !TelegramHandle.IsValidHandle(e.telegram) then RejectedHandle
    else if checked.None? then Crashed
    else Sent(BuildRecord(checked.value, e, hasHoneypot))
  }

  /** In email mode the handle field is never checked: what was typed there cannot block a request. */
  lemma EmailModeIgnoresHandle(hasHoneypot: bool, e: Entries, handle: string)
    ensures Decide(hasHoneypot, e, Some(Email)).Sent? == Decide(hasHoneypot, e.(telegram := handle), Some(Email)).Sent?
    ensures Decide(hasHoneypot, e, Some(Email)) != RejectedHandle
  {
  }

  /** The handle is checked trimmed but sent as typed: whitespace around it reaches the request. */
  lemma HandleSentUntrimmed(hasHoneypot: bool, e: Entries, lead: string, trail: string)
    requires !IsBot(hasHoneypot, e)
    requires TelegramHandle.AllTrimSpace(lead) && TelegramHandle.AllTrimSpace(trail)
    requires TelegramHandle.IsValidHandle(e.telegram)
    ensures Decide(hasHoneypot, e.(telegram := lead + e.telegram + trail), Some(Telegram))
         == Sent(BuildRecord(Telegram, e.(telegram := lead + e.telegram + trail), hasHoneypot))
    ensures BuildRecord(Telegram, e.(telegram := lead + e.telegram + trail), hasHoneypot).telegram
         == Some(lead + e.telegram + trail)
  {
    TelegramHandle.ValidHandleIgnoresPadding(lead, e.telegram, trail);
  }

  /** The honeypot always wins: whatever else was typed, a filled decoy sends nothing. */
  lemma HoneypotDominates(e: Entries, checked: Option<Method>)
    requires e.honeypot != ""
    ensures Decide(true, e, checked) == DroppedAsBot
  {
  }

  /** The feedback each outcome leaves. */
  function OutcomeFeedback(o: Outcome): (f: Feedback)
    ensures f == SentFeedback <==> o == Ok
    ensures f == TimeoutFeedback <==> o == Abort
    ensures f == FailedFeedback <==> o == NotOk || o == NetworkError
    ensures f.cls == (if o == Ok then "success" else "error")
  {
    match o
    case Ok => SentFeedback
    case Abort => TimeoutFeedback
    case _ => FailedFeedback
  }

  // ---------------------------------------------------------------------------
  // The form on the page
  // ---------------------------------------------------------------------------

  class Form {
    /** Whether the page has the hidden `hp-field` input. */
    const hasHoneypot: bool
    /** The radio checked in the markup, which `reset()` restores. */
    const defaultMethod: Option<Method>
    /** The inputs' default values, which `reset()` restores. */
    const defaults: Entries
    /** The submit button's text in the markup. */
    const restingText: string

    var checked: Option<Method>
    var entries: Entries

    var emailRequired: bool
    var telegramRequired: bool
    var emailShown: bool
    var telegramShown: bool

    var feedback: Feedback

    /** The submit button's `disabled`, text, opacity and cursor. */
    var disabled: bool
    var buttonText: string
    var opacity: string
    var cursor: string

    /** The buttonText captured by the submission awaiting its response, if any. */
    var inFlight: Option<string>
    /** The buttonText the pending 2-second re-enable timer will restore, if any. */
    var resetPending: Option<string>

    /** Every request body posted so far. */
    var requests: seq<Record>

    function CurrentLayout(): Layout
      reads this
    {
      Layout(emailRequired, telegramRequired, emailShown, telegramShown)
    }

    ghost predicate Valid()
      reads this
    {
      (checked.Some? ==> CurrentLayout() == LayoutFor(checked.value))
      && (!disabled ==> buttonText == restingText && inFlight.None? && resetPending.None?)
      && (inFlight.Some? ==>
            disabled && buttonText == SendingText && inFlight.value == restingText && resetPending.None?)
      && (resetPending.Some? ==> disabled && buttonText == SentText && resetPending.value == restingText)
    }

    /** Page load: wire the form and run updateFormState once. */
    constructor (hasHoneypot: bool, defaultMethod: Option<Method>, defaults: Entries,
                 restingText: string, initialLayout: Layout)
      ensures Valid()
      ensures this.hasHoneypot == hasHoneypot && this.defaultMethod == defaultMethod
      ensures this.defaults == defaults && this.restingText == restingText
      ensures checked == defaultMethod && entries == defaults
      ensures CurrentLayout() == if defaultMethod.Some? then LayoutFor(defaultMethod.value) else initialLayout
      ensures feedback == NoFeedback && !disabled && buttonText == restingText
      ensures inFlight.None? && resetPending.None? && requests == []
    {
      this.hasHoneypot := hasHoneypot;
      this.defaultMethod := defaultMethod;
      this.defaults := defaults;
      this.restingText := restingText;
      checked := defaultMethod;
      entries := defaults;
      emailRequired := initialLayout.emailRequired;
      telegramRequired := initialLayout.telegramRequired;
      emailShown := initialLayout.emailShown;
      telegramShown := initialLayout.telegramShown;
      feedback := NoFeedback;
      disabled := false;
      buttonText := restingText;
      opacity := "";
      cursor := "";
      inFlight := None;
      resetPending := None;
      requests := [];
      new;
      UpdateFormState();
    }

    /** updateFormState: make the checked mode's input the required, shown one; do nothing when none is checked. */
    method UpdateFormState()
      modifies this
      ensures checked.Some? ==> CurrentLayout() == LayoutFor(checked.value)
      ensures checked.Some? ==> ExactlyOneActive(CurrentLayout())
      ensures checked.None? ==> CurrentLayout() == old(CurrentLayout())
      ensures checked == old(checked) && entries == old(entries) && feedback == old(feedback)
      ensures disabled == old(disabled) && buttonText == old(buttonText)
      ensures opacity == old(opacity) && cursor == old(cursor)
      ensures inFlight == old(inFlight) && resetPending == old(resetPending) && requests == old(requests)
    {
      if checked == Some(Email) {
        emailRequired := true;
        telegramRequired := false;
        emailShown := true;
        telegramShown := false;
      } else if checked == Some(Telegram) {
        emailRequired := false;
        telegramRequired := true;
        emailShown := false;
        telegramShown := true;
      }
    }

    /** The `change` listener of the radios: the user picks a mode. */
    method SelectMethod(m: Method)
      requires Valid()
      modifies this
      ensures Valid()
      ensures checked == Some(m) && CurrentLayout() == LayoutFor(m)
      ensures entries == old(entries) && feedback == old(feedback)
      ensures disabled == old(disabled) && buttonText == old(buttonText)
      ensures opacity == old(opacity) && cursor == old(cursor)
      ensures inFlight == old(inFlight) && resetPending == old(resetPending) && requests == old(requests)
    {
      checked := Some(m);
      UpdateFormState();
    }

    /** The user edits the inputs. */
    method Fill(e: Entries)
      requires Valid()
      modifies this`entries
      ensures Valid() && entries == e
    {
      entries := e;
    }

    /** The submit handler, up to the point where it awaits the response. */
    method Submit() returns (result: SubmitResult)
      requires Valid() && !disabled
      modifies this
      ensures Valid()
      ensures result == Decide(hasHoneypot, old(entries), old(checked))
      ensures checked == old(checked) && entries == old(entries) && CurrentLayout() == old(CurrentLayout())
      ensures resetPending.None?
      ensures result == DroppedAsBot ==> unchanged(this)
      ensures result == RejectedHandle ==>
        feedback == InvalidHandleFeedback && !disabled && buttonText == old(buttonText)
        && opacity == old(opacity) && cursor == old(cursor)
        && inFlight.None? && requests == old(requests)
      ensures result.Sent? ==>
        feedback == NoFeedback && disabled && buttonText == SendingText
        && opacity == "0.6" && cursor == "not-allowed"
        && inFlight == Some(old(buttonText)) && requests == old(requests) + [result.record]
      ensures result == Crashed ==>
        feedback == NoFeedback && disabled && buttonText == SendingText
        && opacity == "0.6" && cursor == "not-allowed"
        && inFlight.None? && requests == old(requests)
    {
      if hasHoneypot && entries.honeypot != "" {
        return DroppedAsBot;
      }
      if checked == Some(Telegram) {
        var value := TelegramHandle.Trim(entries.telegram);
        if value == [] || !TelegramHandle.MatchesHandlePattern(value) {
          feedback := InvalidHandleFeedback;
          return RejectedHandle;
        }
      }
      feedback := NoFeedback;
      var original := buttonText;
      disabled := true;
      buttonText := SendingText;
      opacity := "0.6";
      cursor := "not-allowed";
      if checked.None? {
        return Crashed;
      }
      var record := BuildRecord(checked.value, entries, hasHoneypot);
      feedback := NoFeedback;
      requests := requests + [record];
      inFlight := Some(original);
      result := Sent(record);
    }

    /** The browser dispatches submit only while the button is enabled. */
    method ClickSubmit() returns (result: Option<SubmitResult>)
      requires Valid()
      modifies this
      ensures Valid()
      ensures old(disabled) ==> result.None? && unchanged(this)
      ensures !old(disabled) ==> result == Some(Decide(hasHoneypot, old(entries), old(checked)))
      ensures |requests| <= |old(requests)| + 1
    {
      if disabled {
        return None;
      }
      var r := Submit();
      result := Some(r);
    }

    /** The handler resumes with the request's outcome. */
    method Respond(outcome: Outcome)
      requires Valid() && inFlight.Some?
      modifies this
      ensures Valid()
      ensures feedback == OutcomeFeedback(outcome)
      ensures inFlight.None? && requests == old(requests) && opacity == "1"
      ensures outcome == Ok ==>
        disabled && buttonText == SentText && cursor == old(cursor)
        && resetPending == old(inFlight)
        && entries == defaults && checked == defaultMethod
        && (checked.None? ==> CurrentLayout() == old(CurrentLayout()))
      ensures outcome != Ok ==>
        !disabled && buttonText == old(inFlight).value && cursor == "pointer"
        && resetPending.None?
        && entries == old(entries) && checked == old(checked) && CurrentLayout() == old(CurrentLayout())
    {
      var original := inFlight.value;
      inFlight := None;
      if outcome == Ok {
        buttonText := SentText;
        opacity := "1";
        feedback := SentFeedback;
        entries := defaults;
        checked := defaultMethod;
        UpdateFormState();
        resetPending := Some(original);
      } else {
        feedback := if outcome == Abort then TimeoutFeedback else FailedFeedback;
        disabled := false;
        buttonText := original;
        opacity := "1";
        cursor := "pointer";
      }
    }

    /** The 2-second timer after a success re-enables the button with its original buttonText. */
    method ResetTimerFired()
      requires Valid() && resetPending.Some?
      modifies this
      ensures Valid()
      ensures !disabled && buttonText == old(resetPending).value && buttonText == restingText && cursor == "pointer"
      ensures resetPending.None? && inFlight == old(inFlight)
      ensures feedback == old(feedback) && opacity == old(opacity) && requests == old(requests)
      ensures entries == old(entries) && checked == old(checked) && CurrentLayout() == old(CurrentLayout())
    {
      disabled := false;
      buttonText := resetPending.value;
      cursor := "pointer";
      resetPending := None;
    }
  }
}

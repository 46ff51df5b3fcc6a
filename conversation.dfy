/** The donate conversation: `start` prompts for an amount, `getAmount` reads
    it and either asks again or issues a Telegram Stars invoice. The bot
    platform's sends and the usage counter are recorded as effects; which
    method runs for the next update is the step the conversation asked for. */
module Conversation {
  import opened Wrappers
  import opened Php

  /** The step the dispatcher runs for the user's next update. */
  datatype Step = AtStart | AtGetAmount | Ended

  datatype ParseMode = Html

  datatype LabeledPrice = LabeledPrice(text: string, amount: int)

  /** A `sendInvoice` request; title and description are translation keys. */
  datatype Invoice = Invoice(
    titleKey: string,
    descriptionKey: string,
    payload: string,
    providerToken: string,
    currency: string,
    prices: seq<LabeledPrice>)

  /** A platform call or usage counter; `disableWebPagePreview` is false when
      the call leaves the option out. */
  datatype Effect =
    | SendMessage(messageKey: string, parseMode: ParseMode, disableWebPagePreview: bool)
    | SendInvoice(invoice: Invoice)
    | Stats(event: string, value: Option<int>)

  /** What one handler does: the step it asks for next and the effects, in order. */
  datatype Outcome = Outcome(next: Step, effects: seq<Effect>)

  /** Telegram Stars: invoices in it carry an empty provider token. */
  const StarsCurrency: string := "XTR"

  function MessageOf(e: Effect): seq<string>
  {
    if e.SendMessage? then [e.messageKey] else []
  }

  function InvoiceOf(e: Effect): seq<Invoice>
  {
    if e.SendInvoice? then [e.invoice] else []
  }

  /** The message keys sent, in order. */
  function Messages(effects: seq<Effect>): seq<string>
  {
    if effects == [] then [] else MessageOf(effects[0]) + Messages(effects[1..])
  }

  /** The invoices sent, in order. */
  function Invoices(effects: seq<Effect>): seq<Invoice>
  {
    if effects == [] then [] else InvoiceOf(effects[0]) + Invoices(effects[1..])
  }

  lemma MessagesAndInvoicesOfTwo(a: Effect, b: Effect)
    ensures Messages([a, b]) == MessageOf(a) + MessageOf(b)
    ensures Invoices([a, b]) == InvoiceOf(a) + InvoiceOf(b)
  {
    assert [a, b][1..] == [b] && [b][1..] == [];
    assert Messages([b]) == MessageOf(b) + [] == MessageOf(b);
    assert Invoices([b]) == InvoiceOf(b) + [] == InvoiceOf(b);
  }

  function StartOutcome(): Outcome
  {
    Outcome(AtGetAmount, [SendMessage("donate.main", Html, true), Stats("command.donate", None)])
  }

  /** The invoice for a donation of `amount` stars. */
  function DonationInvoice(amount: int): Invoice
  {
    Invoice("donate.donation", "donate.support_by_donating", "donation", "", StarsCurrency,
            [LabeledPrice(IntToString(amount) + " XTR", amount)])
  }

  /** `getAmount` on the text of the user's message, null when it has none. */
  function AmountOutcome(text: Option<string>): Outcome
  {
    var amount := CastToInt(text);
    if amount < 1 then
      Outcome(AtGetAmount, [SendMessage("donate.invalid", Html, false)])
    else
      Outcome(Ended, [SendInvoice(DonationInvoice(amount)), Stats("donate.invoice", Some(amount))])
  }

  /** One conversation with one user; `sent` is everything it asked the
      platform to do, oldest first. */
  class DonateConversation {
    var step: Step
    var sent: seq<Effect>

    constructor ()
      ensures step == AtStart && sent == []
    {
      step := AtStart;
      sent := [];
    }

    method Start()
      modifies this
      ensures step == StartOutcome().next
      ensures sent == old(sent) + StartOutcome().effects
    {
      sent := sent + [SendMessage("donate.main", Html, true)];
      step := AtGetAmount;
      sent := sent + [Stats("command.donate", None)];
    }

    method GetAmount(text: Option<string>)
      modifies this
      ensures step == AmountOutcome(text).next
      ensures sent == old(sent) + AmountOutcome(text).effects
    {
      var amount := CastToInt(text);
      if amount < 1 {
        sent := sent + [SendMessage("donate.invalid", Html, false)];
        step := AtGetAmount;
        return;
      }
      sent := sent + [SendInvoice(DonationInvoice(amount))];
      step := Ended;
      sent := sent + [Stats("donate.invoice", Some(amount))];
    }
  }

  // Properties of the two handlers

  /** `start` sends exactly one message, the `donate.main` prompt, no invoice,
      and moves on to `getAmount`. */
  lemma StartPrompts()
    ensures StartOutcome().next == AtGetAmount
    ensures Messages(StartOutcome().effects) == ["donate.main"]
    ensures Invoices(StartOutcome().effects) == []
  {
    MessagesAndInvoicesOfTwo(SendMessage("donate.main", Html, true), Stats("command.donate", None));
  }

  /** An amount below 1 (no text, no digits, zero, negative) sends exactly one
      `donate.invalid` message and no invoice, and waits in `getAmount` again. */
  lemma InvalidAmountRetries(text: Option<string>)
    requires CastToInt(text) < 1
    ensures AmountOutcome(text).next == AtGetAmount
    ensures Messages(AmountOutcome(text).effects) == ["donate.invalid"]
    ensures Invoices(AmountOutcome(text).effects) == []
  {
    var e := SendMessage("donate.invalid", Html, false);
    assert [e][1..] == [];
  }

  /** An amount n >= 1 sends exactly one invoice and no message, and ends the
      conversation. The invoice is in Telegram Stars with an empty provider
      token, payload "donation", and one price of n labelled "n XTR", a label
      whose leading number is n again. */
  lemma ValidAmountInvoices(text: Option<string>)
    requires CastToInt(text) >= 1
    ensures AmountOutcome(text).next == Ended
    ensures Messages(AmountOutcome(text).effects) == []
    ensures |Invoices(AmountOutcome(text).effects)| == 1
    ensures var invoice := Invoices(AmountOutcome(text).effects)[0];
            && invoice.payload == "donation"
            && invoice.providerToken == ""
            && invoice.currency == "XTR"
            && |invoice.prices| == 1
            && invoice.prices[0].amount == CastToInt(text)
            && invoice.prices[0].text == IntToString(CastToInt(text)) + " XTR"
            && StringToInt(invoice.prices[0].text) == CastToInt(text)
  {
    var n := CastToInt(text);
    MessagesAndInvoicesOfTwo(SendInvoice(DonationInvoice(n)), Stats("donate.invoice", Some(n)));
    StringToIntOfIntToString(n, " XTR");
  }

  /** A message that is the decimal string of n >= 1 donates exactly n stars. */
  lemma TypedAmountIsInvoiced(n: int)
    requires n >= 1
    ensures AmountOutcome(Some(IntToString(n))).next == Ended
    ensures Invoices(AmountOutcome(Some(IntToString(n))).effects) == [DonationInvoice(n)]
  {
    StringToIntOfIntToString(n, "");
    assert IntToString(n) + "" == IntToString(n);
    MessagesAndInvoicesOfTwo(SendInvoice(DonationInvoice(n)), Stats("donate.invoice", Some(n)));
  }

  /** Replies that `getAmount` rejects: an absent text, an empty text, a word,
      "0", "-5" and "- 5" all read as an amount below 1. */
  lemma RejectedReplies()
    ensures CastToInt(None) == 0
    ensures CastToInt(Some("")) == 0
    ensures CastToInt(Some("abc")) == 0
    ensures CastToInt(Some("0")) == 0
    ensures CastToInt(Some("-5")) == -5
    ensures CastToInt(Some("- 5")) == 0
  {
    assert "abc"[0] == 'a';
    assert DigitPrefix("0") == "0";
    assert "-5"[1..] == "5" && DigitPrefix("5") == "5";
  }

  /** Replies that `getAmount` accepts: "25" reads as 25 and " 12 stars" as 12. */
  lemma AcceptedReplies()
    ensures CastToInt(Some("25")) == 25
    ensures CastToInt(Some(" 12 stars")) == 12
  {
    StringToIntOfIntToString(25, "");
    StringToIntOfIntToString(12, " stars");
    assert IntToString(25) == "25" && IntToString(12) == "12";
    assert "25" + "" == "25" && "12" + " stars" == "12 stars";
    assert SkipSpace(" 12 stars") == SkipSpace("12 stars");
  }
}

/**
 The page-level state of the landing page: the quote-request dialog (whether
 it is open and which product it concerns) and the transient status line of
 the newsletter form. The network request itself is outside the model; only
 its outcome is an input.
 */
module App {

  datatype Option<T> = None | Some(value: T)

  // ---------------------------------------------------------------------
  // Quote dialog

  /** Title used when the dialog is opened without a product title. */
  const GeneralInquiry: string := "General Inquiry"

  /** The product title the dialog shows for a requested title: the title
      itself when it is present and non-empty, the general-inquiry fallback
      when it is missing or empty (the JavaScript `title || fallback`). */
  function ChosenTitle(title: Option<string>): (r: string)
    ensures r != ""
    ensures title.Some? && title.value != "" ==> r == title.value
    ensures title.None? || title.value == "" ==> r == GeneralInquiry
  {
    match title
    case Some(t) => if t != "" then t else GeneralInquiry
    case None => GeneralInquiry
  }

  // ---------------------------------------------------------------------
  // Newsletter status

  /** How the single newsletter POST ended: a response with its HTTP status
      code, or a failure before any response arrived. */
  datatype Outcome = Responded(status: int) | NetworkFailure

  /** The Fetch standard's `ok` flag of a response: a status in 200..299. */
  predicate IsOk(status: int) {
    200 <= status <= 299
  }

  const SubscribedMsg: string := "\U{2705} Subscribed \U{2014} thank you!"
  const FailedMsg: string := "\U{274C} Subscription failed. Try again later."
  const NetworkErrorMsg: string := "\U{274C} Network error."

  /** The status line set when the POST settles: success for an ok response,
      failure for any other response, network error when none arrived. Each
      kind of outcome has its own message, and none of them is blank. */
  function Message(o: Outcome): (m: string)
    ensures m != ""
    ensures m == SubscribedMsg <==> o.Responded? && IsOk(o.status)
    ensures m == FailedMsg <==> o.Responded? && !IsOk(o.status)
    ensures m == NetworkErrorMsg <==> o.NetworkFailure?
  {
    match o
    case Responded(status) => if IsOk(status) then SubscribedMsg else FailedMsg
    case NetworkFailure => NetworkErrorMsg
  }

  /** Outcomes of different kinds never share a message. */
  lemma MessagesDistinct(a: Outcome, b: Outcome)
    ensures Message(a) == Message(b) <==>
      (a.NetworkFailure? && b.NetworkFailure?) ||
      (a.Responded? && b.Responded? && IsOk(a.status) == IsOk(b.status))
  {
  }

  // ---------------------------------------------------------------------
  // The page state as a pure event machine

  /** The three state fields of the page component. */
  datatype PageState = PageState(quoteOpen: bool, quoteProduct: string, newsletterMsg: string)


  /** The user and timer events that change the page state. */
  datatype Event =
    | OpenQuote(title: Option<string>)
    | CloseQuote
    | NewsletterSettled(outcome: Outcome)
    | NewsletterCleared

  /** One event: dialog events set the dialog fields (open with a non-empty
      title, or closed with none) and leave the newsletter line alone; newsletter
      events set the line (an outcome's message, or blank) and leave the dialog
      alone. */
  function Apply(s: PageState, e: Event): (r: PageState)
    ensures e.OpenQuote? ==> r.quoteOpen && r.quoteProduct == ChosenTitle(e.title) != ""
    ensures e.CloseQuote? ==> !r.quoteOpen && r.quoteProduct == ""
    ensures (e.OpenQuote? || e.CloseQuote?) ==> r.newsletterMsg == s.newsletterMsg
    ensures e.NewsletterSettled? ==> r.newsletterMsg == Message(e.outcome) != ""
    ensures e.NewsletterCleared? ==> r.newsletterMsg == ""
    ensures (e.NewsletterSettled? || e.NewsletterCleared?) ==>
      r.quoteOpen == s.quoteOpen && r.quoteProduct == s.quoteProduct
  {
    match e
    case OpenQuote(t) => s.(quoteOpen := true, quoteProduct := ChosenTitle(t))
    case CloseQuote => s.(quoteOpen := false, quoteProduct := "")
    case NewsletterSettled(o) => s.(newsletterMsg := Message(o))
    case NewsletterCleared => s.(newsletterMsg := "")
  }

  /** The state after a sequence of events, applied in order. */
  function Replay(s: PageState, es: seq<Event>): PageState
    decreases |es|
  {
    if es == [] then s else Replay(Apply(s, es[0]), es[1..])
  }

  /** What every reachable page state satisfies: the dialog is open exactly
      when it names a product, and the status line is blank or one of the
      three outcome messages. */
  ghost predicate Inv(s: PageState) {
    && (s.quoteOpen <==> s.quoteProduct != "")
    && (s.newsletterMsg == "" || exists o :: s.newsletterMsg == Message(o))
  }

  /** The state on page load: dialog closed, no product, no status line;
      it satisfies the invariant. */
  function Initial(): (s: PageState)
    ensures !s.quoteOpen && s.quoteProduct == "" && s.newsletterMsg == ""
    ensures Inv(s)
  {
    PageState(false, "", "")
  }

  /** Every event keeps the invariant. */
  lemma ApplyKeepsInv(s: PageState, e: Event)
    requires Inv(s)
    ensures Inv(Apply(s, e))
  {
  }

  /** Any sequence of events keeps the invariant; in particular, from page
      load on, the product title is non-empty whenever the dialog is open. */
  lemma {:induction false} ReplayKeepsInv(s: PageState, es: seq<Event>)
    requires Inv(s)
    ensures Inv(Replay(s, es))
    ensures Replay(s, es).quoteOpen ==> Replay(s, es).quoteProduct != ""
    decreases |es|
  {
    if es != [] {
      ApplyKeepsInv(s, es[0]);
      ReplayKeepsInv(Apply(s, es[0]), es[1..]);
    }
  }

  /** Closing resets the dialog from any state, and closing twice is closing once. */
  lemma CloseIdempotent(s: PageState)
    ensures Apply(s, CloseQuote).quoteOpen == false && Apply(s, CloseQuote).quoteProduct == ""
    ensures Apply(Apply(s, CloseQuote), CloseQuote) == Apply(s, CloseQuote)
  {
  }

  /** A settled submission followed by its clearing timer leaves a blank
      status line, whatever the outcome. */
  lemma SettleThenClear(s: PageState, o: Outcome)
    ensures Replay(s, [NewsletterSettled(o), NewsletterCleared]) == s.(newsletterMsg := "")
  {
    assert Replay(s, [NewsletterSettled(o), NewsletterCleared])
        == Replay(Apply(s, NewsletterSettled(o)), [NewsletterCleared]);
  }

  // ---------------------------------------------------------------------
  // The page component

  /** The page component's state fields, updated in place by its handlers. */
  class Page {
    var quoteOpen: bool
    var quoteProduct: string
    var newsletterMsg: string

    function State(): PageState
      reads this
    {
      PageState(quoteOpen, quoteProduct, newsletterMsg)
    }

    ghost predicate Valid()
      reads this
    {
      Inv(State())
    }

    /** Page load: the dialog is closed with no product and no status line. */
    constructor ()
      ensures Valid() && State() == Initial()
    {
      quoteOpen := false;
      quoteProduct := "";
      newsletterMsg := "";
    }

    /** `openQuote`: show the dialog for the given title, or for the
        general-inquiry fallback. */
    method OpenQuote(title: Option<string>)
      requires Valid()
      modifies this`quoteOpen, this`quoteProduct
      ensures Valid() && State() == Apply(old(State()), Event.OpenQuote(title))
      ensures quoteOpen && quoteProduct == ChosenTitle(title) && quoteProduct != ""
    {
      quoteProduct := ChosenTitle(title);
      quoteOpen := true;
    }

    /** `closeQuote`: hide the dialog and forget the product. */
    method CloseQuote()
      requires Valid()
      modifies this`quoteOpen, this`quoteProduct
      ensures Valid() && State() == Apply(old(State()), Event.CloseQuote)
      ensures !quoteOpen && quoteProduct == ""
    {
      quoteOpen := false;
      quoteProduct := "";
    }

    /** The newsletter POST settled with outcome `o`: show its message. */
    method Resolve(o: Outcome)
      requires Valid()
      modifies this`newsletterMsg
      ensures Valid() && State() == Apply(old(State()), NewsletterSettled(o))
      ensures newsletterMsg == Message(o)
    {
      newsletterMsg := Message(o);
    }

    /** The 4000 ms timer fired: blank the status line. */
    method Clear()
      requires Valid()
      modifies this`newsletterMsg
      ensures Valid() && State() == Apply(old(State()), NewsletterCleared)
      ensures newsletterMsg == ""
    {
      newsletterMsg := "";
    }
  }
}

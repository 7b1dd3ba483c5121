/** The program: fetch the page for the date, parse its slots, and either
    stop quietly or send exactly one notification. Fetching the page and the
    mail relay are parameters; nothing here performs I/O. */
module Kilm {
  import opened Wrappers
  import opened Dom
  import opened Selector
  import opened Parse
  import opened Url
  import opened Notice

  const MailSubject := "Kilmainham Slots"

  /** The exceptions that escape the program. */
  datatype Fault =
    | Unparsable(error: ParseError)
    | SendFailed(reason: string)

  /** Fetch the page for `date` and return its slots; `None` when the page
      could not be fetched or holds no slot. `fetch` stands for the HTTP GET,
      with `None` for any transport error or unsuccessful status. */
  function GetAvailableSlots(date: string, fetch: string -> Option<Document>): (r: Result<Option<seq<Slot>>, ParseError>)
    ensures fetch(FetchUrl(date)).None? ==> r == Ok(None)
    ensures r.Ok? && r.value.Some? ==> |r.value.value| > 0
    ensures fetch(FetchUrl(date)).Some? ==>
      var parsed := ParseTimeSlots(fetch(FetchUrl(date)).value);
      && (r.Err? <==> parsed.Err?)
      && (r == Ok(None) <==> parsed == Ok([]))
      && (parsed.Ok? && parsed.value != [] ==> r == Ok(Some(parsed.value)))
  {
    match fetch(FetchUrl(date))
    case None => Ok(None)
    case Some(doc) =>
      match ParseTimeSlots(doc)
      case Err(e) => Err(e)
      case Ok(slots) => if |slots| == 0 then Ok(None) else Ok(Some(slots))
  }

  /** The sender credentials read from the environment, each absent when the
      variable is unset. */
  datatype Credentials = Credentials(email: Option<string>, password: Option<string>)

  /** What is handed to the mail relay. */
  datatype Mail = Mail(sender: Option<string>, password: Option<string>, recipient: string, subject: string, body: string)

  /** The relay's answer: the mail was handed off, or the session failed. */
  datatype Delivery = Delivered | Refused(reason: string)

  /** How the process ends: `sys.exit(status)`, or an exception nobody catches. */
  datatype Termination = Exited(status: int) | Raised(fault: Fault)

  /** The mails a run hands to the relay, in order, and how it ends. */
  datatype Run = Run(sent: seq<Mail>, end: Termination)

  /** The process exit status; an uncaught exception ends the interpreter with 1. */
  function ExitStatus(t: Termination): int
  {
    match t
    case Exited(status) => status
    case Raised(_) => 1
  }

  /** The whole program for `date` and `receiver`: stop with status 0 when the
      fetch fails or no slot is free, otherwise send one mail and end with
      status 0 only if the relay accepted it. */
  function Main(date: string, receiver: string, fetch: string -> Option<Document>,
                credentials: Credentials, relay: Mail -> Delivery): (r: Run)
    ensures |r.sent| <= 1
    ensures r.sent != [] <==> GetAvailableSlots(date, fetch).Ok? && GetAvailableSlots(date, fetch).value.Some?
    ensures r.sent != [] ==>
      var slots := GetAvailableSlots(date, fetch).value.value;
      r.sent[0] == Mail(credentials.email, credentials.password, receiver, "Kilmainham Slots", Message(date, slots))
    ensures ExitStatus(r.end) == 0 <==>
      GetAvailableSlots(date, fetch) == Ok(None) || (r.sent != [] && relay(r.sent[0]) == Delivered)
    ensures r.end.Exited? ==> r.end.status == 0
  {
    match GetAvailableSlots(date, fetch)
    case Err(e) => Run([], Raised(Unparsable(e)))
    case Ok(None) => Run([], Exited(0))
    case Ok(Some(slots)) =>
      var mail := Mail(credentials.email, credentials.password, receiver, MailSubject, Message(date, slots));
      match relay(mail)
      case Delivered => Run([mail], Exited(0))
      case Refused(reason) => Run([mail], Raised(SendFailed(reason)))
  }

  /** A failed fetch ends the run with status 0 and no mail. */
  lemma FetchFailureIsNeutral(date: string, receiver: string, fetch: string -> Option<Document>,
                              credentials: Credentials, relay: Mail -> Delivery)
    requires fetch(UrlPrefix + date + UrlSuffix).None?
    ensures Main(date, receiver, fetch, credentials, relay) == Run([], Exited(0))
  {
  }

  /** A page on which the selector matches nothing ends the run with status 0
      and no mail. */
  lemma NoSlotsIsNeutral(date: string, receiver: string, fetch: string -> Option<Document>,
                         credentials: Credentials, relay: Mail -> Delivery)
    requires fetch(UrlPrefix + date + UrlSuffix).Some?
    requires Selected(fetch(UrlPrefix + date + UrlSuffix).value) == []
    ensures Main(date, receiver, fetch, credentials, relay) == Run([], Exited(0))
  {
    SelectDocument(fetch(UrlPrefix + date + UrlSuffix).value);
  }

  /** When the page has matched anchors, all with an `href`, exactly one mail
      goes out, carrying the slots parsed from the page to the receiver under
      the fixed subject; the run ends with status 0 if the relay accepts it and
      with the relay's failure otherwise. */
  lemma SlotsAreMailedOnce(date: string, receiver: string, fetch: string -> Option<Document>,
                           credentials: Credentials, relay: Mail -> Delivery)
    requires fetch(UrlPrefix + date + UrlSuffix).Some?
    requires Selected(fetch(UrlPrefix + date + UrlSuffix).value) != []
    requires forall k :: 0 <= k < |Selected(fetch(UrlPrefix + date + UrlSuffix).value)| ==>
      Selected(fetch(UrlPrefix + date + UrlSuffix).value)[k].href.Some?
    ensures var doc := fetch(UrlPrefix + date + UrlSuffix).value;
      var run := Main(date, receiver, fetch, credentials, relay);
      && ParseTimeSlots(doc).Ok?
      && |ParseTimeSlots(doc).value| == |Selected(doc)|
      && run.sent == [Mail(credentials.email, credentials.password, receiver, "Kilmainham Slots",
                           Message(date, ParseTimeSlots(doc).value))]
      && (relay(run.sent[0]) == Delivered ==> run.end == Exited(0))
      && (relay(run.sent[0]).Refused? ==> run.end == Raised(SendFailed(relay(run.sent[0]).reason)))
  {
    SelectDocument(fetch(UrlPrefix + date + UrlSuffix).value);
  }

  /** Only a missing `href` or a refused mail makes the run fail. */
  lemma FailureCauses(date: string, receiver: string, fetch: string -> Option<Document>,
                      credentials: Credentials, relay: Mail -> Delivery)
    ensures var run := Main(date, receiver, fetch, credentials, relay);
      ExitStatus(run.end) != 0 <==>
        || (fetch(UrlPrefix + date + UrlSuffix).Some? && ParseTimeSlots(fetch(UrlPrefix + date + UrlSuffix).value).Err?)
        || (run.sent != [] && relay(run.sent[0]).Refused?)
  {
  }
}

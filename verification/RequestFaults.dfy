/** What becomes of an exception raised inside one HTTP request to the Judge.
    The handlers are tried in the order they are written in. */
module RequestFaults {
  /** Exceptions, as far as some handler tells them apart. */
  datatype Fault =
    | BadUrl            // an invalid URL, a kind of HTTP exception
    | BadText           // bytes that are not valid UTF-8, a kind of value error
    | BadJson           // malformed JSON, a kind of value error
    | BadValue          // any other value error: an over-long integer, a malformed redirect
    | BadType
    | TooLarge          // an arithmetic overflow
    | BrokenTransport   // connections, timeouts and other system errors
    | BrokenProtocol    // any other HTTP exception
    | Unforeseen        // anything else: exhausted recursion or memory

  predicate IsValueError(f: Fault) {
    f == BadText || f == BadJson || f == BadValue
  }

  predicate IsHttpException(f: Fault) {
    f == BadUrl || f == BrokenProtocol
  }

  /** Where in the request it is raised: while sending and reading, while reading
      the body of an HTTP error, or while parsing a successful answer. */
  datatype Site = Transport | ErrorBody | Parsing

  /** Parsing works on text in memory: no system error and no decoding there. */
  predicate CanArise(site: Site, f: Fault) {
    site == Parsing ==> f != BrokenTransport && f != BadText
  }

  datatype Handler = BadConfiguration | NotUtf8 | BrokenConnection | NoHandler

  /** The first handler of the transport block that catches the exception. */
  function TransportHandler(f: Fault): Handler {
    if f == BadUrl || IsValueError(f) || f == BadType || f == TooLarge then BadConfiguration
    else if f == BadText then NotUtf8
    else if f == BrokenTransport || IsHttpException(f) then BrokenConnection
    else NoHandler
  }

  /** The request raises its own error having counted the submission, raises it
      having counted nothing, goes on, or lets the exception through. */
  datatype Fate = Counted | Refused | Ignored | Uncaught

  function FateOf(site: Site, f: Fault, submission: bool): Fate {
    var unknown := if submission then Counted else Refused;
    match site
    case Transport =>
      (match TransportHandler(f)
       case BadConfiguration => Refused
       case NotUtf8 => unknown
       case BrokenConnection => unknown
       case NoHandler => Uncaught)
    case ErrorBody => if f == BrokenTransport || f == BadText || f == BadJson then Ignored else Uncaught
    case Parsing => if f == BadJson then unknown else Uncaught
  }

  /** What an evaluation catches besides the request's own errors. */
  predicate EvaluationCatches(f: Fault) {
    f == BrokenTransport || f == BadText
  }

  /** The handler meant for answers that are not UTF-8 never runs: the one before
      it takes every value error, and decoding errors are value errors. */
  lemma NotUtf8HandlerIsDead(f: Fault)
    ensures TransportHandler(f) != NotUtf8
    ensures TransportHandler(BadText) == BadConfiguration
  {
  }

  /** Whatever a request lets through leaves the evaluation too. */
  lemma UncaughtLeavesEvaluation(site: Site, f: Fault, submission: bool)
    requires CanArise(site, f) && FateOf(site, f, submission) == Uncaught
    ensures !EvaluationCatches(f)
  {
  }

  /** A submission that raises is counted for three kinds of exception only. */
  lemma CountedExactly(site: Site, f: Fault)
    ensures FateOf(site, f, true) == Counted <==>
              || (site == Transport && (f == BrokenTransport || f == BrokenProtocol))
              || (site == Parsing && f == BadJson)
  {
  }
}

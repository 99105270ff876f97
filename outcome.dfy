/**
 * Interpretation of the watchlist service's answer, and the one-line messages
 * the app shows. HTTP and JSON are abstracted: a call either fails with an
 * exception, or yields a status code and a body that either is a JSON object
 * (of which only the four optional counters matter) or is not: text that is not
 * JSON at all, or a JSON array or bare value, which `JSONObject(String)` rejects.
 */
module Outcome {
  import opened Wrappers

  /** Which of the two parallel lists a pair of counters reports. */
  datatype Kind = MovieAndShow | Movie | Show

  /** Every message the app can show. */
  datatype Message =
    | Added(kind: Kind)           // newly added to the watchlist
    | AlreadyPresent(kind: Kind)  // nothing added, but already on the watchlist
    | AlreadyInMdbList            // nothing added, nothing reported as existing
    | CheckYourApi                // any failure of the submission
    | InvalidImdbUrl              // the shared text holds no identifier
    | ApiKeySaved                 // the settings screen stored a key

  /** The exact text of each message. */
  function Text(m: Message): string {
    match m
    case Added(MovieAndShow) => "\U{2705} Added Movie & Show to Watchlist"
    case Added(Movie) => "\U{2705} Added Movie to Watchlist"
    case Added(Show) => "\U{2705} Added Show to Watchlist"
    case AlreadyPresent(MovieAndShow) => "\U{2139}\U{FE0F} Movie & Show were already in your Watchlist"
    case AlreadyPresent(Movie) => "\U{2139}\U{FE0F} Movie was already in your Watchlist"
    case AlreadyPresent(Show) => "\U{2139}\U{FE0F} Show was already in your Watchlist"
    case AlreadyInMdbList => "\U{2139}\U{FE0F} Already in MDBList"
    case CheckYourApi => "\U{274C} Check your API"
    case InvalidImdbUrl => "\U{274C} Invalid IMDb URL"
    case ApiKeySaved => "\U{2705} API Key Saved!"
  }

  /** The length of each text; only two texts share one. */
  function TextLength(m: Message): nat {
    match m
    case Added(MovieAndShow) => 33
    case Added(Movie) => 26
    case Added(Show) => 25
    case AlreadyPresent(MovieAndShow) => 46
    case AlreadyPresent(Movie) => 38
    case AlreadyPresent(Show) => 37
    case AlreadyInMdbList => 21
    case CheckYourApi => 16
    case InvalidImdbUrl => 18
    case ApiKeySaved => 16
  }

  lemma TextHasLength(m: Message)
    ensures |Text(m)| == TextLength(m)
  {
  }

  /** The user can tell every outcome apart: no two messages share a text. */
  lemma TextIsInjective(m1: Message, m2: Message)
    requires m1 != m2
    ensures Text(m1) != Text(m2)
  {
    TextHasLength(m1);
    TextHasLength(m2);
    if TextLength(m1) == TextLength(m2) {
      assert {m1, m2} == {CheckYourApi, ApiKeySaved};
      assert Text(CheckYourApi)[0] != Text(ApiKeySaved)[0];
    }
  }

  /** The success body's counters `added.movies`, `added.shows`, `existing.movies`, `existing.shows`. */
  datatype Counters = Counters(
    addedMovies: Option<int>,
    addedShows: Option<int>,
    existingMovies: Option<int>,
    existingShows: Option<int>)

  datatype Body = Json(counters: Counters) | NotJsonObject

  /**
   * What the background call produced: an exception (connecting, writing,
   * reading the status, or reading the body of an error status), or a status
   * code with the body that was read.
   */
  datatype Response = Failed | Http(status: int, body: Body)

  /** An absent counter reads as 0 (`optInt(name, 0)`, and `?: 0` for an absent object). */
  function CounterValue(c: Option<int>): int {
    c.GetOr(0)
  }

  /** The three-way priority ladder shared by the `added` and the `existing` counters. */
  function Classify(movies: int, shows: int): (k: Option<Kind>)
    ensures k == Some(MovieAndShow) <==> movies > 0 && shows > 0
    ensures k == Some(Movie) <==> movies > 0 && shows <= 0
    ensures k == Some(Show) <==> movies <= 0 && shows > 0
    ensures k == None <==> movies <= 0 && shows <= 0
  {
    if movies > 0 && shows > 0 then Some(MovieAndShow)
    else if movies > 0 then Some(Movie)
    else if shows > 0 then Some(Show)
    else None
  }

  function AddedKind(c: Counters): Option<Kind> {
    Classify(CounterValue(c.addedMovies), CounterValue(c.addedShows))
  }

  function ExistingKind(c: Counters): Option<Kind> {
    Classify(CounterValue(c.existingMovies), CounterValue(c.existingShows))
  }

  /** The message for a 200 response whose body is a JSON object. */
  function ReportSuccess(c: Counters): (m: Message)
    ensures m.Added? || m.AlreadyPresent? || m == AlreadyInMdbList
    ensures m.Added? <==> AddedKind(c).Some?
    ensures m.Added? ==> AddedKind(c) == Some(m.kind)
    ensures m.AlreadyPresent? <==> AddedKind(c).None? && ExistingKind(c).Some?
    ensures m.AlreadyPresent? ==> ExistingKind(c) == Some(m.kind)
    ensures m == AlreadyInMdbList <==>
      && CounterValue(c.addedMovies) <= 0 && CounterValue(c.addedShows) <= 0
      && CounterValue(c.existingMovies) <= 0 && CounterValue(c.existingShows) <= 0
  {
    match AddedKind(c)
    case Some(k) => Added(k)
    case None =>
      match ExistingKind(c)
      case Some(k) => AlreadyPresent(k)
      case None => AlreadyInMdbList
  }

  /** The status and body that lead to the counter ladder. */
  predicate IsSuccess(r: Response) {
    r.Http? && r.status == 200 && r.body.Json?
  }

  /**
   * The message shown once the call has completed, with a body that is not
   * a JSON object treated like every other failure (see ReportAsWritten for what the
   * app does there).
   */
  function Report(r: Response): (m: Message)
    ensures m == CheckYourApi <==> !IsSuccess(r)
    ensures IsSuccess(r) ==> m == ReportSuccess(r.body.counters)
  {
    if IsSuccess(r) then ReportSuccess(r.body.counters) else CheckYourApi
  }

  /** How a completed call ends: a message and `finish()`, or an uncaught exception. */
  datatype Ending = Shown(message: Message) | Crash

  /**
   * The app as written: the body of a 200 response is parsed by `JSONObject`
   * inside the `launch(Dispatchers.Main)` block, which runs outside the
   * try/catch that wraps the background call, so a body that is not a JSON object
   * throws an exception nothing catches.
   */
  function ReportAsWritten(r: Response): (e: Ending)
    ensures e == Crash <==> r == Http(200, NotJsonObject)
    ensures e.Shown? ==> e.message == Report(r)
  {
    match r
    case Failed => Shown(CheckYourApi)
    case Http(status, body) =>
      if status != 200 then Shown(CheckYourApi)
      else match body
        case NotJsonObject => Crash
        case Json(c) => Shown(ReportSuccess(c))
  }

  /** The input that shows the difference: the app crashes where a failure message was meant. */
  lemma NotJsonSuccessCrashes()
    ensures ReportAsWritten(Http(200, NotJsonObject)) == Crash
    ensures Report(Http(200, NotJsonObject)) == CheckYourApi
  {
  }

  /** Absent counters behave exactly like counters that are 0. */
  lemma AbsentCountersReadAsZero(c: Counters)
    ensures ReportSuccess(c) == ReportSuccess(Counters(
      Some(CounterValue(c.addedMovies)), Some(CounterValue(c.addedShows)),
      Some(CounterValue(c.existingMovies)), Some(CounterValue(c.existingShows))))
  {
  }

  /** The `existing` counters are consulted only when neither `added` counter is positive. */
  lemma ExistingIgnoredWhenSomethingAdded(c: Counters, em: Option<int>, es: Option<int>)
    requires AddedKind(c).Some?
    ensures ReportSuccess(c) == ReportSuccess(c.(existingMovies := em, existingShows := es))
  {
  }

  /** Any status other than 200, with any body, and any exception, give the same message. */
  lemma FailuresAreIndistinguishable(status: int, b1: Body, b2: Body)
    requires status != 200
    ensures Report(Http(status, b1)) == Report(Http(status, b2)) == Report(Failed) == CheckYourApi
  {
  }

  /** Sample response bodies, one per kind of outcome. */
  lemma ReportExamples()
    ensures Report(Http(200, Json(Counters(Some(1), Some(0), None, None)))) == Added(Movie)
    ensures Report(Http(200, Json(Counters(Some(1), Some(1), None, None)))) == Added(MovieAndShow)
    ensures Report(Http(200, Json(Counters(Some(0), Some(0), None, Some(1))))) == AlreadyPresent(Show)
    ensures Report(Http(200, Json(Counters(None, None, None, None)))) == AlreadyInMdbList
    ensures Report(Http(401, Json(Counters(Some(1), Some(1), None, None)))) == CheckYourApi
  {
  }
}

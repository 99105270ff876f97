/**
 * `onCreate` and `handleSharedIntent`: what a launch of the app does, and the
 * activity's observable state (screen, messages shown, requests sent,
 * finished). The background call is not modelled; its answer arrives as a
 * `Response` value handed to `OnResponse`.
 */
module Activity {
  import opened Wrappers
  import ImdbId
  import Submission
  import Credentials
  import opened Outcome

  const ActionSend: string := "android.intent.action.SEND"
  const TextPlain: string := "text/plain"

  /** The fields of the launching intent that the app reads: action, type and `EXTRA_TEXT`. */
  datatype Intent = Intent(action: Option<string>, mimeType: Option<string>, extraText: Option<string>)

  /** Kotlin's `Char.isWhitespace` on the JVM: `Character.isWhitespace` or `Character.isSpaceChar`. */
  predicate IsWhitespace(c: char) {
    || '\U{0009}' <= c <= '\U{000D}'   // tab, line feed, vertical tab, form feed, carriage return
    || '\U{001C}' <= c <= '\U{0020}'   // the four information separators and space
    || c == '\U{00A0}' || c == '\U{1680}'
    || '\U{2000}' <= c <= '\U{200A}'
    || c == '\U{2028}' || c == '\U{2029}' || c == '\U{202F}' || c == '\U{205F}' || c == '\U{3000}'
  }

  /** Kotlin's `isNullOrBlank`. */
  predicate IsNullOrBlank(t: Option<string>) {
    match t
    case None => true
    case Some(s) => forall k :: 0 <= k < |s| ==> IsWhitespace(s[k])
  }

  /** `intent?.action == Intent.ACTION_SEND && intent.type == "text/plain"` */
  predicate IsTextShare(intent: Option<Intent>) {
    intent.Some? && intent.value.action == Some(ActionSend) && intent.value.mimeType == Some(TextPlain)
  }

  /** What a launch decides to do. */
  datatype Decision =
    | OpenSettings(existingKey: Option<string>)  // show the key form
    | RejectText                                 // the shared text holds no identifier
    | Send(request: Submission.Request)          // submit one identifier

  /** `handleSharedIntent`: submit the extracted identifier, or reject the text. */
  function HandleSharedText(text: string, key: string): (d: Decision)
    ensures !d.OpenSettings?
    ensures d.RejectText? <==> ImdbId.ExtractImdbId(text).None?
    ensures d.Send? ==> Submission.IdOf(d.request.payload) == ImdbId.ExtractImdbId(text)
    ensures d.Send? ==> Submission.KeyOf(d.request.url) == Some(key)
  {
    match ImdbId.ExtractImdbId(text)
    case None => RejectText
    case Some(id) => Send(Submission.BuildRequest(id, key))
  }

  /** The branch `onCreate` takes for a launching intent and the stored key. */
  function Route(intent: Option<Intent>, stored: Option<string>): (d: Decision)
    ensures d.OpenSettings? <==>
      !(IsTextShare(intent) && !IsNullOrBlank(intent.value.extraText) && stored.Some?)
    ensures d.OpenSettings? ==> d.existingKey == stored
    ensures !d.OpenSettings? ==> d == HandleSharedText(intent.value.extraText.value, stored.value)
  {
    if IsTextShare(intent) && !IsNullOrBlank(intent.value.extraText) && stored.Some? then
      HandleSharedText(intent.value.extraText.value, stored.value)
    else
      OpenSettings(stored)
  }

  /** Without a stored key no request is ever sent. */
  lemma NoKeyNoRequest(intent: Option<Intent>)
    ensures Route(intent, None) == OpenSettings(None)
  {
  }

  /** A request is sent exactly when all four conditions hold and the text holds an identifier. */
  lemma SendIff(intent: Option<Intent>, stored: Option<string>)
    ensures Route(intent, stored).Send? <==>
      && IsTextShare(intent)
      && !IsNullOrBlank(intent.value.extraText)
      && stored.Some?
      && ImdbId.ExtractImdbId(intent.value.extraText.value).Some?
  {
  }

  /** A blank text holds no identifier, as `t` is not whitespace. */
  lemma {:induction false} BlankTextHasNoId(text: string)
    requires IsNullOrBlank(Some(text))
    ensures ImdbId.ExtractImdbId(text) == None
  {
    forall j ensures !ImdbId.StartsMatch(text, j) {
      if 0 <= j < |text| {
        assert IsWhitespace(text[j]);
      }
    }
  }

  /** The content of the activity's window. */
  datatype Screen =
    | Blank                     // nothing set: a share was handled
    | Settings(field: string)   // the key form, its text field filled with the stored key or ""

  class MainActivity {
    /** The preferences file `MDBListPrefs`, the only one the activity opens. */
    const prefs: Credentials.Preferences
    var screen: Screen
    var toasts: seq<Message>
    var sent: seq<Submission.Request>
    var finished: bool

    constructor (prefs: Credentials.Preferences)
      requires prefs.name == Credentials.PrefsName
      ensures this.prefs == prefs
      ensures screen == Blank && toasts == [] && sent == [] && !finished
    {
      this.prefs := prefs;
      screen := Blank;
      toasts := [];
      sent := [];
      finished := false;
    }

    /** `onCreate`: read the key, then either hand the shared text on or open the form. */
    method OnCreate(intent: Option<Intent>)
      modifies this
      ensures finished == old(finished)
      ensures var d := Route(intent, Credentials.StoredKey(prefs.entries));
        && (d.OpenSettings? ==>
              screen == Settings(d.existingKey.GetOr("")) && toasts == old(toasts) && sent == old(sent))
        && (d.RejectText? ==>
              screen == old(screen) && toasts == old(toasts) + [InvalidImdbUrl] && sent == old(sent))
        && (d.Send? ==>
              screen == old(screen) && toasts == old(toasts) && sent == old(sent) + [d.request])
    {
      var stored := prefs.GetApiKey();
      if IsTextShare(intent) {
        var sharedText := intent.value.extraText;
        if !IsNullOrBlank(sharedText) && stored.Some? {
          HandleSharedIntent(sharedText.value, stored.value);
          return;
        }
      }
      screen := Settings(stored.GetOr(""));
    }

    /** `handleSharedIntent` */
    method HandleSharedIntent(text: string, key: string)
      modifies this
      ensures screen == old(screen) && finished == old(finished)
      ensures match HandleSharedText(text, key)
        case Send(r) => sent == old(sent) + [r] && toasts == old(toasts)
        case _ => sent == old(sent) && toasts == old(toasts) + [InvalidImdbUrl]
    {
      var imdbId := ImdbId.ExtractImdbId(text);
      if imdbId.Some? {
        sent := sent + [Submission.BuildRequest(imdbId.value, key)];
      } else {
        toasts := toasts + [InvalidImdbUrl];
      }
    }

    /** The foreground continuation of `sendToMDBList`: show the outcome and finish. */
    method OnResponse(response: Response)
      modifies this
      ensures toasts == old(toasts) + [Report(response)] && finished
      ensures screen == old(screen) && sent == old(sent)
    {
      toasts := toasts + [Report(response)];
      finished := true;
    }

    /** The form's save action: store the key, confirm, finish. */
    method OnSave(newKey: string)
      requires screen.Settings?
      modifies this, prefs
      ensures prefs.entries == Credentials.WithKey(old(prefs.entries), newKey)
      ensures toasts == old(toasts) + [ApiKeySaved] && finished
      ensures screen == old(screen) && sent == old(sent)
    {
      prefs.SaveApiKey(newKey);
      toasts := toasts + [ApiKeySaved];
      finished := true;
    }
  }

  /**
   * One launch from a fresh activity, with `response` the answer the service
   * gives if a request is sent: at most one request, and a finished activity
   * exactly when one was sent.
   */
  method Launch(prefs: Credentials.Preferences, intent: Option<Intent>, response: Response)
    returns (toasts: seq<Message>, sent: seq<Submission.Request>, finished: bool)
    requires prefs.name == Credentials.PrefsName
    ensures var d := Route(intent, Credentials.StoredKey(prefs.entries));
      && (d.Send? ==> sent == [d.request] && toasts == [Report(response)] && finished)
      && (d.RejectText? ==> sent == [] && toasts == [InvalidImdbUrl] && !finished)
      && (d.OpenSettings? ==> sent == [] && toasts == [] && !finished)
  {
    var activity := new MainActivity(prefs);
    activity.OnCreate(intent);
    if |activity.sent| == 1 {
      activity.OnResponse(response);
    }
    toasts, sent, finished := activity.toasts, activity.sent, activity.finished;
  }
}

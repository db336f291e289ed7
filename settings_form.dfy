/**
 * The page settings form: title, slug and checkout URL, with dirty tracking,
 * a guarded save that sends a `PUT`, the save-status cycle and deletion.
 * The network calls are split in two: a method that starts the request and
 * returns it, and one that takes the outcome and returns the navigation or
 * timer it triggers.
 */
module SettingsForm {
  import opened Wrappers
  import opened JsText
  import opened Slug

  datatype SaveStatus = Idle | Saving | Succeeded | Failed

  /** The `PUT /api/landing-pages/<currentSlug>` request `handleSave` sends. */
  datatype SaveRequest = SaveRequest(path: string, title: string, slug: string, checkoutUrl: Option<string>)

  /** The fields of a response body the form reads: `error` and `slug`. */
  datatype SaveResponseBody = SaveResponseBody(error: Option<string>, slug: Option<string>)

  /** How a save ends: a parsed response, or an exception (with its message if it is an `Error`). */
  datatype SaveOutcome =
    | Responded(ok: bool, body: SaveResponseBody)
    | Thrown(message: Option<string>)

  /** What a handler asks of the outside world once it is done. */
  datatype Effect = NoEffect | Navigate(path: string) | ScheduleIdleReset(delayMs: nat)

  const IdleResetDelayMs := 2500

  /** `/api/landing-pages/` followed by the slug the page was loaded with. */
  function PagePath(currentSlug: string): string {
    "/api/landing-pages/" + currentSlug
  }

  /**
   * The request body: the trimmed title, the slug untouched, and the trimmed
   * checkout URL, left out (`undefined`) when it is blank. The title has no
   * white space at its ends and is empty only for a blank title; a checkout
   * URL is sent exactly when a non-blank one was typed.
   */
  function SaveRequestFor(currentSlug: string, title: string, slug: string, checkoutUrl: string): (r: SaveRequest)
    ensures r.path == "/api/landing-pages/" + currentSlug
    ensures r.title == Trim(title)
    ensures r.title == [] <==> IsBlank(title)
    ensures r.title != [] ==> !IsWhitespace(r.title[0]) && !IsWhitespace(r.title[|r.title| - 1])
    ensures r.slug == slug
    ensures r.checkoutUrl.None? <==> AllWhitespace(checkoutUrl)
    ensures r.checkoutUrl.Some? ==>
      var url := r.checkoutUrl.value;
      url == Trim(checkoutUrl) && url != [] && !IsWhitespace(url[0]) && !IsWhitespace(url[|url| - 1])
  {
    var url := Trim(checkoutUrl);
    SaveRequest(PagePath(currentSlug), Trim(title), slug, if url == [] then None else Some(url))
  }

  /**
   * The guard at the top of `handleSave`: a blank title or slug sends
   * nothing, anything else sends the request built from the fields.
   */
  function SaveAttempt(currentSlug: string, title: string, slug: string, checkoutUrl: string): (r: Option<SaveRequest>)
    ensures r.None? <==> IsBlank(title) || IsBlank(slug)
    ensures r.Some? ==> r.value == SaveRequestFor(currentSlug, title, slug, checkoutUrl) && r.value.title != []
  {
    if IsBlank(title) || IsBlank(slug) then None else Some(SaveRequestFor(currentSlug, title, slug, checkoutUrl))
  }

  /**
   * `body.error || "Failed to save settings"`: the server's message when it
   * sent a non-empty one, the fallback otherwise, so never an empty message.
   */
  function ResponseError(body: SaveResponseBody): (message: string)
    ensures message != []
    ensures body.error.Some? && body.error.value != [] ==> message == body.error.value
    ensures body.error.None? || body.error.value == [] ==> message == "Failed to save settings"
  {
    match body.error
    case Some(e) => if e != [] then e else "Failed to save settings"
    case None => "Failed to save settings"
  }
  /** A template literal prints a missing value as `undefined`. */
  function TemplateText(v: Option<string>): string {
    v.GetOr("undefined")
  }

  class SettingsForm {
    const currentSlug: string
    const initialTitle: string
    const initialSlug: string
    const initialCheckoutUrl: string

    var title: string
    var slug: string
    var checkoutUrl: string
    var saveStatus: SaveStatus
    var errorMessage: Option<string>
    var deleting: bool

    constructor (currentSlug: string, initialTitle: string, initialSlug: string, initialCheckoutUrl: string)
      ensures this.currentSlug == currentSlug && this.initialTitle == initialTitle
      ensures this.initialSlug == initialSlug && this.initialCheckoutUrl == initialCheckoutUrl
      ensures title == initialTitle && slug == initialSlug && checkoutUrl == initialCheckoutUrl
      ensures saveStatus == Idle && errorMessage.None? && !deleting
    {
      this.currentSlug := currentSlug;
      this.initialTitle := initialTitle;
      this.initialSlug := initialSlug;
      this.initialCheckoutUrl := initialCheckoutUrl;
      title, slug, checkoutUrl := initialTitle, initialSlug, initialCheckoutUrl;
      saveStatus, errorMessage, deleting := Idle, None, false;
    }

    /** `hasChanges`: the form differs from the values it was loaded with. */
    predicate HasChanges(): (changed: bool)
      reads this
      ensures changed <==> (title, slug, checkoutUrl) != (initialTitle, initialSlug, initialCheckoutUrl)
    {
      title != initialTitle || slug != initialSlug || checkoutUrl != initialCheckoutUrl
    }

    /**
     * The submit button is disabled while a save is running, or when every
     * field still holds its initial value.
     */
    method SubmitDisabled() returns (disabled: bool)
      ensures disabled <==>
        (saveStatus == Saving || (title == initialTitle && slug == initialSlug && checkoutUrl == initialCheckoutUrl))
    {
      disabled := saveStatus == Saving || !HasChanges();
    }

    method EditTitle(value: string)
      modifies this
      ensures title == value && slug == old(slug) && checkoutUrl == old(checkoutUrl)
      ensures saveStatus == Idle
      ensures errorMessage == old(errorMessage) && deleting == old(deleting)
    {
      title := value;
      saveStatus := Idle;
    }

    /** The slug input is stored formatted, so an edited slug is always canonical. */
    method EditSlug(value: string)
      modifies this
      ensures slug == FormatSlug(value) && IsCanonical(slug)
      ensures title == old(title) && checkoutUrl == old(checkoutUrl)
      ensures saveStatus == Idle
      ensures errorMessage == old(errorMessage) && deleting == old(deleting)
    {
      slug := FormatSlug(value);
      saveStatus := Idle;
    }

    method EditCheckoutUrl(value: string)
      modifies this
      ensures checkoutUrl == value && title == old(title) && slug == old(slug)
      ensures saveStatus == Idle
      ensures errorMessage == old(errorMessage) && deleting == old(deleting)
    {
      checkoutUrl := value;
      saveStatus := Idle;
    }

    /**
     * The first half of `handleSave`: a blank title or slug stops it with
     * nothing changed and nothing sent; otherwise the status becomes
     * `saving`, the old message is cleared and the request goes out.
     */
    method BeginSave() returns (request: Option<SaveRequest>)
      modifies this`saveStatus, this`errorMessage
      ensures unchanged(this`title, this`slug, this`checkoutUrl, this`deleting)
      ensures request == SaveAttempt(currentSlug, old(title), old(slug), old(checkoutUrl))
      ensures request.None? ==> unchanged(this`saveStatus, this`errorMessage)
      ensures request.Some? ==> saveStatus == Saving && errorMessage.None?
    {
      var t, s, c := title, slug, checkoutUrl;
      var attempt := SaveAttempt(currentSlug, t, s, c);
      request := attempt;
      if attempt.Some? {
        saveStatus, errorMessage := Saving, None;
      }
    }

    /**
     * The second half of `handleSave`. A successful save moves to the saved
     * settings page when the returned slug differs from the current one, and
     * otherwise schedules the return to `idle`; a failure records the
     * message and the `error` status.
     */
    method FinishSave(outcome: SaveOutcome) returns (effect: Effect)
      modifies this
      ensures title == old(title) && slug == old(slug) && checkoutUrl == old(checkoutUrl)
      ensures deleting == old(deleting)
      ensures outcome.Responded? && outcome.ok ==>
        && saveStatus == Succeeded && errorMessage == old(errorMessage)
        && (outcome.body.slug != Some(currentSlug) ==>
              effect == Navigate("/admin/settings/" + TemplateText(outcome.body.slug)))
        && (outcome.body.slug == Some(currentSlug) ==> effect == ScheduleIdleReset(IdleResetDelayMs))
      ensures outcome.Responded? && !outcome.ok ==>
        saveStatus == Failed && errorMessage == Some(ResponseError(outcome.body)) && effect == NoEffect
      ensures outcome.Thrown? ==>
        saveStatus == Failed && errorMessage == Some(outcome.message.GetOr("Unknown error"))
        && effect == NoEffect
    {
      match outcome
      case Responded(ok, body) =>
        if !ok {
          errorMessage := Some(ResponseError(body));
          saveStatus := Failed;
          return NoEffect;
        }
        saveStatus := Succeeded;
        if body.slug != Some(currentSlug) {
          effect := Navigate("/admin/settings/" + TemplateText(body.slug));
        } else {
          effect := ScheduleIdleReset(IdleResetDelayMs);
        }
      case Thrown(message) =>
        errorMessage := Some(message.GetOr("Unknown error"));
        saveStatus := Failed;
        effect := NoEffect;
    }

    /** The scheduled reset, 2.5 seconds after a save that kept the slug. */
    method IdleResetElapsed()
      modifies this
      ensures saveStatus == Idle
      ensures title == old(title) && slug == old(slug) && checkoutUrl == old(checkoutUrl)
      ensures errorMessage == old(errorMessage) && deleting == old(deleting)
    {
      saveStatus := Idle;
    }

    /** The first half of `handleDelete`: the delete button shows it is busy. */
    method BeginDelete() returns (request: string)
      modifies this
      ensures deleting && request == PagePath(currentSlug)
      ensures title == old(title) && slug == old(slug) && checkoutUrl == old(checkoutUrl)
      ensures saveStatus == old(saveStatus) && errorMessage == old(errorMessage)
    {
      deleting := true;
      request := PagePath(currentSlug);
    }

    /**
     * The second half of `handleDelete`: success leaves for the admin list,
     * failure re-enables the button.
     */
    method FinishDelete(succeeded: bool) returns (effect: Effect)
      modifies this
      ensures succeeded ==> effect == Navigate("/admin") && deleting == old(deleting)
      ensures !succeeded ==> effect == NoEffect && !deleting
      ensures title == old(title) && slug == old(slug) && checkoutUrl == old(checkoutUrl)
      ensures saveStatus == old(saveStatus) && errorMessage == old(errorMessage)
    {
      if succeeded {
        effect := Navigate("/admin");
      } else {
        deleting := false;
        effect := NoEffect;
      }
    }
  }
}

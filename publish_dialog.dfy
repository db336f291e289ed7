/**
 * The "publish page" dialog: a title / slug / checkout-URL form whose slug
 * follows the title until edited by hand, its validation, and the guard that
 * keeps the dialog open while a new page is being saved.
 */
module PublishDialog {
  import opened Wrappers
  import opened JsText
  import opened Slug

  datatype Mode = New | Success | Error

  /** What `onSubmit` receives. */
  datatype NewPageForm = NewPageForm(title: string, slug: string, checkoutUrl: string)

  const TitleRequired := "Title is required"
  const SlugRequired := "Slug is required"

  // ---------------------------------------------------------------------------
  // The slug follows the title
  // ---------------------------------------------------------------------------

  /**
   * The slug after a title edit: it follows the new title when it was empty
   * or still the slug of the old title, and a slug edited by hand is kept.
   * Either way the slug stays canonical.
   */
  function FollowTitle(slug: string, oldTitle: string, newTitle: string): (r: string)
    ensures slug == [] || slug == FormatSlug(oldTitle) ==> r == FormatSlug(newTitle)
    ensures !(slug == [] || slug == FormatSlug(oldTitle)) ==> r == slug
    ensures IsCanonical(slug) ==> IsCanonical(r)
  {
    if slug == [] || slug == FormatSlug(oldTitle) then FormatSlug(newTitle) else slug
  }

  /** The title and slug after a series of title edits. */
  function TitleEdits(title: string, slug: string, edits: seq<string>): (string, string)
    decreases |edits|
  {
    if edits == [] then (title, slug)
    else TitleEdits(edits[0], FollowTitle(slug, title, edits[0]), edits[1..])
  }

  /** A slug that is the slug of its title stays so through any title edits. */
  lemma {:induction false} FollowingIsKept(title: string, slug: string, edits: seq<string>)
    requires slug == FormatSlug(title)
    ensures TitleEdits(title, slug, edits).1 == FormatSlug(TitleEdits(title, slug, edits).0)
    decreases |edits|
  {
    if edits != [] {
      FollowingIsKept(edits[0], FollowTitle(slug, title, edits[0]), edits[1..]);
    }
  }

  /**
   * Starting from an empty slug, or one that still matches the title, the
   * slug after one or more title edits is the canonical slug of the last
   * title typed.
   */
  lemma SlugFollowsTitle(title: string, slug: string, edits: seq<string>)
    requires slug == [] || slug == FormatSlug(title)
    requires edits != []
    ensures var (t, s) := TitleEdits(title, slug, edits);
      t == edits[|edits| - 1] && s == FormatSlug(t) && IsCanonical(s)
  {
    FollowingIsKept(edits[0], FormatSlug(edits[0]), edits[1..]);
    LastTitle(title, slug, edits);
  }

  /** The title after a series of edits is the last one typed. */
  lemma {:induction false} LastTitle(title: string, slug: string, edits: seq<string>)
    requires edits != []
    ensures TitleEdits(title, slug, edits).0 == edits[|edits| - 1]
    decreases |edits|
  {
    if |edits| > 1 {
      LastTitle(edits[0], FollowTitle(slug, title, edits[0]), edits[1..]);
    }
  }

  // ---------------------------------------------------------------------------
  // Validation
  // ---------------------------------------------------------------------------

  function TitleErrorFor(title: string): Option<string> {
    if IsBlank(title) then Some(TitleRequired) else None
  }

  function SlugErrorFor(slug: string): Option<string> {
    if IsBlank(slug) then Some(SlugRequired) else None
  }

  /**
   * For a canonical slug (which the form always holds) the slug error is
   * raised exactly for the empty slug.
   */
  lemma CanonicalSlugError(slug: string)
    requires IsCanonical(slug)
    ensures SlugErrorFor(slug).Some? <==> slug == []
  {
    CanonicalIsTrimmed(slug);
  }

  // ---------------------------------------------------------------------------
  // Close guard
  // ---------------------------------------------------------------------------

  /**
   * The ways a dialog can be asked to close: the open state changing, a
   * click outside it, or the Escape key.
   */
  datatype DismissRequest = OpenChange(isOpen: bool) | InteractOutside | EscapeKey

  /**
   * True when the request reaches `onClose`. Every close request is ignored
   * while a new page is being saved, and in every other situation it reaches
   * `onClose`; a request to open never closes.
   */
  predicate ClosesDialog(mode: Mode, saving: bool, request: DismissRequest): (closes: bool)
    ensures request != OpenChange(true) ==> (closes <==> !(mode == New && saving))
    ensures request == OpenChange(true) ==> !closes
  {
    match request
    case OpenChange(isOpen) => !isOpen && !(mode == New && saving)
    // Not prevented, an outside click or Escape closes the dialog, which
    // reports `onOpenChange(false)`.
    case InteractOutside => !(mode == New && saving)
    case EscapeKey => !(mode == New && saving)
  }

  // ---------------------------------------------------------------------------
  // The form
  // ---------------------------------------------------------------------------

  class PublishForm {
    var title: string
    var slug: string
    var checkoutUrl: string
    var titleError: Option<string>
    var slugError: Option<string>

    /** The slug field only ever holds a formatted slug. */
    ghost predicate Valid()
      reads this
    {
      IsCanonical(slug)
    }

    constructor ()
      ensures Valid()
      ensures title == [] && slug == [] && checkoutUrl == []
      ensures titleError.None? && slugError.None?
    {
      title, slug, checkoutUrl := [], [], [];
      titleError, slugError := None, None;
    }

    /** Opening the dialog in `new` mode clears the form and its errors. */
    method OnOpen(open: bool, mode: Mode)
      requires Valid()
      modifies this
      ensures Valid()
      ensures open && mode == New ==>
        title == [] && slug == [] && checkoutUrl == [] && titleError.None? && slugError.None?
      ensures !(open && mode == New) ==>
        title == old(title) && slug == old(slug) && checkoutUrl == old(checkoutUrl)
        && titleError == old(titleError) && slugError == old(slugError)
    {
      if open && mode == New {
        title, slug, checkoutUrl := [], [], [];
        titleError, slugError := None, None;
      }
    }

    /** `handleTitleChange`. */
    method TitleChange(value: string)
      requires Valid()
      modifies this
      ensures Valid()
      ensures title == value && checkoutUrl == old(checkoutUrl)
      ensures old(slug) == [] || old(slug) == FormatSlug(old(title)) ==> slug == FormatSlug(value)
      ensures !(old(slug) == [] || old(slug) == FormatSlug(old(title))) ==> slug == old(slug)
      ensures titleError.None? && slugError.None?
    {
      var newSlug := FollowTitle(slug, title, value);
      title, slug := value, newSlug;
      titleError, slugError := None, None;
    }

    /** `handleSlugChange`: whatever is typed is stored formatted. */
    method SlugChange(value: string)
      requires Valid()
      modifies this
      ensures Valid()
      ensures slug == FormatSlug(value)
      ensures title == old(title) && checkoutUrl == old(checkoutUrl)
      ensures slugError.None? && titleError == old(titleError)
    {
      slug := FormatSlug(value);
      slugError := None;
    }

    /** The checkout URL input is stored verbatim. */
    method CheckoutUrlChange(value: string)
      requires Valid()
      modifies this
      ensures Valid()
      ensures checkoutUrl == value
      ensures title == old(title) && slug == old(slug)
      ensures titleError == old(titleError) && slugError == old(slugError)
    {
      checkoutUrl := value;
    }

    /** `validate`: records one error per blank field and reports success. */
    method Validate() returns (ok: bool)
      requires Valid()
      modifies this
      ensures Valid()
      ensures title == old(title) && slug == old(slug) && checkoutUrl == old(checkoutUrl)
      ensures titleError == TitleErrorFor(title) && slugError == SlugErrorFor(slug)
      ensures slugError.Some? <==> slug == []
      ensures ok <==> !IsBlank(title) && !IsBlank(slug)
      ensures ok <==> titleError.None? && slugError.None?
    {
      titleError := TitleErrorFor(title);
      slugError := SlugErrorFor(slug);
      CanonicalSlugError(slug);
      ok := titleError.None? && slugError.None?;
    }

    /** `handleSubmit`: the form goes to `onSubmit` only when it validates. */
    method Submit() returns (submitted: Option<NewPageForm>)
      requires Valid()
      modifies this
      ensures Valid()
      ensures title == old(title) && slug == old(slug) && checkoutUrl == old(checkoutUrl)
      ensures titleError == TitleErrorFor(title) && slugError == SlugErrorFor(slug)
      ensures submitted.Some? <==> !IsBlank(title) && slug != []
      ensures submitted.Some? ==> submitted.value == NewPageForm(title, slug, checkoutUrl)
    {
      var ok := Validate();
      submitted := if ok then Some(NewPageForm(title, slug, checkoutUrl)) else None;
    }
  }
}

/** The lazily loaded image: source validation, the loaded / error / in-view flags and what
    is drawn from them (src/components/ui/optimized-image.tsx). */
module OptimizedImage {
  import opened Text

  /** `isValidImageUrl`: a non-empty web, root-relative or inline-image source. */
  predicate IsValidImageUrl(src: string)
  {
    |src| > 0
    && (StartsWith(src, "http://") || StartsWith(src, "https://")
        || StartsWith(src, "data:image/") || StartsWith(src, "/"))
  }

  /** What the component draws: the unavailable-image placeholder alone, or a frame with
      any of a loading skeleton, the image and the error fallback. */
  datatype Drawing =
    | Placeholder
    | Frame(skeleton: bool, image: bool, errorFallback: bool)

  /** Validity in terms of the first characters: only sources beginning with `h`, `d` or
      `/` can be valid, and every root-relative source is. */
  lemma ValidityByPrefix(src: string)
    ensures IsValidImageUrl(src) ==> src[0] == 'h' || src[0] == 'd' || src[0] == '/'
    ensures |src| > 0 && src[0] == '/' ==> IsValidImageUrl(src)
  {
    if IsValidImageUrl(src) {
      if StartsWith(src, "http://") { assert src[0] == "http://"[0]; }
      else if StartsWith(src, "https://") { assert src[0] == "https://"[0]; }
      else if StartsWith(src, "data:image/") { assert src[0] == "data:image/"[0]; }
      else { assert src[0] == "/"[0]; }
    }
    if |src| > 0 && src[0] == '/' {
      assert src[..1] == "/";
    }
  }

  /** The empty source, another scheme and a non-image inline source are all invalid. */
  lemma RejectedSources()
    ensures !IsValidImageUrl("") && !IsValidImageUrl("ftp://host/a.png")
    ensures !IsValidImageUrl("data:text/plain,x")
  {
    ValidityByPrefix("ftp://host/a.png");
    assert "ftp://host/a.png"[0] == 'f';
    var t := "data:text/plain,x";
    assert !StartsWith(t, "data:image/") by {
      assert t[5] != "data:image/"[5];
    }
    assert !StartsWith(t, "http://") && !StartsWith(t, "https://") by {
      assert t[0] != 'h';
    }
    assert !StartsWith(t, "/") by {
      assert t[0] != '/';
    }
  }

  class ImageView {
    const src: string
    var isLoaded: bool
    var hasError: bool
    var isInView: bool
    /** The intersection observer watches the frame: it is attached only when the frame
        is drawn, and disconnects at the first intersection. */
    var observing: bool

    /** How the flags can relate: an error counts as loaded, loading needs the image and
        so the viewport, and the observer stops once the image is in view; an invalid
        source draws no frame, so nothing ever happens to it. */
    predicate Valid()
      reads this
    {
      && (hasError ==> isLoaded)
      && (isLoaded ==> isInView)
      && (observing ==> !isInView)
      && (!IsValidImageUrl(src) ==> !observing && !isInView && !isLoaded && !hasError)
    }

    /** All flags start false; the observer is attached when the frame is drawn. */
    constructor (src: string)
      ensures this.src == src && Valid()
      ensures !isLoaded && !hasError && !isInView
      ensures observing <==> IsValidImageUrl(src)
    {
      this.src := src;
      isLoaded := false;
      hasError := false;
      isInView := false;
      observing := IsValidImageUrl(src);
    }

    /** The observer callback: an intersecting entry brings the image into view and
        disconnects the observer. */
    method Intersect(isIntersecting: bool)
      requires Valid()
      modifies this
      ensures Valid()
      ensures isInView == (old(isInView) || (old(observing) && isIntersecting))
      ensures observing == (old(observing) && !isIntersecting)
      ensures isLoaded == old(isLoaded) && hasError == old(hasError)
    {
      if observing && isIntersecting {
        isInView := true;
        observing := false;
      }
    }

    /** The image is drawn, so its events can fire. */
    predicate ImageDrawn()
      reads this
    {
      IsValidImageUrl(src) && isInView && !hasError
    }

    /** `handleLoad`. */
    method HandleLoad()
      requires Valid() && ImageDrawn()
      modifies this
      ensures Valid()
      ensures isLoaded && !hasError
      ensures isInView == old(isInView) && observing == old(observing)
    {
      isLoaded := true;
      hasError := false;
    }

    /** `handleError`. */
    method HandleError()
      requires Valid() && ImageDrawn()
      modifies this
      ensures Valid()
      ensures hasError && isLoaded
      ensures isInView == old(isInView) && observing == old(observing)
    {
      hasError := true;
      isLoaded := true;
    }

    /** The drawing: an invalid source gives the placeholder and never an image; otherwise
        the skeleton shows until loaded, the image once in view and without error, and the
        error fallback after an error. */
    function Draw(): (d: Drawing)
      reads this
      ensures !IsValidImageUrl(src) <==> d == Placeholder
      ensures d.Frame? ==> (d.skeleton <==> !isLoaded)
      ensures d.Frame? ==> (d.image <==> isInView && !hasError)
      ensures d.Frame? ==> (d.errorFallback <==> hasError)
    {
      if !IsValidImageUrl(src) then Placeholder
      else Frame(!isLoaded, isInView && !hasError, hasError)
    }
  }

  /** In every reachable state the frame never draws the image and the error fallback
      together, and the fallback never sits under a skeleton. */
  lemma DrawingConsistent(v: ImageView)
    requires v.Valid()
    ensures v.Draw().Frame? ==> !(v.Draw().image && v.Draw().errorFallback)
    ensures v.Draw().Frame? ==> !(v.Draw().skeleton && v.Draw().errorFallback)
    ensures v.Draw().Frame? && v.Draw().image ==> v.isInView
  {
  }
}

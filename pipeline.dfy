/**
 * One saliency-guided inpainting round and the application state that
 * drives rounds: the loaded image, the current image, the inpaint counter
 * and the processing flag of `ImageProcessorApp`.
 *
 * The engines the application calls into (grey conversion, spectral-residual
 * saliency, cubic resize, SAM prediction, OpenCV inpainting, OpenCV's
 * rounding) are not modelled; they are parameters bundled in `Engines`, and
 * `Sound` states the part of their contracts the pipeline relies on.
 */
module Pipeline {
  import opened Images
  import opened ScalePolicy
  import opened PromptSelector
  import opened MaskAcquirer
  import opened Blender

  datatype Option<T> = None | Some(value: T)

  /** The two OpenCV inpainting algorithms the round runs. */
  datatype InpaintAlgorithm = Telea | NavierStokes

  /** The neighbourhood radius of the TELEA pass. */
  const TeleaRadius: nat := 3

  /** The neighbourhood radius of the Navier-Stokes pass. */
  const NsRadius: nat := 7

  /**
   * The external capabilities one round calls:
   * toGray (`cv2.cvtColor` BGR to grey), saliency (spectral-residual
   * saliency at a working size), resize (cubic `cv2.resize` to (width,
   * height)), predict (SAM's `set_image` then single-point `predict` with one
   * mask, flattened row-major), inpaint (`cv2.inpaint` with a radius and an
   * algorithm) and round (the rounding `cv2.addWeighted` applies).
   */
  datatype Engines = Engines(
    toGray: Image -> Grid,
    saliency: (Grid, nat) -> SalMap,
    resize: (SalMap, nat, nat) -> SalMap,
    predict: (Image, Prompt) -> seq<bool>,
    inpaint: (Image, Grid, nat, InpaintAlgorithm) -> Image,
    round: real -> int)

  /**
   * The engine contracts the round relies on: resizing to a positive
   * (width, height) yields exactly that shape; inpainting a colour image
   * yields a colour image of the same shape; rounding is to a nearest integer.
   */
  ghost predicate Sound(e: Engines) {
    && (forall s, w: nat, h: nat :: w > 0 && h > 0 ==> IsShape(e.resize(s, w, h), h, w))
    && (forall img, mask, radius, alg :: WellFormed(img) ==>
          WellFormed(e.inpaint(img, mask, radius, alg)) && SameDims(e.inpaint(img, mask, radius, alg), img))
    && IsNearestRounding(e.round)
  }

  /** The saliency map of img, computed at the working size and resized back to full resolution. */
  function FullSaliency(e: Engines, img: Image): (m: SalMap)
    requires Sound(e) && WellFormed(img)
    ensures IsShape(m, Height(img), Width(img))
    ensures NonEmptyRows(m)
  {
    var h, w := Height(img), Width(img);
    e.resize(e.saliency(e.toGray(img), SrSize(w, h)), w, h)
  }

  /**
   * The prompt of a round: a foreground point inside the image at which the
   * full-resolution saliency map is maximal.
   */
  function RoundPrompt(e: Engines, img: Image): (p: Prompt)
    requires Sound(e) && WellFormed(img)
    ensures p.pointLabel == Foreground
    ensures p.x < Width(img) && p.y < Height(img)
    ensures AtMost(FullSaliency(e, img), FullSaliency(e, img)[p.y][p.x])
  {
    PeakPrompt(FullSaliency(e, img))
  }

  /** The binary mask of a round, or the reshape failure when SAM's mask has the wrong element count. */
  function RoundMask(e: Engines, img: Image): (r: Result<Grid>)
    requires Sound(e) && WellFormed(img)
    ensures r.Ok? <==> |e.predict(img, RoundPrompt(e, img))| == Height(img) * Width(img)
    ensures r.Ok? ==> IsShape(r.value, Height(img), Width(img))
  {
    BinarizeMask(e.predict(img, RoundPrompt(e, img)), Height(img), Width(img))
  }

  /**
   * The image one round produces from img: the equal-weight blend of the
   * TELEA and Navier-Stokes inpaintings under the round's mask. It fails
   * exactly when the mask cannot be reshaped; otherwise it keeps the
   * image's height and width, and every sample lies between the two
   * inpaintings' samples.
   */
  function NextImage(e: Engines, img: Image): (r: Result<Image>)
    requires Sound(e) && WellFormed(img)
    ensures r.Err? <==> RoundMask(e, img).Err?
    ensures r.Err? ==> r.error == RoundMask(e, img).error
    ensures r.Ok? ==> WellFormed(r.value) && SameDims(r.value, img)
    ensures r.Ok? ==> SamplesBetween(r.value,
                        e.inpaint(img, RoundMask(e, img).value, TeleaRadius, Telea),
                        e.inpaint(img, RoundMask(e, img).value, NsRadius, NavierStokes))
  {
    match RoundMask(e, img)
    case Err(err) => Err(err)
    case Ok(mask) =>
      var telea := e.inpaint(img, mask, TeleaRadius, Telea);
      var ns := e.inpaint(img, mask, NsRadius, NavierStokes);
      Ok(AddWeighted(telea, ns, e.round))
  }

  /** When both inpainting passes agree on the round's mask, the round yields their common result. */
  lemma NextImageWhenPassesAgree(e: Engines, img: Image)
    requires Sound(e) && WellFormed(img)
    requires RoundMask(e, img).Ok?
    requires e.inpaint(img, RoundMask(e, img).value, TeleaRadius, Telea)
          == e.inpaint(img, RoundMask(e, img).value, NsRadius, NavierStokes)
    ensures NextImage(e, img) == Ok(e.inpaint(img, RoundMask(e, img).value, TeleaRadius, Telea))
  {
    BlendIdentical(e.inpaint(img, RoundMask(e, img).value, TeleaRadius, Telea), e.round);
  }

  /** Where a sequence of rounds ends: the image, the rounds completed, and the failure that ended it early, if any. */
  datatype Run = Run(image: Image, rounds: nat, failure: Option<MaskError>)

  /**
   * Up to n rounds from img, stopping at the first round whose mask cannot be
   * reshaped. The final image keeps img's height and width; without a failure
   * all n rounds complete, after a failure fewer do.
   */
  function RunRounds(e: Engines, img: Image, n: nat): (run: Run)
    requires Sound(e) && WellFormed(img)
    ensures WellFormed(run.image) && SameDims(run.image, img)
    ensures run.failure.None? <==> run.rounds == n
    ensures run.rounds <= n
    decreases n
  {
    if n == 0 then Run(img, 0, None)
    else
      match NextImage(e, img)
      case Err(err) => Run(img, 0, Some(err))
      case Ok(next) =>
        var rest := RunRounds(e, next, n - 1);
        Run(rest.image, rest.rounds + 1, rest.failure)
  }

  /** A run of n > 0 rounds whose first round completes is that round followed by a run of n - 1. */
  lemma RunRoundsStep(e: Engines, img: Image, n: nat)
    requires Sound(e) && WellFormed(img) && n > 0
    requires NextImage(e, img).Ok?
    ensures RunRounds(e, img, n) == Extend(RunRounds(e, NextImage(e, img).value, n - 1), 1)
  {
  }

  /** A run of n > 0 rounds whose first round raises ends at once, on the same image. */
  lemma RunRoundsFails(e: Engines, img: Image, n: nat)
    requires Sound(e) && WellFormed(img) && n > 0
    requires NextImage(e, img).Err?
    ensures RunRounds(e, img, n) == Run(img, 0, Some(NextImage(e, img).error))
  {
  }

  /** What one call of `process_image` did. */
  datatype RoundOutcome =
    | Skipped              // no image loaded: returned at once
    | Completed            // the current image was replaced and the counter bumped
    | Raised(error: MaskError)  // the reshape raised; nothing was updated

  /** What one click of the start/stop button did. */
  datatype ToggleEffect =
    | Stopped   // processing was on and is now off
    | Warned    // no image loaded: a warning, nothing else
    | Started   // processing is now on and the worker loop was launched

  class ImageProcessorApp {
    var currentImage: Option<Image>
    var originalImage: Option<Image>
    var inpaintCount: nat
    var processing: bool

    /**
     * Loaded images are well formed, the current image has the loaded
     * original's height and width, and processing is only ever on with an
     * image loaded.
     */
    ghost predicate Valid()
      reads this
    {
      && (currentImage.Some? ==> WellFormed(currentImage.value))
      && (originalImage.Some? ==> WellFormed(originalImage.value))
      && (originalImage.Some? ==> currentImage.Some? && SameDims(currentImage.value, originalImage.value))
      && (processing ==> currentImage.Some?)
    }

    /** The state after `__init__`: nothing loaded, counter 0, not processing. */
    constructor ()
      ensures Valid()
      ensures currentImage == None && originalImage == None
      ensures inpaintCount == 0 && !processing
    {
      currentImage := None;
      originalImage := None;
      inpaintCount := 0;
      processing := false;
    }

    /**
     * `load_image`, with the chosen path and what `cv2.imread` decoded from
     * it. An empty path (dialog cancelled) changes nothing. A decoded image
     * becomes both the original and the current image and resets the
     * counter. When decoding fails, the original image is cleared and the
     * following `.copy()` raises, leaving everything else as it was.
     */
    method LoadImage(path: string, decoded: Option<Image>) returns (raised: bool)
      requires Valid()
      requires decoded.Some? ==> WellFormed(decoded.value)
      modifies this
      ensures Valid()
      ensures processing == old(processing)
      ensures |path| == 0 ==>
                !raised && currentImage == old(currentImage) && originalImage == old(originalImage)
                && inpaintCount == old(inpaintCount)
      ensures |path| > 0 && decoded.Some? ==>
                !raised && originalImage == decoded && currentImage == decoded && inpaintCount == 0
      ensures |path| > 0 && decoded.None? ==>
                raised && originalImage == None && currentImage == old(currentImage)
                && inpaintCount == old(inpaintCount)
    {
      raised := false;
      if |path| > 0 {
        originalImage := decoded;
        if decoded.None? {
          raised := true;
          return;
        }
        currentImage := originalImage;
        inpaintCount := 0;
      }
    }

    /**
     * `toggle_auto_inpaint`: stops when processing; otherwise warns when no
     * image is loaded, or turns processing on (and launches the worker loop).
     * Only the processing flag ever changes.
     */
    method ToggleAutoInpaint() returns (effect: ToggleEffect)
      requires Valid()
      modifies this
      ensures Valid()
      ensures currentImage == old(currentImage) && originalImage == old(originalImage)
      ensures inpaintCount == old(inpaintCount)
      ensures old(processing) ==> effect == Stopped && !processing
      ensures !old(processing) && old(currentImage).None? ==> effect == Warned && !processing
      ensures !old(processing) && old(currentImage).Some? ==> effect == Started && processing
    {
      if processing {
        processing := false;
        effect := Stopped;
      } else {
        if currentImage.None? {
          effect := Warned;
          return;
        }
        processing := true;
        effect := Started;
      }
    }

    /**
     * `process_image`: one round. With no image nothing happens. Otherwise
     * the working size, the saliency peak, SAM's mask and the two inpaintings
     * are computed; if the mask cannot be reshaped the round raises and
     * nothing is updated, else the blend becomes the current image and the
     * counter goes up by exactly one.
     */
    method ProcessImage(e: Engines) returns (outcome: RoundOutcome)
      requires Valid() && Sound(e)
      modifies this
      ensures Valid()
      ensures originalImage == old(originalImage) && processing == old(processing)
      ensures old(currentImage).None? ==>
                outcome == Skipped && currentImage == old(currentImage) && inpaintCount == old(inpaintCount)
      ensures old(currentImage).Some? ==>
                match NextImage(e, old(currentImage).value)
                case Ok(next) =>
                  outcome == Completed && currentImage == Some(next) && inpaintCount == old(inpaintCount) + 1
                case Err(err) =>
                  outcome == Raised(err) && currentImage == old(currentImage) && inpaintCount == old(inpaintCount)
      ensures old(currentImage).Some? && outcome == Completed ==>
                currentImage.Some? && SameDims(currentImage.value, old(currentImage).value)
    {
      if currentImage.None? {
        return Skipped;
      }
      var img := currentImage.value;
      var h, w := Height(img), Width(img);
      var workingSize := SrSize(w, h);
      var sm := e.saliency(e.toGray(img), workingSize);
      var resized := e.resize(sm, w, h);
      var x, y := MinMaxLoc(resized);
      var prompt := Prompt(x, y, Foreground);
      var binary := BinarizeMask(e.predict(img, prompt), h, w);
      if binary.Err? {
        return Raised(binary.error);
      }
      var telea := e.inpaint(img, binary.value, TeleaRadius, Telea);
      var ns := e.inpaint(img, binary.value, NsRadius, NavierStokes);
      currentImage := Some(AddWeighted(telea, ns, e.round));
      inpaintCount := inpaintCount + 1;
      outcome := Completed;
    }

    /**
     * `auto_inpaint`, run sequentially: rounds repeat while processing is on.
     * The user's stop click is modelled by clickAfter, the number of rounds
     * completed before the click is seen at a loop test. A round that raises
     * ends the worker with processing still on. The outcome is that of
     * RunRounds from the image current at the start.
     */
    method AutoInpaint(e: Engines, clickAfter: nat) returns (rounds: nat, failure: Option<MaskError>)
      requires Valid() && Sound(e)
      modifies this
      ensures Valid()
      ensures originalImage == old(originalImage)
      ensures inpaintCount == old(inpaintCount) + rounds
      ensures !old(processing) ==>
                rounds == 0 && failure.None? && currentImage == old(currentImage) && !processing
      ensures old(processing) ==>
                && old(currentImage).Some?
                && currentImage.Some?
                && RunRounds(e, old(currentImage).value, clickAfter) == Run(currentImage.value, rounds, failure)
                && processing == failure.Some?
    {
      rounds, failure := 0, None;
      if !processing {
        return;
      }
      ghost var start := currentImage.value;
      if clickAfter == 0 {
        var _ := ToggleAutoInpaint();
      }
      while processing
        invariant Valid()
        invariant currentImage.Some?
        invariant originalImage == old(originalImage)
        invariant inpaintCount == old(inpaintCount) + rounds
        invariant failure.None?
        invariant Reaches(e, start, clickAfter, currentImage.value, rounds)
        invariant processing ==> rounds < clickAfter
        invariant !processing ==> rounds == clickAfter
        decreases clickAfter - rounds
      {
        ghost var before := currentImage.value;
        var outcome := ProcessImage(e);
        if outcome.Raised? {
          ReachesFailure(e, start, clickAfter, before, rounds);
          failure := Some(outcome.error);
          return;
        }
        ReachesAdvance(e, start, clickAfter, before, rounds);
        rounds := rounds + 1;
        if rounds == clickAfter {
          var _ := ToggleAutoInpaint();
        }
      }
      ReachesEnd(e, start, clickAfter, currentImage.value);
    }
  }

  /** A run preceded by k completed rounds. */
  function Extend(run: Run, k: nat): Run {
    Run(run.image, run.rounds + k, run.failure)
  }

  /**
   * After done of k scheduled rounds from start, the run has reached cur:
   * the whole run is the rest of the run from cur, preceded by done rounds.
   */
  ghost predicate Reaches(e: Engines, start: Image, k: nat, cur: Image, done: nat) {
    && Sound(e) && WellFormed(start) && WellFormed(cur) && done <= k
    && RunRounds(e, start, k) == Extend(RunRounds(e, cur, k - done), done)
  }

  /** A completed round moves the run one image further. */
  lemma ReachesAdvance(e: Engines, start: Image, k: nat, cur: Image, done: nat)
    requires Reaches(e, start, k, cur, done) && done < k
    requires NextImage(e, cur).Ok?
    ensures Reaches(e, start, k, NextImage(e, cur).value, done + 1)
  {
    RunRoundsStep(e, cur, k - done);
  }

  /** A round that raises ends the run on the image it started from. */
  lemma ReachesFailure(e: Engines, start: Image, k: nat, cur: Image, done: nat)
    requires Reaches(e, start, k, cur, done) && done < k
    requires NextImage(e, cur).Err?
    ensures RunRounds(e, start, k) == Run(cur, done, Some(NextImage(e, cur).error))
  {
    RunRoundsFails(e, cur, k - done);
  }

  /** Once all k rounds are done, the run ends on the current image without failure. */
  lemma ReachesEnd(e: Engines, start: Image, k: nat, cur: Image)
    requires Reaches(e, start, k, cur, k)
    ensures RunRounds(e, start, k) == Run(cur, k, None)
  {
  }
}

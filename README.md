# Saliency-guided iterative inpainting, modelled in Dafny

This project models the logic of `ImageProcessorApp` in `inpainting_app.py`.
That application repeatedly removes the most salient object from an image,
one round at a time. In each round it:

1. picks a saliency working size from the image's width and height (`sr_size`);
2. computes a spectral-residual saliency map at that size and resizes it
   back to full resolution;
3. takes the brightest pixel of that map (`cv2.minMaxLoc`) as a single
   foreground point prompt for SAM;
4. turns SAM's boolean mask into an `h x w` 0/255 mask (`reshape(h, w)`);
5. inpaints with TELEA (radius 3) and Navier-Stokes (radius 7), and blends
   the two results with `cv2.addWeighted(…, 0.5, …, 0.5, 0)`.

Around the round sits a small state machine with four fields:
`current_image`, `original_image`, `inpaint_count` and `processing`.
It is driven by `load_image`, `toggle_auto_inpaint` and the `auto_inpaint`
loop.

The libraries the application calls into are not modelled. These are the
grey conversion, the saliency engine, cubic resize, SAM, OpenCV inpainting
and OpenCV's rounding. They are the fields of the `Pipeline.Engines`
datatype. The predicate `Pipeline.Sound` states the parts of their
contracts that the round relies on:

- `resize` to a positive `(w, h)` yields exactly that shape;
- `inpaint` keeps a colour image's shape and 8-bit range;
- the rounding lands within one half of its argument.

Modules, leaf first:

- `Images` (images.dfy): the image, mask and saliency-map types, shape
  predicates, and row-major `Flatten` and `Reshape`.
- `ScalePolicy` (scale_policy.dfy): the integer square root and `sr_size`.
- `PromptSelector` (prompt_selector.dfy): the `minMaxLoc` scan and the point
  prompt.
- `MaskAcquirer` (mask_acquirer.dfy): binarising and reshaping the mask.
- `Blender` (blender.dfy): `addWeighted` with equal weights.
- `Pipeline` (pipeline.dfy): the engines, the round as a function
  (`NextImage`), runs of rounds (`RunRounds`) and the class
  `ImageProcessorApp`.

In these places the code behaves differently from what one might expect, and the model follows the code:

- The comment at `inpainting_app.py:98` speaks of one eighth of the
  geometric mean. The code divides it by 4, and so does the model.
- A round that raises (a SAM mask whose element count is not `h * w`)
  kills the worker thread. The code does not clear `processing`, so the
  flag stays on and the button keeps offering "Stop". The model keeps
  `processing` unchanged in that case. It does not stop the loop through
  the flag, and it raises no separate failure event.
- When `cv2.imread` cannot decode the chosen file, `original_image` is
  already set to `None` before `.copy()` raises. `current_image` and the
  counter are left as they were. There is then no original at all, so the
  class invariant `ImageProcessorApp.Valid` only asks that, whenever an
  original is loaded, the current image has its height and width.
- `original_image` is not initialised in `__init__`. The model starts it
  as `None`.

## Model

| member | source | states |
|---|---|---|
| ScalePolicy.Isqrt | inpainting_app.py:99 | `int(np.sqrt(n))` as the integer square root: `r*r <= n < (r+1)*(r+1)` |
| ScalePolicy.SrSize | inpainting_app.py:99-100 | the working size is at least 64; above 64 it is the unique k with `16k^2 <= w*h < 16(k+1)^2`; it is 64 exactly when `w*h < 16*65^2` |
| ScalePolicy.SrSizeMonotone | inpainting_app.py:99-100 | a larger pixel count never gives a smaller working size |
| ScalePolicy.SrSizeOf256Square | inpainting_app.py:99-100 | a 256x256 image gets working size 64 |
| PromptSelector.ArgMaxFirst | inpainting_app.py:109 | the index returned is in range, holds the row's maximum, and no earlier index holds it |
| PromptSelector.Peak | inpainting_app.py:109 | the reference (column, row) of the map's first global maximum in row-major order: in bounds, `>=` every cell, `>` every earlier cell |
| PromptSelector.FirstPeakUnique | inpainting_app.py:109 | at most one cell is the first global maximum, so the tie-break is deterministic |
| PromptSelector.MinMaxLoc | inpainting_app.py:109 | the row-major scan returns `(x, y)` = (column, row) of the first global maximum, equal to `Peak` |
| PromptSelector.PeakPrompt | inpainting_app.py:109-114 | the prompt is the peak `[x, y]` with label 1; it is in bounds and its saliency is `>=` every cell |
| Images.Reshape | inpainting_app.py:123 | C-order `reshape(h, w)` of exactly `h*w` elements gives h rows of w columns whose row-major reading is the input |
| Images.ReshapeOfFlatten | inpainting_app.py:123 | reshaping the flattening of an h-by-w grid gives the grid back |
| Images.FlattenAt | inpainting_app.py:123 | in row-major order, cell (r, c) of an h-by-w grid lands at index `r*w + c` of `h*w` |
| MaskAcquirer.MaskSamples | inpainting_app.py:123 | `mask.astype(uint8) * 255` maps each element to 255 iff it is set, else to 0 |
| MaskAcquirer.BinarizeMask | inpainting_app.py:123 | fails exactly when the mask does not hold `h*w` elements, reporting the count and shape (nothing is resized); otherwise an h-by-w grid of 0/255 whose row-major element k is 255 iff mask element k is set |
| MaskAcquirer.BinarizeCell | inpainting_app.py:123 | cell (row y, column x) is 255 iff mask element `y*w + x` is set |
| MaskAcquirer.BinarizeRoundTrip | inpainting_app.py:123 | reading the binary mask back row-major gives SAM's mask exactly |
| Blender.Saturate | inpainting_app.py:131 | `saturate_cast<uchar>`: the result is the 8-bit sample nearest to its argument (negative values give 0, values above 255 give 255), and a value already in range is kept |
| Blender.BlendSample | inpainting_app.py:130-131 | `0.5a + 0.5b + 0`, rounded and saturated, lies within one half of `(a+b)/2` and between a and b, and equals a when `a == b` |
| Blender.BlendPixel | inpainting_app.py:131 | the per-channel blend keeps the channel count, and each channel lies between the inputs |
| Blender.BlendRow | inpainting_app.py:131 | the per-pixel blend keeps the row width and 3 channels, and each sample lies between the inputs |
| Blender.AddWeighted | inpainting_app.py:130-131 | the blend of two same-shape 8-bit colour images is a well-formed image of that shape, and each sample lies between the corresponding input samples |
| Blender.BlendIdentical | inpainting_app.py:130-131 | blending an image with itself returns that image |
| Pipeline.FullSaliency | inpainting_app.py:93-106 | the saliency map, computed at `SrSize(w, h)` and resized to `(w, h)`, has exactly h rows of w columns |
| Pipeline.RoundPrompt | inpainting_app.py:109-114 | the round's prompt has label 1, lies inside the image, and sits on a maximum of the full-resolution saliency map |
| Pipeline.RoundMask | inpainting_app.py:112-123 | the round's mask exists iff SAM's mask has `h*w` elements, and then it has the image's height and width |
| Pipeline.NextImage | inpainting_app.py:93-131 | a round fails exactly when its mask cannot be reshaped. Otherwise it yields a well-formed image with the same height and width, each sample lying between the TELEA (radius 3) and NS (radius 7) results for the round's mask |
| Pipeline.NextImageWhenPassesAgree | inpainting_app.py:126-131 | when TELEA and NS give the same image for the round's mask, the round yields that image |
| Pipeline.RunRounds | inpainting_app.py:81-84 | up to n rounds keep the image's dimensions; all n complete iff none fails; never more than n |
| Pipeline.ImageProcessorApp.constructor | inpainting_app.py:25-29 | initially no image, counter 0, not processing |
| Pipeline.ImageProcessorApp.LoadImage | inpainting_app.py:58-63 | empty path: nothing changes. Decoded image: original and current both become it, the counter becomes 0, processing is unchanged. Undecodable file: original cleared and the call raises, nothing else changes |
| Pipeline.ImageProcessorApp.ToggleAutoInpaint | inpainting_app.py:67-79 | processing on: it turns off. Off with no image: warning only, state unchanged. Otherwise processing turns on and the worker starts. Images and counter never change |
| Pipeline.ImageProcessorApp.ProcessImage | inpainting_app.py:88-137 | no image: nothing changes. Otherwise the state moves to `NextImage` of the current image and the counter goes up by exactly 1, keeping height and width. A reshape failure raises and changes nothing. The original image and processing flag are never touched |
| Pipeline.ImageProcessorApp.AutoInpaint | inpainting_app.py:81-86 | when processing is on, the loop ends where `RunRounds` from the starting image ends. The counter grows by the rounds completed, and processing stays on only if a round raised. When processing is off, nothing changes |

## Left out

- The Tkinter UI is not modelled: `create_widgets`, `update_counter` and `display_image` (inpainting_app.py:34-56, 143-169). This includes the canvas-fit ratio and the LANCZOS resize, which are presentation only.
- The file dialog and `cv2.imread` (inpainting_app.py:59-61) are not modelled. `LoadImage` takes the chosen path and the decoded image (or `None`) as parameters.
- SAM's model construction, checkpoint path and device (inpainting_app.py:18-23) are left out. `set_image` followed by the single-point, single-mask `predict` is the engine `predict`, which returns the mask flattened in row-major order.
- The grey conversion, the spectral-residual saliency, the cubic resize and the TELEA/NS inpainting (inpainting_app.py:96, 103, 106, 126-127) are floating-point library code. They are abstract engines, constrained only by `Pipeline.Sound`. Saliency values are reals, so float rounding and NaN are not modelled.
- Pipeline.NextImage: only a reshape failure can end a round. `Sound` assumes the engines themselves never raise, so an exception inside SAM or `cv2.inpaint` is not modelled.
- ScalePolicy.Isqrt: this is the exact floor square root. `int(np.sqrt(w*h))` goes through a double, which could differ for `w*h` above 2^52. No real image is that large.
- Blender.BlendSample: the rounding of `cv2.addWeighted` is any nearest rounding. How a tie (`x.5`) is resolved is not fixed, so the sample is pinned to within one half of `(a+b)/2`, not to one exact value.
- PromptSelector.MinMaxLoc: choosing the first maximum in row-major order is a modelling choice. The application's own code does not promise any tie-break.
- Threads and timing are not modelled: `threading.Thread`, `time.sleep(1)` and `update_idletasks` (inpainting_app.py:79, 84-86). `AutoInpaint` runs its rounds sequentially. The user's stop click is the parameter `clickAfter`: the number of rounds completed before the click is seen at a loop test.
- Races are not modelled. This covers a load during an in-flight round, and a stop followed at once by a start, which in the application can leave two worker threads alive.
- The unused field `processed_image` (inpainting_app.py:27) is not modelled.

# Meme generator page: image fit, volume icon and control state

This project models the logic of `script.js`, the page script of a small
browser meme generator. The user picks an image. The script draws it on a
fixed-size canvas, keeping its aspect ratio and centring it. The user then
submits top and bottom captions. A read-aloud button is meant to speak them
through the platform's speech synthesis, in a voice picked from a voice
selector. A slider sets the volume, and an icon shows one of four volume
levels.

The model covers three parts of the script:

- `fit.dfy`, module `Fit`: the image-fit calculator `getDimmensions`, as a
  function over exact `real` numbers. Its lemmas cover aspect preservation,
  which axis is filled, centring, and when the image stays inside the canvas.
- `volume.dfy`, module `Volume`: the threshold chain that picks the volume
  icon level (0 to 3) from the slider value. It is checked against an
  independent definition, the number of thresholds reached, and proved
  monotone.
- `controls.dfy`, module `Controls`: the enabled/disabled flags of the clear
  button, the read-aloud button and the voice selector, plus the option list
  of the voice selector. This is a class whose handler methods
  (`OnImageLoad`, `OnSubmit`, `OnClear`) update the state in place.
  `OnSubmit` appends one option per voice in a loop.

Three behaviours one might expect of such a page are not what the code
does. The model follows the code each time:

- One might expect the fitted rectangle always to lie inside the canvas. The
  code only guarantees this on a square canvas; see "## Findings".
- One might expect an Idle/Drawn/Captioned state machine that refuses a
  caption submit before an image is drawn. The code has only the three
  flags, and its submit handler runs in every state.
- One might expect the voice list to be refreshed on each submit. The code
  appends, so the options repeat. `Controls.SubmitRepeatedly` and
  `Controls.RepeatAt` state that repetition.

## Model

| member | source | states |
|---|---|---|
| `Fit.GetDimensions` | script.js:111-138 | The rectangle keeps the image's aspect ratio (width·imageHeight = height·imageWidth) and is centred on both axes (2·startX + width = canvasWidth, 2·startY + height = canvasHeight). A taller-than-wide image fills the canvas height with startY = 0. Any other image fills the canvas width with startX = 0. |
| `Fit.PortraitIffTaller` | script.js:115-118 | The test "aspect ratio < 1" holds exactly when the image is taller than it is wide. |
| `Fit.PortraitFillsHeight` | script.js:118-125 | For a portrait image, height = canvasHeight, startY = 0, width = canvasHeight·imageWidth/imageHeight, and startX is half the horizontal slack. |
| `Fit.LandscapeFillsWidth` | script.js:127-135 | For a landscape or square image, width = canvasWidth, startX = 0, height = canvasWidth·imageHeight/imageWidth, and startY is half the vertical slack. |
| `Fit.SquareImageTakesLandscapeBranch` | script.js:118-135 | A square image takes the landscape branch: it becomes a canvasWidth × canvasWidth square at x = 0. |
| `Fit.ZeroWidthImageIsCentredLine` | script.js:115-125 | A zero-width image has aspect ratio 0, takes the portrait branch and becomes a zero-width, full-height rectangle at x = canvasWidth/2, y = 0. |
| `Fit.SquareCanvasContainsImage` | script.js:100-135 | On a square canvas every image of non-negative width and positive height gets a rectangle of non-negative size inside the canvas, as the doc comment promises. |
| `Fit.NonSquareCanvasLetsSomeImageOut` | script.js:100-135 | On any positive canvas that is not square, some positive-sized image is drawn partly outside the canvas. |
| `Fit.EveryImageFitsIffSquareCanvas` | script.js:100-135 | Every image of non-negative width and positive height fits inside the canvas if and only if the canvas is square. |
| `Fit.WideCanvasOverflow` | script.js:127-135 | A 400×100 canvas with an 800×400 image gives width 400, height 200, startX 0, startY −50. |
| `Fit.FitInside` | script.js:100-102 | The corrected fit picks the axis by comparing the image's aspect ratio with the canvas's. For every positive canvas and image, the result lies inside the canvas, keeps the aspect ratio, is centred, and fills the width or the height. |
| `Fit.FitInsideAgreesOnSquareCanvas` | script.js:111-135 | On a square canvas the corrected fit and `getDimmensions` give the same rectangle. |
| `Volume.VolumeLevel` | script.js:86-97 | The level is in 0..3. It is 3 iff value ≥ 67, 2 iff 34 ≤ value < 67, 1 iff 1 ≤ value < 34, and 0 iff value < 1. |
| `Volume.VolumeLevelCountsThresholds` | script.js:86-97 | The level equals the number of thresholds 1, 34 and 67 that the value reaches. |
| `Volume.ThresholdsReachedMonotone` | script.js:86-97 | A larger value reaches at least as many thresholds, for any threshold list. |
| `Volume.VolumeLevelMonotone` | script.js:86-97 | Raising the slider never lowers the icon level. |
| `Volume.VolumeSamples` | script.js:86-97 | Slider values 0, 33, 50 and 90 give levels 0, 1, 2 and 3. |
| `Controls.OptionLabels` | script.js:57-62 | There is one label per voice, in input order. Label i is `name + " (" + lang + ")"` of voice i. |
| `Controls.PageControls.OnImageLoad` | script.js:21-27 | Clear and read-aloud become disabled. The voice selector's flag and options are unchanged. |
| `Controls.PageControls.OnSubmit` | script.js:41-62 | Clear, read-aloud and the voice selector become enabled. The options become the old options followed by one label per voice, in order, with nothing removed. |
| `Controls.PageControls.OnClear` | script.js:65-69 | Clear and read-aloud become disabled. The voice selector's flag and options are unchanged. |
| `Controls.SubmitRepeatedly` | script.js:41-62 | After k submits with the same voices, the options are the old options followed by k copies of the voice labels. After at least one submit, all three controls are enabled. |
| `Controls.RepeatAt` | script.js:55-62 | Copy j of the repeated labels sits at positions j·n to (j+1)·n, where n is the number of labels, and holds the labels in order. So each voice appears once per submit. |
| `Controls.Dispatch` | script.js:21-69 | Every handler leaves clear and read-aloud equal to each other. They are disabled exactly when the event is not a submit. No handler disables an enabled voice selector. No handler removes or changes an existing option. |

## Left out

- Canvas drawing is not modelled: clearing, the black fill, drawing the image, fonts and the caption text. These are rendering calls with no result to check.
- Image loading is not modelled: the file input's `change` handler, object URLs and the asynchronous `load` event. These are browser I/O. Only the load handler's flag updates are modelled.
- The read-aloud handler is not modelled (script.js:71-81). It builds an utterance from the two captions, then assigns the selector's `value` string to the utterance's `voice` (script.js:78), where the platform expects a voice object; each option's value is the text "[object SpeechSynthesisVoice]" (script.js:60). The model does not cover what the platform does with that string, so neither the volume setting (script.js:79) nor the call to speak (script.js:80) is modelled. The list of available voices is a parameter of `OnSubmit`.
- Not modelled: DOM lookups, listener registration, the `value` attribute of each option (a stringified voice object), the console log and the icon file names. The volume model returns the icon level, not the file path.
- `Fit.GetDimensions` uses exact real arithmetic, not IEEE-754 doubles, so rounding is not modelled.
- `Fit.GetDimensions` requires a positive image height; a zero width is admitted and gives a finite rectangle (`Fit.ZeroWidthImageIsCentredLine`). With a zero height the script divides by zero: the ratio is Infinity, and the result is width canvasWidth, height 0, startX 0, startY canvasHeight/2, while a 0×0 image gives width canvasWidth, startX 0 and NaN for height and startY. Exact reals cannot represent the division, and a decoded image has a positive height.
- `Controls.PageControls.constructor` takes the initial flags and options as parameters. The page markup that sets them is not part of this model.
- `Volume.VolumeLevel` takes any integer. The slider's own range (0 to 100) comes from the markup, which is not part of this model.

## Findings

| source | as written | input that shows it | evidently intended | confidence | as-written member | corrected member |
|---|---|---|---|---|---|---|
| script.js:111-135 | The filled axis is chosen from the image's aspect ratio alone, never compared with the canvas's. | A 400×100 canvas and an 800×400 image give height 200 at startY −50, so the image overflows the canvas. | The doc comment (script.js:100-102) says the image fits into the canvas. That needs a comparison of the image's aspect ratio with the canvas's. | not executed; medium: the canvas size comes from page markup that is not part of this model, and on a square canvas both versions agree | `Fit.WideCanvasOverflow` | `Fit.FitInside` |

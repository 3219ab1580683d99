# wiz-ambilight in Dafny

A verified model of the colour pipeline in `ambilight.py`, an ambient-light
service for Hyprland. The service watches the VLC window and keeps a WiZ bulb
in the colour of the video's edges. Each pass of its main loop does four things:

1. It asks the compositor for the geometry of the first window whose class
   contains "vlc" (`get_vlc_geometry`).
2. It takes a screenshot of that window, shrinks it to 80x45 and averages the
   colour of a five-pixel band around its edge (`extract_edge_average`).
3. It blends that colour with the previous one (`smooth_color`, blend factor
   0.75) and passes the result through a saturation/brightness boost
   (`enhance_color`).
4. It sends the result to the bulb as a JSON `setPilot` datagram
   (`send_color_to_wiz`).

The loop also counts passes without a VLC window, prints "waiting" on miss
counts 1, 11, 21, ... and prints "detected" when the window comes back.

The model has one Dafny module per piece:

| module | file | what it holds |
|---|---|---|
| `Colors` | `colors.dfy` | RGB triples, channels, the 8-bit gamut |
| `Text` | `text.dfy` | decimal rendering of integers and its parser, splitting on a separator |
| `EdgeBands` | `edge_average.dfy` | the four bands, the stacked sample list, the truncated mean, and rectangle sums that characterise it |
| `Smoothing` | `smoothing.dfy` | `(3n + o) div 4` per channel, and how repeated smoothing converges |
| `WindowLocator` | `window_locator.dfy` | first-match search over decoded clients, the `X,Y WxH` string and its parse-back |
| `BulbCommand` | `bulb_command.dfy` | the exact `setPilot` text and its parse-back |
| `ControlLoop` | `control_loop.dfy` | one pass of the loop as a function `Next`, its iteration `Run`, and the class `Ambilight` whose `Step` and `RunAll` methods update the two loop variables in place and are proved against `Next` and `Run` |

Where the code does something different from what a reader might expect, the
model follows the code:
- `smooth_color` truncates with `int(...)`; it does not round. `Smoothing.RisingStaysBelow` shows the consequence for `smooth_color` iterated on its own: a channel rising toward a steady value stops at least one below it. The loop itself blends and then enhances on every pass, so this describes the loop only when `enhance_color` leaves colours unchanged (`ControlLoop.SmoothingOnlyRun`); a brightening enhancement can carry the stored colour past the steady value.
- The loop stores the *enhanced* colour in `last_color` (ambilight.py:193), not the raw average. It does so whether or not the send succeeded.
- When the first VLC client lacks `at` or `size`, indexing raises. The `except` then makes the whole search return None; later clients are never tried.

## Model

| member | source | states |
|---|---|---|
| EdgeBands.EdgeAverage | ambilight.py:52-74 | the average is in gamut, and each channel is the integer quotient of the band sum by the sample count, i.e. the truncated numpy mean |
| EdgeBands.SampleCount | ambilight.py:61-71 | the stacked list has a positive number of samples for every frame with bands, and exactly 1250 for an 80x45 frame |
| EdgeBands.EdgeSamples | ambilight.py:66-71 | the list built by slicing, reshaping and stacking the four bands has `SampleCount` entries, and each channel sums to the sum of the four band rectangles |
| EdgeBands.TopBandSum | ambilight.py:61 | `img_array[:5, :]` flattened has 5*W samples and sums to the top rectangle |
| EdgeBands.BottomBandSum | ambilight.py:62 | `img_array[-5:, :]` flattened has 5*W samples and sums to the bottom rectangle |
| EdgeBands.LeftBandSum | ambilight.py:63 | `img_array[:, :5]` flattened has 5*H samples and sums to the left rectangle |
| EdgeBands.RightBandSum | ambilight.py:64 | `img_array[:, -5:]` flattened has 5*H samples and sums to the right rectangle |
| EdgeBands.EdgeSumBounds | ambilight.py:73 | every channel of the mean lies in 0..255 |
| EdgeBands.EdgeSumUniform | ambilight.py:61-71 | on a single-colour frame the band sum is the sample count times the colour's channel |
| EdgeBands.UniformFrameAverage | ambilight.py:52-74 | a frame of one colour averages to exactly that colour |
| EdgeBands.EdgeSumAgree | ambilight.py:61-71 | frames that agree on the five-pixel border have equal band sums |
| EdgeBands.InteriorIrrelevant | ambilight.py:61-73 | frames that agree on the five-pixel border have the same average: interior pixels never matter |
| EdgeBands.Weight | ambilight.py:61-71 | a pixel is sampled zero times exactly when it is off the border; on frames at least 10x10, twice exactly in the four corner squares and never more |
| EdgeBands.EdgeSumSet | ambilight.py:61-71 | changing one pixel changes the band sum by the change times the number of bands the pixel lies in |
| EdgeBands.PixelContribution | ambilight.py:61-73 | changing one pixel's channel by d changes the band sum by Weight * d, so corner pixels count double |
| Smoothing.SmoothChannel | ambilight.py:143-146 | the blended channel is the truncation of (3n + o)/4; it lies between the old and new values, and below the new value when rising, below the old one when falling |
| Smoothing.Smooth | ambilight.py:143-146 | the blended colour is in gamut, every channel lies between the two inputs, and smoothing a colour with itself returns it |
| Smoothing.RisingStaysBelow | ambilight.py:143-146 | `smooth_color` iterated on its own toward a brighter steady value never reaches it, and a channel one short stays one short |
| Smoothing.FallingSettles | ambilight.py:143-146 | `smooth_color` iterated on its own toward a darker steady value never undershoots it, and the gap shrinks at least fourfold per application |
| Smoothing.FallingSettlesInFourSteps | ambilight.py:143-146 | four applications of `smooth_color` on their own toward a darker steady value reach it exactly |
| Text.NatToString | ambilight.py:33 | the decimal rendering of a natural number is non-empty, all digits, and starts with 0 only for zero |
| Text.IntToString | ambilight.py:133-135 | a non-negative number renders as digits only, a negative one as a minus sign followed by digits |
| Text.IntToStringRoundTrip | ambilight.py:133-135 | every integer's rendering parses back to that integer |
| WindowLocator.Lower | ambilight.py:29 | `str.lower` on ASCII text keeps the length and lowers each character |
| WindowLocator.IsVlc | ambilight.py:29-30 | a client is selected exactly when "vlc" occurs at some offset of its lower-cased class |
| WindowLocator.FirstVlc | ambilight.py:28-30 | the loop stops at the first client whose lower-cased class contains "vlc", and finds none exactly when no client matches |
| WindowLocator.VlcGeometry | ambilight.py:28-36 | a geometry is returned exactly when the first VLC client has `at` and `size`, and it is that client's `X,Y WxH` |
| WindowLocator.FirstMatchWins | ambilight.py:28-36 | the result carries the first VLC client's position and size, never a later client's |
| WindowLocator.Geometry | ambilight.py:33 | the `X,Y WxH` string parses back to exactly the position and size it was made from |
| WindowLocator.ContainsAt | ambilight.py:30 | Python's substring test holds exactly when the text occurs at some offset |
| WindowLocator.MatchAt | ambilight.py:29-30 | a class whose characters at some offset lower-case to "vlc" is selected |
| WindowLocator.VlcAnywhereMatches | ambilight.py:29-30 | "vlc" or "VLC" anywhere in the class, as in "org.videolan.VLC", selects the client |
| WindowLocator.NoVNoMatch | ambilight.py:29-30 | a class without the letter v in either case is never selected |
| BulbCommand.Payload | ambilight.py:131-135 | the `json.dumps` text's three number fields, between its fixed key texts, are exactly the decimal renderings of r, g and b |
| BulbCommand.PayloadRoundTrip | ambilight.py:131-135 | parsing the payload gives back the colour that was sent |
| BulbCommand.PayloadInjective | ambilight.py:131-135 | different colours give different datagrams |
| BulbCommand.RedPayload | ambilight.py:131-135 | pure red is sent as `{"method": "setPilot", "params": {"r": 255, "g": 0, "b": 0}}`, character for character |
| ControlLoop.Next | ambilight.py:161-193 | a miss raises the counter, sends nothing and prints at most "waiting", exactly on counts 1 mod 10; a find resets the counter and prints "detected" if there were misses, then the send's report (the colour on success, the failure otherwise) if a frame was captured; a failed capture keeps the colour and sends nothing; a completed cycle stores and sends enhance(smooth(average, last)) whether or not the send succeeds |
| ControlLoop.FindNotices | ambilight.py:172-191 | on a find, "detected" is printed exactly when there were misses, "waiting" never, and the colour is reported exactly when the send succeeded |
| ControlLoop.LocatorResultFound | ambilight.py:164-165 | `if not geometry` (the predicate `Found`) is false exactly when the locator returned None: the locator never returns an empty string |
| ControlLoop.Run | ambilight.py:161-197 | iterating the loop keeps the stored colour in gamut and produces one record of effects per pass |
| ControlLoop.WaitsClosedForm | ambilight.py:166-167 | among counts m+1..m+k, (m+k+9) div 10 - (m+9) div 10 are 1 mod 10 |
| ControlLoop.MissRun | ambilight.py:161-170 | a run of misses produces exactly the separately defined miss log `MissLog`, and raises the counter by the run's length |
| ControlLoop.MissLogLength | ambilight.py:166-168 | k misses from count m print one line per count in m+1..m+k that is 1 mod 10 |
| ControlLoop.MissLogOnlyWaiting | ambilight.py:166-168 | every line a run of misses prints is "waiting" |
| ControlLoop.MissLogSilent | ambilight.py:165-170 | a run of misses sends no datagram |
| ControlLoop.MissStreak | ambilight.py:161-170 | k misses raise the counter by k, keep the colour, send nothing, and print only "waiting" lines, one per count that is 1 mod 10 |
| ControlLoop.MissMissFind | ambilight.py:157-179 | from startup, two misses and a failed capture print "waiting" then "detected" and return the loop to its initial state |
| ControlLoop.SmoothingOnlyRun | ambilight.py:181-193 | with the enhancement leaving colours unchanged, passes that each capture a frame of one colour store that colour's `Settle` of the starting colour, channel by channel: the loop then only iterates `smooth_color` |
| ControlLoop.BlueFrameAfterStartup | ambilight.py:157-193 | a solid blue frame right after startup smooths to (0, 0, 191) against black, and the datagram carries its enhancement |
| ControlLoop.AppendFound | ambilight.py:172-191 | printing "detected" while a "waiting" line is pending, then a send outcome, keeps the lines bracketed |
| ControlLoop.NextKeepsBracketed | ambilight.py:164-174 | one pass keeps the printed lines bracketed and leaves a "waiting" line pending whenever the counter is positive |
| ControlLoop.DetectedFollowsWaiting | ambilight.py:157-174 | from startup, every "detected" line comes after a "waiting" line printed since the previous "detected" |
| ControlLoop.SendOutcomeIrrelevant | ambilight.py:190-193 | whether sends succeed changes neither the loop's state nor any datagram it sends |
| ControlLoop.Ambilight.constructor | ambilight.py:157-159 | the loop starts with black as the last colour and a zero counter |
| ControlLoop.Ambilight.Step | ambilight.py:161-197 | one pass updates the two fields and produces the effects exactly as `Next` says |
| ControlLoop.Ambilight.RunAll | ambilight.py:161-197 | running passes over a list of outcomes leaves the fields and the log exactly as `Run` says |

## Left out

- Running `hyprctl clients -j` and decoding its JSON (ambilight.py:19-27): the model starts from the decoded list of clients. A class that is present but not a string, and a client list that is not a list, are not modelled.
- Lower-casing is modelled for ASCII only; Python's `str.lower` also folds non-ASCII letters.
- Taking the screenshot with `grim` and opening the PNG (ambilight.py:38-50): the loop receives the captured frame, or its absence, as an input.
- Errors that end the program: `Image.open` (ambilight.py:47) does not decode the pixels, so a PNG that opens but fails to decode raises at `img.resize` (ambilight.py:55), outside any `try`; a frame with four channels raises at `reshape(-1, 3)` (ambilight.py:67). Either exception leaves `main`, and only Ctrl+C is caught (ambilight.py:199-205), so the service stops. The model admits only decodable three-channel frames and does not represent that outcome.
- `img.resize((80, 45))` (ambilight.py:55): PIL's resampling is not modelled. The edge average starts from the resized grid, which must be rectangular, at least 5x5 and 8-bit RGB.
- `enhance_color` (ambilight.py:76-124): float32 HSV arithmetic. The loop takes it as an arbitrary function from colours to colours that keeps them in 0..255, which its final clamping and `int(x * 255)` guarantee.
- The UDP socket, its timeout and the destination address (ambilight.py:128-141): the send is modelled by the datagram text and a success flag.
- `time.time` and `time.sleep` pacing (ambilight.py:162, 169, 178, 195-197), the banner (ambilight.py:149-155) and the Ctrl+C shutdown (ambilight.py:199-205). The `while True` loop is modelled by finite runs of any length.
- ControlLoop.Next: the text of the printed lines is not modelled, only which line is printed and, for a successful send, the colour it reports.
- find_bulb.py is not part of this model: it is a one-shot UDP broadcast script with no logic.

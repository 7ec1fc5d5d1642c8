# Heat-Transfer dashboard: a verified model of its data path and UI state

The Heat-Transfer dashboard shows telemetry from a heat-transfer bench. The bench sends
56-byte frames over a serial link. The dashboard checks each chunk it receives, decodes the
sensor, time, heater and power words, keeps a 50-point chart history, records CSV rows on
request, and drives the connection and heater buttons. A pop-out Chart.js page copies the
newest 100 points and scales its two axes to the visible data. A browser build of the page
does the connection and heater handling through HTTP requests.

The Dafny modules follow the program's parts:

- `Values`: bytes, 32-bit words, and JavaScript numbers (`null`, `NaN`, the two infinities
  and finite reals).
- `Text`: `String(n)`, `toString(16)`, `padStart`, `split` and `join`.
- `Frame`: the per-chunk check of `handleIncomingData` and the payload layout read by
  `parseAndDisplayData`.
- `History`: the push-then-shift window of `addPoint`, and `slice(-n)`.
- `Formatters`: `formatTimeHmsMs`.
- `UsbMatch`: the vendor/product id match of the Web Serial auto-connect.
- `Csv`: the text `stopCsvSaving` exports.
- `Renderer`: the module-level state of renderer.js, as class `Dashboard`.
- `Plot`: the sanitising loop and axis ranges of `redrawChart`.
- `JsMath`: JavaScript arithmetic and `Math.min`/`Math.max` over those numbers.
- `ChartPage`: chart-page.js, as class `LiveChart`.
- `WebApp`: renderer-web.js, as class `WebPage`.

Some things the code computes come from the platform. Each one is a function-valued
parameter:

- the float32 reading of a word;
- `toFixed(1)`;
- the slider values;
- the replies of the HTTP requests.

Some behaviour of the code is worth stating explicitly:

- Each chunk is judged on its own, with nothing kept from one chunk to the next, so a frame
  split across two chunks is rejected in both parts (`Frame.SplitFrameRejected`).
- A comment at renderer.js:756 promises that sensor 8 is shown on tile T1. The code computes
  tile `9 - (8 - i) = i + 1`, which is the identity. The "Sensor i+1" text and chart series
  `i` use the same numbering, so the model keeps the identity (`Frame.TileIsNotInverted`).
- renderer.js:550 disables the connect button in the disconnected branch too. renderer-web.js
  enables it. Each class keeps its own file's behaviour.

## Model

| member | source | states |
|---|---|---|
| Frame.Classify | renderer.js:686-706 | the verdict is Incomplete iff fewer than 56 bytes; BadHeader iff long enough but bytes 0-1 are not 0x55 0x55; BadFooter iff the header is right but bytes 54-55 are not 0xAA 0xAA; Valid iff all three checks pass |
| Frame.Payload | renderer.js:735 | the payload of a long-enough chunk is 52 bytes |
| Frame.FrameRoundTrip | renderer.js:686-735 | a payload framed by 0x55 0x55 and 0xAA 0xAA is accepted, and its payload is the one framed |
| Frame.AcceptedIsFramed | renderer.js:686-688 | every accepted chunk starts with a well-formed 56-byte frame around its payload |
| Frame.TrailingBytesIgnored | renderer.js:686-688 | bytes after offset 55 change neither the verdict nor the payload |
| Frame.SplitFrameRejected | renderer.js:664-707 | nothing is kept between chunks: both halves of a frame split in two are rejected as incomplete |
| Frame.WordRoundTrip | renderer.js:749-755 | the little-endian bytes of a word read back as that word |
| Frame.BytesRoundTrip | renderer.js:749-755 | the word read at an offset gives back exactly the four bytes there |
| Frame.BytesOfWordsFrom | renderer.js:743-755 | the first `n` words read from a payload, written back as little-endian bytes, are exactly its first `4n` bytes |
| Frame.DecodeEncode | renderer.js:743-814 | decoding the payload built from eight sensor, time, heater and power words gives back every word |
| Frame.EncodeDecode | renderer.js:743-814 | re-encoding a decoded payload with its own bytes 48-51 gives back the payload |
| Frame.DecodeReadsFirst48 | renderer.js:735-817 | two payloads decode alike iff their first 48 bytes agree, so bytes 48-51 are never read |
| Frame.ChartValues | renderer.js:782-820 | the vector pushed for a frame has exactly 12 entries |
| Frame.ChartValuesLayout | renderer.js:784-820 | entry `i < 8` is the word at chunk offset `2 + 4i`, entries 8, 9 and 10 the words at 38, 42 and 46, entry 11 the target; the time is the word at 34 |
| Frame.TileNumber | renderer.js:757-758 | sensor word `i` goes to tile `i + 1` |
| Frame.TileIsNotInverted | renderer.js:756-758 | sensor 1 is on tile T1 and sensor 8 on T8; no sensor is on the tile the inversion comment names |
| History.LastN | chart-page.js:218 | for n >= 1, `slice(-n)` keeps `min(n, length)` elements and they are the newest ones |
| History.SlideWithinWindow | renderer.js:189-197 | one push keeps a window of at most `max`; the new point is last and only the oldest point can be dropped |
| History.FeedIsLastN | renderer.js:189-197 | after any stream of points the window holds exactly the newest `max` of everything seen, in arrival order |
| Formatters.FormatTimeHmsMs | renderer.js:368-371 | a non-number or non-finite time gives "00:00:00.000" |
| Formatters.ClockOfNonNegative | renderer.js:372-376 | for t >= 0, seconds and minutes are below 60, milliseconds below 1000, and h*3600 + m*60 + s is the whole seconds |
| Formatters.Pad2Exact | renderer.js:377 | a number below 100 pads to exactly two characters, all decimal digits, that read back as the number |
| Formatters.Pad3Exact | renderer.js:378 | a number below 1000 pads to exactly three characters, all decimal digits, that read back as the number |
| Formatters.ClockTextReadsBack | renderer.js:379 | a clock with parts in range prints as H:MM:SS.mmm, every field made of decimal digits and reading back as its part |
| Formatters.FormatTimeReadsBack | renderer.js:368-380 | for t >= 0 the text has decimal fields of at least two, two, two and three digits; they read back as the whole seconds and as the whole milliseconds of the fraction of t |
| Text.NatToString | renderer.js:462 | `toString(16)` and `String(n)` give at least one digit and only digits of the radix |
| Text.StringValueOfNatToString | renderer.js:462 | reading the digits back gives the number |
| Text.PadStart | renderer.js:462 | `padStart` gives `max(width, length)` characters: pad characters, then the original string |
| Text.PaddedValue | renderer.js:462 | zero padding does not change the value the digits denote |
| Text.HexWidth | renderer.js:462-463 | an id below 0x10000 has at most four hex digits |
| UsbMatch.VendorText | renderer.js:462-464 | vendor id 0x12BF prints as "12BF" |
| UsbMatch.ProductText | renderer.js:462-464 | product id 0x010C prints as "010C" |
| UsbMatch.IdTextValue | renderer.js:462-463 | a missing id prints as 0 would, and the id text reads back as the id |
| UsbMatch.IsTargetDeviceIff | renderer.js:462-464 | the text comparison holds iff the vendor id is 0x12BF and the product id 0x010C, a missing id counting as 0 |
| UsbMatch.FindAutoConnectPort | renderer.js:459-467 | the port opened is the first one in list order that matches; none is opened when no port matches |
| Csv.RowOf | renderer.js:200-212 | a recorded row holds exactly 8 temperatures (values 0-7; heaters, power and target follow) |
| Csv.Cells | renderer.js:953-956 | one cell per value, each `toFixed(1)` of a finite value or empty |
| Csv.Fields | renderer.js:945-969 | a row has exactly as many fields as the header has columns (14) |
| Csv.HeaderColumns | renderer.js:945 | the header splits into its 14 column names and holds no newline |
| Csv.RowReadsBack | renderer.js:947-971 | a row line splits at commas back into its 14 fields and holds no newline |
| Csv.DocumentIsJoin | renderer.js:945-972 | the export is the header and the row lines, in collection order, each ended by a newline |
| Csv.DocumentReadsBack | renderer.js:945-972 | splitting the export at newlines gives the header, one line per row in order, then an empty piece; each row line splits into its fields |
| Csv.CsvReadsBack | renderer.js:939-972 | the same read-back for the 14-column header |
| Csv.BuildRow | renderer.js:948-969 | the row loop builds the row's line |
| Csv.BuildCsv | renderer.js:945-972 | the export loop builds the export text of all rows |
| Renderer.ActiveButton | renderer.js:1444-1458 | mode 0, 1, 2 mark exactly the Off, Left, Right button; any other mode marks none |
| Renderer.TargetSample | renderer.js:819-820 | the target is the slider's integer, or NaN when it does not parse |
| Renderer.Dashboard.constructor | renderer.js:2-5 | the page starts with empty time and series, every series enabled, not saving, no rows, no packets, mode 0; the connect button and heater button classes keep their markup state |
| Renderer.Dashboard.AddPoint | renderer.js:189-212 | time and every series slide by one point in the 50-point window; the history stays aligned; one row is recorded iff saving is on |
| Renderer.Dashboard.PushValues | renderer.js:191-193 | every series receives its new value last |
| Renderer.Dashboard.DropOldest | renderer.js:196 | every series loses exactly its oldest value |
| Renderer.Dashboard.ClearData | renderer.js:1100-1105 | the time array and all 12 series become empty |
| Renderer.Dashboard.RebuildTarget | renderer.js:1427-1434 | the target series becomes a flat line at the new target, one point per time; the other series stay |
| Renderer.Dashboard.UpdateConnectionStatus | renderer.js:516-553 | the flag follows the argument; connect is disabled in both branches |
| Renderer.Dashboard.HandleIncomingData | renderer.js:664-707 | a rejected chunk changes nothing; an accepted one marks the link connected, counts exactly one packet, adds its 12 values at its time, records a CSV row iff saving was on, and leaves the enabled flags, the saving flag, the heater mode and the heater button classes unchanged |
| Renderer.Dashboard.ClearLog | renderer.js:886-893 | the packet counter becomes 0 |
| Renderer.Dashboard.SetHeaterMode | renderer.js:1460-1462 | the mode is set and exactly its button, if any, is marked active |
| Renderer.Dashboard.StartCsvSaving | renderer.js:897-931 | a confirmed start turns saving on with no rows; a cancelled dialog changes nothing |
| Renderer.Dashboard.StopCsvSaving | renderer.js:933-989 | saving stops; nothing is exported iff no rows were recorded, otherwise the export text of the rows |
| Plot.Kept | renderer.js:278-296 | a value is kept iff it is a finite number in range ([-1e6, 1e6] for power, [-50, 200] otherwise); anything else becomes null |
| Plot.KeptSeries | renderer.js:275-297 | the drawn series is as long as its input and is the input value by value, each kept or nulled |
| Plot.MinOfIsLeast | renderer.js:285-291 | the running minimum exists iff a value was kept and is the least kept value |
| Plot.MaxOfIsGreatest | renderer.js:286-292 | the running maximum exists iff a value was kept and is the greatest kept value |
| Plot.AxisRangeContains | renderer.js:330-341 | an axis range exists iff the axis has a kept value; then it holds every kept value strictly inside, with at least 5% of the span as margin on each side |
| Plot.AxisValuesAreKept | renderer.js:277-295 | every value on an axis comes from a finite in-range sample of a series on that axis |
| Plot.ShapeSeries | renderer.js:270-341 | the 12 drawn series are the sanitised inputs and both ranges are the ranges of the kept values; the enabled flags are not an input |
| Plot.SanitiseSeries | renderer.js:275-297 | the inner loop sanitises one series and moves the running extremes over its kept values |
| JsMath.Add | chart-page.js:281-282 | finite values add as reals; the sum is NaN iff an operand is NaN or the infinities have opposite signs |
| JsMath.Max | chart-page.js:280 | `Math.max` is NaN iff an operand is; otherwise it is one of them and not below either |
| JsMath.MinAllIsLeast | chart-page.js:276 | `Math.min(...vs)` over values without NaN is one of them and not above any |
| JsMath.MaxAllIsGreatest | chart-page.js:277 | `Math.max(...vs)` over values without NaN is one of them and not below any |
| ChartPage.SourceSeries | chart-page.js:221-236 | each dataset is fed by one of the 12 series |
| ChartPage.SourceSeriesInvolution | chart-page.js:221-236 | the mapping (0-9 to 0-9, 10 to 11, 11 to 10) is its own inverse, so no two datasets share a series |
| ChartPage.Refreshed | chart-page.js:218-236 | a dataset whose series is present becomes its newest entries, at most 100 and exactly 100 unless all fit; a missing series leaves the dataset untouched |
| ChartPage.Contributing | chart-page.js:259-270 | the collected points hold no NaN |
| ChartPage.ContributingMembers | chart-page.js:260 | a point is collected iff it is in the dataset and is neither null nor NaN |
| ChartPage.AxisPoints | chart-page.js:253-272 | the points collected for an axis hold no NaN |
| ChartPage.AxisPointsFromVisible | chart-page.js:253-272 | every collected point comes from a dataset that is visible (meta and dataset) and on that axis |
| ChartPage.VisibleValuesCollected | chart-page.js:253-272 | conversely, every number other than NaN in a visible dataset on that axis is collected |
| ChartPage.TempScaleFinite | chart-page.js:275-292 | for finite values the temperature axis is `[min - pad, max + pad]` with pad = max(15% of the range, 5), at least 10 wide |
| ChartPage.TempScaleInfinite | chart-page.js:275-292 | with an infinite extreme the axis spans everything, or is NaN when both extremes are the same infinity |
| ChartPage.TempNeverRecentres | chart-page.js:284-288 | the temperature re-centring branch never fires |
| ChartPage.PowerScaleFinite | chart-page.js:297-313 | for finite values the power minimum is `max(min - pad, 0)`; re-centring fires iff that clamp is hit and `max + pad < 10`, and then the maximum is `(max + pad) / 2 + 5`, not below `max + pad` |
| ChartPage.PowerPaddedFinite | chart-page.js:302-306 | the padded power bounds for finite values, and when they are narrower than 10 |
| ChartPage.RecentredPower | chart-page.js:306-310 | re-centring `[0, top]` with `top < 10` gives `[0, top / 2 + 5]` |
| ChartPage.PowerScaleInfinite | chart-page.js:297-313 | with an infinite extreme the power axis is `[0, Infinity]`, or NaN when both extremes are the same infinity |
| ChartPage.PowerMinNonNegative | chart-page.js:303-308 | the power minimum is never below 0 |
| ChartPage.TempAxisHoldsValues | chart-page.js:274-291 | unless the bounds are NaN, the new temperature axis holds every collected value |
| ChartPage.PowerAxisAboveValues | chart-page.js:296-313 | unless the maximum is NaN, the new power maximum is at or above every collected value, re-centred or not |
| ChartPage.Rescaled | chart-page.js:275-313 | with no collected values the axis is unchanged; otherwise both bounds are set |
| ChartPage.Toggled | chart-page.js:169 | `meta.hidden` becomes null iff it was set |
| ChartPage.ToggleFlips | chart-page.js:169 | two clicks restore the legend state; on a dataset not hidden by its options, one click flips whether it counts for scaling |
| ChartPage.LiveChart.constructor | chart-page.js:33-120 | twelve empty datasets, nothing hidden, temperature axis 0 to 50, power axis unset |
| ChartPage.LiveChart.AutoScaleYAxis | chart-page.js:244-320 | each axis is rescaled over the points of the visible datasets on it |
| ChartPage.LiveChart.UpdateChartWithData | chart-page.js:214-242 | labels become the newest 100 times, every dataset is refreshed from its series, then both axes are rescaled |
| ChartPage.LiveChart.CopySeries | chart-page.js:218-236 | every dataset is refreshed from its source series |
| ChartPage.LiveChart.ToggleLegend | chart-page.js:163-170 | only the clicked dataset's `meta.hidden` changes, as `Toggled` says |
| ChartPage.CollectPoints | chart-page.js:258-271 | the inner loop collects exactly the contributing points |
| ChartPage.CollectAxes | chart-page.js:248-272 | the collecting loop gathers exactly the axis points of the visible datasets per axis, and each counter equals its axis's number of points |
| ChartPage.CollectDataset | chart-page.js:254-271 | one pass adds dataset `i`'s contributing points to its own axis when it is visible, and nothing otherwise |
| ChartPage.ScaleAxis | chart-page.js:274-313 | an axis with collected values gets the scaled bounds of their minimum and maximum; otherwise it keeps its bounds |
| ChartPage.LiveChart.CopyDataset | chart-page.js:221-236 | one copy refreshes dataset `d` from its source series and leaves every other dataset as it was |
| WebApp.ErrorText | renderer-web.js:176 | an error message is shown as given |
| WebApp.HeaterErrorText | renderer-web.js:342 | a non-empty error is shown as given; a missing or empty one as "Unknown error" |
| WebApp.ClicksCycle | renderer-web.js:338 | `n` clicks from mode `m` in 0..2 lead to `(m + n) % 3`, stay in 0..2, and every third click returns to the start |
| WebApp.HeaterLabelsDistinct | renderer-web.js:347-356 | the three modes have three different captions |
| WebApp.WebPage.constructor | renderer-web.js:4-27 | the page starts disconnected, with no packets and the heater off |
| WebApp.WebPage.AddToLog | renderer-web.js:29-34 | the message is appended to the log |
| WebApp.WebPage.UpdateConnectionStatus | renderer-web.js:108-141 | the flag follows the argument; connect is disabled iff connected and disconnect iff not; the info text shows the port only while connected |
| WebApp.WebPage.ConnectToPortHandler | renderer-web.js:163-183 | with no port selected only a hint is logged; otherwise the page ends connected iff the request succeeds, with the buttons matching, the status text "Connected" or "Disconnected", the info text the port at 9600 baud or "No device connected", and logs the attempt and its outcome |
| WebApp.WebPage.DisconnectFromPortHandler | renderer-web.js:185-199 | the page always ends disconnected with the buttons matching, the status text "Disconnected" and the info text "No device connected", and logs the outcome |
| WebApp.WebPage.ClearLog | renderer-web.js:201-208 | the log holds only the cleared notice and the packet counter is 0 |
| WebApp.WebPage.HeaterToggle | renderer-web.js:336-357 | the mode advances to `(mode + 1) % 3` whatever the reply; the caption names the new mode and the button is active iff the mode is not off; a failed request is logged |

## Left out

- Serial and HTTP I/O are not modelled: the Web Serial read loop, `fetch`, IPC and the Electron main process. Replies enter the handlers as parameters.
- The DOM is not modelled beyond the browser page's connection status text, connection information text and heater caption, which `WebApp.WebPage` keeps. This covers the renderer.js tile and text updates, the raw-data hex dump, the parsed-data text, the log time stamps, the system status indicator and the slider geometry.
- Plotly and Chart.js rendering are not modelled. This includes the mirror of each point into the live charts inside `addPoint`, and `chart.update`.
- The simulated data, the timers, the once-a-second refresh and the delayed rescale after a legend click are not modelled.
- Numbers are exact reals. Double and float32 rounding are not modelled, and the float32 bit pattern reading is a parameter, as is `toFixed(1)`.
- `undefined` and `null` in a chart dataset are one value (`Null`); both are skipped alike.
- Renderer.Dashboard.HandleIncomingData: does not model the conversion of the incoming object to a byte array. The chunk arrives as bytes.
- Renderer.Dashboard.HandleIncomingData: does not model the log messages for rejected chunks.
- Renderer.Dashboard.StartCsvSaving: does not model the save dialog or the save path. The dialog's answer is the `confirmed` parameter.
- Renderer.Dashboard.StopCsvSaving: does not model writing or downloading the file. It returns the text that would be written.
- The renderer.js `connectToPort`/`disconnectFromPort` handlers and the port list refresh are not modelled. They are IPC calls around `updateConnectionStatus`, which is modelled.
- The guard `chartData.enabled.length < 12` in the target rebuild never holds, because `enabled` always has 12 entries, so it has no effect in the model.
- Formatters.FormatTimeReadsBack: covers only non-negative times. For a negative time the parts are negative and `padStart` places the zeros before the minus sign.
- Sending the fan speed, heater temperature and cooler commands is not modelled. Those requests are not served by the desktop main process, and they change no state the page keeps.
- The initial button and caption state of the browser page comes from its markup, which is not part of this model. The constructor takes it as parameters.
- Renderer.Dashboard.constructor: the connect button's `disabled` flag and the heater buttons' `active` classes start as the desktop page's markup sets them, which is not part of this model; the constructor takes them as parameters.
- Renderer.Dashboard.UpdateConnectionStatus: the desktop page has no disconnect button (`disconnectBtn` is `null` at renderer.js:404), so the guarded writes to it do nothing and the model keeps no such field.
- The awaited handlers (the browser page's connect, disconnect and heater toggle, and the desktop page's save) are modelled as single atomic steps. What happens when a second click arrives while a request is still pending is not modelled.

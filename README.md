# SimpleGraph: the live bid/ask chart, modelled in Dafny

SimpleGraph is a desktop widget that polls an exchange's ticker over a
WebSocket and draws two live price series, bid and ask. This project models
the logic of its view model, `MainViewModel`, in four modules:

- `SlidingWindow` (SlidingWindow.dfy): each series is a bounded window.
  Every tick appends a point and, when the series is then over the
  configured count, evicts the head once. `Window` folds that step over the
  pushes since the last clear. `LastN` describes the result independently
  (the last `cap` pushes, in order), and `WindowIsLastN` proves the two agree.
- `TickerParser` (TickerParser.dfy): the best-effort scan of one response.
  It splits the text on `,`. Each field containing `bidPrice` or `askPrice`
  is cut to `field[12..|field|-1]` and parsed. The last such field wins, and
  a malformed matching field raises an error that ends the scan. `Scan` and
  `Receive` are the specification, and lemmas state what the scan promises.
- `Axis` (Axis.dfy): the six separators of the time axis and the label
  formatter, as pure functions of clock readings in ticks (10^7 per second).
- `ViewModel` (ViewModel.dfy): the class `MainViewModel`. Its fields are the
  two series (`seq`), the held prices, the configured count and the axis
  separators. Its methods are `ClearGraph`, `Push` (the add-and-trim part of
  the locked block of the polling loop), `ReceiveData` (the field-scanning
  loop), `Tick` (one loop iteration: the scan, then the whole locked block,
  `Push` followed by recomputing the separators) and `DrawGraph`. `DrawGraph` is the session: it clears, then
  `Run` loops over the responses it is given, one `Advance` (a `Tick` and
  its place in the session) per iteration. The object invariant `Valid()` ties
  each series to the window of the points pushed since the last clear. It
  also keeps the two series the same length and within the capacity.
  `Replay` is the session's specification.

External effects are parameters:
- The responses a session receives are a `seq<Poll>`. Each `Poll` holds the
  payload text and the clock reading taken when it was handled.
- `double.Parse` is `parse: string -> Option<Price>`. `None` stands for the
  exception it raises.
- The text of a number of seconds is `secondsText: real -> string`.
- `DateTime.Now` is an integer `now` in ticks.

How the code behaves at its edges, as the model gives it:
- A parse failure is not silent. `Substring`, `Remove` and `double.Parse`
  raise an exception that ends `RecieveData` and with it the polling loop.
  Fields before the failing one have already been applied. The model
  returns `ok == false` from `ReceiveData`, keeps the prices stored so far,
  and `DrawGraph` stops.
- The price text is cut at fixed offsets: twelve characters from the front
  and one from the back (`PriceText`). It is not searched for a delimiter.
- The configured count `_tickNumber` is a `double`, and the trim test is
  `Count > _tickNumber`. The model keeps it as a `real`. `Capacity` gives the
  number of points that test keeps: the floor for values of 0 or more, and 0
  for negative values. `CapacityThreshold` proves the test matches it for
  every count of 1 or more. So the model needs no "capacity ≥ 1"
  precondition.

## Model

| member | source | states |
|---|---|---|
| SlidingWindow.Step | SimpleGraph/ViewModels/MainViewModel.cs:111-117 | definition of one tick on one series (append, then evict the head once when over capacity); its properties are stated by StepKeepsBound and WindowPush |
| SlidingWindow.Window | SimpleGraph/ViewModels/MainViewModel.cs:104-120 | definition of the series built from an empty chart by repeated ticks; its properties are stated by WindowIsLastN and WindowContents |
| SlidingWindow.LastN | SimpleGraph/ViewModels/MainViewModel.cs:104-120 | the window's reference description: it has min(length of s, cap) elements and is a suffix of the pushes |
| SlidingWindow.StepKeepsBound | SimpleGraph/ViewModels/MainViewModel.cs:111-117 | one tick on a series within capacity keeps it within capacity; the new point is the tail, and before it is the old series with at most its head removed |
| SlidingWindow.WindowPush | SimpleGraph/ViewModels/MainViewModel.cs:111-117 | pushing one more point to the window is one more append-then-trim step |
| SlidingWindow.WindowIsLastN | SimpleGraph/ViewModels/MainViewModel.cs:104-120 | starting from empty, the append-then-trim step folded over N pushes gives exactly the last min(N, cap) pushes in push order |
| SlidingWindow.WindowContents | SimpleGraph/ViewModels/MainViewModel.cs:111-117 | after any pushes the window has min(N, cap) points, never more than cap, and its k-th point is push N - W + k, where W is its length |
| SlidingWindow.SuffixAt | SimpleGraph/ViewModels/MainViewModel.cs:115-116 | the elements of a suffix are those of the original at the shifted index (only head removals, no reordering) |
| SlidingWindow.WindowLengthsAgree | SimpleGraph/ViewModels/MainViewModel.cs:113-116 | two series pushed equally often have equal length, so the "both over capacity" test trims both or neither |
| SlidingWindow.FivePushesCapacityThree | SimpleGraph/ViewModels/MainViewModel.cs:104-120 | capacity 3 with points (0,10)..(4,50) pushed leaves exactly [(2,30),(3,40),(4,50)] |
| TickerParser.Contains | SimpleGraph/ViewModels/MainViewModel.cs:209 | the ordinal substring test is true exactly when the marker occurs at some index |
| TickerParser.OccursShift | SimpleGraph/ViewModels/MainViewModel.cs:209 | an occurrence in the tail of a string is an occurrence one index later in the string |
| TickerParser.Split | SimpleGraph/ViewModels/MainViewModel.cs:204 | splitting on the separator gives at least one field, and no field contains the separator |
| TickerParser.JoinConsFirst | SimpleGraph/ViewModels/MainViewModel.cs:204 | joining with a character in front of the first field puts that character in front of the join |
| TickerParser.JoinSplit | SimpleGraph/ViewModels/MainViewModel.cs:204 | joining the fields of a split with the separator gives back the payload |
| TickerParser.SplitPrefix | SimpleGraph/ViewModels/MainViewModel.cs:204 | a separator-free prefix becomes part of the first field of the split |
| TickerParser.SplitJoin | SimpleGraph/ViewModels/MainViewModel.cs:204 | splitting the join of separator-free fields gives back those fields (the inverse direction) |
| TickerParser.PriceText | SimpleGraph/ViewModels/MainViewModel.cs:211-212 | defined only for fields of at least 13 characters; the field is 12 cut characters, then the price text, then one cut character |
| TickerParser.FieldPriceOf | SimpleGraph/ViewModels/MainViewModel.cs:211-213 | a field made of a 12-character head, a text and one closing character yields exactly the parse of that text |
| TickerParser.ShortFieldIsMalformed | SimpleGraph/ViewModels/MainViewModel.cs:211-212 | a matching field of 12 characters or fewer fails the scan whatever the parser does |
| TickerParser.Matches | SimpleGraph/ViewModels/MainViewModel.cs:209-215 | definition: the field contains `bidPrice` or `askPrice` (the two `Contains` tests); used by Malformed |
| TickerParser.Malformed | SimpleGraph/ViewModels/MainViewModel.cs:209-219 | definition of a field on which the scan throws: it matches and yields no price; its consequences are stated by Accepted, ShortFieldIsMalformed and ScanStopsAt |
| TickerParser.Accepted | SimpleGraph/ViewModels/MainViewModel.cs:206-221 | the scan gets through the fields before the first malformed one: none before it is malformed, and it is malformed if there is one |
| TickerParser.LastWith | SimpleGraph/ViewModels/MainViewModel.cs:206-221 | no index when no field carries the marker; otherwise the index of a field carrying it, with none after it |
| TickerParser.AcceptedPriced | SimpleGraph/ViewModels/MainViewModel.cs:206-221 | every marked field the scan gets through yields a price |
| TickerParser.Scan | SimpleGraph/ViewModels/MainViewModel.cs:206-221 | the scan succeeds exactly when no field is malformed (a marked field too short or not numeric) |
| TickerParser.Scanned | SimpleGraph/ViewModels/MainViewModel.cs:209-219 | definition of the price held for one marker: the last marked field's price, or the prior one; its properties are stated by ScanTakesLastField, ScanTakesLastAskField and the two ScanKeeps lemmas |
| TickerParser.Receive | SimpleGraph/ViewModels/MainViewModel.cs:204-221 | definition of the scan of one payload (Split, then Scan); ReceiveData is proved equal to it and ReceiveSample evaluates it |
| TickerParser.ScanStep | SimpleGraph/ViewModels/MainViewModel.cs:208-220 | one more well-formed field replaces the price of each marker it carries, bid and ask independently, and changes nothing else |
| TickerParser.ScanStopsAt | SimpleGraph/ViewModels/MainViewModel.cs:211-213 | a malformed field fails the scan and leaves the prices of the fields before it |
| TickerParser.ScanTakesLastField | SimpleGraph/ViewModels/MainViewModel.cs:209-214 | after a successful scan the bid is the parsed price text of the last field carrying `bidPrice` |
| TickerParser.ScanKeepsBidWithoutMarker | SimpleGraph/ViewModels/MainViewModel.cs:209-214 | a response with no `bidPrice` field leaves the bid as it was |
| TickerParser.ScanTakesLastAskField | SimpleGraph/ViewModels/MainViewModel.cs:215-220 | after a successful scan the ask is the parsed price text of the last field carrying `askPrice` |
| TickerParser.ScanKeepsAskWithoutMarker | SimpleGraph/ViewModels/MainViewModel.cs:215-220 | a response with no `askPrice` field leaves the ask as it was |
| TickerParser.ScanIndependent | SimpleGraph/ViewModels/MainViewModel.cs:209-220 | the bid held afterwards does not depend on the ask held before, and vice versa |
| TickerParser.ScanFailureKeepsPrefix | SimpleGraph/ViewModels/MainViewModel.cs:206-221 | the prices after a failed scan are those of a successful scan of the fields before the failing one |
| TickerParser.ScanBidThenAsk | SimpleGraph/ViewModels/MainViewModel.cs:206-221 | fields (other, bid, ask, other) scan successfully to the bid field's and the ask field's prices |
| TickerParser.PriceTextOfBidField | SimpleGraph/ViewModels/MainViewModel.cs:211-212 | the field `"bidPrice":"123.45"` has price text `123.45` |
| TickerParser.NotContainsByChar | SimpleGraph/ViewModels/MainViewModel.cs:209 | a marker with a character absent from the field does not occur in it |
| TickerParser.SampleOtherFields | SimpleGraph/ViewModels/MainViewModel.cs:209-215 | the symbol and quantity fields of an exchange response carry neither marker |
| TickerParser.SampleBidField | SimpleGraph/ViewModels/MainViewModel.cs:209-215 | the sample bid field carries `bidPrice` and not `askPrice` |
| TickerParser.SampleAskField | SimpleGraph/ViewModels/MainViewModel.cs:209-215 | the sample ask field carries `askPrice` and not `bidPrice` |
| TickerParser.SamplePrices | SimpleGraph/ViewModels/MainViewModel.cs:211-213 | the sample bid and ask fields yield the parses of `123.45` and `123.50` |
| TickerParser.ReceiveSample | SimpleGraph/ViewModels/MainViewModel.cs:204-221 | a response `{"symbol":...,"bidPrice":"123.45","askPrice":"123.50","askQty":...}` yields bid 123.45 and ask 123.50 |
| Axis.Separators | SimpleGraph/ViewModels/MainViewModel.cs:133-146 | six marks from now - 50 s to now, 10 s apart, strictly increasing, the last equal to now |
| Axis.Formatter | SimpleGraph/ViewModels/MainViewModel.cs:148-160 | the label is "now" exactly when less than one second has elapsed; otherwise it is the text of the elapsed seconds (at least 1) followed by "s ago" |
| Axis.FiveSecondsAgo | SimpleGraph/ViewModels/MainViewModel.cs:150-158 | a point five seconds old is labelled with the text for 5 seconds and "s ago" |
| Axis.SeparatorLabels | SimpleGraph/ViewModels/MainViewModel.cs:133-160 | the last separator is labelled "now" and the first "50s ago" |
| ViewModel.Capacity | SimpleGraph/ViewModels/MainViewModel.cs:113 | definition of the number of points the double `_tickNumber` lets a series keep; CapacityThreshold states that it matches the trim test |
| ViewModel.CapacityThreshold | SimpleGraph/ViewModels/MainViewModel.cs:113 | for every count of 1 or more, `count > tickNumber` holds exactly when count exceeds the capacity `Capacity(tickNumber)` |
| ViewModel.Replay | SimpleGraph/ViewModels/MainViewModel.cs:104-120 | a session pushes at most one quote per response |
| ViewModel.ReplayFrom | SimpleGraph/ViewModels/MainViewModel.cs:104-120 | from a given response on, a session first scans that response, then pushes and continues on success, or stops on failure |
| ViewModel.ReplayAdvance | SimpleGraph/ViewModels/MainViewModel.cs:104-120 | scanning the next response either extends the session's pushes by that scan's quote or ends the session holding that scan's prices |
| ViewModel.ReplayPushes | SimpleGraph/ViewModels/MainViewModel.cs:106-119 | tick k of a session scanned its response successfully, starting from the prices of tick k-1, and pushed the result |
| ViewModel.ReplayEnds | SimpleGraph/ViewModels/MainViewModel.cs:104-120 | a session stops early only at a response whose scan fails, and then holds what that scan left; otherwise it holds the prices of its last push |
| ViewModel.MainViewModel.constructor | SimpleGraph/ViewModels/MainViewModel.cs:30-87 | the chart starts empty (:33-34), both prices 0 (:30-31), the given count (:37), and the separators of the creation time (:77) |
| ViewModel.MainViewModel.ClearGraph | SimpleGraph/ViewModels/MainViewModel.cs:123-132 | both series become empty and the invariant holds; the new state does not depend on the old one, so clearing twice is clearing once |
| ViewModel.MainViewModel.Push | SimpleGraph/ViewModels/MainViewModel.cs:109-117 | each series becomes the append-then-trim step of the old one, the pushes grow by one point each, and the invariant is kept: equal lengths, within capacity, each series the window of its pushes |
| ViewModel.MainViewModel.ReceiveData | SimpleGraph/ViewModels/MainViewModel.cs:204-221 | the held prices and the success flag are exactly those of `Receive` on the payload, starting from the old prices |
| ViewModel.MainViewModel.Tick | SimpleGraph/ViewModels/MainViewModel.cs:106-119 | one loop iteration: scan as `Receive`; on success push the held prices at `now` and set the separators of `now`; on failure leave series and separators unchanged |
| ViewModel.PointsAt | SimpleGraph/ViewModels/MainViewModel.cs:111-112 | point k of the stamped series of a session is the bid (or ask) pushed at tick k with the clock reading of response k |
| ViewModel.MainViewModel.Advance | SimpleGraph/ViewModels/MainViewModel.cs:106-119 | one iteration within a session: on success the chart and the session so far both extend by the held prices; on failure the chart is unchanged and the session has ended with the prices the failed scan left |
| ViewModel.MainViewModel.Run | SimpleGraph/ViewModels/MainViewModel.cs:104-120 | the polling loop on a cleared chart ends with the chart of exactly the ticks that pushed, and with the prices the whole session ends with |
| ViewModel.MainViewModel.Finished | SimpleGraph/ViewModels/MainViewModel.cs:104-120 | a chart that holds the pushes of a whole session holds them point by point, stamped with their clock readings, with the session's final prices and the last tick's separators |
| ViewModel.MainViewModel.DrawGraph | SimpleGraph/ViewModels/MainViewModel.cs:96-121 | after a session the chart holds the window of exactly the quotes `Replay` pushed, stamped with their clock readings; the held prices are those `Replay` ends with; the separators are those of the last pushing tick |

## Left out

- WebSocket transport (`Connect`, `Disconnect`, `SendAsync`, `ReceiveAsync`, the `State == Open` loop guard, the request JSON): network I/O. A session is given the sequence of responses instead, and ends when it runs out.
- The 1056-byte receive buffer and UTF-8 decoding: a response is taken as the text received; truncation of longer messages is transport behaviour.
- `StopDrawing`, the `Task.Delay` waits, the `Sync` lock and `IsReading`: timing and concurrency between the UI and the loop. `IsReading` is written but never read.
- `double.Parse` and the text of a number of seconds: floating-point formatting. Both are function parameters, and `parse` is unconstrained. In particular `double.Parse("")` always throws, so in the source a 13-character matching field (empty price text) always fails; the model fails it only when `parse("")` is `None`.
- Character counting: .NET `Length`, `Substring(12)` and `Remove(Length - 1)` count UTF-16 code units, while a Dafny `string` counts Unicode scalar values. On a field holding a character outside the Basic Multilingual Plane the twelve-and-one cut of the model and of the source differ.
- `DateTime.Now`: a parameter `now` in ticks. The source reads the clock three times per iteration (two points and the separators); the model uses one reading per iteration.
- Separators: the source converts tick counts to `double`; the model keeps exact integers and does not model `AddSeconds` range errors near the minimum date.
- Axis.Formatter: elapsed seconds are an exact `real`, not a `double`.
- The `TickNumber` property setter: the model fixes the configured count at construction. The UI disables the field while connected. A count below 1 behaves as capacity 0 (each tick's point is evicted at once), and a NaN count is not modelled.
- The LiveCharts/SkiaSharp configuration (axes, paints, title, legend) and `_random` (unused): library styling.
- SimpleGraph/Views/MainView.axaml.cs: UI event wiring that toggles control state and button text.

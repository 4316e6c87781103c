# webpack-dev-server status bar, modelled in Dafny

The status bar script listens for the `message` events that
webpack-dev-server posts into the page. A message whose `type` starts
with `webpack` is a build notification. The rest of the type,
lower-cased, is its kind: `ok`, `invalid`, `warnings`, `errors`,
`close`, `progress` or an unknown one. The handler picks a colour for
the kind from a table. The table holds built-in colours, and host
overrides take precedence. The handler builds a style patch, which by
default is a 2px bar across the top of the viewport that is as wide as
the build progress. It creates the status element if there is none,
merges the patch onto the element's style and sets the element's
`data-webpack-status` attribute to the kind.

The model treats that handler as a pure state transition:

- `wrappers.dfy`: `Option`, standing in for JavaScript's `undefined`.
- `text.dfy`: the case-sensitive prefix test and lower-casing. It also
  renders integers as decimal text, with the parser that inverts it.
- `colors.dfy`: the colour table (defaults plus overrides) and the lookup
  that falls back to the `invalid` colour.
- `status_style.dfy`: the status handed to the style function and the
  default style function `getWebpackStatusStyle`.
- `status_bar.dfy`: the message, the host configuration and the element
  (`present`, `id`, `style`, `statusAttr`). It also holds the classifier,
  the derivation of the status, lazy creation, the style merge, `Step`
  (one run of the listener) and `Run` (a sequence of messages, handled in
  delivery order).
- `scenarios.dfy`: concrete notifications run through `Step`.

The host's style function (`__webpackStatusStyleFunction__`) is a
parameter of the configuration: `Patch` applies it when present and the
default style function otherwise. `navigator.maxTouchPoints` is a number
in the configuration, fixed for a run of messages. The element found by `document.getElementById` is
an input of `InitialElement`.

Behaviour of `index.js` worth noting:

- A `progress` notification without a `percent` does not default to 100.
  The percent is `undefined` (index.js:78), so the width becomes
  `undefinedvw` (index.js:40). The model's progress is `None` and its
  width is `"undefinedvw"`.
- A colour-table entry that is the empty string also falls back to the
  `invalid` colour, because the lookup uses `||` (index.js:79). Unknown
  kinds are not the only case that falls back.
- With the default style function every patch sets the same six
  properties, so the element's style shows only the latest accepted
  notification on top of whatever the element had before. A host style
  function whose patches set different properties can leave properties
  of earlier notifications behind, because the merge (index.js:91) never
  removes a property.

## Model

| member | source | states |
|---|---|---|
| Text.ToLower | index.js:77 | lower-casing keeps the length and maps each character to its lower-case form |
| Text.ToLowerIdempotent | index.js:77 | lower-casing an already lower-cased kind changes nothing |
| Text.ParseNatToString | index.js:40 | the decimal digits of a non-negative progress read back as the same number |
| Text.ParseIntToString | index.js:40 | the decimal rendering of any integer progress, sign included, reads back as that integer |
| Text.IntToStringInjective | index.js:40 | distinct progress values are rendered as distinct text |
| Colors.Table | index.js:11-18 | the table has the default kinds plus the host's kinds; a host entry wins over a default; a default with no host entry survives; `invalid` is always present |
| Colors.Resolve | index.js:79 | a non-empty entry for the kind is its colour, otherwise the `invalid` entry; the result is always one of the table's colours |
| Colors.ResolveUnknownAsInvalid | index.js:79 | a kind missing from the table gets exactly the colour `invalid` gets |
| Colors.OverrideWins | index.js:11-18 | a non-empty host colour for a kind is the colour that kind resolves to |
| Colors.DefaultKept | index.js:11-18 | a built-in kind the host does not override keeps its built-in colour |
| StatusStyle.Width | index.js:40 | the width ends in `vw`, and the text before it is a decimal number exactly when a progress is present |
| StatusStyle.WidthRoundTrip | index.js:40 | the progress percentage is read back from the text before `vw` |
| StatusStyle.WidthInjective | index.js:40 | two different progress values never give the same width |
| StatusStyle.DefaultStyle | index.js:32-43 | the default patch sets exactly six properties: the status colour as background, `2px` height, `0px` top, the progress width, and the maximal z-index; the position is `absolute` exactly when touch points are reported, else `fixed` |
| StatusStyle.ZIndexIsMax | index.js:41 | the z-index reads back as 2147483647, the largest 32-bit signed integer |
| StatusBar.ElemId | index.js:5 | the element id is the host's id when it is given and non-empty, otherwise `__webpack_status_bar__`; it is never empty |
| StatusBar.InitialElement | index.js:8 | the host's element is used when supplied; otherwise the element found by the configured id; otherwise there is none (`Absent`); an element not supplied by the host carries the configured id |
| StatusBar.RunFromInitial | index.js:8 | starting from the initial element, after any messages a host-supplied element is still the element with its own id; otherwise any element present carries the configured id; an element is present exactly when the host supplied one, one was found, or some message was accepted |
| Text.StartsWithSplits | index.js:76 | a type starts with the prefix exactly when it is the prefix followed by the rest of the type |
| Text.IntToString | index.js:40 | an integer renders as a numeral, with a leading minus sign exactly when it is negative and no leading zero (zero is `0`, never `-0`) |
| StatusBar.Classify | index.js:73-77 | a message is accepted exactly when its type is present, non-empty and starts with `webpack`; its kind is the lower-cased rest of the type |
| StatusBar.ClassifyRoundTrip | index.js:73-77 | `webpack` followed by any lower-case kind classifies as that kind |
| StatusBar.ClassifyIgnoresSuffixCase | index.js:77 | types that differ only in the case of the part after the prefix give the same kind |
| StatusBar.PrefixIsCaseSensitive | index.js:76 | a type starting with `Webpack` is rejected |
| StatusBar.Derive | index.js:77-80 | progress is the payload percent for `progress` and 100 for every other kind; the colour is the table lookup for the kind; the message defaults to empty |
| StatusBar.Patch | index.js:46 | the host's style function, when supplied, gives the patch; otherwise the default style function does, and its patch sets exactly the six default properties |
| StatusBar.Merge | index.js:91 | every property of the patch takes the patch's value; every other property keeps its value; no other property appears |
| StatusBar.MergeIdempotent | index.js:91 | merging the same patch twice equals merging it once |
| StatusBar.MergeOverwrites | index.js:91 | a later patch that sets every property of an earlier one leaves no trace of the earlier one |
| StatusBar.Ensure | index.js:83-86 | an existing element is kept unchanged; otherwise a new element with the configured id and no style or status is created |
| StatusBar.Step | index.js:72-96 | a rejected message leaves the state unchanged; an accepted one leaves an element present and tagged with the message's kind; an existing element keeps its id and a created one gets the configured id |
| StatusBar.StepMergesPatch | index.js:90-91 | after an accepted message every patch property has the patch value; the other properties of an existing element are untouched; no other property appears |
| StatusBar.StepColor | index.js:79 | with the default style function, an accepted message's background colour is its kind's colour in the host-overridden table |
| StatusBar.StepWidth | index.js:78 | with the default style function, the width reads back as the payload percent for `progress`, as 100 for every other kind, and is `undefinedvw` for `progress` without a percent |
| StatusBar.StepIdempotent | index.js:72-96 | handling the same message twice gives the state that handling it once gives |
| StatusBar.LastWriterWins | index.js:94 | after accepted messages A then B the attribute is B's kind |
| StatusBar.Run | index.js:72-96 | handling messages in order leaves the element unchanged when none is accepted, leaves an element present and tagged once one is accepted, and never changes the id of an element that already exists |
| StatusBar.RunStatusAttr | index.js:94 | after any sequence the attribute is the kind of the last accepted message, or unchanged when none was accepted |
| StatusBar.RunCreatesOnce | index.js:83-86 | the element is present after a sequence exactly when it was before or some message was accepted; an existing element keeps its id; a created one carries the configured id |
| StatusBar.RunStyleIsLastPatch | index.js:89-91 | with the default style function, the style after a sequence is the starting style merged with the patch of the last accepted message only |
| StatusBar.RunIgnoresUnrelated | index.js:76 | removing the rejected messages from a sequence does not change the result |
| StatusBar.RunRepeatLast | index.js:72-96 | delivering the last message again does not change the result |
| Scenarios.ProgressScenario | index.js:72-96 | `webpackprogress` with percent 42 creates `__webpack_status_bar__`, 42vw wide, aqua, `fixed`, tagged `progress` |
| Scenarios.ProgressWithoutPercentScenario | index.js:78 | `webpackprogress` without a percent gives the width `undefinedvw` |
| Scenarios.OkScenario | index.js:76-94 | `webpackok` gives the built-in green, full width, tagged `ok` |
| Scenarios.OkOverriddenScenario | index.js:11-18 | with a host colour for `ok`, `webpackok` takes the host's colour |
| Scenarios.UnrelatedScenario | index.js:76 | `unrelatedEvent` changes nothing |
| Scenarios.BogusScenario | index.js:79 | `webpackbogus` is tagged `bogus` and takes the `invalid` purple |
| Scenarios.UpperCaseSuffixScenario | index.js:77 | `webpackOK` is an `ok` notification |
| Scenarios.TouchScenario | index.js:34 | on a touch device the bar is positioned `absolute` |
| Scenarios.HostElementScenario | index.js:8 | a host-supplied element is reused; its id and the properties the handler does not set survive |

## Left out

- The `window.addEventListener` plumbing and the destructuring of `event.data`: the input is an already-decoded message. A `data` that is `null` makes the source throw, and the model does not represent that.
- `waitForBody` and attaching the element to the document body. This is asynchronous Promise/`readystatechange` timing. The model only records that the element exists.
- The host's style function: it is opaque code, taken as a pure parameter of the configuration. Its results are merged like the default patch, but nothing else is proved about them.
- StatusBar.RunStyleIsLastPatch: stated only for the default style function, because a host style function may set different properties on each call.
- Text.ToLower: lower-cases only the ASCII letters A-Z, whereas JavaScript's `toLowerCase` applies the full Unicode case mapping.
- Percentages are integers. Fractional values and JavaScript's exponent notation for very large numbers are not modelled.
- Prototype-chain lookups in the colour table (e.g. the kind `constructor`) are not modelled. Host overrides are strings, so an override of `undefined` or a non-string value is not modelled either.
- CSS semantics: the style is a string-keyed map that records what is assigned. The browser would drop an invalid value such as `undefinedvw`, and the model does not. The numeric z-index is recorded as its decimal text.
- Real DOM element identity: `present` and `id` stand for the element's existence and identifier.
- StatusBar.Patch: the touch-point count is a constant of the configuration over a run of messages. index.js:34 re-reads `navigator.maxTouchPoints` on every call, so a count that changes between notifications (device emulation toggled, say) is not modelled.

# File router: classification and routing model

This project models the one piece of decision logic in the Kotlin Spring
Integration file router: the `filesFlow` integration flow of
`FileConfiguration`. An inbound file adapter polls an input directory and
hands over at most one entry per poll. The flow drops every entry that is not
a regular file. It routes each remaining file by its lower-cased extension:
`csv` goes to the `csv` channel, `txt` to the `txt` channel, and anything else
to the `errors` channel. Two further flows subscribe to `csv` and `txt` and
write into `output/csv` and `output/txt`. No flow subscribes to `errors`.

The model is a set of pure functions over immutable values, one module per
component:

- `Ascii`: the case folding of `toLowerCase()` on ASCII letters, with an
  independent definition of "equal ignoring case".
- `FileNames`: Kotlin's `File.extension`, the text after the last `'.'` of the
  name or `""` when there is none, with an independent definition of what an
  extension is.
- `Routing`: `FileEntry`, `Category`, the filter, the classification and the
  three channels. `Select` is the reference definition of a channel's contents:
  the order-preserving filter of the input by category.
- `Delivery`: the directory layout, the destination of each category and the
  fate of one entry (`Filtered`, `Delivered(dir)` or `Undeliverable`).
- `Poller`: the `maxMessagesPerPoll(1)` bound, ticks, and draining the pending
  entries tick by tick.
- `Wrappers`: `Option`.

Two behaviours follow directly from the code:

- No flow subscribes to the `errors` channel. So `Destination(output, Error)`
  is `None` and such a file's disposition is `Undeliverable`; there is no
  error directory.
- No policy for a destination that already holds a file of the same name is
  stated; the outbound adapters run with their defaults. No conflict policy is
  modelled.

## Model

| member | source | states |
|---|---|---|
| Ascii.Lower | src/main/kotlin/com/example/kotlinspringintegration/KotlinSpringIntegrationApplication.kt:49 | no ensures; characterized by `LowerCharacterized`, `LowerIsCaseInsensitive` and `LowerIdempotent` |
| Ascii.LowerCharacterized | src/main/kotlin/com/example/kotlinspringintegration/KotlinSpringIntegrationApplication.kt:49 | the lowered string equals the input ignoring case and contains no upper-case letter |
| Ascii.LowerIsCaseInsensitive | src/main/kotlin/com/example/kotlinspringintegration/KotlinSpringIntegrationApplication.kt:49 | two strings lower to the same key if and only if they are equal ignoring ASCII case |
| Ascii.LowerIdempotent | src/main/kotlin/com/example/kotlinspringintegration/KotlinSpringIntegrationApplication.kt:49 | lowering an already lowered key changes nothing |
| FileNames.LastIndexOf | src/main/kotlin/com/example/kotlinspringintegration/KotlinSpringIntegrationApplication.kt:49 | the result is -1 exactly when the character is absent; otherwise it is a position holding the character with no occurrence after it |
| FileNames.Extension | src/main/kotlin/com/example/kotlinspringintegration/KotlinSpringIntegrationApplication.kt:49 | the extension is the dot-free text after some dot of the name, and empty when the name has no dot |
| FileNames.ExtensionUnique | src/main/kotlin/com/example/kotlinspringintegration/KotlinSpringIntegrationApplication.kt:49 | a name has exactly one extension in that sense |
| FileNames.ExtensionCharacterized | src/main/kotlin/com/example/kotlinspringintegration/KotlinSpringIntegrationApplication.kt:49 | `Extension` returns a string if and only if that string is the name's extension |
| FileNames.ExtensionOfJoin | src/main/kotlin/com/example/kotlinspringintegration/KotlinSpringIntegrationApplication.kt:49 | `stem + "." + ext` has extension `ext` for every stem and every dot-free `ext` |
| Routing.CategoryOf | src/main/kotlin/com/example/kotlinspringintegration/KotlinSpringIntegrationApplication.kt:49-53 | no ensures; the `when` on the lowered extension, characterized by `CategoryIgnoresCase` |
| Routing.Classify | src/main/kotlin/com/example/kotlinspringintegration/KotlinSpringIntegrationApplication.kt:48-53 | no ensures; characterized by `ClassifyCharacterized` and `ClassifyByExtension` |
| Routing.CategoryIgnoresCase | src/main/kotlin/com/example/kotlinspringintegration/KotlinSpringIntegrationApplication.kt:49-53 | an extension picks `csv` iff it equals `csv` ignoring case, `txt` iff it equals `txt` ignoring case, and `errors` iff neither |
| Routing.ClassifyCharacterized | src/main/kotlin/com/example/kotlinspringintegration/KotlinSpringIntegrationApplication.kt:48-53 | an entry whose extension is `ext` goes to `csv` iff `ext` equals `csv` ignoring case, to `txt` iff it equals `txt` ignoring case, and to `errors` otherwise |
| Routing.ClassifyByExtension | src/main/kotlin/com/example/kotlinspringintegration/KotlinSpringIntegrationApplication.kt:48-53 | a file `stem.ext` goes to `csv`, `txt` or `errors` according to `ext` alone, in any mix of cases |
| Routing.NoDotIsError | src/main/kotlin/com/example/kotlinspringintegration/KotlinSpringIntegrationApplication.kt:52 | a name without a dot has the empty extension and goes to `errors` |
| Routing.SameExtensionSameCategory | src/main/kotlin/com/example/kotlinspringintegration/KotlinSpringIntegrationApplication.kt:49 | two entries whose extensions are equal ignoring case get the same category |
| Routing.UpperCaseCsvExample | src/main/kotlin/com/example/kotlinspringintegration/KotlinSpringIntegrationApplication.kt:49-50 | `a.CSV` goes to `csv` |
| Routing.MixedCaseCsvExample | src/main/kotlin/com/example/kotlinspringintegration/KotlinSpringIntegrationApplication.kt:49-50 | `a.Csv` goes to `csv` |
| Routing.UpperCaseTxtExample | src/main/kotlin/com/example/kotlinspringintegration/KotlinSpringIntegrationApplication.kt:49-51 | `b.TXT` goes to `txt` |
| Routing.OtherExtensionExample | src/main/kotlin/com/example/kotlinspringintegration/KotlinSpringIntegrationApplication.kt:52 | `image.png` goes to `errors` |
| Routing.HiddenCsvExample | src/main/kotlin/com/example/kotlinspringintegration/KotlinSpringIntegrationApplication.kt:49-50 | the route lambda gives a file named `.csv` the extension `csv` and would send it to `csv` |
| Routing.Dispatch | src/main/kotlin/com/example/kotlinspringintegration/KotlinSpringIntegrationApplication.kt:47-53 | no ensures; characterized by `DispatchCharacterized` |
| Routing.DispatchCharacterized | src/main/kotlin/com/example/kotlinspringintegration/KotlinSpringIntegrationApplication.kt:47-53 | an entry reaches no channel iff it is not a regular file; a regular file reaches `csv` iff its extension equals `csv` ignoring case, `txt` iff it equals `txt` ignoring case, and `errors` otherwise |
| Routing.Channels.Send | src/main/kotlin/com/example/kotlinspringintegration/KotlinSpringIntegrationApplication.kt:48-53 | sending to one channel appends the entry to that channel and leaves the other two unchanged |
| Routing.Select | src/main/kotlin/com/example/kotlinspringintegration/KotlinSpringIntegrationApplication.kt:48-53 | a channel's reference contents are no longer than the input and hold only input entries that belong to that channel |
| Routing.FilesOnly | src/main/kotlin/com/example/kotlinspringintegration/KotlinSpringIntegrationApplication.kt:47 | the filter keeps only input entries that are regular files; `FilesOnlyCount` states that it keeps every one of them |
| Routing.FilesOnlyCount | src/main/kotlin/com/example/kotlinspringintegration/KotlinSpringIntegrationApplication.kt:47 | the filter keeps each regular file exactly as often as it occurs in the input, and drops every other entry |
| Routing.SelectKeeps | src/main/kotlin/com/example/kotlinspringintegration/KotlinSpringIntegrationApplication.kt:48-53 | every input entry that belongs to a channel is in that channel's selection |
| Routing.SelectConcat | src/main/kotlin/com/example/kotlinspringintegration/KotlinSpringIntegrationApplication.kt:44-53 | per-category FIFO: for a batch `a` followed by `b`, a channel receives `a`'s entries before `b`'s |
| Routing.RouteInto | src/main/kotlin/com/example/kotlinspringintegration/KotlinSpringIntegrationApplication.kt:44-53 | no ensures; routing entries one at a time onto existing channels, characterized by `RouteIntoAppends` and `RouteIntoConcat` |
| Routing.RouteAll | src/main/kotlin/com/example/kotlinspringintegration/KotlinSpringIntegrationApplication.kt:44-53 | no ensures; routing a batch onto empty channels, characterized by `RouteAllIsSelect` and `RouteAllPartitionsFiles` |
| Routing.RouteIntoAppends | src/main/kotlin/com/example/kotlinspringintegration/KotlinSpringIntegrationApplication.kt:48-53 | routing entries one at a time appends to each channel exactly that category's entries, in input order, after what it already held |
| Routing.RouteAllIsSelect | src/main/kotlin/com/example/kotlinspringintegration/KotlinSpringIntegrationApplication.kt:44-53 | after routing a batch, each channel is the order-preserving filter of the input by its category |
| Routing.RouteIntoConcat | src/main/kotlin/com/example/kotlinspringintegration/KotlinSpringIntegrationApplication.kt:44-53 | routing two batches in turn is routing their concatenation |
| Routing.SelectPartitionsOne | src/main/kotlin/com/example/kotlinspringintegration/KotlinSpringIntegrationApplication.kt:47-53 | one regular file belongs to exactly one channel, and an entry that is not a regular file to none |
| Routing.SelectPartitionsFiles | src/main/kotlin/com/example/kotlinspringintegration/KotlinSpringIntegrationApplication.kt:47-53 | the three channel selections together are, as a multiset, exactly the regular files of the input |
| Routing.RouteAllPartitionsFiles | src/main/kotlin/com/example/kotlinspringintegration/KotlinSpringIntegrationApplication.kt:47-53 | total and exclusive routing: every regular file reaches exactly one channel, once, and nothing else reaches any channel |
| Routing.RoutedEntriesBelong | src/main/kotlin/com/example/kotlinspringintegration/KotlinSpringIntegrationApplication.kt:47-53 | a routed entry came from the input, is a regular file and has the category of its channel |
| Routing.EveryFileRouted | src/main/kotlin/com/example/kotlinspringintegration/KotlinSpringIntegrationApplication.kt:47-53 | every regular file of the input is on the channel of its category |
| Routing.NonFilesReachNoChannel | src/main/kotlin/com/example/kotlinspringintegration/KotlinSpringIntegrationApplication.kt:47 | an entry that is not a regular file is on no channel |
| Routing.FilterThenRoute | src/main/kotlin/com/example/kotlinspringintegration/KotlinSpringIntegrationApplication.kt:47-48 | removing the non-files before routing changes no channel |
| Routing.SelectOfFilesOnly | src/main/kotlin/com/example/kotlinspringintegration/KotlinSpringIntegrationApplication.kt:47-48 | selecting a category from the filtered input equals selecting it from the raw input |
| Delivery.LayoutUnder | src/main/kotlin/com/example/kotlinspringintegration/KotlinSpringIntegrationApplication.kt:36-37 | the input and output directories both lie under the home directory and neither lies within the other |
| Delivery.Destination | src/main/kotlin/com/example/kotlinspringintegration/KotlinSpringIntegrationApplication.kt:38-39 | `csv` and `txt` have a destination directly inside the output directory whose name, read as an extension, classifies back to that category (so `csv` files go to `output/csv` and `txt` files to `output/txt`); `errors` has none |
| Delivery.DestinationInjective | src/main/kotlin/com/example/kotlinspringintegration/KotlinSpringIntegrationApplication.kt:38-39 | two categories with the same destination are the same category |
| Delivery.DestinationOutsideInput | src/main/kotlin/com/example/kotlinspringintegration/KotlinSpringIntegrationApplication.kt:36-39 | no destination lies within the watched input directory |
| Delivery.Handle | src/main/kotlin/com/example/kotlinspringintegration/KotlinSpringIntegrationApplication.kt:47-65 | a non-file is filtered, an `errors` file is undeliverable, and any other file is delivered into the sub-directory of the output directory named after its lower-cased extension, which is its category's destination |
| Delivery.SameDirectorySameCategory | src/main/kotlin/com/example/kotlinspringintegration/KotlinSpringIntegrationApplication.kt:48-65 | two files delivered into the same directory have the same category |
| Poller.PollStep | src/main/kotlin/com/example/kotlinspringintegration/KotlinSpringIntegrationApplication.kt:44 | one tick emits at most one entry, emits one when any is pending, and leaves the rest pending in order |
| Poller.PendingAfter | src/main/kotlin/com/example/kotlinspringintegration/KotlinSpringIntegrationApplication.kt:44 | no ensures; the pending entries after a number of ticks, characterized by `PendingAfterTicks` |
| Poller.PendingAfterTicks | src/main/kotlin/com/example/kotlinspringintegration/KotlinSpringIntegrationApplication.kt:44 | after `k` ticks exactly the first `min(k, n)` of `n` pending entries have been taken |
| Poller.Drain | src/main/kotlin/com/example/kotlinspringintegration/KotlinSpringIntegrationApplication.kt:42-55 | no ensures; polling and routing until nothing is pending, characterized by `DrainIsRouteInto` and `DrainPreservesOrder` |
| Poller.DrainIsRouteInto | src/main/kotlin/com/example/kotlinspringintegration/KotlinSpringIntegrationApplication.kt:42-55 | draining tick by tick routes the same entries in the same order as routing the whole batch |
| Poller.DrainPreservesOrder | src/main/kotlin/com/example/kotlinspringintegration/KotlinSpringIntegrationApplication.kt:42-55 | after draining, each channel holds the pending entries of its category in their original order |

## Left out

- Spring Boot bootstrap, `@Configuration` beans and the direct channels (lines 12-31): wiring with no decision logic.
- The `HOME` environment variable (lines 36-37): the home directory is a parameter of `Delivery.LayoutUnder`.
- Listing the input directory, `autoCreateDirectory`, and the file writes of the outbound adapters (lines 43, 59, 64): file-system I/O inside library code. The model keeps only which directory a file is written into, not the file name written, nor any overwrite or conflict behaviour.
- The order in which the inbound adapter queues listed files, its accept-once filter and its default filter that skips hidden files: library internals. The pending entries are taken as a given sequence in emission order.
- The 500 ms fixed delay and the threads that dispatch messages (line 44): timing and concurrency. Only the bound of one message per poll is kept.
- What the framework does with a message sent to the `errors` channel, which has no subscriber: library behaviour. The model records only that no destination exists (`Undeliverable`).
- Ascii.Lower: folds only the ASCII letters `A`-`Z`. Kotlin's `toLowerCase()` follows the default locale and Unicode case mapping; no non-ASCII character lowers to a letter of `csv` or `txt`, so the routing decision is unaffected. `Ascii.LowerCharacterized`, `Ascii.LowerIsCaseInsensitive` and `Ascii.LowerIdempotent` state the ASCII-only fold.

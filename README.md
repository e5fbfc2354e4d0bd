# Mediator desktop: configuration editor and call inspector

This project models two parts of the Mediator desktop client and proves properties about them.

**The configuration dialog's edit state.** `ConfigViewModel` holds:

- the proxy and gRPC port texts;
- a `changed` flag;
- two ordered, shared rule lists: server rules and request rules.

Each rule object holds its own state cells. A server rule also holds its own metadata table and two path lists.

The dialog's handlers edit this state in place:

- the proxy-port field;
- the list toolbar's create, remove, move up and move down;
- the rule setting fields, most of which store the typed text trimmed;
- the metadata cells;
- the path lists;
- the Cancel, Apply and OK buttons.

`serialize()` turns the edit state into a configuration record. It fails on a port text that is not an integer. It drops the server rules whose host pattern is empty.

**The call inspector's display decisions:**

- which metadata keys are binary (those whose lower-case form ends in `-bin`, as in the binary-header rule of the Custom-Metadata section of the gRPC over HTTP/2 protocol);
- how a `grpc-status` value is annotated with its status code (codes 0 to 16 of the gRPC status-code table);
- each timeline event's label, icon and context menu;
- whether the statistics panel shows an end time.

Modules:

- `Wrappers`: `Option`, which stands for Kotlin's nullable values and for a `toInt()` that throws.
- `KotlinText`: the Kotlin string functions the code relies on. These are `toIntOrNull()`/`toInt()`, `Int.toString()`, `trim()`, `lowercase()` and `endsWith`.
- `Lists`: `indexOf`, `remove(element)`, `add(index, element)` and `removeAt`, applied to a list's contents.
- `ViewModel`: `ConfigViewModel`, the rule and metadata-entry classes, and `serialize()`.
- `ConfigView`: the edit handlers and the dialog buttons, as methods that change the classes' fields.
- `CallView`: the call inspector's decision logic, as pure functions.

Three behaviours of the code are easy to miss. The model keeps the first two as written and makes the third a precondition (see "## Left out"):

- Toggling a server rule's "rewrite" check box does not set `changed`, although every other edit does.
- The path-row edit stores the text untrimmed, although every other rule, metadata or path text field trims it.
- Move-down does not check that the rule is last.

## Model

| member | source | states |
|---|---|---|
| KotlinText.ParseIntRoundTrip | desktop/src/main/kotlin/io/kanro/mediator/desktop/viewmodel/ConfigViewModel.kt:14-27 | Parsing the decimal rendering of any 32-bit `Int` gives that `Int` back, so a port stored as `toString()` survives `toInt()`. |
| KotlinText.ParseInt | desktop/src/main/kotlin/io/kanro/mediator/desktop/viewmodel/ConfigViewModel.kt:26-27 | `toIntOrNull()`/`toInt()`: a text parses exactly when, after one optional leading `-` or `+`, it is a non-empty string of digits whose signed value lies in the `Int` range. The result is that signed value, so "+80" gives 80 and "-05" gives -5. The empty text fails, and a negative result comes from a text that starts with `-`. |
| KotlinText.IntToString | desktop/src/main/kotlin/io/kanro/mediator/desktop/viewmodel/ConfigViewModel.kt:14-16 | `Int.toString()` is non-empty, starts with `-` exactly for a negative number, and is otherwise made of digits. |
| KotlinText.CanonicalParse | desktop/src/main/kotlin/io/kanro/mediator/desktop/ui/ConfigView.kt:264-271 | A text that parses, has no `+`, no leading zero and no `-0` is exactly the rendering of the value it parses to. |
| KotlinText.NatToString | desktop/src/main/kotlin/io/kanro/mediator/desktop/ui/ConfigView.kt:271 | The rendering of a non-negative number is a non-empty digit string without a leading zero. |
| KotlinText.NatToStringValue | desktop/src/main/kotlin/io/kanro/mediator/desktop/ui/ConfigView.kt:271 | The digits of the rendering have the value of the number rendered. |
| KotlinText.LeadingWhitespace | desktop/src/main/kotlin/io/kanro/mediator/desktop/ui/ConfigView.kt:381 | The count of leading characters that `trim()` cuts: all of them are whitespace, and the character after them is not. |
| KotlinText.IsWhitespace | desktop/src/main/kotlin/io/kanro/mediator/desktop/ui/ConfigView.kt:381 | `Char.isWhitespace()`: digits, ASCII letters, `-` and `_` are not whitespace; space, tab, line feed and carriage return are. |
| KotlinText.TrailingWhitespace | desktop/src/main/kotlin/io/kanro/mediator/desktop/ui/ConfigView.kt:381 | The count of trailing characters that `trim()` cuts: all of them are whitespace, and the character before them is not. |
| KotlinText.Trim | desktop/src/main/kotlin/io/kanro/mediator/desktop/ui/ConfigView.kt:381 | `trim()` gives a string with no whitespace at either end, is empty exactly when the input is all whitespace, and returns an already-trimmed input unchanged. |
| KotlinText.TrimInfix | desktop/src/main/kotlin/io/kanro/mediator/desktop/ui/ConfigView.kt:381 | `trim()` only cuts whitespace off the ends: its result is an infix of the input, with only whitespace before and after it. |
| KotlinText.TrimIdempotent | desktop/src/main/kotlin/io/kanro/mediator/desktop/ui/ConfigView.kt:381 | Trimming a stored, trimmed field again changes nothing. |
| KotlinText.Lowercase | desktop/src/main/kotlin/io/kanro/mediator/desktop/ui/CallView.kt:401 | `lowercase()` keeps the length and lowers each character in its place. |
| Lists.IndexOf | desktop/src/main/kotlin/io/kanro/mediator/desktop/ui/ConfigView.kt:330 | `indexOf` is -1 exactly when the element is absent; otherwise it is the position of the element's first occurrence. |
| Lists.Removed | desktop/src/main/kotlin/io/kanro/mediator/desktop/ui/ConfigView.kt:324 | `remove(x)` leaves a list without `x` unchanged. Otherwise it drops exactly one `x`, the first: earlier elements keep their places and later elements move up by one. |
| Lists.InsertAt | desktop/src/main/kotlin/io/kanro/mediator/desktop/ui/ConfigView.kt:333 | `add(i, x)` puts `x` at `i`; earlier elements keep their places and later elements move down by one. |
| Lists.RemovedAt | desktop/src/main/kotlin/io/kanro/mediator/desktop/ui/ConfigView.kt:901 | `removeAt(i)` drops exactly the element at `i`; the rest close up in order. |
| Lists.MoveUpSwaps | desktop/src/main/kotlin/io/kanro/mediator/desktop/ui/ConfigView.kt:328-335 | Removing a rule found at `i > 0` and adding it back at `i - 1` swaps it with its predecessor and is a permutation. |
| Lists.MoveDownSwaps | desktop/src/main/kotlin/io/kanro/mediator/desktop/ui/ConfigView.kt:336-343 | Removing a rule found at `i`, not last, and adding it back at `i + 1` swaps it with its successor and is a permutation. |
| Lists.MoveDownOfLastIsOutOfRange | desktop/src/main/kotlin/io/kanro/mediator/desktop/ui/ConfigView.kt:336-343 | For the last rule, move-down's `add(index + 1, rule)` targets an index past the end of the shortened list. |
| Lists.MovedUp | desktop/src/main/kotlin/io/kanro/mediator/desktop/ui/ConfigView.kt:332-333 | Move-up's `remove(rule)` then `add(index - 1, rule)` exchanges the rule with its predecessor and keeps the same elements. |
| Lists.MovedDown | desktop/src/main/kotlin/io/kanro/mediator/desktop/ui/ConfigView.kt:340-341 | Move-down's `remove(rule)` then `add(index + 1, rule)` exchanges the rule with its successor and keeps the same elements. |
| ViewModel.StateList.constructor | desktop/src/main/kotlin/io/kanro/mediator/desktop/viewmodel/ConfigViewModel.kt:20-22 | A new state list holds exactly the given elements. |
| ViewModel.MetadataEntry.constructor | desktop/src/main/kotlin/io/kanro/mediator/desktop/ui/ConfigView.kt:761 | A new metadata entry has the given key. |
| ViewModel.ServerRuleViewModel.constructor | desktop/src/main/kotlin/io/kanro/mediator/desktop/ui/ConfigView.kt:320 | A new server rule owns new, unshared metadata and path lists. The class itself is not part of this model's sources, so the fresh lists are the model's assumption about `ServerRuleViewModel()`. |
| ViewModel.KeptServerRules | desktop/src/main/kotlin/io/kanro/mediator/desktop/viewmodel/ConfigViewModel.kt:28 | The filter keeps only rules with a non-empty host pattern, and keeps every such rule. |
| ViewModel.KeptServerRulesAppend | desktop/src/main/kotlin/io/kanro/mediator/desktop/viewmodel/ConfigViewModel.kt:28 | The filter distributes over concatenation, so the kept rules stay in list order. |
| ViewModel.ConfigViewModel.constructor | desktop/src/main/kotlin/io/kanro/mediator/desktop/viewmodel/ConfigViewModel.kt:8-22 | Port cells hold the ports' renderings, `changed` is false, and the lists are new lists of the given rules. Serialising at once succeeds with the same ports. |
| ViewModel.ConfigViewModel.Serialize | desktop/src/main/kotlin/io/kanro/mediator/desktop/viewmodel/ConfigViewModel.kt:24-31 | Succeeds exactly when both port texts are integers, and gives their values. Server rules are kept exactly when their host pattern is non-empty. Request rules are all kept, in order. |
| ViewModel.SerializeRenderedPorts | desktop/src/main/kotlin/io/kanro/mediator/desktop/viewmodel/ConfigViewModel.kt:14-31 | Port texts that are renderings of ports serialise to those ports. |
| ViewModel.SerializeFailsOnEmptyProxyPort | desktop/src/main/kotlin/io/kanro/mediator/desktop/viewmodel/ConfigViewModel.kt:26 | The empty proxy-port text, which the port field can hold, makes `serialize()` fail. |
| ConfigView.ClampPort | desktop/src/main/kotlin/io/kanro/mediator/desktop/ui/ConfigView.kt:265-272 | The result is a port (0..65535). It is the input when that is a port, 0 below the range and 65535 above it. |
| ConfigView.BoundRenderings | desktop/src/main/kotlin/io/kanro/mediator/desktop/ui/ConfigView.kt:266-269 | The texts "0" and "65535" stored for out-of-range numbers are the renderings of the bounds of the port range. |
| ConfigView.RenderedPortIsPortText | desktop/src/main/kotlin/io/kanro/mediator/desktop/ui/ConfigView.kt:271 | The rendering of a port is canonical and parses back to that port. |
| ConfigView.EditProxyPort | desktop/src/main/kotlin/io/kanro/mediator/desktop/ui/ConfigView.kt:257-276 | Always sets `changed`. An empty text is stored and marked as an error. An integer is stored clamped and canonical, and clears the error. Other text changes neither field nor mark. A field holding nothing or a port keeps that property. |
| ConfigView.RemoveItem | desktop/src/main/kotlin/io/kanro/mediator/desktop/ui/ConfigView.kt:323-327 | The list loses the first occurrence of the selected item, if any. The selection is cleared and `changed` is set. |
| ConfigView.MoveItemUp | desktop/src/main/kotlin/io/kanro/mediator/desktop/ui/ConfigView.kt:328-335 | With no item, or an item absent or first, nothing changes. Otherwise the item swaps with its predecessor and `changed` is set. The contents are always a permutation of the old ones. |
| ConfigView.MoveItemDown | desktop/src/main/kotlin/io/kanro/mediator/desktop/ui/ConfigView.kt:336-343 | With no item, or an item absent, nothing changes. Otherwise the item swaps with its successor and `changed` is set. The contents are a permutation of the old ones. |
| ConfigView.CreateServerRule | desktop/src/main/kotlin/io/kanro/mediator/desktop/ui/ConfigView.kt:319-322 | Exactly one new rule is appended and `changed` is set. |
| ConfigView.RemoveServerRule | desktop/src/main/kotlin/io/kanro/mediator/desktop/ui/ConfigView.kt:323-327 | The selected rule's first occurrence leaves the list, the selection is cleared and `changed` is set. |
| ConfigView.MoveServerRuleUp | desktop/src/main/kotlin/io/kanro/mediator/desktop/ui/ConfigView.kt:328-335 | The rule swaps with its predecessor; it has no effect when the rule is first, absent or none. The result is a permutation. |
| ConfigView.MoveServerRuleDown | desktop/src/main/kotlin/io/kanro/mediator/desktop/ui/ConfigView.kt:336-343 | The rule swaps with its successor; it has no effect when the rule is absent or none. The result is a permutation. |
| ConfigView.SetServerRuleEnabled | desktop/src/main/kotlin/io/kanro/mediator/desktop/ui/ConfigView.kt:368-372 | Only the enabled cell changes to the new value, and `changed` is set. |
| ConfigView.SetServerRuleName | desktop/src/main/kotlin/io/kanro/mediator/desktop/ui/ConfigView.kt:380-383 | The title becomes the trimmed text, and `changed` is set. |
| ConfigView.SetServerRuleRegex | desktop/src/main/kotlin/io/kanro/mediator/desktop/ui/ConfigView.kt:392-395 | The host pattern becomes the trimmed text, and `changed` is set. |
| ConfigView.SetServerRuleReplaceSsl | desktop/src/main/kotlin/io/kanro/mediator/desktop/ui/ConfigView.kt:405-408 | Only while the rewrite check box is ticked, when the dropdown is enabled, the TLS flag becomes the new value, and `changed` is set. |
| ConfigView.SetServerRuleReplace | desktop/src/main/kotlin/io/kanro/mediator/desktop/ui/ConfigView.kt:417-420 | Only while the rewrite check box is ticked, when the field is enabled, the rewrite target becomes the trimmed text, and `changed` is set. |
| ConfigView.SetServerRuleReplaceEnabled | desktop/src/main/kotlin/io/kanro/mediator/desktop/ui/ConfigView.kt:424-429 | The rewrite check box's cell becomes the new value; `changed` is left untouched. |
| ConfigView.SetServerRuleSchemaSource | desktop/src/main/kotlin/io/kanro/mediator/desktop/ui/ConfigView.kt:434-439 | The schema source becomes the chosen one, and `changed` is set. |
| ConfigView.CreateRequestRule | desktop/src/main/kotlin/io/kanro/mediator/desktop/ui/ConfigView.kt:525-528 | Exactly one new rule is appended and `changed` is set. |
| ConfigView.RemoveRequestRule | desktop/src/main/kotlin/io/kanro/mediator/desktop/ui/ConfigView.kt:529-533 | The selected rule's first occurrence leaves the list, the selection is cleared and `changed` is set. |
| ConfigView.MoveRequestRuleUp | desktop/src/main/kotlin/io/kanro/mediator/desktop/ui/ConfigView.kt:534-541 | The rule swaps with its predecessor; it has no effect when the rule is first, absent or none. The result is a permutation. |
| ConfigView.MoveRequestRuleDown | desktop/src/main/kotlin/io/kanro/mediator/desktop/ui/ConfigView.kt:542-549 | The rule swaps with its successor; it has no effect when the rule is absent or none. The result is a permutation. |
| ConfigView.SetRequestRuleEnabled | desktop/src/main/kotlin/io/kanro/mediator/desktop/ui/ConfigView.kt:574-578 | The enabled cell becomes the new value, and `changed` is set. |
| ConfigView.SetRequestRuleName | desktop/src/main/kotlin/io/kanro/mediator/desktop/ui/ConfigView.kt:586-589 | The title becomes the trimmed text, and `changed` is set. |
| ConfigView.SetRequestRuleMethod | desktop/src/main/kotlin/io/kanro/mediator/desktop/ui/ConfigView.kt:598-601 | The method pattern becomes the trimmed text, and `changed` is set. |
| ConfigView.SetRequestRuleTarget | desktop/src/main/kotlin/io/kanro/mediator/desktop/ui/ConfigView.kt:610-613 | The rule's target becomes the chosen one, and `changed` is set. |
| ConfigView.SetRequestRuleOperation | desktop/src/main/kotlin/io/kanro/mediator/desktop/ui/ConfigView.kt:624-627 | The patch operation becomes the chosen one, and `changed` is set. |
| ConfigView.SetRequestRulePath | desktop/src/main/kotlin/io/kanro/mediator/desktop/ui/ConfigView.kt:646-649 | The path becomes the trimmed text, and `changed` is set. |
| ConfigView.SetRequestRuleValue | desktop/src/main/kotlin/io/kanro/mediator/desktop/ui/ConfigView.kt:663-666 | The value becomes the trimmed text, and `changed` is set; the "To" field at lines 677-680 does the same. |
| ConfigView.CreateMetadataEntry | desktop/src/main/kotlin/io/kanro/mediator/desktop/ui/ConfigView.kt:760-763 | Exactly one new entry with key "(new)" is appended, and `changed` is set. |
| ConfigView.RemoveMetadataEntry | desktop/src/main/kotlin/io/kanro/mediator/desktop/ui/ConfigView.kt:764-768 | The selected entry leaves the table, the selection is cleared and `changed` is set. |
| ConfigView.SetMetadataKey | desktop/src/main/kotlin/io/kanro/mediator/desktop/ui/ConfigView.kt:829-832 | The key cell becomes the trimmed text, and `changed` is set. |
| ConfigView.SetMetadataValue | desktop/src/main/kotlin/io/kanro/mediator/desktop/ui/ConfigView.kt:843-846 | The value cell becomes the trimmed text, and `changed` is set. |
| ConfigView.AddPath | desktop/src/main/kotlin/io/kanro/mediator/desktop/ui/ConfigView.kt:894-899 | A non-empty picked path is appended and sets `changed`. No pick, or an empty one, changes nothing. |
| ConfigView.RemovePath | desktop/src/main/kotlin/io/kanro/mediator/desktop/ui/ConfigView.kt:900-904 | The path at the selected index leaves the list, the selection becomes -1 and `changed` is set. |
| ConfigView.EditPath | desktop/src/main/kotlin/io/kanro/mediator/desktop/ui/ConfigView.kt:935-940 | Only the edited row's path changes, to the text as typed, and `changed` is set. |
| ConfigView.PressDialogButton | desktop/src/main/kotlin/io/kanro/mediator/desktop/ui/ConfigView.kt:178-197 | Cancel only closes and leaves `changed` as it was. Apply is enabled only with unsaved edits; it saves and clears `changed`. OK saves and closes and leaves `changed` as it was. |
| CallView.BinaryKeyCharacterised | desktop/src/main/kotlin/io/kanro/mediator/desktop/ui/CallView.kt:401-402 | A key is binary exactly when it ends in `-` followed by b, i, n in either case. |
| CallView.IsBinaryKey | desktop/src/main/kotlin/io/kanro/mediator/desktop/ui/CallView.kt:401-402 | A binary key has at least four characters, the fourth from last being `-`. |
| CallView.Row | desktop/src/main/kotlin/io/kanro/mediator/desktop/ui/CallView.kt:401-420 | A row is binary exactly when its key is binary and keeps the key. A binary row carries the bytes read, or none when the value is missing. A text row carries the text read, or "" when it is missing. |
| CallView.MetadataRows | desktop/src/main/kotlin/io/kanro/mediator/desktop/ui/CallView.kt:400-421 | One row per metadata key, each the row for its key. The keys come from the metadata's key set; its iteration order is a parameter (`keys`), and the rows follow it. |
| CallView.CodeNumber | desktop/src/main/kotlin/io/kanro/mediator/desktop/ui/CallView.kt:453 | Every status code's number is in 0..16. |
| CallView.CodeFromNumber | desktop/src/main/kotlin/io/kanro/mediator/desktop/ui/CallView.kt:453 | `Code.fromNumber` finds a code exactly for 0..16, and the code found has that number. |
| CallView.CodeNumberRoundTrip | desktop/src/main/kotlin/io/kanro/mediator/desktop/ui/CallView.kt:453 | Every code is found again from its number, so numbers name codes one-to-one. |
| CallView.CodeName | desktop/src/main/kotlin/io/kanro/mediator/desktop/ui/CallView.kt:455 | `code.name` has at least two characters and starts and ends with an upper-case letter. |
| CallView.CodeNameUpperCase | desktop/src/main/kotlin/io/kanro/mediator/desktop/ui/CallView.kt:455 | Every character of `code.name` is an upper-case letter or an underscore. |
| CallView.CodeNamesDistinct | desktop/src/main/kotlin/io/kanro/mediator/desktop/ui/CallView.kt:455 | Two codes have the same name exactly when they are the same code. |
| CallView.StatusAnnotation | desktop/src/main/kotlin/io/kanro/mediator/desktop/ui/CallView.kt:452-457 | Only a key equal to "grpc-status" in lower case is annotated. Its value fails `toInt()` exactly when it is not an integer. An integer gets a code label exactly when it is in 0..16, and that code has the value's number. |
| CallView.StatusOfRenderedCode | desktop/src/main/kotlin/io/kanro/mediator/desktop/ui/CallView.kt:452-457 | A `grpc-status` item whose value is a code's number is annotated with that code. |
| CallView.EventLabel | desktop/src/main/kotlin/io/kanro/mediator/desktop/ui/CallView.kt:312-318 | Every event has a non-empty label; the label is "Start" exactly for the start event and "Closed" exactly for the close event. |
| CallView.EventIcon | desktop/src/main/kotlin/io/kanro/mediator/desktop/ui/CallView.kt:305-311 | Every event's icon is a resource path under `icons/`. |
| CallView.EventLabelsDistinguishVariants | desktop/src/main/kotlin/io/kanro/mediator/desktop/ui/CallView.kt:312-318 | Two events have the same label exactly when they are the same kind of event. |
| CallView.EventIconsDistinguishVariants | desktop/src/main/kotlin/io/kanro/mediator/desktop/ui/CallView.kt:305-311 | Two events have the same icon exactly when they are the same kind of event. |
| CallView.EventMenu | desktop/src/main/kotlin/io/kanro/mediator/desktop/ui/CallView.kt:228-285 | A start event offers three entries with distinct captions, copying in order its authority, its method name and its headers. Accept offers its headers, Close its trailers, Input and Output their message, one entry each. |
| CallView.ItemMenu | desktop/src/main/kotlin/io/kanro/mediator/desktop/ui/CallView.kt:435-446 | A metadata item offers three entries with distinct captions, copying "key: value", the key and the value. |
| CallView.StatisticsRows | desktop/src/main/kotlin/io/kanro/mediator/desktop/ui/CallView.kt:146-164 | ID, authority, method and start time are always shown, in that order. An "End time" row is shown, as the fifth row, exactly when the call has a close event. |

## Left out

- MoveItemDown, MoveServerRuleDown, MoveRequestRuleDown: the rule must not be last. For the last rule the handler adds it back past the end, which throws `IndexOutOfBoundsException`. By then `remove(rule)` has already run, so in the source the rule has left the list and `changed` is not set; the model does not capture that state. The toolbar that calls the handler, which may disable the button, is not part of this model. `Lists.MoveDownOfLastIsOutOfRange` shows the out-of-range index.
- RemovePath: the selected index must be a position of the list, since `removeAt` throws otherwise. Whether the toolbar allows a removal with no selection is not part of this model.
- EditPath: the row index must be a position of the list, since assignment by index throws otherwise.
- ParseInt: accepts ASCII digits only. Kotlin's `toIntOrNull` also accepts other Unicode decimal digits.
- Lowercase: lowers ASCII letters only. Kotlin's `lowercase()` also covers non-ASCII letters, some of which change length.
- The dialog's "Request Rule" sidebar entry is commented out (ConfigView.kt:148-159), so the request-rule view and its handlers cannot be reached in this version of the source. The model still gives those handlers (CreateRequestRule through SetRequestRuleValue) as the view's code defines them.
- The theme selector (ConfigView.kt:240-246) edits a `theme` cell that the `ConfigViewModel` shown here does not have, so it is not modelled.
- There is no editor for the gRPC port among the handlers modelled here. The gRPC port text is only initialised and serialised.
- Each rule's own `serialize()` is not part of this model. The configuration record holds the kept rule objects in their place.
- SetServerRuleReplaceSsl, SetServerRuleReplace: the HTTP/HTTPS dropdown and the rewrite-target field are enabled only while the rewrite check box is ticked (ConfigView.kt:412, 421), so both handlers require `replaceEnabled`.
- The default settings of a new server rule, request rule or metadata entry value are not part of this model. Neither is the regular-expression validity mark next to the host and method fields.
- The list of local network addresses (ConfigView.kt:282-306) reads the machine's interfaces. It is I/O and left out.
- File and folder pickers are I/O. Their result is the parameter `picked: Option<string>`.
- Clipboard writes are I/O. A menu entry records what it would copy (`Clip`); the JSON renderings of headers, trailers and messages are symbolic.
- Compose rendering, layout, theming, selection highlighting and resizing are left out.
- Asynchronous schema resolution in the event view (coroutines and a network reflection call) is left out.
- Status decoding of binary values, protobuf reflection, message field views and the status name's display casing are library calls whose bodies are not part of this model. A binary metadata row keeps its bytes undecoded, and a code label names the code rather than the spaced, capitalised text `toUpperSpaceCase()` makes of `CodeName`.
- Reading metadata values: the marshallers are parameters, standing for the library calls `metadata[Key.of(...)]`.
- The call timeline's `start()` and `close()` are not part of this model. The panel receives the start event's fields and the close event's time as parameters.

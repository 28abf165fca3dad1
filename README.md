# cakephp-newrelic: transaction naming and the New Relic façade, in Dafny

This project models the two pieces of the CakePHP New Relic plugin that make
decisions. Everything else in the plugin forwards calls to the New Relic PHP
extension.

- **Transaction naming** (`NewRelicTrait`). A web request is named
  `[prefix/][plugin/]controller/action[.ext]` and a shell invocation
  `[plugin/]name/command`. Optional parts that PHP treats as falsy (`""`,
  `"0"`) are skipped. The result is kept in one mutable slot, and `start()`
  falls back to it when it gets no name.
- **The `NewRelic` façade** (`src/Lib/NewRelic.php`). This is the static state:
  the ignored exception classes, the ignored error substrings, the server and
  cookie variable allow-lists, and the current transaction name. Every
  forwarding operation is guarded by `hasNewRelic()`. `metric` rejects
  non-numeric values. `sendException` and `sendError` filter failures.
  `collect` filters the `$_SERVER` and `$_COOKIE` entries and renames them.

Files:

- `php.dfy` (module `Php`) holds the PHP rules the decisions rest on:
  - `null` is `Option.None`.
  - String truthiness: everything except `""` and `"0"` is true.
  - `join` and its inverse `Split`.
  - `strpos`, with PHP 8 semantics: an empty needle is found at offset 0.
  - `strtolower`, on ASCII letters only.
- `naming.dfy` (module `Naming`) holds the request and shell descriptors, the
  two derivations as pure functions, and lemmas about the names they produce.
- `lib.dfy` (module `Lib`) holds the class `NewRelic`. The extension functions
  are replaced by `log: seq<SinkCall>`, which records each `newrelic_*` call
  in order. `extension_loaded('newrelic')` becomes the field `available`,
  which every operation reads again. So every rule of the form "nothing is
  forwarded" or "exactly one call is forwarded" is stated as a change to `log`.
- `traits.dfy` (module `Traits`) holds the class `NewRelicTrait`. It has the
  field `transactionName` and a ghost history `stored` of every name
  `setName` has written.
- `scenarios.dfy` (module `Scenarios`) holds client methods with no contracts
  of their own. They use the two classes only through their contracts:
  - naming a request and then starting it without an explicit name;
  - an ignored exception class and an ignored error substring;
  - a `null` error description, with nothing ignored and then with something ignored;
  - `collect` with entries that are not on the allow-lists;
  - the extension being absent;
  - a metric whose value is not numeric.

Static PHP state becomes the fields of one `NewRelic` object. Callers pass that
object to `NewRelicTrait.Start`, where PHP calls the static methods.
`is_numeric` on strings and `json_encode` are not re-implemented. They are the
object's constant function fields `isNumericString` and `jsonEncode`, fixed
when the object is made.

## Model

| member | source | states |
|---|---|---|
| `Naming.RequestSegments` | src/Traits/NewRelicTrait.php:217-227 | The request's segment list has two entries plus one for each truthy prefix and plugin. A truthy prefix comes first and a truthy plugin comes right before controller and action, which end the list. Every entry before those two is truthy, so a falsy prefix or plugin never becomes an empty segment. |
| `Naming.RequestPathLayout` | src/Traits/NewRelicTrait.php:217-229 | The joined request path equals `Lead(prefix) + Lead(plugin) + controller + "/" + action`: the optional segments in the order prefix, plugin, each only when truthy, with no list involved. |
| `Naming.RequestNameLayout` | src/Traits/NewRelicTrait.php:215-236 | The request name equals `Lead(prefix) + Lead(plugin) + controller + "/" + action + Suffix(ext)`. This is plain concatenation, with no list. Segments keep the order prefix, plugin, controller, action. `Lead` and `Suffix` produce nothing for a falsy value. |
| `Naming.RequestNameBare` | src/Traits/NewRelicTrait.php:215-236 | With no prefix, plugin or ext, the name is exactly `controller + "/" + action`. |
| `Naming.RequestFalsyPartsSkipped` | src/Traits/NewRelicTrait.php:218-233 | A falsy prefix, plugin or ext gives the same name as an absent one. For example, `"0"` names the transaction exactly as `""` does. |
| `Naming.RequestNameExtension` | src/Traits/NewRelicTrait.php:229-233 | The name is the joined path followed by `"." + ext` if and only if ext is truthy. Otherwise the name ends with the action. |
| `Naming.RequestSegmentsRecoverable` | src/Traits/NewRelicTrait.php:217-229 | When no present segment contains `/`, splitting the joined path at `/` gives back exactly the segment list: the number of segments and their values, in order. It does not record whether a lone optional segment was the prefix or the plugin; both give the same list. |
| `Naming.ShellSegments` | src/Traits/NewRelicTrait.php:197-204 | The shell's segment list has two entries plus one for a truthy plugin, which then comes first. It ends with name and then command, and any entry before those two is truthy. |
| `Naming.ShellNameLayout` | src/Traits/NewRelicTrait.php:195-207 | The shell name equals `Lead(plugin) + name + "/" + command`. The plugin appears only when it is truthy. |
| `Naming.ShellSegmentsRecoverable` | src/Traits/NewRelicTrait.php:197-206 | When no segment contains `/`, splitting the shell name at `/` gives back its segments. |
| `Naming.ExampleFullRequest` | src/Traits/NewRelicTrait.php:215-236 | Prefix Admin, plugin Shop, controller Orders, action view and ext json give `Admin/Shop/Orders/view.json`. |
| `Naming.ExampleShellWithoutPlugin` | src/Traits/NewRelicTrait.php:195-207 | A shell with no plugin, name Bake and command Model gives `Bake/Model`. |
| `Php.SplitJoin` | src/Traits/NewRelicTrait.php:229 | `join('/', parts)` can be undone: for a non-empty list of parts without `/`, splitting the joined string gives the parts back. |
| `Php.StrPos` | src/Lib/NewRelic.php:271 | `strpos` returns the first offset where the needle occurs, or `false` (`None`) exactly when the needle occurs nowhere. |
| `Php.ToLower` | src/Lib/NewRelic.php:321 | `strtolower` keeps the length, lowers each character on its own, and leaves no ASCII upper-case letter. |
| `Traits.NewRelicTrait.constructor` | src/Traits/NewRelicTrait.php:20 | The name slot starts as `null`, and nothing has been stored yet. |
| `Traits.NewRelicTrait.SetName` | src/Traits/NewRelicTrait.php:30-41 | The slot becomes the shell-derived name, the request-derived name, or `""` for any other argument. The new value replaces the old one, and it is appended to the history of stored names. |
| `Traits.NewRelicTrait.GetName` | src/Traits/NewRelicTrait.php:48-51 | Returns exactly the name the last `setName` stored, and `null` only if `setName` was never called. |
| `Traits.NewRelicTrait.GetTransactionName` | src/Traits/NewRelicTrait.php:180-187 | Returns a truthy explicit name unchanged, and otherwise the last stored name. It only reads the slot. |
| `Traits.NewRelicTrait.Start` | src/Traits/NewRelicTrait.php:70-73 | Calls the façade's `start` with the name `_getTransactionName` chooses. The slot and its history stay unchanged. |
| `Lib.NewRelic.constructor` | src/Lib/NewRelic.php:18-26 | All registries start empty, the current transaction name starts as `null`, and nothing has been forwarded. |
| `Lib.NewRelic.Start` | src/Lib/NewRelic.php:49-62 | Without the extension the log and the current name stay unchanged. With it, the log gets start-transaction and then name-transaction. The current name becomes `name` when `name` is truthy, and otherwise keeps its old value. |
| `Lib.NewRelic.Stop` | src/Lib/NewRelic.php:70-77 | Forwards one end-transaction call with the `ignore` flag when the extension is loaded, and nothing otherwise. |
| `Lib.NewRelic.IgnoreTransaction` | src/Lib/NewRelic.php:84-91 | Forwards one ignore-transaction call when the extension is loaded, and nothing otherwise. |
| `Lib.NewRelic.IgnoreApdex` | src/Lib/NewRelic.php:98-105 | Forwards one ignore-apdex call when the extension is loaded, and nothing otherwise. |
| `Lib.NewRelic.CaptureParams` | src/Lib/NewRelic.php:113-120 | Forwards one capture-params call with the flag when the extension is loaded, and nothing otherwise. |
| `Lib.NewRelic.AddTracer` | src/Lib/NewRelic.php:127-134 | Forwards one custom-tracer call when the extension is loaded, and nothing otherwise. |
| `Lib.NewRelic.Tracer` | src/Lib/NewRelic.php:181-188 | Same effect as `addTracer`: one custom-tracer call when the extension is loaded, and nothing otherwise. |
| `Lib.NewRelic.Forwarded` | src/Lib/NewRelic.php:148-150 | The value handed to the extension is always scalar. A scalar value goes through unchanged, and any other value goes out JSON-encoded. |
| `Lib.NewRelic.Parameter` | src/Lib/NewRelic.php:142-153 | Without the extension nothing is forwarded. With it, exactly one custom-parameter call under the same key carries the forwarded value. |
| `Lib.NewRelic.ParameterCalls` | src/Lib/NewRelic.php:142-153 | Makes one `parameter` call per key/value pair, so the number of calls equals the number of pairs. |
| `Lib.NewRelic.ParameterCallsAt` | src/Lib/NewRelic.php:142-153 | The i-th call is the custom-parameter call for the i-th pair, under its key and with its forwarded value. |
| `Lib.NewRelic.Metric` | src/Lib/NewRelic.php:162-173 | Without the extension it returns normally, does no numeric check and forwards nothing. With it, a non-numeric value throws "Value must be numeric" and forwards nothing, and a numeric value forwards exactly one custom-metric call. |
| `Lib.NewRelic.IgnoreException` | src/Lib/NewRelic.php:196-199 | The new list is the old list followed by the arguments. |
| `Lib.NewRelic.IgnoreError` | src/Lib/NewRelic.php:207-210 | The new list is the old list followed by the arguments. |
| `Lib.NewRelic.CollectServerVariables` | src/Lib/NewRelic.php:218-221 | The new list is the old list followed by the arguments. |
| `Lib.NewRelic.CollectCookieVariables` | src/Lib/NewRelic.php:229-232 | The new list is the old list followed by the arguments. |
| `Lib.NewRelic.SendException` | src/Lib/NewRelic.php:240-252 | Forwards one exception notice when the extension is loaded and the exception's class is not ignored. Otherwise it forwards nothing. |
| `Lib.NewRelic.SendError` | src/Lib/NewRelic.php:264-277 | Forwards one error notice, with the original code, description, file, line and context, when the extension is loaded and either the description is a string in which no ignored string occurs, or nothing is ignored. A string description with an ignored string in it forwards nothing. A description that is not a string, with something ignored, throws the `TypeError` that `strpos` raises under the file's `declare(strict_types=1)` (line 2), and forwards nothing. Without the extension nothing happens. |
| `Lib.SuppressedMeansOccurs` | src/Lib/NewRelic.php:270-274 | An error is suppressed exactly when some ignored string occurs at some offset of its description. |
| `Lib.SuppressedAppend` | src/Lib/NewRelic.php:207-210 | Registering more ignored strings suppresses exactly what the old list or the new strings suppress. Because the list only grows, nothing ignored is ever un-ignored. |
| `Lib.EmptyIgnoredErrorSilencesAll` | src/Lib/NewRelic.php:270-274 | An ignored `""` occurs in every description, so it suppresses every error. |
| `Lib.NewRelic.User` | src/Lib/NewRelic.php:287-294 | Forwards one user-attributes call when the extension is loaded, and nothing otherwise. |
| `Lib.NewRelic.Collect` | src/Lib/NewRelic.php:311-330 | When the extension is loaded, the log gets the encoded GET, POST and FILES arrays. Then it gets the allowed server entries, then the allowed cookie entries. Without the extension the log stays unchanged. |
| `Lib.NewRelic.ForwardAllowed` | src/Lib/NewRelic.php:317-322 | One `foreach` of `collect`: one `parameter` call for each allowed entry, in iteration order. |
| `Lib.Allowed` | src/Lib/NewRelic.php:317-329 | Filtering and renaming never yields more entries than the superglobal has. |
| `Lib.AllowedConcat` | src/Lib/NewRelic.php:317-329 | Filtering keeps iteration order: the entries of the first part come before those of the second. |
| `Lib.AllowedMembership` | src/Lib/NewRelic.php:317-329 | A key/value pair is forwarded exactly when some entry's key is on the allow-list, the pair's key is the prefix plus that key lower-cased, and the pair's value is that entry's value. |

## Left out

- The `newrelic_*` extension functions and `extension_loaded` are foreign calls. They are modelled as the `log` of calls and the `available` field. Nothing checks what the extension does with a call.
- `applicationName` and the `NEW_RELIC_APP_NAME` constant are pure pass-throughs. `StartTransaction` is logged without the application name.
- The trait's other pass-throughs (`stop`, `ignoreTransaction`, `ignoreApdex`, `parameter`, `metric`, `captureParams`, `addTracer`, `user`, `sendException`) only call the façade methods of the same name, and those are modelled. The trait's `applicationName` forwards to the façade's, which is left out as above.
- `is_numeric` on strings and `json_encode` are left abstract as the function fields `isNumericString` and `jsonEncode`. Floats are not modelled, and neither is a `json_encode` failure that returns `false`.
- Lib.NewRelic.Parameter: the `false` it returns when the extension is missing is not modelled, because no caller uses it.
- `in_array` is modelled as exact membership. PHP's loose comparison is not modelled: it only differs for numeric-looking strings such as `"1"` and `"01"`.
- `strtolower` lowers ASCII letters only, as in PHP 8.2 and later. Older PHP versions depend on the locale.
- Lib.NewRelic.IgnoreException, IgnoreError, CollectServerVariables, CollectCookieVariables: these take lists. A single string becomes a one-element list, which is what PHP's `(array)` cast produces. The model does not cover `array_merge` overwriting entries whose keys are strings, because the registries are lists.
- Lib.NewRelic.SendError: the ignored error entries are strings only. A non-string entry registered through `ignoreError` would make `strpos` throw a `TypeError` for its needle under strict types; that case is not modelled. A description that is not a string is modelled.
- A request parameter the router did not set, and a shell property that is unset such as the plugin of a shell outside any plugin (PHP `null`), is given as `""`. Both are falsy, and `join` prints both as nothing.
- The exception object is reduced to its class name and message. `get_class` sees only the class name, and no subclass relation is modelled, just as `in_array` looks at none.
- `$_GET`, `$_POST`, `$_FILES`, `$_SERVER` and `$_COOKIE` are passed to `Collect` as sequences of key/value pairs in iteration order. Integer keys are not modelled.
- src/Controller/Component/NewRelicComponent.php, Controller/Component/NewRelicComponent.php and src/Middleware/NewRelicErrorHandlerMiddleware.php are not part of this model. They are CakePHP event wiring and a thin error-handler override. They call the modelled operations in sequence, and the framework objects they use are not available here.
- Deriving a name twice from the same input gives the same string, and derivation never touches the stored name. This holds by construction: the derivations are Dafny functions that read no state. No separate lemma states it.

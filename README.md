# LLM client registry and stream printer

A model of the one script `week1/my-work/week1-exercise.py`, which talks to a
hosted or local chat-completion service through the OpenAI client library.
Its logic is:

- a registry `MODEL_CONFIGS`, an insertion-ordered dict from model name to a
  config dict holding an `api_key` and, optionally, a `url`, with
  `MODEL_NAMES` its list of keys;
- `get_client_for_model`, which looks a name up and validates its config in a
  fixed order (unknown name, then missing/empty key, then non-`str` url),
  raising one of three `ValueError`s or building a client for the default
  endpoint or for the configured url;
- `ask_model`, which resolves the client and sends the registry key itself as
  the remote model id;
- `print_stream_response`, which prints the first choice's delta content of
  each streamed chunk that has one and, if iterating raises an `Exception`,
  prints one diagnostic and stops; an interrupt (`KeyboardInterrupt`,
  `SystemExit`, `GeneratorExit`) is not caught and leaves the function.

Files:

- `wrappers.dfy` (module `Wrappers`): `Option`, `Result`, and Python
  truthiness of an optional `str` (`None` and `""` are false).
- `registry.dfy` (module `ModelRegistry`): the registry as a sequence of
  entries, lookup, the resolver as a pure function returning
  `Result<ClientSpec, ConfigError>`, the request `ask_model` builds, the
  concrete registry, and lemmas for every branch of the resolver. Python's
  dynamic values are explicit: a `url` is `UrlAbsent`, `UrlNone`, `UrlStr(s)`
  or `UrlOther` (any non-`str` value); an `api_key` is an `Option<string>`.
  The `OpenAI` object is represented by `ClientSpec(apiKey, baseUrl)`, with
  `baseUrl == None` meaning the library's default endpoint. Being functions
  of an immutable value, resolution and lookup cannot change the registry.
- `streaming.dfy` (module `StreamPrinter`): the stream as a sequence of items
  (a chunk; a `Fault` standing for an `Exception` raised while iterating; or
  an `Interrupt` standing for a `BaseException` the `except` clause does not
  catch), a specification function `StreamOutput` giving the `print` calls
  made, the loop itself as a method proved equal to it and reporting whether
  an interrupt escaped, and lemmas about the output.

The docstring of `get_client_for_model` promises "a valid URL"
(`week1/my-work/week1-exercise.py:31-33`), but the code only checks
`isinstance(config["url"], str)` (line 60); the model follows the code. Only
a url that is present, not `None` and not a `str` is rejected; `None` counts
as no url, and an empty `str` url is accepted as the base url.

## Model

| member | source | states |
|---|---|---|
| `ModelRegistry.Names` | week1/my-work/week1-exercise.py:23 | `MODEL_NAMES` has one name per registry entry, the i-th entry's name at position i (insertion order) |
| `ModelRegistry.ModelConfigs` | week1/my-work/week1-exercise.py:13-21 | the `MODEL_CONFIGS` literal (with the environment's key for `gpt-4o-mini`) has distinct keys, as every dict does |
| `ModelRegistry.ModelNames` | week1/my-work/week1-exercise.py:13-23 | for the concrete registry, `MODEL_NAMES` is exactly `["gpt-4o-mini", "qwen3"]`, whatever the environment key |
| `ModelRegistry.Lookup` | week1/my-work/week1-exercise.py:49-52 | a config is found exactly when the name is among the registry's keys, and what is found is that name's entry |
| `ModelRegistry.LookupAt` | week1/my-work/week1-exercise.py:52 | in a registry with distinct keys, looking up the i-th key yields the i-th entry's config |
| `ModelRegistry.ResolveClient` | week1/my-work/week1-exercise.py:49-63 | a resolved client always has a non-empty key and comes from a registered name; every error names the requested model |
| `ModelRegistry.ResolveUnknown` | week1/my-work/week1-exercise.py:49-50 | "Unknown model" is reported if and only if the name is not a registry key, whatever the configs hold |
| `ModelRegistry.ResolveMissingKey` | week1/my-work/week1-exercise.py:49-55 | a known model whose key is absent, `None` or empty gets "API key not configured" (never "Unknown model"), whatever its url is, so the key check precedes the url check |
| `ModelRegistry.ResolveDefaultEndpoint` | week1/my-work/week1-exercise.py:57-58 | with a truthy key and a url that is absent or `None`, the client has that key and no base url |
| `ModelRegistry.ResolveInvalidUrl` | week1/my-work/week1-exercise.py:60-61 | with a truthy key and a url present but not a `str`, the result is "Invalid URL format" |
| `ModelRegistry.ResolveCustomEndpoint` | week1/my-work/week1-exercise.py:60-63 | with a truthy key and a `str` url, the client carries exactly that url and key |
| `ModelRegistry.EmptyUrlAccepted` | week1/my-work/week1-exercise.py:57-63 | an empty-string url passes validation and is used as the base url |
| `ModelRegistry.ErrorMessage` | week1/my-work/week1-exercise.py:49-61 | each of the three `ValueError` texts ends with the requested model's name |
| `ModelRegistry.ErrorMessageInjective` | week1/my-work/week1-exercise.py:49-61 | the three error messages never coincide: the message determines both the kind of error and the model name |
| `ModelRegistry.AskModel` | week1/my-work/week1-exercise.py:65-86 | with defaults `model = DefaultModel` (`"gpt-4o-mini"`) and `stream = false`, a request is built exactly when the client resolves; it goes to the resolved client, names the registry key itself as the remote model, and passes messages and stream flag unchanged; otherwise the resolver's error is raised |
| `ModelRegistry.ConcreteRegistryResolves` | week1/my-work/week1-exercise.py:9-23 | once the startup check has seen a non-empty `OPENAI_API_KEY`, `gpt-4o-mini` (the default model) resolves to the default endpoint with that key, `qwen3` to `http://localhost:11434/v1` with key `ollama`, and a name resolves if and only if it is in `MODEL_NAMES` |
| `ModelRegistry.DefaultRequest` | week1/my-work/week1-exercise.py:65 | after the startup check, `ask_model(messages)` with its defaults sends a non-streamed request for `gpt-4o-mini` to the default endpoint with the environment's key |
| `ModelRegistry.ConcreteRegistryWithoutKey` | week1/my-work/week1-exercise.py:13-21 | the resolver checks keys lazily: on this registry with an empty or missing OpenAI key only `gpt-4o-mini` fails ("API key not configured") and `qwen3` still resolves; a run of the script never gets here, since its startup check (lines 9-10) stops it first |
| `ModelRegistry.ScriptRequest` | week1/my-work/week1-exercise.py:134 | the script's own call sends a streamed request for model `qwen3` to the local endpoint, whatever the OpenAI key is |
| `StreamPrinter.Fragment` | week1/my-work/week1-exercise.py:110-111 | an emitting chunk never prints an empty fragment |
| `StreamPrinter.Rendered` | week1/my-work/week1-exercise.py:111-113 | a fragment is written verbatim with no separator; the diagnostic starts on a new line, carries the exception text and ends the line |
| `StreamPrinter.StreamOutput` | week1/my-work/week1-exercise.py:108-113 | the reference definition of the prints: each stream item prints at most once, and only the last print can be a diagnostic |
| `StreamPrinter.PrintStreamResponse` | week1/my-work/week1-exercise.py:108-113 | the loop makes exactly the `print` calls of the specification `StreamOutput` of the whole stream, and reports an escaping exception exactly when an interrupt arrives before any caught `Exception` |
| `StreamPrinter.NotEscapedAfterFault` | week1/my-work/week1-exercise.py:112-113 | once an `Exception` has been caught, nothing later in the stream can escape the function |
| `StreamPrinter.OutputAppend` | week1/my-work/week1-exercise.py:109-111 | output is incremental: a prefix of plain chunks of the stream prints its output before, and independently of, anything after it |
| `StreamPrinter.FaultFreeOutputIsText` | week1/my-work/week1-exercise.py:108-111 | a stream that never raises an `Exception` prints fragments only, never a diagnostic |
| `StreamPrinter.OutputStopsAtFault` | week1/my-work/week1-exercise.py:108-113 | an `Exception` after k plain chunks yields the output of those k chunks followed by exactly one diagnostic with the exception text, and nothing from later items |
| `StreamPrinter.OutputStopsAtInterrupt` | week1/my-work/week1-exercise.py:108-112 | an interrupt after k plain chunks yields exactly those chunks' output, no diagnostic, and the exception escapes |
| `StreamPrinter.DiagnosticIffFault` | week1/my-work/week1-exercise.py:112-113 | a diagnostic is printed if and only if some step of the iteration raises an `Exception` before any interrupt has left the function |
| `StreamPrinter.EveryFragmentPrinted` | week1/my-work/week1-exercise.py:109-111 | N chunks that all carry content give exactly N prints, the k-th printing the k-th chunk's first-choice content |
| `StreamPrinter.FaultFreeOutputIsFrags` | week1/my-work/week1-exercise.py:109-111 | a stream that never raises prints exactly the first-choice contents of its printing chunks, in arrival order, skipping silent chunks (against an independent filter-and-map definition) |
| `StreamPrinter.ChunkStep` | week1/my-work/week1-exercise.py:109-111 | for any chunk and any rest of the stream, the chunk prints its first choice's delta content exactly when it has at least one choice and that content is present, not `None` and not empty, and otherwise prints nothing; then the rest is consumed |
| `StreamPrinter.SilentChunkPrintsNothing` | week1/my-work/week1-exercise.py:110 | a chunk with no choices, or whose first choice's content is `None` or empty, prints nothing |

## Left out

- Loading `.env` and the startup check on `OPENAI_API_KEY` (lines 6-10) are process I/O; their outcome appears only as the value `openAiKey` given to `ModelConfigs` and as the `Truthy(openAiKey)` precondition of `ConcreteRegistryResolves` and `DefaultRequest`.
- The `OpenAI(...)` constructor and `client.chat.completions.create` are a foreign library and a network call; they are represented by the `ClientSpec` and `CompletionRequest` values built for them, not by any behaviour of the service.
- Real standard output and Python's exception machinery: prints are elements of the returned sequence; an `Exception` during iteration is a `Fault` item carrying its text, and an uncaught `BaseException` is an `Interrupt` item whose propagation is the method's `escaped` result. Which operations can raise (the network, attribute access) is not modelled, only where in the stream the fault occurs.
- A truthy `api_key` that is not a `str` (for example a number) is not modelled: keys are optional strings, as in the concrete registry.
- The prompt strings and the module-level script run (lines 115-135) are data and plumbing; only the call's model name and stream flag are kept (`ScriptRequest`).
- `week1-exercise.py` has no per-entry remote model id and checks only `OPENAI_API_KEY`; the registry key is itself the model id (line 85).

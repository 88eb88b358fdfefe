# Configuration resolver and LLM client, modelled in Dafny

This project models two parts of a research-report agent.

- **The configuration resolver** in `src/utils/config.py`:
  - the `Config` record and its `validate` check;
  - `Config.from_file` for both file formats:
    - the flat `KEY=VALUE` format, read line by line;
    - a Python module, whose constants are chosen by a `basic` or `advanced` profile;
  - `load_config`. It uses the path the caller names, or else probes `myconfig.py`, `config.env` and `.env` in that order. It never returns a configuration that fails validation.
- **The OpenAI-compatible LLM client** in `src/llms/llm.py`:
  - the order of the constructor's checks and the fields it stores;
  - the request `invoke` sends;
  - how `invoke` reads the first choice of the reply;
  - `get_model_info`.

Files:

- `wrappers.dfy`: `Option` and `Result`.
- `values.dfy`: the Python values a configuration can hold, with Python's truth test and `or`.
- `strings.dfy`: the `str` operations the parser relies on, with their laws. These are `strip`, `split('=', 1)`, `startswith`, `endswith`, `lower` and `int`.
- `configuration.dfy`: the resolver.
  - The two loops of the source are methods proved against specification functions:
    - the line loop of the flat branch (`FromFile`);
    - the probing loop of `load_config` (`LoadConfig`).
  - Lemmas state the precedence, default and error rules of the resolver.
- `llm.dfy`: the client, as a class with the source's fields.
  - The constructor's checks are a static method that returns the error or a new client.
  - The network call and `validate_response` are function parameters.

Failures are values of `Result`. The exceptions the resolver raises are the `ConfigError` kinds:

- `FileNotFoundError` is `NotFound`;
- `UnboundLocalError`, raised for an unknown profile, is `UnboundProfile`;
- the `ValueError` from `int()` is `NotAnInteger`;
- the validation `ValueError` is `ValidationFailed`;
- an error while executing the Python configuration is `LoadFailed`.

The disk is a `FileSystem` value. It maps each existing path to its lines, and each Python configuration that executes without an error to the names it defines.

The model follows the code in three places a reader might not expect:

- The Python-source branch stores the module's constants as they are, with no `int()` conversion. `ModuleStoresAsIs` states this.
- A flat file with an empty `BASE_URL` gives `""`. The Python branch turns a falsy base URL into `None`. `EmptyBaseUrl` states where the two formats differ.
- A flat file that does not exist is not an error for `from_file`, which then builds the all-defaults record. `load_config` never reaches that case, because it checks that the file exists before calling `from_file` (src/utils/config.py:121, 127).

## Model

| member | source | states |
|---|---|---|
| Values.Or | src/utils/config.py:70 | `a or b` gives the first operand when it is truthy, otherwise the second |
| Strings.Strip | src/utils/config.py:89 | the stripped line is no longer than the line and has no whitespace at either end |
| Strings.StripSurrounds | src/utils/config.py:89 | `strip()` only removes whitespace around a contiguous slice of the line |
| Strings.StripExact | src/utils/config.py:89 | text without whitespace at its ends, padded with any whitespace, strips back to itself |
| Strings.StripNoNewChar | src/utils/config.py:91-92 | stripping introduces no character, so a stripped key still holds no `=` |
| Strings.StripKeepsFirst | src/utils/config.py:89-90 | after leading whitespace, the first non-blank character is the first character of the stripped line (the `#` test) |
| Strings.IndexOf | src/utils/config.py:91 | the position of the first occurrence of the separator |
| Strings.SplitOnce | src/utils/config.py:91 | `split('=', 1)` cuts at the first `=`: the parts and the separator rebuild the line, and the key part has no `=` |
| Strings.SplitOnceUnique | src/utils/config.py:91 | any cut with no `=` on its left is the one `split('=', 1)` makes, so the value may itself contain `=` |
| Strings.Lower | src/utils/config.py:105 | `lower()` keeps the length and lower-cases each character |
| Strings.LowerIsTrue | src/utils/config.py:105 | `s.lower() == "true"` holds exactly for the sixteen case spellings of "true" |
| Strings.ParseInt | src/utils/config.py:99-103 | `int()` accepts only text that starts with a digit or a sign, and reads plain digit strings as their decimal value |
| Strings.ParseIntExact | src/utils/config.py:99-103 | the model's `int()` succeeds exactly on one or more digits after at most one sign; `+d` reads as d and `-d` as its negation |
| Strings.NatToString | src/utils/config.py:99-103 | decimal text of a natural number is a non-empty digit string |
| Strings.IntRoundTrip | src/utils/config.py:99-103 | the model's `int()` reads back `str(n)` as n for every integer |
| Configuration.MissingCredential | src/utils/config.py:35-46 | the API key is reported when falsy, and the Tavily key only when the API key is set and the Tavily key is falsy |
| Configuration.Validate | src/utils/config.py:35-46 | `validate()` is true iff both credentials are truthy; for `Optional[str]` fields, iff both are present and non-empty |
| Configuration.Entry | src/utils/config.py:89-92 | a kept line gives a key without `=`, and key and value are both trimmed |
| Configuration.LineEntry | src/utils/config.py:89-92 | a line contributes an entry iff, stripped, it is non-empty, does not start with `#` and contains `=` |
| Configuration.LineEntries | src/utils/config.py:88-92 | each line of the file contributes its own entry, in order |
| Configuration.LineEntriesAppend | src/utils/config.py:88-92 | the entries of two concatenated files are the entries of the first followed by those of the second |
| Configuration.FlatEntriesSnoc | src/utils/config.py:88-92 | one more line records its entry on top of the dictionary built so far |
| Configuration.CollectLastWins | src/utils/config.py:92 | recording entries in order keeps a key iff some entry sets it, with the value of the last such entry |
| Configuration.FlatEntriesLastWins | src/utils/config.py:84-92 | a key is in the dictionary iff some kept line defines it, and its value is that of the last such line |
| Configuration.CollectSkipsNone | src/utils/config.py:90 | a line that records nothing leaves the dictionary as it would be without it |
| Configuration.DroppedLineIgnored | src/utils/config.py:88-92 | a blank line, a comment or a line without `=` changes nothing, wherever it stands in the file |
| Configuration.CommentIgnored | src/utils/config.py:90 | a line whose first non-blank character is `#` is never kept |
| Configuration.EntryOfAssignment | src/utils/config.py:89-92 | `KEY = VALUE`, with any whitespace around the key, the `=` and the line, records exactly (KEY, VALUE) |
| Configuration.CommentThenAssignment | src/utils/config.py:84-92 | a comment line followed by an assignment yields a dictionary holding only that assignment |
| Configuration.FromDict | src/utils/config.py:94-106 | a successful flat conversion has the annotated field types, and the only failure is a non-integer numeric text |
| Configuration.DefaultsParse | src/utils/config.py:99-103 | the default texts "3", "240", "20000", "2", "5" read as 3, 240, 20000, 2, 5 |
| Configuration.GetIntCases | src/utils/config.py:99-103 | `int(config_dict.get(key, default))` fails exactly on a present malformed text, with that text; otherwise it is the file's number or the default's |
| Configuration.FromDictFailure | src/utils/config.py:99-103 | conversion fails iff some numeric key is present with non-integer text, and it reports the first such key in argument order: no default replaces a malformed number |
| Configuration.FromDictFields | src/utils/config.py:94-106 | each field holds the file's text or its default (None, "deepseek-chat", 3, 240, 20000, 2, 5, "reports"); an empty value stays ""; the flag is true iff absent or spelled "true" in any case |
| Configuration.FromModule | src/utils/config.py:60-81 | the profile must be basic or advanced, otherwise UnboundProfile; the base URL is None or truthy; each profile has its own default model |
| Configuration.FromModuleFields | src/utils/config.py:60-81 | basic reads DEEPSEEK_BASE_URL/API_KEY/MODEL and advanced reads OPENAI_BASE_URL/API_KEY/MODEL; a truthy base URL is kept and a falsy one becomes None; every other field is its constant or its default (None, 3, 240, 20000, 2, 5, "reports", True) |
| Configuration.ModuleStoresAsIs | src/utils/config.py:73-80 | a constant defined in the Python module is stored unconverted, even when it is falsy |
| Configuration.FormatsAgree | src/utils/config.py:60-106 | the same settings written as a flat file or as basic-profile constants give the same Config, defaults included, unless BASE_URL is "" |
| Configuration.EmptyBaseUrl | src/utils/config.py:70-95 | an empty base URL stays "" in a flat file but becomes None in a Python module |
| Configuration.ConfigOfFile | src/utils/config.py:49-106 | a `.py` path is loaded as the profile mapping of the module's names, NotFound when missing and LoadFailed when it raises; any other path is the flat conversion of its lines, or of no lines when missing |
| Configuration.FromFile | src/utils/config.py:49-106 | the line loop builds the dictionary the specification function `ConfigOfFile` describes |
| Configuration.FirstExisting | src/utils/config.py:126-132 | the result is the first existing path of the list, or None exactly when none exists |
| Configuration.SourcePath | src/utils/config.py:120-132 | a named existing file is the one chosen and a named missing file gives NotFound; with no name the first existing default is chosen; the chosen file exists and the only failure is NotFound |
| Configuration.Loaded | src/utils/config.py:109-141 | a returned configuration always validates; a named file that does not exist gives NotFound; a configuration that parses and validates is returned as parsed |
| Configuration.Checked | src/utils/config.py:135-141 | a parse error passes through unchanged; a parsed configuration is returned unchanged iff it validates, and otherwise the result is ValidationFailed |
| Configuration.LoadedFlat | src/utils/config.py:120-141 | loading a named flat file is validating what its lines give |
| Configuration.LoadedModule | src/utils/config.py:51-81 | loading a named `.py` file is validating what its profile constants give; a file that raises while executing fails with LoadFailed |
| Configuration.LoadConfig | src/utils/config.py:109-141 | the probing loop with `break`/`else` computes what `Loaded` specifies |
| Configuration.DefaultProbeOrder | src/utils/config.py:124-132 | with no path (None or ""), myconfig.py comes before config.env, and config.env before .env |
| Configuration.ProbeAsNamed | src/utils/config.py:124-135 | probing behaves as if the first existing default had been named |
| Configuration.NotFoundExactly | src/utils/config.py:120-132 | NotFound happens iff the named file is missing, or, with no name, iff none of the three defaults exists |
| Configuration.MalformedNumberFails | src/utils/config.py:99-139 | a malformed number in a flat file fails the load with NotAnInteger, ahead of validation |
| Configuration.FlatFileLoads | src/utils/config.py:94-141 | a flat file with both credentials and well-formed numbers loads, with its credentials and the numeric defaults |
| Configuration.FlatMissingApiKey | src/utils/config.py:35-40 | a flat file without API_KEY fails validation, and the API key is the credential reported |
| LlmClient.InitFailure | src/llms/llm.py:22-38 | the constructor refuses a None api_key first, then a None base_url, then a falsy model_name; empty strings pass the first two checks |
| LlmClient.Llm.Bind | src/llms/llm.py:28-34 | the three arguments are stored and the client is bound to the key and the endpoint |
| LlmClient.Llm.New | src/llms/llm.py:13-38 | construction fails with exactly the error `InitFailure` names; otherwise it gives a fresh valid client with `default_model == model_name` |
| LlmClient.Llm.GetModelInfo | src/llms/llm.py:83-93 | the model info is the stored default model and base URL, read without a state change |
| LlmClient.Llm.BuildRequest | src/llms/llm.py:55-67 | exactly two messages, system then user, with the prompts unchanged; never streamed; the client's model; the caller's max_tokens and temperature when given, otherwise 4000 and the default temperature |
| LlmClient.Llm.OtherOptionsIgnored | src/llms/llm.py:61-67 | options other than temperature and max_tokens do not change the request |
| LlmClient.ReadReply | src/llms/llm.py:73-81 | an error answer is re-raised unchanged; no choice or no message gives ""; otherwise the first choice's content goes through `validate_response` |
| LlmClient.Llm.Invoke | src/llms/llm.py:53-81 | exactly one more call is made to the endpoint; its error is re-raised unchanged; no choice or no message gives ""; otherwise the first choice's content goes through `validate_response` |
| LlmClient.Llm.SingleCall | src/llms/llm.py:70-81 | the outcome depends only on the endpoint's answer to this one call, not on how it would answer a later call, so a failure is not retried |
| LlmClient.Llm.FirstChoiceOnly | src/llms/llm.py:73-75 | replies that agree on the first choice give the same result |

## Left out

- Executing the Python configuration file (`importlib`, `exec_module`): the module's names are an input, and an execution failure is the single kind `LoadFailed`.
- Reading the disk and text encodings: a file is its sequence of lines, and existence is membership in the file map. Path normalisation, directories and file permissions are not modelled.
- Console output: the `print` diagnostics and `print_config` (src/utils/config.py:144-160) only print.
- The unused `from openai import base_url` import at src/utils/config.py:10 has no effect on the logic.
- Strings.ParseInt: accepts an optional sign followed by ASCII digits only. Python's `int()` also accepts underscores between digits, surrounding whitespace and non-ASCII decimal digits. CPython also refuses decimal text of more than 4300 digits by default (`sys.get_int_max_str_digits`); the model has no such limit, so a flat file with a longer number fails in Python but converts in the model.
- Strings.Lower: maps only ASCII letters. This is exact for the comparison with "true" (no other character lowers to an ASCII letter used there), but not for all of `str.lower()`.
- The OpenAI client object and the network: the remote endpoint is a function from client, request and call number to a reply or an error.
- `temperature` is a float: the model records only whether it was given or defaulted to 0.7.
- src/llms/base.py is not part of this model: `BaseLLM.__init__` is taken to store its three arguments, and `validate_response` is a function parameter of `Invoke`.
- src/llms/__init__.py only re-exports names.
- Exception messages: only the kinds of failure are modelled.
- LlmClient.Llm.Invoke: `validate_response` is taken never to raise. In the source it runs inside the `try` (src/llms/llm.py:75, 79-81), so an exception it raised would be re-raised too; the model cannot express that.
- Default arguments: `method="basic"` of `from_file` and `load_config` and `config_file=None` of `load_config` (src/utils/config.py:49, 109) are not modelled; callers pass the profile and `None` explicitly.

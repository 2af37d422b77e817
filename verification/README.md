# LandPPT core, modelled in Dafny

This project models four parts of LandPPT, a presentation generator with an
OpenAI-compatible API:

- **The DEEP research report generator.** This covers:
  - the Markdown text it renders for a finished `ResearchReport`;
  - the file name it picks when saving the report, including the topic sanitizer;
  - the `.md` suffix test that decides whether `delete_report` removes a file.

  The reports directory is a map from names to entries.
- **The AI provider base class.** This covers:
  - the model default taken from the configuration;
  - `get_model_info` with its secret keys hidden;
  - the whitespace token count behind `_calculate_usage`;
  - `_merge_config`.
- **The API data models.** This covers:
  - the field constraints and defaults of the chat and completion requests;
  - the response ids and object types;
  - the task board, project and slide records, with their literal status fields and defaults.
- **The launcher `run.py`.** This covers:
  - the dependency check;
  - turning environment variables into the keyword arguments that go to `uvicorn.run`. This includes Python's `int()` rules for the port.

Modules:

| module | file | models |
|---|---|---|
| `Wrappers` | wrappers.dfy | `Option` and `Result` |
| `Seqs` | seqs.dfy | sequence filtering used by the report-layout lemmas |
| `Text` | text.dfy | `str.strip`, `str.split()`, ASCII `lower`, decimal digits, join and split on a separator |
| `FileNames` | file_names.dfy | `_sanitize_filename`, the save file name, `PurePath.suffix` |
| `ReportMarkdown` | markdown.dfy | `_build_markdown_content`, as written and as intended |
| `ReportLayout` | report_layout.dfy | what a reader of the rendered report can rely on |
| `ReportStore` | report_store.dfy | `save_report_to_file` and `delete_report` over a directory map |
| `Provider` | provider.dfy | `AIProvider` helpers and `MessageRole` |
| `Schema` | schema.dfy | the pydantic models of `api/models.py` |
| `Launcher` | launcher.dfy | `check_dependencies` and `main` of `run.py` |

Values the program gets from the outside world are parameters of the model:
- the clock: a report's creation time already formatted in the two layouts used, and the render time `now`;
- `uuid4()`, as a 128-bit number;
- `time.time()`: as `clock` for the response factories, and as the separate `created` and `updated` readings for the stage, board and project factories;
- the set of importable modules, as a predicate;
- the process environment, as a map.

## Model

| member | source | states |
|---|---|---|
| FileNames.ReplaceIllegal | src/landppt/services/research_report_generator.py:223 | each of the nine characters `<>:"/\|?*` becomes `_`; every other character is kept in place and the length is unchanged |
| FileNames.CollapseSpaces | src/landppt/services/research_report_generator.py:225 | the result holds no whitespace and is no longer than its input |
| FileNames.Normalize | src/landppt/services/research_report_generator.py:223-225 | the replaced and stripped name, with each whitespace run collapsed, holds neither illegal characters nor whitespace |
| FileNames.NormalizeIsSplitJoin | src/landppt/services/research_report_generator.py:223-225 | normalising is the same as joining the whitespace-separated words of the replaced name with `_` |
| FileNames.Sanitize | src/landppt/services/research_report_generator.py:220-229 | the sanitized topic is a prefix of the normalised one, clean, and exactly `min(50, length)` characters long |
| FileNames.SanitizeClean | src/landppt/services/research_report_generator.py:220-229 | a clean name of at most 50 characters is left unchanged |
| FileNames.SanitizeIdempotent | src/landppt/services/research_report_generator.py:220-229 | sanitizing a sanitized name changes nothing |
| FileNames.ChooseFilename | src/landppt/services/research_report_generator.py:94-101 | a non-empty custom name is kept if it ends in `.md` and otherwise gets `.md` appended; an absent or empty one gives `research_<sanitized topic>_<timestamp>.md`; every choice ends in `.md` |
| FileNames.RFind | src/landppt/services/research_report_generator.py:257 | the index is the last occurrence of the character, or -1 when there is none |
| FileNames.LastPartShape | src/landppt/services/research_report_generator.py:256-257 | the last path component as `PurePath.name` reads it holds no `/` and, when non-empty, is never a lone `.`: empty and `.` components are skipped |
| FileNames.ReportSuffixIff | src/landppt/services/research_report_generator.py:257 | a single path component has `PurePath.suffix == '.md'` exactly when it ends in `.md` and has a character before the dot |
| FileNames.ReportPathSuffixIff | src/landppt/services/research_report_generator.py:256-257 | a file name ending in `.md` passes the suffix test of `reports_dir / filename` exactly when its last component is not `.md` itself |
| ReportMarkdown.Numbered | src/landppt/services/research_report_generator.py:157-158 | one line per item, item k being prefixed by its number `start + k` and `. ` |
| ReportMarkdown.ListSection | src/landppt/services/research_report_generator.py:154-167 | an empty list renders nothing; a non-empty one renders heading, blank line, numbered items, blank line |
| ReportMarkdown.Preview | src/landppt/services/research_report_generator.py:194 | content of up to 150 characters is shown whole; longer content is cut to its first 150 characters followed by `...` |
| ReportMarkdown.AppendLines | src/landppt/services/research_report_generator.py:133 | appending to a list that exists extends it by the lines in order; appending to an unbound name raises `NameError` for `content` |
| ReportMarkdown.AsWrittenAlwaysFails | src/landppt/services/research_report_generator.py:120-218 | as written, rendering any report raises `NameError`, and so never yields the intended text |
| ReportMarkdown.InitialisedRenders | src/landppt/services/research_report_generator.py:133-216 | starting from an empty list, the appends yield exactly the intended line list |
| ReportLayout.ReportHeadings | src/landppt/services/research_report_generator.py:133-216 | when the executive summary and no completed step's analysis starts with `## `, the `## ` entries of the rendered line list are, in order: info, summary, then findings, recommendations and sources, each one exactly when its list is non-empty |
| ReportLayout.TextHeadings | src/landppt/services/research_report_generator.py:133-218 | under the same two conditions, and when no field holds a newline, the heading lines of the saved Markdown text are exactly that list |
| ReportLayout.SectionHeadings | src/landppt/services/research_report_generator.py:154-167 | a list section contributes its heading exactly when its list is non-empty, and no other heading |
| ReportLayout.MetadataHeadings | src/landppt/services/research_report_generator.py:133-145 | the metadata block holds exactly one heading, the info heading |
| ReportLayout.ResultsLinks | src/landppt/services/research_report_generator.py:187-195 | a completed step lists `min(3, hits)` numbered links, link k being hit k numbered from 1, with title and URL defaults |
| ReportLayout.HitsLinks | src/landppt/services/research_report_generator.py:190-195 | the numbered lines of a hit list are its links, one per hit in order; content previews are never numbered |
| ReportLayout.HitsQuotes | src/landppt/services/research_report_generator.py:190-195 | the `   > ` quote lines of a hit list are, in order, the previews of exactly the hits whose content is truthy; a link line is never one |
| ReportLayout.StepsErrorLines | src/landppt/services/research_report_generator.py:178-201 | provided no completed step's analysis starts with the error label `**错误信息**: `, the error lines of the step part correspond one to one, in order, to the steps that did not complete, each being the error label followed by that step's analysis |
| ReportLayout.StepsNoHeading | src/landppt/services/research_report_generator.py:173-201 | steps add no `## ` heading when no completed analysis starts with one |
| ReportLayout.CountsReadBack | src/landppt/services/research_report_generator.py:143-144 | the step-count and source-count lines carry decimal numbers that parse back to the number of steps and of sources |
| ReportLayout.MarkdownSplitsIntoLines | src/landppt/services/research_report_generator.py:218 | when no field holds a newline, splitting the rendered text on `\n` gives back the line list exactly |
| ReportStore.Write | src/landppt/services/research_report_generator.py:110-111 | opening a folder for writing fails; otherwise the name holds the text and every other entry is kept |
| ReportStore.SaveReport | src/landppt/services/research_report_generator.py:82-118 | saving fails exactly when the chosen name is a folder; otherwise the directory gains that name holding the rendered report, keeps its root and every other entry unchanged, and the absolute path is returned |
| ReportStore.SaveAsWrittenFails | src/landppt/services/research_report_generator.py:107-118 | as written, saving re-raises the rendering error for every report and writes nothing |
| ReportStore.DeleteReport | src/landppt/services/research_report_generator.py:253-267 | `true`, with the entry removed, exactly when the name exists, the last component of `reports_dir / filename` has suffix `.md`, and it is a file; otherwise `false` with the directory unchanged |
| ReportStore.ChosenNameDeletable | src/landppt/services/research_report_generator.py:94-101 | a name the save step chooses passes the delete suffix test exactly when its last path component is not `.md` itself |
| ReportStore.SaveThenDelete | src/landppt/services/research_report_generator.py:253-263 | when the chosen name is not a folder and its last component is not `.md`, saving succeeds, and deleting by that name then succeeds and leaves exactly the entries that were there before, less that name |
| ReportStore.SavedFileLines | src/landppt/services/research_report_generator.py:107-111 | when no report field and no render time holds a newline, the saved file's text splits back into the report's lines |
| ReportStore.DotMdNotDeletable | src/landppt/services/research_report_generator.py:257 | a report saved under the custom name `.md` exists but `delete_report(".md")` refuses it |
| ReportStore.NestedDotMdRefused | src/landppt/services/research_report_generator.py:256-257 | `delete_report("x/.md")` is refused whatever the directory holds, since the last component `.md` has no suffix |
| Provider.ParseRole | src/landppt/ai/base.py:29-39 | a role parsed from a string has that string as its wire name |
| Provider.RoleNamesRoundTrip | src/landppt/ai/base.py:29-39 | every role's wire name parses back to that role |
| Provider.NewProvider | src/landppt/ai/base.py:124-131 | the configuration is kept; the model is its `model` entry, or `"unknown"` when absent |
| Provider.Redact | src/landppt/ai/base.py:220 | exactly the keys whose lower-cased form does not contain `key` are kept, with their values |
| Provider.GetModelInfo | src/landppt/ai/base.py:209-221 | the model info carries the model, the class name and every non-secret configuration entry, and no secret one |
| Provider.RedactIdempotent | src/landppt/ai/base.py:220 | redacting twice removes nothing more |
| Provider.ModelInfoHidesKeys | src/landppt/ai/base.py:209-221 | a configured key appears in the model info exactly when its lower-cased form does not contain `key` |
| Provider.ApiKeyHidden | src/landppt/ai/base.py:220 | `api_key` and `API_KEY` are hidden and `model` is shown |
| Provider.MergeConfig | src/landppt/ai/base.py:243-247 | the merged keys are the union; request parameters win on shared keys and the other configuration entries are kept |
| Provider.MergeNothing | src/landppt/ai/base.py:243-247 | merging no parameters gives the configuration back |
| Provider.MergeTwice | src/landppt/ai/base.py:243-247 | merging twice equals merging once with the later parameters winning |
| Provider.RedactMerge | src/landppt/ai/base.py:220 | redaction distributes over the merge |
| Provider.CountTokens | src/landppt/ai/base.py:234-235 | `len(text.split())` equals the number of maximal runs of non-whitespace characters |
| Provider.CalculateUsage | src/landppt/ai/base.py:223-241 | prompt and completion tokens are the word counts of the two texts, and the total is their sum |
| Provider.BlankHasNoTokens | src/landppt/ai/base.py:234-235 | empty or all-whitespace text counts zero tokens |
| Provider.CountAcrossSpace | src/landppt/ai/base.py:234-235 | the count of two texts joined by a space is the sum of their counts |
| Provider.CountIgnoresEnds | src/landppt/ai/base.py:234-235 | stripping a text leaves its count unchanged |
| Schema.MessageRoleIsRole | src/landppt/api/models.py:48 | a chat message's role is valid exactly when it is one of the `MessageRole` wire names |
| Schema.SamplingErrorsIff | src/landppt/api/models.py:70-77 | validation reports no error exactly when every sampling field is within its bounds or null |
| Schema.SamplingErrors | src/landppt/api/models.py:70-77 | each field is reported exactly when it breaks its own bound: temperature in [0,2], max_tokens > 0, top_p in [0,1], n in [1,128], both penalties in [-2,2] |
| Schema.DefaultSampling | src/landppt/api/models.py:70-77 | the field defaults are: temperature 1, top_p 1, n 1, stream false, both penalties 0, stop and user null |
| Schema.NewChatRequest | src/landppt/api/models.py:52-78 | a chat request keeps model and messages and defaults max_tokens to null |
| Schema.NewCompletionRequest | src/landppt/api/models.py:80-106 | a completion request keeps model and prompt and defaults max_tokens to 16 |
| Schema.DefaultRequestsValid | src/landppt/api/models.py:52-106 | both requests built from defaults satisfy every field constraint |
| Schema.Hex | src/landppt/api/models.py:155 | the rendering has exactly the width asked for and uses lower-case hex digits only |
| Schema.ParseHexRoundTrip | src/landppt/api/models.py:155 | a number below 16^width reads back from its hex rendering |
| Schema.ResponseId | src/landppt/api/models.py:155 | an id is its prefix followed by the first 29 lower-case hex digits of the uuid |
| Schema.NewChatResponse | src/landppt/api/models.py:144-160 | the id is `chatcmpl-` plus 29 hex digits (38 characters), the object is `chat.completion`, and the other fields are kept |
| Schema.NewCompletionResponse | src/landppt/api/models.py:162-178 | the id is `cmpl-` plus 29 hex digits (34 characters), the object is `text_completion`, and the other fields are kept |
| Schema.UsageFor | src/landppt/api/models.py:108-118 | a usage record filled from `_calculate_usage` carries the provider's word counts, and its total is their sum |
| Schema.NewTodoStage | src/landppt/api/models.py:263-285 | a new stage is pending at progress 0, with no subtasks and no result; `created_at` and `updated_at` each take their own clock reading |
| Schema.NewTodoBoard | src/landppt/api/models.py:287-305 | a new board starts at stage index 0 and progress 0; `created_at` and `updated_at` each take their own clock reading |
| Schema.NewBoardValid | src/landppt/api/models.py:263-305 | a board of freshly made stages satisfies every literal and range constraint |
| Schema.NewProject | src/landppt/api/models.py:308-344 | a new project is a draft at version 1, with an empty version history and every optional part null; `created_at` and `updated_at` each take their own clock reading |
| Schema.NewProjectValid | src/landppt/api/models.py:334 | a new project's status is one of its four literals |
| Schema.AttachBoardValid | src/landppt/api/models.py:340 | attaching a valid board to a valid project keeps it valid |
| Schema.NewSlide | src/landppt/api/models.py:353-362 | a new slide has layout `default`, is unlocked, and has every optional part null |
| Schema.NewSlideValid | src/landppt/api/models.py:354 | a new slide is valid exactly when its type is one of the nine literals |
| Launcher.Missing | run.py:28-33 | no more packages are missing than there are requirements |
| Launcher.MissingEmptyIff | run.py:28-40 | nothing is missing exactly when every required module is importable |
| Launcher.MissingAreUnimportable | run.py:28-33 | every missing package name belongs to a requirement whose module cannot be imported |
| Launcher.UnimportableAreMissing | run.py:28-33 | the package of every requirement whose module cannot be imported is listed |
| Launcher.CheckDependencies | run.py:17-40 | the loop collects the missing package names in list order; the check passes exactly when every module imports, which is exactly when nothing is missing |
| Launcher.ParseInt | run.py:80 | `int()` fails exactly when the text, stripped of the whitespace `int()` strips (ASCII tab to carriage return and space, and non-ASCII `str.isspace()` characters), less an optional sign, is not a run of digit groups joined by single underscores, or has more than 4300 digits; the failure names the text and which of the two it is |
| Launcher.ParseIntNatStr | run.py:80 | a decimal rendering of at most 4300 digits parses to n, with a minus sign to -n, and with surrounding whitespace still to n; a longer one is refused |
| Launcher.SeparatorNotStripped | run.py:80 | a port padded with the information separator U+001C is refused, and so the configuration fails to resolve, while one padded with the ideographic space U+3000 reads as 8000 |
| Launcher.GroupedDigits | run.py:80 | `8_000` parses to 8000, while `8__000`, `_8000` and the empty string are rejected |
| Launcher.ResolveConfig | run.py:79-102 | fails exactly when `PORT` is not an integer; otherwise it takes the host and port from the environment with defaults; `DEBUG` forces reload and log level `debug`; otherwise `RELOAD` and `LOG_LEVEL` decide |
| Launcher.EmptyEnvDefaults | run.py:79-102 | with no variables set, the server binds `0.0.0.0:8000` with reload on and log level `info` |
| Launcher.DebugOverrides | run.py:86-88 | with `DEBUG` truthy, reload is on and the level is `debug`; setting `RELOAD` and `LOG_LEVEL` to any values, or removing them, gives the same outcome |
| Launcher.EmptyPortFails | run.py:80 | an empty `PORT` stops the launch |
| Launcher.Launch | run.py:58-102 | missing dependencies stop the launch with their package names; otherwise the environment decides |
| Launcher.LaunchWithDependencies | run.py:62-63 | when every module is importable, the launch is decided by the environment alone |
| Text.TokensCountRuns | src/landppt/ai/base.py:234-235 | the number of words `split()` yields equals the number of non-whitespace runs |
| Text.TokensStrip | src/landppt/ai/base.py:234-235 | `split()` of a stripped text is `split()` of the text |
| Text.ParseNatStr | src/landppt/services/research_report_generator.py:143-144 | the decimal rendering of a count parses back to that count |
| Text.SplitJoin | src/landppt/services/research_report_generator.py:218 | joining one or more newline-free lines with `\n` and splitting on `\n` gives back the lines |

## Left out

- The filesystem itself is not modelled. This means `mkdir` of the reports directory, encodings, and operating-system errors other than opening or unlinking a folder. The directory is a map from names to files and folders.
- ReportStore.DeleteReport: looks a file name up as a flat key of the directory map. `reports_dir / filename` resolves `/`, `./`, `..` and absolute names against real folders, so `delete_report("./r.md")` removes `r.md`, and `../x.md` or an absolute name reaches outside the reports directory. None of that is modelled; only the suffix test reads the last path component, as pathlib does.
- ReportStore.SaveReport: writes a custom name holding `/` or `..` under that flat key as well; where such a path lands in the real file system is not modelled. The returned path is the root, a `/` and the name joined as text. `pathlib` gives a different string for an absolute custom name, which replaces the root, and for a name holding `//` or `./`, which it normalises.
- FileNames.LastPart: follows POSIX paths; the Windows separators `\\` and drive names are not modelled.
- `list_saved_reports` and `get_reports_directory` are not modelled. Both are reads of the operating system's directory listing and file times.
- `generate_markdown_report` (research_report_generator.py:58-77) is not modelled separately. It calls the same renderer, so it raises the same `NameError`. Besides that it only computes a sanitized topic and a `strftime` timestamp that it never uses.
- `datetime.strftime`, `datetime.now()` and the `:.2f` float rendering happen outside the model: the report carries those strings already formatted.
- `uuid.uuid4()` and `time.time()` are parameters: a 128-bit number and clock values. Each `time.time()` default is a reading of its own.
- Schema.UsageFor: the source's `Usage` model accepts any three integers. Filling it from `_calculate_usage` is this model's own composition, not code in the source.
- The asynchronous provider methods (`chat_completion`, `text_completion`, `stream_*`) and vendor HTTP calls are not modelled; they are abstract in the base class or talk to the network.
- ReportLayout.StepsErrorLines: says nothing about reports in which a completed step's analysis starts with `**错误信息**: `. Such AI-written text adds error lines that the list of unfinished steps does not predict.
- ReportStore.SavedFileLines: needs every report field and the render time to be free of newlines. A topic, summary, finding or analysis holding `\n` splits into more lines than the report's line list has.
- ReportLayout.ReportHeadings: says nothing about reports whose executive summary or a completed analysis starts with `## `, or holds a newline followed by `## `. Such AI-written text adds headings to the saved file that the list does not predict. ReportLayout.TextHeadings also needs every field to be free of newlines.
- `ReportMarkdown.TitleOf` and `ReportMarkdown.UrlOf` model a missing `title`/`url` key with its default. A key present with value `None` would render `None` in Python; that case is not modelled.
- Schema.ValidSampling: the "up to 4" stop sequences is only a field description in the source, not a constraint, so it is not enforced. Floats are modelled as `real`, so NaN and infinity are not modelled.
- Schema.ValidStage: the `progress` floats carry no bounds in the source and none are added. Stage, board and project updates beyond construction are not modelled, because the models file has no such code.
- Provider.Value: configuration values cover null, booleans, integers, strings and lists; floats and nested dicts are not modelled.
- Text.Lower: lower-cases ASCII letters and the Kelvin sign, the only non-ASCII character whose lower-case form is an ASCII letter. So the `"key"` test of `get_model_info` and the truthy test of `run.py` are exact.
- Launcher.ResolveConfig: this is weaker than Python's full Unicode `str.lower()` for `LOG_LEVEL` values with non-ASCII letters.
- Launcher.CheckDependencies: `importable(m)` means that `__import__(m)` raises no `ImportError`. Any other exception raised while a package initialises propagates out of `check_dependencies` and `main` in the program, so it never prints the missing list; the model does not have that outcome.
- Launcher.ParseInt: the 4300-digit limit is CPython's default since 3.11 and the 3.7-3.10 security releases. Older interpreters have no limit, and `PYTHONINTMAXSTRDIGITS` or `sys.set_int_max_str_digits` can change it; only the default is modelled. The same holds for Launcher.ParseIntNatStr.
- Launcher.ParseInt: only ASCII digits are modelled. Python's `int()` also accepts other Unicode decimal digits. The whitespace it strips is `Launcher.IntSpace`: ASCII tab to carriage return and space, plus the non-ASCII characters `Text.IsSpace` lists. The ASCII separators U+001C to U+001F are not stripped, although `str.isspace()` holds for them.
- `check_env_file`, `load_dotenv`, the printed banners and `uvicorn.run` itself are I/O and are not modelled. The model stops at the keyword arguments `main` passes to `uvicorn.run`.
- `src/landppt/database/database.py` is not part of this model.

## Findings

| source | as written | input that shows it | evidently intended | confidence | as-written member | corrected member |
|---|---|---|---|---|---|---|
| src/landppt/services/research_report_generator.py:133 | `_build_markdown_content` calls `content.append(...)` but never binds `content`, so the first append raises `NameError`; `save_report_to_file` re-raises it and never writes a file | any report, e.g. one with an empty topic and no steps | `content = []` before the first append, giving the report text `"\n".join(content)` | not executed | ReportMarkdown.AsWrittenAlwaysFails | ReportMarkdown.InitialisedRenders |

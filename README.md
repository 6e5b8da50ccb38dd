# apub project loading and output dispatch, in Dafny

apub turns a project description into ebooks. A project holds:

- a book (its metadata and chapters);
- text substitutions;
- a list of outputs: HTML, JSON, or a file made by the external `ebook-convert` program.

This project models the part of apub that does not render anything:

- **Outputs** (`output.dfy`, apub/output/output.py):
  - the `Output` base class and its defaults;
  - `Output.from_dict`, which picks the subclass from the `type` key and then assigns the four shared fields one by one;
  - the order-keeping chapter filter `filter_chapters_by_publish`.
- **ebook-convert output** (`ebookconvert.dfy`, apub/output/ebookconvert.py):
  - the allow-list of book attributes;
  - `--name="value"` formatting;
  - `_append_param`, which adds to the caller's list in place;
  - the loop in `_attrs_as_ebookconvert_params`;
  - `EbookConvertOutput.from_dict` and `make`. `make` builds the argument vector, renders HTML to a temporary file, calls the converter and removes the file on every way out.
- **Project** (`project.dfy`, apub/project.py):
  - `Project.from_dict`, which assigns book, then outputs, then substitutions to a fresh `Project`;
  - the `_get_*_from_dict` loops;
  - the malformed-JSON branch of `read_project`;
  - the three-way choice in `_get_project_file_path`.
- **Dispatch** (`make.dfy`, apub/make.py): `make`, `make_every_output` and `find_output`.
- **Flat-schema YAML loader** (`yaml_loader.dfy`): the loader whose behaviour tests/test_yaml.py asserts. It covers:
  - the book's fields at the top level;
  - chapters with `publish` defaulting to true;
  - parameter normalisation;
  - global-then-local parameters;
  - output kind from the path ending;
  - local-over-global stylesheet;
  - substitution shapes and their error text.

  The loader's own code is not part of this model. Its functions are specified from the tests' assertions.

Shared modules:

- `values.dfy` holds the Python values the code works on and the built-ins it relies on:
  - a dict as a list of entries in insertion order;
  - `in` and `[]` on a dict, and `dict.get`;
  - `str()` and `repr()`;
  - iteration and `str.isspace`;
  - a list that grows in place;
  - `Collect`, the map-until-first-raise that every `for … append(from_dict(…))` loop computes.
- `books.dfy` holds the shapes of books, chapters and substitutions.

Where the code works by changing state, the model does too:

- `Output` and `Project` are classes whose fields the methods assign.
- `_append_param` and `make` grow a list object.
- The loops are `for` loops with invariants.

Each method is proved against a function that states what it computes. That function's properties are proved as lemmas.

Effects outside Python are ghost logs:

- the temporary files alive, and their creation and removal;
- the HTML renderings;
- the argument vectors given to `ebook-convert`;
- the outputs built by `make`.

The subclasses HtmlOutput, JsonOutput and EbookConvertOutput are one class, `Outputs.Output`. Its constant `kind` says which subclass an object is.

## Model

| member | source | states |
|---|---|---|
| Outputs.Output.constructor | apub/output/output.py:25-29 | A new output has name, path and css None, force_publish False, and (as ebookconvert.py:56-58 adds) an empty ebookconvert_params list |
| Outputs.FilterChaptersByPublish | apub/output/output.py:59-63 | Every chapter kept has the requested publish flag, and the result is no longer than the input |
| Outputs.FilterKeepsExactlyMatching | apub/output/output.py:60-63 | Each chapter with the requested flag is kept exactly as many times as it occurs; no chapter with the other flag is kept |
| Outputs.FilterPreservesOrder | apub/output/output.py:61-63 | The result is a subsequence of the input: the kept chapters keep their relative order |
| Outputs.FilterMembership | apub/output/output.py:60-63 | A chapter is in the result if and only if it is in the input with the requested flag |
| Outputs.DefaultFilterKeepsPublished | apub/output/output.py:60 | Called without a flag, the filter keeps exactly the published chapters |
| OutputFactory.SubclassRecord | apub/output/output.py:39-47 | The subclass's own from_dict gives an object of that kind with the defaults; an ebook-convert one takes its options from the dict, or [] |
| OutputFactory.CopySharedFields | apub/output/output.py:52-55 | name, path, css and force_publish are copied from the dict verbatim and nothing else changes; the first missing key, in that order, is a KeyError naming it |
| OutputFactory.ParseOutput | apub/output/output.py:36-37 | A value that is not a dict fails (Python's subscript TypeError) |
| OutputFactory.ParseOutputFollowsType | apub/output/output.py:36-57 | A missing type is KeyError('type') before anything else is read. An object comes out only for a dict with a type key. Its kind is html, json or ebook-convert exactly when type is 'html', 'json' or 'ebook-convert'. Any other type raises NotImplementedError('Unrecognized output type: ' + str(type)). The four shared fields equal the dict's values. An ebook-convert object's options are the dict's, or [] |
| OutputFactory.AssignSharedFields | apub/output/output.py:52-55 | Assigning the four fields in place leaves the object holding exactly CopySharedFields of its old state, or fails with the same KeyError |
| OutputFactory.FromDict | apub/output/output.py:35-57 | Returns a new Output whose fields are ParseOutput's record, or raises ParseOutput's error |
| EbookConvert.SupportedMetadataAttrsAsEvaluated | apub/output/ebookconvert.py:33-48 | The allow-list evaluates to 13 names: 'book_producercomments' is one of them, and neither 'book_producer' nor 'comments' is |
| EbookConvert.SupportedNamesHaveNoEquals | apub/output/ebookconvert.py:33-48 | No allowed name contains '=' |
| EbookConvert.IntendedListSplitsJoinedName | apub/output/ebookconvert.py:36-37 | The restored list is the written list with its joined entry split into 'book_producer' and 'comments' |
| EbookConvert.FormatParamLayout | apub/output/ebookconvert.py:141-142 | The option is '--', then the name, then '="', then the value, then '"', and so is 5 characters longer than name and value together |
| EbookConvert.FormatParamInjective | apub/output/ebookconvert.py:141-142 | For names without '=', equal options have equal names and equal values |
| EbookConvert.AttrParam | apub/output/ebookconvert.py:113-117 | A name gives no option when the book lacks the attribute or its str() is empty or all whitespace (None is the text 'None', so it is emitted); otherwise exactly one, --name="str(value)" |
| EbookConvert.AppendParam | apub/output/ebookconvert.py:100-117 | The caller's list keeps its entries and gains AttrParam's option, if any, at its end |
| EbookConvert.MetadataParams | apub/output/ebookconvert.py:133-138 | A list of names gives at most one option per name |
| EbookConvert.MetadataParamsAppend | apub/output/ebookconvert.py:135-136 | One more name adds its own option, if any, after those of the earlier names |
| EbookConvert.AttrsAsParams | apub/output/ebookconvert.py:120-138 | The loop over the allow-list as written (13 names) returns MetadataParams of that list |
| EbookConvert.NoneEmittedNoOptions | apub/output/ebookconvert.py:113-138 | Names none of which the book has with a non-blank value give no options at all |
| EbookConvert.MetadataParamsSound | apub/output/ebookconvert.py:113-138 | Every option comes from a listed name whose attribute is present and not blank, with that attribute's str() |
| EbookConvert.MetadataParamsComplete | apub/output/ebookconvert.py:113-138 | Every listed name whose attribute is present and not blank gives its option |
| EbookConvert.MetadataParamsInListOrder | apub/output/ebookconvert.py:133-138 | The options are a subsequence of the names' candidate options: at most one per name, in list order |
| EbookConvert.UnlistedNeverEmitted | apub/output/ebookconvert.py:133-138 | A name outside the list never gets an option, whatever the book holds |
| EbookConvert.ProducerAndCommentsNeverEmitted | apub/output/ebookconvert.py:36-37 | With the list as written, no option for book_producer or comments is ever produced |
| EbookConvert.ProducerAndCommentsBookGivesNoOptions | apub/output/ebookconvert.py:33-48 | A book holding only book_producer 'ACME' and comments 'Short' gives no metadata option at all |
| EbookConvert.IntendedListEmitsProducerAndComments | apub/output/ebookconvert.py:36-37 | With the comma restored, a present, non-blank book_producer or comments gives its option |
| EbookConvert.FromDictRecord | apub/output/ebookconvert.py:90-97 | EbookConvertOutput.from_dict gives an ebook-convert object with the defaults and the dict's ebookconvert_params, or [] when absent |
| EbookConvert.FromDict | apub/output/ebookconvert.py:90-97 | Returns a new object holding FromDictRecord's fields |
| EbookConvert.System.MakeTemp | apub/output/ebookconvert.py:61 | mkstemp creates one new live temporary file and logs its creation; nothing else changes |
| EbookConvert.System.RenderHtml | apub/output/ebookconvert.py:88 | HtmlOutput.make is logged once with the object's fields and its arguments; it raises or not as told |
| EbookConvert.System.Call | apub/output/ebookconvert.py:77 | subprocess.call logs its argument vector once; the exit status is dropped |
| EbookConvert.System.Remove | apub/output/ebookconvert.py:79 | os.remove ends the file's life and logs its removal; nothing else changes |
| EbookConvert.HtmlRecordFor | apub/output/ebookconvert.py:81-88 | The HTML output made for rendering writes to the temporary path and takes css and force_publish from the ebook-convert output, with the other fields at their defaults |
| EbookConvert.MakeHtml | apub/output/ebookconvert.py:81-88 | Renders once with HtmlRecordFor's object and the given book and substitutions, touching no file and calling no converter |
| EbookConvert.Make | apub/output/ebookconvert.py:60-79 | The temporary file is created and then removed on every way out, leaving the live files as before. The book is rendered once. If rendering raises, or the output's options cannot be iterated, that error is raised and nothing is converted. Otherwise ebook-convert is called once with ['ebook-convert', temp, path] + the metadata options of the 13-name list + the output's options |
| EbookConvert.MakeNeverPassesProducerOrComments | apub/output/ebookconvert.py:65-75 | The metadata options in the argument vector never set book_producer or comments, whatever the book holds |
| Projects.GetBook | apub/project.py:76-79 | The book entry goes through Book.from_dict; no book entry is NoBookFoundError |
| Projects.OutputsOf | apub/project.py:92-98 | No outputs entry gives []; an outputs value that cannot be iterated fails with that TypeError |
| Projects.OutputsOneForEach | apub/project.py:92-96 | A list of outputs loads exactly when every entry does, one output per entry, in order |
| Projects.SubstitutionsOf | apub/project.py:114-120 | No substitutions entry gives []; a value that cannot be iterated fails with that TypeError |
| Projects.SubstitutionsOneForEach | apub/project.py:114-118 | A list of substitutions loads exactly when every entry does, one per entry, in order |
| Projects.Load | apub/project.py:57-61 | The book is read first, so a missing book is NoBookFoundError before any output or substitution is parsed. Outputs come next, then substitutions. The project loads exactly when all three do |
| Projects.BuildOutputs | apub/project.py:93-96 | The loop makes one new Output per entry whose fields are ParseOutput's record of that entry, or stops with the first entry's error |
| Projects.GetOutputs | apub/project.py:81-98 | Returns new Output objects matching OutputsOf one by one, or OutputsOf's error |
| Projects.GetSubstitutions | apub/project.py:100-120 | Returns exactly SubstitutionsOf: the loop stops at the first entry that raises |
| Projects.Project.constructor | apub/project.py:38-41 | A new Project has no book and empty outputs and substitutions |
| Projects.Project.FromDict | apub/project.py:43-63 | Returns a new Project whose book, outputs (new objects, record by record) and substitutions are Load's, or Load's error |
| Projects.MalformedMessage | apub/project.py:139-143 | The error message starts and ends with the fixed texts and carries the file's contents, unchanged, between them |
| Projects.NonDictProjectError | apub/project.py:76-79 | For a document that is not a dict, `'book' in v` decides: a list or string without "book" is NoBookFoundError, one with it the TypeError of subscripting it with a string, and None, a boolean or a number the TypeError that it is not iterable |
| Projects.ReadProject | apub/project.py:136-148 | Text json.loads rejects is a MalformedProjectJsonError carrying the text. A parsed object gives Project.FromDict's result. Any other parsed value raises NonDictProjectError's error |
| Projects.ProjectFilePath | apub/project.py:151-173 | No path or an empty one gives cwd joined with .apub.json. A directory (looked up under cwd) gives the path itself joined with .apub.json. A file gives the path unchanged. Anything else gives None |
| Dispatch.Builder.MakeOutput | apub/make.py:61-63 | One output.make call is logged with its book and substitutions; it raises exactly for the failing outputs |
| Dispatch.Builds | apub/make.py:60-63 | One build per output, in order, each with the same book and substitutions |
| Dispatch.Attempted | apub/make.py:60-63 | The loop reaches a prefix of the outputs: every output when none fails before the last, else up to and including the first that raises |
| Dispatch.AttemptedAllWhenNoneFails | apub/make.py:60-63 | When no output raises, every output is reached |
| Dispatch.AttemptedStopsAt | apub/make.py:60-63 | When outputs before i build and output i raises, exactly outputs 0..i are reached |
| Dispatch.NotFoundMessage | apub/make.py:73-74 | The not-found message carries the requested name verbatim |
| Dispatch.FindOutput | apub/make.py:66-74 | Returns the first output, in list order, whose name equals the requested one; raises OutputNotFoundError with the name exactly when none has it |
| Dispatch.MakeEveryOutput | apub/make.py:58-63 | Builds the project's outputs in declaration order, once each, with the project's book and substitutions, up to the first that raises; passes exactly when none raises |
| Dispatch.Make | apub/make.py:30-55 | No target builds every output as MakeEveryOutput does. An Output object is built exactly once, listed in the project or not. A name builds its first match exactly once. An unknown name builds nothing and raises OutputNotFoundError naming it |
| Values.CollectElementwise | apub/project.py:93-96 | A for-append loop over from_dict yields one value per entry, each from_dict of that entry, exactly when every entry succeeds; otherwise the first failing entry's error |
| YamlLoader.LoadBook | tests/test_yaml.py:25-63 | The book keeps the document keys that are Book parameters, with their values, and drops the rest; a missing title is the TypeError about 'title' |
| YamlLoader.LoadChapter | tests/test_yaml.py:66-84 | A chapter keeps its src; publish is True unless given, and a given False is kept; no src is the TypeError about 'src' |
| YamlLoader.LoadChapters | tests/test_yaml.py:66-84 | One chapter per entry, in order; none when the key is absent |
| YamlLoader.StripLeft | tests/test_yaml.py:146-159 | lstrip removes exactly the leading run of the given characters |
| YamlLoader.StripRight | tests/test_yaml.py:146-159 | rstrip removes exactly the trailing run of the given characters |
| YamlLoader.Strip | tests/test_yaml.py:146-159 | The result is no longer than the input, and neither starts nor ends with a stripped character |
| YamlLoader.StripIsPiece | tests/test_yaml.py:130-159 | What strip leaves is one contiguous piece of the input |
| YamlLoader.StripCutsRuns | tests/test_yaml.py:146-159 | Everything strip cuts away, before and after that piece, is a stripped character |
| YamlLoader.StripOfTrimmed | tests/test_yaml.py:146-159 | A string that neither starts nor ends with a stripped character is its own strip |
| YamlLoader.StripIdempotent | tests/test_yaml.py:146-159 | Stripping twice is stripping once |
| YamlLoader.StripLeftPrefix | tests/test_yaml.py:146-159 | A leading run in front of a piece that does not start with one is exactly what lstrip removes |
| YamlLoader.StripRightSuffix | tests/test_yaml.py:146-159 | A trailing run after a piece that does not end with one is exactly what rstrip removes |
| YamlLoader.StripSurrounded | tests/test_yaml.py:130-159 | Only the surrounding runs go; the core, with anything inside it, is kept |
| YamlLoader.Normalise | tests/test_yaml.py:117-159 | A parameter is stripped of whitespace at its ends and starts with '--', which is prepended only when missing |
| YamlLoader.NormaliseIdempotent | tests/test_yaml.py:117-127 | Normalising a normalised parameter changes nothing (no second '--') |
| YamlLoader.NormaliseSurrounded | tests/test_yaml.py:130-159 | Whitespace around a parameter goes, whitespace inside it (a trailing space before a line break) stays, and '--' is added only when missing |
| YamlLoader.LoadParam | tests/test_yaml.py:117-159 | A string parameter is normalised; anything else is the AttributeError for strip |
| YamlLoader.ParamsOf | tests/test_yaml.py:87-174 | The document's own list, each entry normalised, in order; [] when the key is absent |
| YamlLoader.ResolveStylesheet | tests/test_yaml.py:231-279 | The output's own stylesheet, else the document's, else None |
| YamlLoader.LoadOutput | tests/test_yaml.py:177-337 | A path ending .html gives an HtmlOutput and any other an EbookConvertOutput. The stylesheet is resolved local over global. Parameters are the normalised global ones followed by the normalised local ones. A missing path is a KeyError |
| YamlLoader.LoadOutputs | tests/test_yaml.py:177-228 | One output per entry, in order; none when the key is absent |
| YamlLoader.LoadSubstitution | tests/test_yaml.py:340-370 | Exactly the keys old and new give a SimpleSubstitution, and exactly pattern and replace_with a RegexSubstitution. Any other dict raises the TypeError listing its keys |
| YamlLoader.SubstitutionShapesDisjoint | tests/test_yaml.py:340-357 | No entry has both shapes |
| YamlLoader.KeysReprOfTwo | tests/test_yaml.py:360-370 | The repr of a two-key list quotes the keys in the order written |
| YamlLoader.NoShapeForStrangeKey | tests/test_yaml.py:360-370 | An entry whose first key belongs to neither shape is refused |
| YamlLoader.SubstitutionErrorListsKeys | tests/test_yaml.py:360-370 | For two unknown keys the error is exactly "['k1', 'k2'] do not match any substitution type." |
| YamlLoader.LoadSubstitutions | tests/test_yaml.py:340-385 | One substitution per entry, in order; [] when the key is absent |
| YamlLoader.LoadProject | tests/test_yaml.py:388-424 | The project loads exactly when the book, chapters, substitutions and outputs do, and holds each of them (the chapters inside the book); a missing title fails |

## Left out

- Reading the project file, `json.loads` and YAML parsing are not modelled. `ReadProject` starts from the file's text and takes `json.loads` as a partial function that returns any JSON value. The YAML loader starts from the parsed document.
- `os.getcwd`, `os.path.isdir`, `os.path.isfile` and `os.path.join` are parameters of `ProjectFilePath`. No file system is modelled.
- `mkstemp`, `subprocess.call`, `os.remove` and `HtmlOutput.make` are effects on the ghost log of `EbookConvert.System`. Whether rendering or the call raises, and the temporary path `mkstemp` picks, are parameters of `EbookConvert.Make`.
- EbookConvert.Make: the converter's exit status is not kept, because the code ignores it: a non-zero exit is not reported.
- `Book.from_dict` and `Substitution.from_dict` are not part of this model. They are parameters of the project loader.
- EbookConvert.FromDictRecord: takes `cls.get_value_from_dict('ebookconvert_params', dict_, [])` (apub/output/ebookconvert.py:94-95) to read like `dict_.get('ebookconvert_params', [])`. No class in the modelled Output hierarchy defines `get_value_from_dict`, so as written that line may raise AttributeError for every ebook-convert output, before the shared fields are read. The model does not capture that failure.
- `HtmlOutput.from_dict` and `JsonOutput.from_dict` are not part of this model. OutputFactory.FromDict takes them to return a new object of their class with the defaults.
- Output.make of HTML and JSON outputs (rendering, substitutions applied to chapter text) is not modelled. Dispatch.Builder records each call and raises for the outputs in its `failing` set.
- Dispatch.MakeEveryOutput: the loop stops at the first output whose build raises, because the code has no try/except around each build; later outputs are not attempted.
- Regular-expression semantics of substitutions are left out; only the shape of an entry is classified.
- Logging, the ABCMeta machinery, apub/__init__.py and setup.py have no behaviour worth modelling.
- Numbers in documents are integers only; floats are not modelled.
- Values.Repr: strings are quoted with `'` but not escaped, so keys holding quotes or backslashes print differently from Python.
- Values.Lookup: a dict with a repeated key returns its first entry. Parsed documents have no repeated keys.
- Values.IsSpace is `str.isspace`: `PythonWhitespace` lists the 29 characters for which Python's `str.isspace` is true.
- The YAML loader's code is not part of this model. The tests leave some choices open; these are the ones made:
  - YamlLoader.LoadChapter: a non-boolean `publish` is a TypeError.
  - YamlLoader.LoadChapters: an absent `chapters` key gives [].
  - YamlLoader.LoadOutput: an HtmlOutput carries no parameters. A path that is not a string is an AttributeError. A missing path is a KeyError.
  - YamlLoader.LoadParam: a parameter that is not a string is an AttributeError.
  - YamlLoader.LoadProject: the parts are loaded book, chapters, substitutions, outputs, and the first to fail decides the error.
- YamlLoader.LoadOutput: a path ending `.htm` gives an EbookConvertOutput, because the tests pin only the `.html` ending for HTML.
- The YAML loader reads the book's fields from the top level of the document. apub/project.py reads them from a nested `book` entry. Each is modelled as its own code or tests state.

## Findings

| source | as written | input that shows it | evidently intended | confidence | as-written member | corrected member |
|---|---|---|---|---|---|---|
| apub/output/ebookconvert.py:36 | The comma after `'book_producer'` is missing. Python joins the two adjacent literals, so the allow-list holds 13 names, one of them `'book_producercomments'` | A book with `book_producer = "ACME"` and `comments = "Short"`: no `--book_producer=…` or `--comments=…` option reaches ebook-convert | 14 names, with `book_producer` and `comments` each passed on | not executed | EbookConvert.ProducerAndCommentsNeverEmitted | EbookConvert.IntendedListEmitsProducerAndComments |

The list as written is `EbookConvert.SupportedMetadataAttrs`, and the build (`EbookConvert.AttrsAsParams` and `EbookConvert.Make`) walks it, as the code does. `EbookConvert.MakeNeverPassesProducerOrComments` states the consequence for the argument vector, and `EbookConvert.ProducerAndCommentsBookGivesNoOptions` proves it for the input in the table. The restored list is `EbookConvert.IntendedMetadataAttrs`. `EbookConvert.IntendedListSplitsJoinedName` relates it to the written one.

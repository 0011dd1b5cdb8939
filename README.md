# blackdoc in Dafny

blackdoc runs the `black` code formatter over code embedded in documentation:
doctest sessions (`>>> ` / `... `), IPython cells (`In [n]: ` / `...: `),
Markdown fenced blocks and reStructuredText code directives. A document goes
through a pipeline:

1. **classification** cuts the numbered lines into fragments. Each line is
   offered to every registered detection function. Exactly one detector may
   claim it together with the lines that belong to it, and `none` takes every
   line nobody claims.
2. **extraction** dedents a code unit and remembers its depth, then strips the
   format's prompts or fences.
3. **blacken** formats the code at a line length reduced by the depth and the
   prompt. It re-raises the formatter's errors with line numbers of the
   document.
4. **reformatting** puts the prompts back and indents the unit again.
5. **unclassify** drops the labels.

This project models that pipeline and proves what each stage promises:

- stream-consuming detectors are methods on a `Peekable` class, proved against
  pure specification functions;
- pure stages are functions with contracts;
- round trips, tilings and error cases are lemmas.

The older single-module pipeline (`blackdoc.py`, doctest only) is modelled
alongside.

Modules, one per file:

- `Common`: results, errors, fragments.
- `Text`: Python string operations.
- `Dedent`: `textwrap.dedent` and `textwrap.indent`.
- `Stream`: the `more_itertools.peekable` cursor.
- `Protocol`: what a detection step must satisfy.
- One module per format: `Doctest`, `IPython`, `Markdown`, `Rst`, `Plain`.
- `Register`, `Classification`, `Formats`, `Blacken`, `Report`, `Legacy`.

Foreign parsers and the formatter are parameters, not code:

- the tokenizer's string tokens;
- `ast`'s statement start lines;
- `black.format_str`;
- the extraction and reformatting functions passed to `blacken`.

## Model

| member | source | states |
|---|---|---|
| Protocol.Claim | blackdoc/formats/doctest.py:52-58 | a detector's lines become a claim exactly when their numbers are contiguous; the claim carries the detector's name |
| Doctest.DetectSpec | blackdoc/formats/doctest.py:40-58 | declines exactly when the stream is empty or the stripped head line has no `>>>` prompt; otherwise claims the prompt line and every continuation line after it, with range `(first, last+1)` and the lines joined, and leaves the first other line unread |
| Doctest.ContinuationLines | blackdoc/formats/doctest.py:23-37 | consumes exactly the maximal run of `...` lines at the head of the stream and leaves the rest in place |
| Doctest.Detect | blackdoc/formats/doctest.py:40-58 | the stream method returns the specified detection and leaves exactly the specified rest of the stream |
| Doctest.LinePrompt | blackdoc/formats/doctest.py:106-117 | the prompt found is a prefix of the line; it is empty exactly when the line starts with neither `>>>` nor `...`; `>>>` wins over `...`, and the prompt takes the following space when there is one |
| Doctest.RemovePrompt | blackdoc/formats/doctest.py:119-121 | the prompt found followed by the result is the original line |
| Doctest.QuotesOf | blackdoc/formats/doctest.py:90-96 | no quotes exactly when the string is delimited by neither kind of triple quotes; otherwise it is delimited by the quotes returned |
| Doctest.DetectQuotes | blackdoc/formats/doctest.py:89-102 | no quotes exactly when no string token is delimited by triple quotes; otherwise the quotes of the first such token |
| Doctest.Extract | blackdoc/formats/doctest.py:105-136 | raises `InvalidFormatError("misformatted code unit: …")` exactly when some line has no prompt; otherwise `prompt_length` is 4, the docstring quotes are those detected on the extracted code, the line count is kept and each line is its prompt followed by the extracted line |
| Doctest.LineStarts | blackdoc/formats/doctest.py:140-143 | one offset per line: 0, then the position after each newline of the code and no other, in increasing order |
| Doctest.RestoreEffect | blackdoc/formats/doctest.py:139-176 | restoring keeps the length; a character changes only if it is an opening or closing quote character of a token written in the other triple quotes, and then it becomes the original quote character |
| Doctest.RestoredDelimiters | blackdoc/formats/doctest.py:152-172 | after restoring, every token that was written in the other triple quotes opens and closes with the original ones |
| Doctest.RestoreQuotes | blackdoc/formats/doctest.py:139-176 | the method over a mutable buffer computes the specified restoration |
| Doctest.WriteQuotes | blackdoc/formats/doctest.py:161-174 | the seek-and-write loop over the tokens gives the specified overwriting |
| Doctest.WriteAt | blackdoc/formats/doctest.py:168-172 | `seek` then `write` overwrites exactly the characters from the offset and nothing else |
| Doctest.SplitByStatement | blackdoc/formats/doctest.py:179-217 | the pieces concatenate to the code's lines; there is one piece per statement, or one when there are none; piece `k` is the lines from statement `k`'s start (0 for the first) up to the next statement's start or the end; no piece is empty exactly when consecutive statements start on different lines |
| Doctest.DropWhile | blackdoc/formats/doctest.py:227-240 | what is left is the input after its leading run of items satisfying the predicate |
| Doctest.RemoveAddPrompt | blackdoc/formats/doctest.py:250-254 | a line prompted with `>>>` or `...` passes the extraction check, and removing its prompt gives the line back |
| Doctest.PromptUnitLines | blackdoc/formats/doctest.py:250-266 | the statement's first line gets `>>>`, every later line `...`, including the empty line a block receives |
| Doctest.PromptUnitExtract | blackdoc/formats/doctest.py:256-266 | extraction accepts a prompted statement and gives back its lines, with the empty line a block gets |
| Doctest.Reformat | blackdoc/formats/doctest.py:220-274 | raises `ValueError` exactly when two statements share a line, because an empty piece cannot be prompted |
| Doctest.ReformatLines | blackdoc/formats/doctest.py:268-274 | for statements on separate lines, the lines of the result are the prompted lines of each statement, statement after statement |
| Doctest.ReformatThenExtract | blackdoc/formats/doctest.py:220-274 | extracting what reformatting produced gives the restored code back line by line, plus the empty line after each block |
| Doctest.ReformatThenExtractPlain | blackdoc/formats/doctest.py:220-274 | without blocks or quotes to restore, extraction gives back exactly the right-stripped code |
| IPython.MatchPromptShape | blackdoc/formats/ipython.py:10 | a prompt match is spaces, then `In [`, a non-empty run of digits and `]: ` |
| IPython.DetectSpec | blackdoc/formats/ipython.py:40-66 | declines exactly when the stream is empty or the head line has no `In [n]: ` prompt; otherwise the claim is sound, it is claimed exactly when the claimed line numbers are contiguous, and the only failure is `InvalidFormatError("line numbers are not contiguous")` |
| IPython.DetectOutcome | blackdoc/formats/ipython.py:49-66 | once the head line has a prompt, the result is `Claim` of the prompt line and its aligned continuation lines: the range `(first, last + 1)` with the lines joined when the numbers are contiguous, the not-contiguous error otherwise; the stream is left after those lines |
| IPython.DetectTakesContinuations | blackdoc/formats/ipython.py:22-37 | the claim is the prompt line and the maximal run of `...: ` lines aligned with the prompt |
| IPython.ContinuationLines | blackdoc/formats/ipython.py:22-37 | consumes exactly the aligned continuation lines at the head of the stream |
| IPython.Detect | blackdoc/formats/ipython.py:40-66 | the stream method returns the specified detection and rest |
| IPython.RevealHideLine | blackdoc/formats/ipython.py:84-113 | revealing a hidden line gives the line back, for lines without the marker and magics indented by spaces |
| IPython.HideRevealLine | blackdoc/formats/ipython.py:84-113 | hiding a revealed line gives the line back, for lines the hiding could have produced |
| IPython.RevealHide | blackdoc/formats/ipython.py:84-113 | `reveal_magic(hide_magic(code)) == code` for code whose lines qualify |
| IPython.Extract | blackdoc/formats/ipython.py:116-132 | raises `InvalidFormatError` when a line is neither prompt nor continuation, and `TypeError` when the first line gives no count; otherwise it returns the count of the first line |
| IPython.PromptLineMatches | blackdoc/formats/ipython.py:10-13 | a line built from the prompt template matches the prompt pattern and yields its count |
| IPython.ReformatThenExtract | blackdoc/formats/ipython.py:116-150 | extracting a reformatted cell gives the count back, and the code with magics revealed and hidden again |
| IPython.ExtractCell | blackdoc/formats/ipython.py:116-132 | on a well-formed cell, extraction drops the prompt width from every line and hides magics |
| IPython.ExtractThenReformat | blackdoc/formats/ipython.py:116-150 | reformatting what was extracted from a well-formed cell gives the cell back |
| Markdown.MatchDirectiveShape | blackdoc/formats/markdown.py:16-18 | a directive match is spaces, three fence characters and the word `python`, possibly in braces |
| Markdown.DetectSpec | blackdoc/formats/markdown.py:40-81 | declines exactly when the stream is empty or the head line is no directive; a failure is the unclosed block, which consumes everything, or non-contiguous numbers |
| Markdown.DetectTakesBlock | blackdoc/formats/markdown.py:36-81 | a claim runs from the opening line to the first closing fence; the block fails exactly when no closing fence follows |
| Markdown.DetectOutcome | blackdoc/formats/markdown.py:63-81 | without a closing fence the result is the `AttributeError` of `None.strip()`; otherwise the lines through the fence are claimed, with range end `max + 2` |
| Markdown.ContinuationLines | blackdoc/formats/markdown.py:22-37 | takes lines until the closing fence and puts back the fence line |
| Markdown.Detect | blackdoc/formats/markdown.py:40-81 | the stream method returns the specified detection and rest |
| Markdown.ReadBlock | blackdoc/formats/markdown.py:53-81 | after the opening line has been consumed, reading the block gives the specified detection and rest |
| Markdown.OpenerMatches | blackdoc/formats/markdown.py:106-109 | the opening line that reformatting writes is a full match of the directive |
| Markdown.Extract | blackdoc/formats/markdown.py:84-103 | a first line that is not a full directive match raises `InvalidFormatError`, and so does a block with no other line; otherwise it returns the fences, language and first-line indent, and the dedented lines without the last |
| Markdown.ReformatThenExtract | blackdoc/formats/markdown.py:84-109 | extracting a reformatted block gives back the fences, the language and the dedented code |
| Markdown.ExtractThenReformat | blackdoc/formats/markdown.py:84-109 | reformatting what was extracted from a flush, well-formed block gives the block back |
| Rst.DotsMatchAnyCharacter | blackdoc/formats/rst.py:8-10 | the unescaped `..` of the directive pattern matches any two characters |
| Rst.IndentGivesBackSpaces | blackdoc/formats/rst.py:8-10 | the pattern backtracks into the indentation, so an indented directive matches with a shorter indent |
| Rst.BodyUnyieldedBlank | blackdoc/formats/rst.py:27-46 | the lines consumed but not yielded are all blank |
| Rst.BodyYieldsIndented | blackdoc/formats/rst.py:27-46 | every line yielded is blank or indented deeper than the directive |
| Rst.BodyEndsOnText | blackdoc/formats/rst.py:27-46 | the last line yielded is not blank |
| Rst.BodyStopsAtDedent | blackdoc/formats/rst.py:27-46 | when lines remain, the first non-blank one is indented no deeper than the directive |
| Rst.TrailingBlankLinesConsumed | blackdoc/formats/rst.py:27-46 | blank lines at the end of the stream are consumed but belong to no fragment |
| Rst.Round | blackdoc/formats/rst.py:28-46 | one pass goes on exactly when the blank lines ahead are followed by a line indented deeper, and then takes them with that line; otherwise it yields nothing and leaves the stream where the body ends |
| Rst.ContinuationLines | blackdoc/formats/rst.py:27-46 | the stream method yields and consumes exactly what the specification says |
| Rst.DetectSpec | blackdoc/formats/rst.py:49-76 | declines exactly when the head line is no `code`, `code-block` or `ipython` directive; otherwise the claim is sound |
| Rst.DetectTakesIndented | blackdoc/formats/rst.py:49-76 | the claimed lines after the directive are blank or indented deeper, and the claim ends on a non-blank line |
| Rst.DetectOpened | blackdoc/formats/rst.py:49-76 | an opened directive claims itself and the yielded body, and the stream resumes after the consumed body |
| Rst.Detect | blackdoc/formats/rst.py:49-76 | the stream method returns the specified detection and rest |
| Plain.DetectSpec | blackdoc/tests/test_none.py:6-12 | the `none` detector claims exactly the current line as `(n, n + 1)` and declines only on an empty stream |
| Plain.Detect | blackdoc/tests/test_none.py:6-12 | the stream method returns the specified detection and rest |
| Stream.TakeWhile | blackdoc/formats/markdown.py:22-33 | takes the maximal prefix that satisfies the predicate and puts the first failing element back |
| Register.Registry.constructor | blackdoc/formats/register.py:3-5 | the three tables start empty |
| Register.Registry.RegisterFormat | blackdoc/formats/register.py:8-15 | warns when the name is already registered, stores the three functions under it and changes no other entry; the tables keep one key set, and a name keeps its first insertion place |
| Register.Inserted | blackdoc/formats/register.py:12-15 | the names stay distinct; a new name is appended and a known one keeps its place |
| Register.Registry.Items | blackdoc/classification.py:11 | the detection entries are listed in insertion order |
| Classification.DetectStep | blackdoc/classification.py:9-13 | every registered detector's step is sound for the stream it is offered |
| Classification.DetectWith | blackdoc/classification.py:10 | calling a detector on the stream gives its specified detection and rest |
| Classification.Lookup | blackdoc/classification.py:17 | `detection_funcs["none"]` is missing exactly when no entry has the name; otherwise it is that entry's function |
| Classification.OfferFrom | blackdoc/classification.py:9-14 | offering the line to the detectors in order keeps the earlier claims; a detector that declines leaves the stream alone; each new claim is that detector's step on the stream as it stood |
| Classification.Offer | blackdoc/classification.py:9-14 | with no claim the stream is unchanged; the first claim covers the head of the stream; a single claim leaves the stream where that detector left it |
| Classification.OfferAll | blackdoc/classification.py:9-14 | the loop over the detectors computes the specified claims, stream and error |
| Classification.Conflict | blackdoc/classification.py:18-22 | several claims raise a `RuntimeError`; at the end of the stream its message is `generator raised StopIteration`; otherwise the message opens with `cannot classify line: ` and ends with ` claim it: ` and the current line |
| Classification.ConflictNamesSorted | blackdoc/classification.py:19-21 | between its opening and the line, the message lists the claimants' names in ascending order, each as often as it claimed, joined by `, ` |
| Classification.RoundSpec | blackdoc/classification.py:9-24 | a pass never declines, and a claim covers the head of the stream and consumes at least one line |
| Classification.Round | blackdoc/classification.py:8-24 | the stream method performs one specified pass |
| Classification.Classify | blackdoc/classification.py:6-24 | the generator yields the specified fragments and stops at the specified error |
| Classification.ClassifyTiles | blackdoc/classification.py:6-24 | without an error the fragments' texts joined with newlines are the input lines joined, up to trailing blank lines |
| Classification.ClassifyRanges | blackdoc/classification.py:6-24 | without an error the fragments cover consecutive runs of lines, in order: each fragment's range starts at the number of its first line and its text is its lines joined, and what follows the last run is blank |
| Classification.Unclassify | blackdoc/classification.py:27-29 | one text per labelled item, in order |
| Formats.Depth | blackdoc/formats/__init__.py:9-10 | the depth is the first occurrence in the unit of the first five characters of the dedented unit, or -1 |
| Formats.ExtractCode | blackdoc/formats/__init__.py:8-17 | an unknown format raises `RuntimeError`; the extractor's error propagates; otherwise the depth comes back with the extractor's result on the dedented unit |
| Formats.ReformatCode | blackdoc/formats/__init__.py:20-27 | an unknown format raises `RuntimeError`; otherwise every non-blank line of the reformatter's output, cut at every line boundary `str.splitlines` knows, is indented by `depth` spaces |
| Formats.IndentedDepth | blackdoc/formats/__init__.py:8-10 | a unit made by indenting flush code whose only line breaks are newlines and which has no line that is only whitespace (other than an empty one) dedents back to that code, and its depth is found, when the first line has at least five characters |
| Formats.WhitespaceLineEmptied | blackdoc/formats/__init__.py:8-10 | a line of two spaces between two flush lines is left alone by the indentation and emptied by dedent, so the code does not come back unchanged |
| Formats.ShortFirstLineDepth | blackdoc/formats/__init__.py:9-10 | when the first line has one to three characters and is followed by another line, the depth is -1, so the indentation is lost |
| Formats.ReformatThenExtract | blackdoc/formats/__init__.py:8-27 | for reformatter output whose only line breaks are newlines and which has no line that is only whitespace (other than an empty one), extracting what `reformat_code` produced hands the extractor that output again, at the same depth |
| Blacken.ParseMessage | blackdoc/blacken.py:10-27 | a message that does not match raises `ValueError("invalid error message: …")`; a match has a non-empty message without colons and a non-empty faulty line without newlines |
| Blacken.ParseFormat | blackdoc/blacken.py:10-27 | parsing a formatted message, with or without a final newline, gives back message, line, column and faulty line |
| Blacken.ParsedShape | blackdoc/blacken.py:10-27 | a parsed message is exactly `message: L:C: faulty`, with L and C digit strings of the parsed values |
| Blacken.ParseCannotParse | blackdoc/blacken.py:10-27 | the formatter's usual message `Cannot parse: 16:10: …` parses to its four parts |
| Blacken.Budget | blackdoc/blacken.py:38-39 | the line length given to the formatter plus depth and prompt length is the configured length, 88 by default |
| Blacken.PyIndex | blackdoc/blacken.py:49 | Python indexing: valid exactly for `-len <= k < len`, negative indices count from the end, and anything else raises `IndexError` |
| Blacken.BlackenFragment | blackdoc/blacken.py:31-62 | plain text passes unchanged; extraction errors propagate; formatted code is right-stripped and reformatted at its depth; every formatter error ends in an error |
| Blacken.InvalidInputRemapped | blackdoc/blacken.py:54-58 | a formatter message that parses is re-raised with the same message, column and faulty line at document line `start + L - 1`; one that does not parse raises `ValueError` |
| Blacken.TokenErrorRemapped | blackdoc/blacken.py:45-53 | a tokenizer error at line L is re-raised at document line `start + L - 1`; it quotes code line L - 1, or the last line when L is 1; past the end it raises `IndexError` |
| Blacken.BlackenOutputs | blackdoc/blacken.py:30-62 | one output per fragment, in order, each what the fragment alone gives; an error stops the generator at the fragment that raised it |
| Blacken.PlainUnchanged | blackdoc/blacken.py:32-34 | a document of plain fragments comes out as it went in |
| Blacken.Blacken | blackdoc/blacken.py:30-62 | the loop yields the specified outputs and stops at the specified error |
| Report.Noun | blackdoc/report.py:2-3 | for a positive count the noun is singular exactly when the count is one, and plural for any count of two or more |
| Report.Entries | blackdoc/report.py:5-15 | one styled entry per positive count, in the order reformatted (bold white), unchanged (white), failed (red), each carrying its own count and phrase; each entry is wrapped in rich markup |
| Report.SummaryShape | blackdoc/report.py:1-17 | the summary is a bare full stop exactly when no count is positive; it opens with the reformatted entry and ends with the failure entry and the full stop when those counts are positive |
| Report.ReportChanges | blackdoc/report.py:1-17 | the summary of the entries with the past-tense wording |
| Report.ReportPossibleChanges | blackdoc/report.py:20-38 | the summary of the entries with the conditional wording |
| Report.Unknowns | blackdoc/report.py:50-51 | the unknown results, each once, and no known result |
| Report.CountsCover | blackdoc/report.py:44-53 | when every result is known, the three counts add up to the number of files |
| Report.Statistics | blackdoc/report.py:41-53 | succeeds exactly when every result is known; the counts are the numbers of each result and sum to the number of files; otherwise it raises `RuntimeError` naming the unknown results |
| Report.StatisticsAppend | blackdoc/report.py:41-53 | one more file adds one to the count of its own result and leaves the others alone |
| Legacy.ExtractPrompt | blackdoc.py:20-22 | the prompt is a prefix of the left-stripped line, four characters long unless the stripped line is shorter |
| Legacy.RemovePrompt | blackdoc.py:25-32 | succeeds exactly when the line starts with the prompt, and the prompt followed by the result is the line; otherwise it raises `RuntimeError("cannot remove prompt … from line: prompt not found")` |
| Legacy.AddThenRemove | blackdoc.py:25-36 | removing an added prompt gives the line back |
| Legacy.RemoveThenAdd | blackdoc.py:25-36 | adding back a removed prompt gives the line back |
| Legacy.RemoveEach | blackdoc.py:46-54 | every line must start with the prompt, and each result is its line without it |
| Legacy.RemoveDoctestPrompt | blackdoc.py:39-58 | succeeds exactly when the dedented first line starts with `>>> ` and every other line with `... `; the depth is the first `>>> ` in the unit, and the lines keep their number and lose their prompts |
| Legacy.AddDoctestPrompt | blackdoc.py:61-76 | the lines, cut at every line boundary `str.splitlines` knows, are the prompted lines, each non-blank one indented by `depth` spaces |
| Legacy.PromptedLines | blackdoc.py:61-74 | the first line gets `>>> ` and every other line `... `, one for one |
| Legacy.PromptRoundTrip | blackdoc.py:39-76 | removing the prompts from a unit built at any depth gives back that depth and the code, for code whose only line breaks are newlines |
| Legacy.CarriageReturnIndented | blackdoc.py:61-76 | the unit built from `a\rb` at depth 2 indents the part after the carriage return too |
| Legacy.CarriageReturnKept | blackdoc.py:39-58 | removing the prompts from that unit gives back `a\r  b`, not the code it was built from |
| Legacy.Category | blackdoc.py:87-105 | a line is `doctest` exactly when its stripped form starts with `>>> ` or `... `, and `none` otherwise |
| Legacy.Classify | blackdoc.py:87-105 | one labelled line per line, in order |
| Legacy.UnclassifyClassify | blackdoc.py:176-178 | unclassifying classified lines gives the lines back; the single-module `unclassify` is the same function as the package's |
| Legacy.ContinuationLines | blackdoc.py:108-124 | takes the lines carrying the continuation prompt by peeking first, so the first other line stays in the stream |
| Legacy.GroupSpec | blackdoc.py:127-144 | at most one unit per line and at least one for a non-empty input; the only error is the `ValueError` for an unknown category |
| Legacy.GroupCodeUnits | blackdoc.py:127-144 | the loop over the peekable stream yields the specified units and error |
| Legacy.GroupKnown | blackdoc.py:137-142 | grouping lines labelled `none` or `doctest` never raises |
| Legacy.GroupTiles | blackdoc.py:127-144 | the units joined by newlines are the lines joined by newlines |
| Legacy.PipelineKeepsText | blackdoc.py:181-186 | without the formatting step, classifying, grouping and unclassifying gives the text back |

## Left out

- The formatter `black.format_str` and its modes are not modelled. `blacken` takes it as a parameter that returns formatted code, a tokenizer error or an `InvalidInput` message. Copying the mode is modelled only as the line length it carries.
- Python's `tokenize` and `ast` are not modelled. Their results are parameters with stated shapes: string tokens that point at their text, and statement start lines that are in order and in range.
- `Doctest.Reformat`: its own contract states when it fails and with which error. The lines it produces are stated by `Doctest.ReformatLines` and `Doctest.PromptUnitLines`.
- Regular expressions are written out by hand for ASCII input. `\d` accepts only `0`-`9`, not every Unicode decimal digit.
- `blackdoc/formats/none.py` is not part of this model. The `none` format follows its tests: it claims one line and passes the code through unchanged. Those tests show a two-element result where the dispatcher expects a fragment; the model uses the fragment.
- Version skew between the files is not resolved. Each file is modelled as written and the files are connected only through their contracts:
  - `blackdoc/formats/__init__.py:30-31` calls `register_format` with two arguments, but `register.py` takes four. The registration loop is left out, and the registry is modelled through its own `RegisterFormat`.
  - `rst` has no extraction or reformatting function, and `markdown` is never registered.
  - `blacken` unpacks a prompt length where `extract_code` returns parameters, and it calls `reformat_code` without parameters. The model therefore gives `blacken` its extraction and reformatting as functions with the shapes `blacken` uses.
- `Classification.LineRepr` and `Report.DictKeys` render `repr` without escaping. They are exact for strings without quotes or backslashes.
- Classification.RoundSpec: requires that the name `none` is bound to the `none` detector. With any other function under that name, `classify` could loop forever without consuming a line.
- The command line, file reading and writing, diffs, colours, configuration discovery and the `blackdoc.py` functions `blacken`, `format_lines`, `format_file`, `format_text` and `collect_files` are I/O or call the formatter, so they are not modelled. `Legacy.PipelineKeepsText` covers the pipeline of `format_lines` without its formatting step.
- Warnings are recorded as a list of messages in the registry rather than issued through the `warnings` module.
- Legacy.RemovePrompt: the exception `RuntimeError(message, line)` of `remove_prompt` in `blackdoc.py` is modelled by its message only.
- `markdown.py:56-61`, the `"prompt detected"` branch, cannot be reached: nothing in the block reader raises that error. The model has no such branch.
- Legacy.GroupSpec: the `ValueError` message is written without an `f` prefix in the source, so it shows the literal `{category}`. The model keeps that text.
- Formats.IndentedDepth: holds only for code whose line breaks are all "\n". `textwrap.indent` also indents after "\r" and the other `str.splitlines` boundaries, while `textwrap.dedent` cuts only at "\n", so such code comes back changed (even inside string literals). It also needs every line to be empty or to hold something other than whitespace: `textwrap.indent` leaves a whitespace-only line alone while `textwrap.dedent` empties it (Formats.WhitespaceLineEmptied).
- Formats.ReformatThenExtract: holds only for reformatter output whose line breaks are all "\n" and which has no whitespace-only line, for the same reasons.
- Formats.ShortFirstLineDepth: stated for two-line code whose first line has one to three characters and whose lines hold no other line break; a first line of four characters, or a single line, is still found.
- Legacy.PromptRoundTrip: holds only for code whose line breaks are all "\n"; `Legacy.CarriageReturnIndented` and `Legacy.CarriageReturnKept` show the code changing otherwise.
- Classification.ClassifyRanges: states where each fragment's range starts, not where it ends. The ends differ by detector; each detector's own contract states its end, including the `max + 2` of Markdown.
- Python generators are modelled as finished sequences plus the error that stopped them. How lazily outputs are produced before an error is not modelled.

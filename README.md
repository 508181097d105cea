# DocGen core in Dafny

DocGen writes a long document with four language-model "agents":
- a strategist writes an outline;
- an author drafts each section;
- a reviewer criticises each draft;
- an editor enhances each draft using the review.

This project models, and proves properties of, the two parts of DocGen that hold its logic:

- **`document_utils.py`**:
  - `parse_outline` extracts the top-level `## ` headings of the outline with `re.findall(r'^##\s+(.+)$', content, re.MULTILINE)`. A missing outline file gives the empty list.
  - `compile_document` builds the final document: a `# title` line and a blank line, then each section followed by a blank line.
- **`main.py`, `main()`**, the controller:
  - generate the outline, save it to `outline.md` and parse it back from that file;
  - stop quietly when there are no sections;
  - otherwise draft, review and enhance each section in order. A failed enhancement falls back to the draft. Any other failure leaves `main()` as an exception.
  - compile the final contents and save the document.

Modules:

- `Files` (files.dfy): the files as a value, a map from file name to contents, with writing and reading. Files are opened in text mode, so reading translates line ends: `"\r\n"` and a lone `"\r"` both become `"\n"` (`UniversalNewlines`). `parse_outline` therefore applies the regular expression to the translated text, never to a text holding `"\r"`.
- `OutlineParser` (outline_parser.dfy):
  - **The scanner.** It models the regular expression character by character:
    - `^` holds at the start of the text and after each `\n`;
    - `\s` is Python's full whitespace class for `str` patterns, not just ASCII;
    - a greedy `\s+` gives characters back only when `(.+)` cannot start;
    - `.` is any character except `\n`;
    - `findall` resumes where each match ended, so matches never overlap.
  - **The reference.** A line-by-line reading of an outline (`HeadingOf`, `Headings`) serves as an independent reference.
  - **The theorem connecting them.** The scanner and the reference agree on every text that has no bare `##` line.
  - **A bare `##` line** is a line holding only `##` and whitespace. When a match starts at a bare line, `\s+` crosses line ends, and the capture starts at the first character after it that is not whitespace, on whatever line that is:
    - `"##\nIntro"` gives `["Intro"]` (`BareHeadingCapturesNextLine`);
    - blank lines in between are skipped: `"##\n\nIntro"` gives `["Intro"]` (`BareHeadingSkipsBlankLines`);
    - a `###` line right after such a bare line is captured whole, for any `###` line, and so is one after blank lines (`SubsectionAfterBareHeadingCaptured`, `SubsectionAfterBareHeadingAndBlankLine`).
  - When only whitespace follows up to the end of the text, `\s+` gives back characters until `(.+)` can start on one that is not a line end, so the capture is whitespace:
    - `"##  "` gives `[" "]` (`BareHeadingAtEndCapturesSpace`);
    - `"##  \n"` gives `[" "]`, with two characters given back (`BareHeadingBeforeLineEndCapturesSpace`).

    There is no match when every whitespace character after the first is a line end: `"## \n"` gives `[]` (`NoMatchWhenOnlyLineEndsFollow`).
  - **`###` lines** never start a match. One is captured only as the group of a match that starts at a bare `##` line above it, with only whitespace between them. A bare `##` line that is itself captured starts no match: `"##\n##\n### X"` gives `["##"]` (`CapturedBareHeadingStartsNoMatch`).
- `DocumentCompiler` (document_compiler.dfy):
  - `compile_document` is a method with its loop.
  - The method is proved against a left-fold specification.
  - The lemmas cover the document's length, the offset of each section and the empty case.
- `Pipeline` (pipeline.dfy):
  - `main()` is a method. It is proved equal to a specification function `RunSpec`.
  - The section loop is a method of its own, `ProcessSections`. It is proved equal to the left fold `Process`.
  - **Agents as oracles.** Each agent is modelled by its reply, `Ok(text)` or `Fail`:
    - the strategist's reply is one value;
    - the author's, reviewer's and editor's replies are given per section position.
  - **What a run returns:**
    - how it ended: `Halted`, `Aborted` or `Done(document)`;
    - the files afterwards;
    - the log of every agent call with its arguments.

Parsing is deterministic because `FindAll` is a function: the same content always gives the same list.

Two behaviours of the extraction are worth stating outright:
- **Captures are not trimmed.** `findall` on a string keeps trailing spaces and a trailing `"\r"` in an entry (`DuplicatesAndCarriageReturnKept`). Through `parse_outline` a `"\r"` never reaches an entry, because the text-mode read has already turned it into a line end (`CarriageReturnLineFeedSections`, `CarriageReturnSeparatesHeadings`). Trailing spaces do stay.
- **One entry per heading line, only without bare lines.** The entries are exactly the headings of the lines that start with `##` and whitespace, one per line, when no line is bare (`FindAllByLines`). With a bare line this fails: no line of `"##\nIntro"` starts with `##` and whitespace, yet the text yields one entry.

## Model

| member | source | states |
|---|---|---|
| Files.SaveFile | document_utils.py:4-6 | writing a file makes it hold exactly the new contents and leaves every other file as it was |
| Files.UniversalNewlines | document_utils.py:11-12 | the text a text-mode read returns: it holds no `"\r"` and is no longer than the stored text |
| Files.UniversalNewlinesUnchangedIff | document_utils.py:11-12 | the read changes a text if and only if the text holds a `"\r"` |
| Files.UniversalNewlinesIdempotent | document_utils.py:11-12 | translating line ends twice is translating them once |
| Files.LoneCarriageReturnRead | document_utils.py:11-12 | a lone `"\r"` between two texts without `"\r"` is read as `"\n"` |
| Files.CarriageReturnLineFeedRead | document_utils.py:11-12 | a `"\r\n"` between two texts without `"\r"` is read as one `"\n"` |
| Files.ReadFile | document_utils.py:10-12 | reading gives a result exactly when the file exists; the result holds no `"\r"`, and it equals the stored text if and only if that text holds no `"\r"` |
| OutlineParser.IsSpace | document_utils.py:13 | the characters `\s` matches in a `str` pattern: the ASCII whitespace, the four information separators, and the Unicode spaces and line and paragraph separators |
| OutlineParser.SpaceRun | document_utils.py:13 | the greedy `\s+` run: every character in it is whitespace, and it stops at the end of the text or at a non-whitespace character |
| OutlineParser.LineRun | document_utils.py:13 | the greedy `.+` run: no character in it is `\n`, and it stops at the end of the text or at a `\n` |
| OutlineParser.GiveBack | document_utils.py:13 | the backtracking of `\s+`: the kept length lets `(.+)` start on a character other than `\n`, and every longer length would have put the group at the end of a line or of the text |
| OutlineParser.MatchHere | document_utils.py:13 | a reported match is a real match of `##\s+(.+)$` at that position: `##`, whitespace, a non-empty group without `\n`, then a line end or the end of the text |
| OutlineParser.MatchHereIsPreferredMatch | document_utils.py:13 | the pattern matches at a position if and only if MatchHere finds a match there, and MatchHere's group is the one a backtracking engine prefers (latest start, then longest) |
| OutlineParser.SubsectionNeverMatches | document_utils.py:13 | a text starting with `###` has no match at its start, because `##` must be followed by whitespace |
| OutlineParser.Scan | document_utils.py:13 | every entry the left-to-right scan extracts is non-empty, contains no `\n`, and is made of characters of the text |
| OutlineParser.FindAll | document_utils.py:13 | every heading extracted from the whole content is non-empty, contains no `\n`, and is made of characters of the content |
| OutlineParser.ParseOutline | document_utils.py:9-18 | a missing outline file gives the empty list; otherwise the result is the headings extracted from the file's content as the text-mode read returns it, and no entry holds a `"\r"` |
| OutlineParser.HeadingOf | document_utils.py:13 | the heading of one line: the line is `##`, whitespace, then the heading, untrimmed, to the end of the line; a line has none if and only if it does not start with `##` and whitespace, or it is bare |
| OutlineParser.ScanLine | document_utils.py:13 | a line that is not bare contributes exactly its own heading, whatever follows it |
| OutlineParser.ScanByLines | document_utils.py:13 | with no bare line, the extracted list is the headings of the heading lines, one per line, in line order, duplicates kept and other lines skipped |
| OutlineParser.FindAllByLines | document_utils.py:13 | the same for any outline text read as its lines, when none of its lines is bare |
| OutlineParser.TwoHeadings | document_utils.py:13 | two heading lines give both headings in order, equal ones included |
| OutlineParser.SubsectionBetweenHeadings | document_utils.py:13 | a `###` line between two heading lines gives no entry |
| OutlineParser.SubsectionsSkipped | document_utils.py:13 | `"## A\n### A.1\n## B"` gives `["A", "B"]` |
| OutlineParser.DuplicatesAndCarriageReturnKept | document_utils.py:13 | `"## A\r\n## A"` gives `["A\r", "A"]`: duplicates are kept and captures are not trimmed |
| OutlineParser.BareHeadingCapturesNextLine | document_utils.py:13 | `"##\nIntro"` gives `["Intro"]`: after a bare `##` line, `\s+` crosses the line end |
| OutlineParser.BareHeadingSkipsBlankLines | document_utils.py:13 | `"##\n\nIntro"` gives `["Intro"]`: `\s+` crosses blank lines too |
| OutlineParser.SubsectionAfterBareHeadingCaptured | document_utils.py:13 | for every one-line text x, `"##\n### " + x` gives `["### " + x]`: right after a bare line, a `###` line is captured whole |
| OutlineParser.SubsectionAfterBareHeadingAndBlankLine | document_utils.py:13 | for every one-line text x, `"##\n\n### " + x` gives `["### " + x]`: `\s+` crosses the blank line as well |
| OutlineParser.BareHeadingAtEndCapturesSpace | document_utils.py:13 | `"##  "` gives `[" "]`: at the end of the text `\s+` gives back one space, which is captured |
| OutlineParser.BareHeadingBeforeLineEndCapturesSpace | document_utils.py:13 | `"##  \n"` gives `[" "]`: `\s+` gives back the line end and one space so that `(.+)` starts on a character other than a line end |
| OutlineParser.NoMatchWhenOnlyLineEndsFollow | document_utils.py:13 | `"## \n"` gives `[]`: no whitespace length leaves `(.+)` a character to start on |
| OutlineParser.CapturedBareHeadingStartsNoMatch | document_utils.py:13 | for every one-line text x, `"##\n##\n### " + x` gives `["##"]`: the second bare line is captured by the first match, so it starts none, and the `###` line is skipped |
| OutlineParser.CarriageReturnSeparatesHeadings | document_utils.py:11-13 | an outline file holding `"## a\r## b"` gives the two sections `[a, b]`, since the read turns the lone `"\r"` into a line end |
| OutlineParser.CarriageReturnLineFeedSections | document_utils.py:11-13 | an outline file holding `"## a\r\n## b"` gives `[a, b]`, with no `"\r"` left on `a` |
| DocumentCompiler.CompileDocument | document_utils.py:20-25 | the loop's result is the title line, a blank line, then each section followed by `"\n\n"`, in order |
| DocumentCompiler.CompiledLength | document_utils.py:21-23 | the document's length is the title's length + 4 + the sum over the sections of their length + 2 |
| DocumentCompiler.CompiledNoSections | document_utils.py:21 | with no sections the document is exactly `"# " + title + "\n\n"` |
| DocumentCompiler.SectionAtOffset | document_utils.py:22-23 | every section appears verbatim at its offset and is followed by `"\n\n"`: none is dropped, reordered or altered |
| DocumentCompiler.CompiledAppend | document_utils.py:22-23 | compiling one more section appends that section and a blank line to the document |
| DocumentCompiler.CompiledExample | document_utils.py:21-23 | title `"T"` with sections `["x", "y"]` gives `"# T\n\nx\n\ny\n\n"` |
| Pipeline.ProcessSections | main.py:49-66 | the loop's final contents, calls and abort flag are those of the section-by-section specification |
| Pipeline.GenerateDocument | main.py:26-82 | the outcome, the files afterwards and the calls made are those of the run specification |
| Pipeline.FailureIsFinal | main.py:54-57 | once a section's draft or review has failed, later sections add no call and no content |
| Pipeline.ProcessNext | main.py:50-66 | each turn of the loop processes the next section after the earlier ones, appending its content and its calls |
| Pipeline.CompletedContents | main.py:49-66 | a loop that got through has one final content per section, in section order: the editor's text, or the draft when the editor failed |
| Pipeline.CompletedCalls | main.py:54-61 | a loop that got through made, for each section in order, three calls: the author on the section, the reviewer on that draft, then the editor on the same draft and that feedback |
| Pipeline.ProcessFailsIff | main.py:54-64 | the loop fails if and only if the author or the reviewer fails on some section; an editor failure never makes it fail |
| Pipeline.FirstFailureAborts | main.py:50-57 | when section k is the first whose draft or review fails, the loop keeps the first k contents and the calls of the first k sections, then calls the author on section k, and its last call is the failed one: no later section is touched |
| Pipeline.SectionsFromSavedOutline | main.py:37-41 | the sections are parsed from the saved outline file as read back: the strategist's text with its line ends translated, whatever was on disk before; for a text without `"\r"`, the text itself |
| Pipeline.RunHaltsIff | main.py:44-46 | a run halts if and only if the outline has no sections; it then makes no call after the outline and saves no document |
| Pipeline.RunAbortsIff | main.py:36-82 | a run aborts if and only if the strategist fails, or the author or the reviewer fails on a section; an aborted run saves no document |
| Pipeline.RunDone | main.py:49-71 | a completed run saved, under the configured name, the compilation under the configured title of one final content per section, in order |

## Left out

- `api_handlers.py` is not part of this model. That covers:
  - the retry with randomised exponential back-off;
  - the OpenAI and Anthropic clients;
  - the `time.sleep` pacing;
  - the module-level environment loading.
  They depend on the network, the clock and randomness. In the model, each agent call either gives a text or fails, and that is all.
- `agents.py` is not part of this model, because its methods only build a prompt and call a model. An agent's reply is an input of the run. It is given per section position rather than computed from the prompt.
- Configuration is an input of the run. `load_json_config`, `load_dotenv`, and a failure to read or parse `config.json` are not modelled. Neither is the `max_tokens` lookup, since the token limits are plain configuration values.
- Logging is not modelled, and neither is the re-read of the saved document for its character and word counts at main.py:75-78. They only produce log output.
- Files.SaveFile: writing in text mode turns `"\n"` into the platform's line separator; the model writes the text unchanged, as on POSIX systems. The text encoding of files is not modelled: a file holds characters.
- Files are a value (a map), not the operating system's file system. Nothing else can write to them during a run. A failure to open or write a file other than the missing outline is not modelled.
- The exception that ends `main()` is modelled as the outcome `Aborted`. Its message is not modelled.

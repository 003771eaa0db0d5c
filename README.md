# Lesson plan generator: template text extraction, in Dafny

The lesson plan generator is a small web tool. The user uploads a PDF lesson-plan template and fills in a lesson form. The tool then builds a prompt from the template text and the form, and shows what a hosted language model writes back. The repository has one piece of original logic: `extract_template_fields` (main.py:16-30). It turns the text of the PDF's pages into one "template text" in three steps:

1. **Concatenate.** The text of each page is appended, in page order and with no separator, to a string that starts empty (a `for` loop with `text +=`).
2. **Collapse whitespace.** `' '.join(text.split())` replaces every run of whitespace with one space and drops leading and trailing whitespace.
3. **Split at colons.** `text.replace(": ", ":\n")` runs, then `text.replace(":", ":\n")`.

The project models these steps and proves what they promise. It also models the prompt f-string (main.py:81-100) as a pure function.

- `whitespace.dfy` (module `Whitespace`) models step 2. It defines `IsSpace`, `Words` (`str.split()`), `Join` (`str.join`) and `Collapse`, plus the predicate `Collapsed`, which describes the shape the collapsed text has.
- `colons.dfy` (module `Colons`) models step 3. `ReplaceAll` is Python's `str.replace` and `SplitColons` is the two passes. `ColonLines` is an independent reference that handles one character at a time. It is proved equal to the two passes.
- `extract.dfy` (module `Extract`) holds `Concat`, the whole pipeline `Normalize`, and the method `ExtractTemplateFields`. That method keeps the source's loop, and its invariant says `text` is the concatenation of the pages read so far. The module also proves the end-to-end properties.
- `prompt.dfy` (module `Prompt`) holds `BuildPrompt`, the f-string of main.py:81-100, with the form values taken as already-rendered strings.

Whitespace follows Python's `str.split()` exactly. It is the full set of characters for which `str.isspace()` holds: the ASCII characters 9-13 and 28-31, the space, and the Unicode spaces U+0085, U+00A0, U+1680, U+2000-U+200A, U+2028, U+2029, U+202F, U+205F and U+3000. So the model also splits on the Unicode whitespace that Python recognises, not just the ASCII set.

The two colon passes do not merge into a single "line break after every colon" rule. The first pass turns `": "` into `":\n"`, and the second pass then adds one more line break after that colon. So a colon followed by a space ends with two line breaks (`"a: b"` becomes `"a:\n\nb"`), and any other colon ends with one (`"a:b"` becomes `"a:\nb"`). The first pass is therefore not redundant: `"Name: Objective: Standard:"` becomes `"Name:\n\nObjective:\n\nStandard:\n"` (`Extract.NormalizeThreeLabels`).

## Model

| member | source | states |
|---|---|---|
| `Extract.ExtractTemplateFields` | main.py:16-30 | The method that keeps the source's loop returns `Normalize(pages)`. The loop invariant says `text` is the concatenation of the pages read so far. |
| `Extract.ConcatAppend` | main.py:20-22 | Concatenating the pages of two documents one after the other is concatenating each and appending the results. |
| `Extract.ConcatPageAt` | main.py:20-22 | In the concatenation, page `k`'s text comes directly after the text of the earlier pages and directly before the text of the later pages. No separator is inserted. |
| `Extract.ConcatBlank` | main.py:20-22 | The concatenation is all whitespace exactly when every page's text is. |
| `Whitespace.FirstWord` | main.py:26 | The result is a prefix of the input with no whitespace. It is maximal: it ends at the end of the input or at a whitespace character. |
| `Whitespace.Words` | main.py:26 | `str.split()` returns only non-empty words, and no word contains whitespace. Where it cuts is stated by `WordsSplitAtSpace`, `WordsOfWord` and `WordsOfSpace`. |
| `Whitespace.WordsSplitAtSpace` | main.py:26 | `str.split()` cuts at every whitespace run: the words of `a`, a non-empty whitespace run, then `b` are the words of `a` followed by the words of `b`. |
| `Whitespace.WordsSkipSpace` | main.py:26 | Leading whitespace does not change the words. |
| `Whitespace.WordsOfWord` | main.py:26 | A non-empty string with no whitespace splits into exactly one word, itself. |
| `Whitespace.WordsOfSpace` | main.py:26 | A string of whitespace only splits into no words. |
| `Whitespace.FlattenWords` | main.py:26 | The words written together are exactly the input's non-whitespace characters, in order. |
| `Whitespace.WordsOfJoin` | main.py:26 | Splitting a space-joined list of valid words gives the same list back. |
| `Whitespace.JoinIsCollapsed` | main.py:26 | Joining valid words with single spaces gives a collapsed string. |
| `Whitespace.JoinOfWords` | main.py:26 | A collapsed string equals the space-join of its own words (the other round trip). |
| `Whitespace.CollapseIsCollapsed` | main.py:25-26 | After collapsing there is no leading or trailing whitespace, the space is the only whitespace character left, and no two whitespace characters are adjacent. |
| `Whitespace.CollapseKeepsWords` | main.py:25-26 | Collapsing keeps the sequence of words unchanged. |
| `Whitespace.CollapseIdempotent` | main.py:25-26 | Collapsing twice gives the same result as collapsing once. |
| `Whitespace.CollapseFixpoint` | main.py:25-26 | Collapsing leaves a string unchanged if and only if the string is already collapsed. |
| `Whitespace.CollapseKeepsNonSpace` | main.py:25-26 | Collapsing keeps every non-whitespace character, in order, and adds none. |
| `Whitespace.CollapseEmpty` | main.py:25-26 | The collapsed text is empty if and only if the input is all whitespace. |
| `Colons.ColonLines` | main.py:28-29 | The one-character-at-a-time reference is empty exactly when its input is, and otherwise starts with the input's first character. |
| `Colons.SplitColonsIsColonLines` | main.py:28-29 | The two `replace` passes equal `ColonLines` on every input: `": "` becomes `":\n\n"`, any other `":"` becomes `":\n"`, and every other character is kept. |
| `Colons.ColonLinesWord` | main.py:28-29 | Text with no colon passes through the colon stage unchanged. |
| `Colons.LabelThenSpace` | main.py:28-29 | A label followed by `": "` ends in a colon and two line breaks. |
| `Colons.LabelThenOther` | main.py:28-29 | A label followed by a colon and no space ends in a colon and one line break. |
| `Colons.ColonLinesThreeLabels` | main.py:28-29 | `a: b: c:` becomes `a:\n\nb:\n\nc:\n` for any colon-free labels `a`, `b` and `c`. |
| `Colons.ColonExamples` | main.py:28-29 | `"a: b"` becomes `"a:\n\nb"` and `"a:b"` becomes `"a:\nb"`. |
| `Colons.ColonLinesEndLines` | main.py:27-29 | Every colon of the result is immediately followed by a line break, whatever the input. |
| `Colons.ColonLinesKeepsNonSpace` | main.py:28-29 | The stage changes only whitespace. The non-whitespace characters, colons included, are the same and in the same order. |
| `Colons.ColonLinesOnlyInsertsNewlines` | main.py:28-29 | For input with no line breaks: remove the line breaks from the result and you get the input minus the one space directly after each colon. |
| `Colons.ColonLinesNewlines` | main.py:28-29 | For input with no line breaks, every line break of the result comes directly after a colon, or after a colon and one line break. |
| `Colons.ColonLinesSpacing` | main.py:28-29 | Suppose every whitespace character of the input is a space followed by a non-whitespace character. Then the result's only whitespace is spaces and line breaks, and each of its spaces has a non-whitespace character after it and, unless it is the first character, before it. |
| `Extract.NormalizeColonsEndLines` | main.py:16-30 | Every colon of the template text is immediately followed by a line break. |
| `Extract.NormalizeNewlines` | main.py:16-30 | Every line break of the template text is one inserted after a colon. |
| `Extract.NormalizeSpacing` | main.py:16-30 | The template text starts with a non-whitespace character. Its only whitespace is spaces and line breaks, and each space sits between two non-whitespace characters. |
| `Extract.NormalizeKeepsText` | main.py:16-30 | The template text holds the pages' non-whitespace characters in page order and nothing else, so no colon is added or lost. |
| `Extract.NormalizeOnlyInsertsNewlines` | main.py:16-30 | Remove the line breaks from the template text and you get the collapsed text minus the space after each colon. |
| `Extract.NormalizeEmpty` | main.py:16-30 | The template text is empty if and only if every page's text is empty or whitespace only. |
| `Extract.NormalizeThreeLabels` | main.py:16-30 | A one-page template `a: b: c:` with whitespace-free, colon-free labels becomes `a:\n\nb:\n\nc:\n`. |
| `Prompt.Fields` | main.py:87-97 | Lists the eleven label/value pairs of the instruction lines, in the source's order. |
| `Prompt.PromptHoldsTemplateTwice` | main.py:81-100 | The template text appears in the prompt at two non-overlapping places. |
| `Prompt.PromptShowsEveryField` | main.py:87-97 | Every form value appears verbatim in the prompt, on a line with its label. |

## Left out

- PDF parsing (`PdfReader`, `page.extract_text()`, main.py:19-22) is a foreign library. A document is modelled as the sequence of strings its pages' text extraction returns, so unreadable or password-protected PDFs are not modelled.
- The Streamlit interface (main.py:37-78, 106, 116-117): page setup, file upload, form widgets, button, spinner, text areas and messages. This is the web framework's code.
- Loading the API key (`load_dotenv`, `os.getenv`, main.py:13 and 104) and the early return when the key is missing (main.py:105-107) are environment I/O.
- The LangChain calls (`PromptTemplate`, `OpenAI`, `LLMChain`, `chain.run`, main.py:101 and 109-113) go to a remote model with opaque output. The model also does not cover how `PromptTemplate` reads braces in the prompt as template variables.
- `section_mapping` (main.py:49-55) is never read. The imports of `PdfWriter`, `reportlab` and `BytesIO` (main.py:2-5) are never used.
- Form values enter `BuildPrompt` as already-rendered strings. The date and float rendering of `st.date_input` and `st.number_input` (main.py:58, 60, 66) is not modelled.
- That the prompt is determined by its inputs has no lemma: `BuildPrompt` is a Dafny function, so this holds by construction.
- Python strings may hold lone surrogate code points, but a Dafny `char` is a Unicode scalar value, so such strings are outside the model.
- `ReplaceAll` also models Python's empty-pattern case, which the source never uses. No property is proved about that case.

# Research assistant core, modelled in Dafny

This project models three parts of a research assistant and proves properties of them:

- The text cleaner. `clean_text` runs four regular-expression rewrites and then a strip. `clean_content_batch` applies it to every fetched page.
- The query processor. It extracts keywords from the tagged query, expands the query into related queries, and assembles the analysis record.
- The state rules of the research page of the web front end: the search box, the comma-separated keyword field with its limit of ten keywords, the four settings selects, and the search history that starting a research run extends.

The project has four modules:

- `Wrappers`: `Option` and `Result`.
- `TextCleaner`: `data_processor.py`.
- `QueryProcessor`: `query_processor.py`.
- `ResearchPage`: `src/components/ResearchPage.js`. The component becomes the class `ResearchPage.Page`. Its fields are the component's state variables, and each handler is a method that updates them.

What is proved, in short:

- Cleaned text is printable ASCII, single-spaced, trimmed, and holds no word shorter than three characters.
- Cleaning is idempotent.
- Cleaning keeps every ASCII word run of three or more characters, in order. Each rewrite works piece by piece where no run crosses a join: a whitespace run becomes one space, a word run of one or two characters becomes one space, and a longer word run stays.
- The batch either returns one record per item, in order, or reports the first item without a url.
- Extracted keywords are exactly the lower-cased noun, proper-noun and verb tokens that are not stop words and are alphabetic, each once.
- The expansion always holds the query and always has four or five distinct entries.
- Joining well-formed keywords (non-empty, trimmed, comma-free) with commas and parsing the result gives the keywords back.
- Every page handler keeps three invariants: at most ten parsed keywords, at most ten history entries, and "searching" exactly when the search box is non-empty.

## Model

| member | source | states |
|---|---|---|
| TextCleaner.Collapse | data_processor.py:9 | Collapsing whitespace runs never lengthens the text. It is empty only for empty input. Its first character is the input's first character, or a space where that was whitespace. |
| TextCleaner.CollapseSingleSpaced | data_processor.py:9 | After `re.sub(r"\s+", " ", …)` every whitespace character is a plain space, and no two are adjacent. |
| TextCleaner.CollapseChars | data_processor.py:9 | Collapsing introduces no character except the space. |
| TextCleaner.CollapseFixes | data_processor.py:18 | On single-spaced text the second collapse changes nothing. |
| TextCleaner.CollapseConcat | data_processor.py:9 | Where no whitespace run crosses the join of `a` and `b`, collapsing `a + b` gives the collapse of `a` followed by the collapse of `b`. |
| TextCleaner.CollapseSpaceRun | data_processor.py:9 | A non-empty run of whitespace collapses to exactly one space. |
| TextCleaner.CollapseKeepsLongRuns | data_processor.py:18 | The second collapse keeps every word run at three or more characters. |
| TextCleaner.ReplaceNonPrintable | data_processor.py:12 | The length is kept. Printable ASCII characters stay at their positions, and every other character becomes a space. |
| TextCleaner.DropShortWords | data_processor.py:15 | `\b\w{1,2}\b` removal never lengthens the text and keeps a leading non-word character. |
| TextCleaner.DropShortWordsChars | data_processor.py:15 | Removing short words introduces no character except the space. |
| TextCleaner.DropShortWordsHasNoShortWords | data_processor.py:15 | After the rewrite, every maximal run of word characters has at least three characters. |
| TextCleaner.DropShortWordsFixes | data_processor.py:15 | Text without short words is left unchanged. |
| TextCleaner.DropShortWordsConcat | data_processor.py:15 | Where no word run crosses the join of `a` and `b`, the result for `a + b` is the result for `a` followed by the result for `b`. |
| TextCleaner.DropShortWordsRun | data_processor.py:15 | A maximal word run becomes one space when it has one or two characters, and is kept unchanged otherwise. |
| TextCleaner.NoShortWordsAt | data_processor.py:15 | The word-run property read by position: a word character that starts a run is followed by two more word characters. |
| TextCleaner.Strip | data_processor.py:20 | `str.strip()` leaves no whitespace at either end, never lengthens the text, and leaves trimmed text as it is. |
| TextCleaner.StripCutsSpaces | data_processor.py:20 | The input is whitespace, then the stripped text, then whitespace: only whitespace is cut, and only at the ends. |
| TextCleaner.StripKeepsShape | data_processor.py:20 | Stripping keeps text printable and single-spaced. |
| TextCleaner.StripKeepsNoShortWords | data_processor.py:20 | Stripping keeps text free of short words. |
| TextCleaner.CleanText | data_processor.py:4-20 | Empty input gives "" (lines 5-6). The result is never longer than the input. |
| TextCleaner.CleanTextShape | data_processor.py:4-20 | Every result of `clean_text` is printable ASCII, single-spaced, trimmed, and free of one- and two-character words. |
| TextCleaner.CleanTextFixes | data_processor.py:4-20 | Text that already has that shape is returned unchanged. |
| TextCleaner.CleanTextIdempotent | data_processor.py:4-20 | Cleaning twice gives the same text as cleaning once. |
| TextCleaner.LongWordsConcat | data_processor.py:15 | The long words of `a + b` are those of `a` then those of `b` when no word run crosses the join. |
| TextCleaner.LongWordsRun | data_processor.py:15 | A maximal word run is one long word when it has three or more characters, and none otherwise. |
| TextCleaner.CollapseKeepsLongWords | data_processor.py:9 | Collapsing whitespace keeps the word runs of three or more characters, in order. |
| TextCleaner.ReplaceNonPrintableConcat | data_processor.py:12 | The replacement works character by character: it distributes over concatenation. |
| TextCleaner.ReplaceNonPrintableKeepsLongWords | data_processor.py:12 | Replacing non-printable characters keeps the ASCII word runs of three or more characters, in order. |
| TextCleaner.DropShortWordsKeepsLongWords | data_processor.py:15 | Removing short words keeps every word run of three or more characters, in order. |
| TextCleaner.StripKeepsLongWords | data_processor.py:20 | Stripping keeps the word runs of three or more characters, in order. |
| TextCleaner.CleanTextKeepsLongWords | data_processor.py:4-20 | `clean_text` keeps exactly the ASCII word runs of three or more characters of its input, in order. With `CleanTextShape`, these are all the word runs of the result. |
| TextCleaner.Records | data_processor.py:32-40 | The reference definition of the `cleaned` list: for items that all have a url, one record per item in order (url and cleaned `raw_text`). It has exactly one record per item. |
| TextCleaner.RecordsSnoc | data_processor.py:34-40 | Each loop iteration appends exactly the record of the current item. |
| TextCleaner.RecordsAt | data_processor.py:34-40 | There is one record per item, in order. Record `i` has item `i`'s url and the cleaned `raw_text`, where a missing `raw_text` counts as "" (line 35). |
| TextCleaner.CleanContentBatch | data_processor.py:23-42 | It succeeds exactly when every item has a url, and then returns the records of all items. Otherwise it fails with the `KeyError` of line 38 at the first item without a url; every earlier item has one. |
| QueryProcessor.Lower | query_processor.py:74 | The length is kept. Each upper-case ASCII letter becomes the lower-case letter 32 code points above it, no upper-case ASCII letter is left, and every other character is kept. |
| QueryProcessor.JoinSpace | query_processor.py:91 | `" ".join(keywords)` gives "" for no keywords and the keyword itself for one. For more, it starts with the first keyword, a space follows it, and it ends with the last keyword. |
| QueryProcessor.JoinSpaceConcat | query_processor.py:91 | Joining `a + b` (both non-empty) is the join of `a`, one space, then the join of `b`. With the one-keyword case, this fixes every keyword of the join, in order, with single spaces between neighbours. |
| QueryProcessor.Candidates | query_processor.py:73-79 | A string is a candidate exactly when it is the lower-cased text of some token that is a NOUN, PROPN or VERB, not a stop word, and alphabetic. |
| QueryProcessor.Dedup | query_processor.py:80 | `list(set(…))` keeps each element once: there are no duplicates and membership is the same. |
| QueryProcessor.ExtractKeywords | query_processor.py:71-80 | There are no duplicates. A string is a keyword exactly when it is the lower-cased text of a qualifying token. |
| QueryProcessor.ExpansionSize | query_processor.py:87-96 | The five added strings always make four or five distinct queries. There are five exactly when neither the query nor the query plus " tutorial" equals one of the three keyword-built strings. |
| QueryProcessor.ListOfSet | query_processor.py:96 | `list(set)` has every element once and has the size of the set. |
| QueryProcessor.ExpandQuery | query_processor.py:87-96 | There are no duplicates. The members are exactly the query, the joined keywords, the query plus " tutorial", "best " and "how to " before the joined keywords. The query is always present, and there are four or five entries. |
| QueryProcessor.ProcessQuery | query_processor.py:103-113 | The record carries the query, the intent label and the extracted keywords. Its expanded queries are the expansion by those keywords. They always include the query, hold no duplicates, and number four or five. |
| ResearchPage.SplitComma | src/components/ResearchPage.js:57 | `split(',')` gives one more piece than the value has commas, and no piece holds a comma. |
| ResearchPage.JoinSplit | src/components/ResearchPage.js:57 | Joining the pieces with commas gives back the value. |
| ResearchPage.SplitJoin | src/components/ResearchPage.js:57 | Splitting the join of comma-free pieces gives back the pieces. |
| ResearchPage.SplitOfCommaFree | src/components/ResearchPage.js:57 | A value without commas splits into itself alone. |
| ResearchPage.SplitAfterComma | src/components/ResearchPage.js:57 | Splitting `p + "," + rest` with comma-free `p` gives `p`, then the pieces of `rest`. |
| ResearchPage.Trim | src/components/ResearchPage.js:57 | `trim()` leaves no JavaScript whitespace at either end. It never lengthens the text, keeps only characters of the input, and leaves trimmed text as it is. |
| ResearchPage.TrimCutsSpaces | src/components/ResearchPage.js:57 | The input is whitespace, then the trimmed text, then whitespace. |
| ResearchPage.TrimAll | src/components/ResearchPage.js:57 | `.map(k => k.trim())` trims each piece in place. |
| ResearchPage.NonEmpty | src/components/ResearchPage.js:57 | `.filter(k => k)` keeps exactly the non-empty strings, is never longer, and changes nothing when none is empty. |
| ResearchPage.NonEmptyConcat | src/components/ResearchPage.js:57 | The filter works element by element: filtering `a + b` gives the filtered `a` followed by the filtered `b`. |
| ResearchPage.ParseKeywords | src/components/ResearchPage.js:57 | Every parsed keyword is non-empty, trimmed and comma-free. There are at most one more keywords than commas. |
| ResearchPage.ParseJoinRoundTrip | src/components/ResearchPage.js:36 | Joining a list of well-formed keywords (non-empty, trimmed, comma-free) with commas and parsing it again gives the same list. |
| ResearchPage.PushHistory | src/components/ResearchPage.js:49 | The new entry comes first, followed by the newest previous entries in order. The length is the smaller of the old length plus one and ten. |
| ResearchPage.Page.constructor | src/components/ResearchPage.js:7-19 | The initial state is an empty search box and keyword field, not searching, the default settings ("7", "medium", "10", "markdown"), and exactly the four sample history entries of lines 14-17, in order. |
| ResearchPage.Page.HandleSearchChange | src/components/ResearchPage.js:25-29 | It stores the query, and the page is searching exactly when the value is non-empty. Nothing else changes. |
| ResearchPage.Page.HandleKeywordChange | src/components/ResearchPage.js:55-61 | A new value is stored only when it parses to at most ten keywords; otherwise the field keeps its old value. Nothing else changes. |
| ResearchPage.Page.HandleStartResearch | src/components/ResearchPage.js:31-53 | The stored record has the current settings and the parsed keywords (at most ten). The history gains an in-progress entry for the query, with 0 sources, in front, capped at ten. Nothing else changes. |
| ResearchPage.Page.SetTimeRange | src/components/ResearchPage.js:196 | The time-range select stores its value and keeps the invariant. |
| ResearchPage.Page.SetReportLength | src/components/ResearchPage.js:214 | The report-length select stores its value and keeps the invariant. |
| ResearchPage.Page.SetNumberOfSources | src/components/ResearchPage.js:231 | The number-of-sources select stores its value and keeps the invariant. |
| ResearchPage.Page.SetOutputFormat | src/components/ResearchPage.js:249 | The output-format select stores its value and keeps the invariant. |

`ResearchPage.Page.Valid` holds the three page invariants. Every handler requires it and ensures it, and the constructor establishes it.

## Left out

- The spaCy model and the intent classifier (a TF-IDF vectoriser with logistic regression, query_processor.py:62-64) are not modelled. Their outputs are parameters: the token list with its part-of-speech, stop-word and alphabetic flags, and the intent label. `classify_intent` is therefore not modelled.
- The interactive `input()` loop of query_processor.py (lines 120-139) is left out because it is console I/O.
- In `ResearchPage.Page.HandleStartResearch`, the clock readings (`toISOString`, `toLocaleTimeString`) are parameters. `localStorage.setItem`, `navigate('/output')` and the JSX rendering are left out as I/O.
- The dark-mode toggle (ResearchPage.js:6, 71) is left out because it is display state with no rule attached.
- The keyword tags (ResearchPage.js:273-279) are left out because they only render the field's pieces.
- The rest of the repository is outside this model: the content extractor, summariser, relevance ranker, report generator, their `main.py` drivers, and `App.js`.
- QueryProcessor.Lower: models `str.lower()` on ASCII letters only. Unicode case mapping (including mappings that change the length) is not modelled.
- TextCleaner.IsWordChar is `\w` restricted to ASCII. This is exact here, because step 3 only sees the output of step 2, which is printable ASCII.
- QueryProcessor.ExpandQuery: the order of the returned list is left open. Python's order depends on string hashing, so only membership, distinctness and size are stated.
- QueryProcessor.ExtractKeywords: the order of the returned list is left open for the same reason. The model keeps the last occurrence of each keyword, and only membership and distinctness are stated.
- QueryProcessor.ListOfSet: the order is left open; it picks elements arbitrarily.
- QueryProcessor.ProcessQuery: its keywords are `ExtractKeywords(tokens)`, which fixes one order: the last occurrence of each keyword, in token order. That is one order Python's `list(set(…))` can produce, not the only one.
- TextCleaner.RawItem: a page is modelled as its two keys, each present with a string or absent. A `raw_text` of `None` behaves like a missing one, because `clean_text` returns "" for both. A url of another type is not modelled.
- TextCleaner.CleanContentBatch: the `KeyError` is a `Failure` result carrying the item's position. The records already built are discarded, as the exception discards them.
- ResearchPage.Trim: strings are sequences of Unicode characters, not UTF-16 code units. `trim()` removes only BMP characters and `split(',')` works on ',', so the results agree.

# Sentiment word counts: a Dafny model

The repository splits a labelled review corpus by sentiment and ranks the
words of each part. It does this twice:

- as a Hadoop-streaming job: a mapper (`mapper1.py`) and a reducer
  (`reducer2.py`) that talk through lines of text;
- as a Spark job (`spark_v2.py`).

This project models the logic of the three scripts and proves what they
promise.

Modules:

- `Strings` (strings.dfy): the runtime pieces the scripts rely on,
  restricted to ASCII:
  - Python's `str.strip`, `str.lower`, `str.split(sep)`, `int()` and
    `str(n)`;
  - Spark's `trim`;
  - the Java `\s` class;
  - insertion order of a dict's keys (`FirstSeen`).
- `Ranking` (ranking.dfy): `Counter.most_common(n)`, modelled as a stable
  insertion sort by count, descending, followed by a prefix. `IsTopK` is
  the weaker property every top-n selection by count meets, whatever
  order it gives to ties.
- `Mapper` (mapper1.py):
  - `Classify` is the per-row label decision;
  - `FindWords` is `re.findall(r'\w+', ...)`;
  - `MapRow` is the lines printed for one row;
  - the methods `MapOneRow` and `MapRows` are the print loops, proved
    against `MapRow` and `MapAll`.
- `Reducer` (reducer2.py):
  - `ParseLine` is the line parser, with every reason for skipping a line;
  - `Add` is `word_counts[s][w] += n` on a table that keeps the
    insertion order of its sentiments and words;
  - the method `Reduce` is the accumulation loop. Its invariant `Models`
    ties the table to the records read so far.
  - the methods `PrintBlock` and `Report` produce the printed report.
- `Spark` (spark_v2.py): the dataframe chain read as functions on sequences
  of rows:
  - `LabelOf` maps a polarity to a label and `Filtered` is the row filter;
  - `CleanText`, `SplitWs` and `Tokens` do the cleaning and tokenizing.
    `TokensSplit` and `TokensOfWord` fix the tokens of every text: any
    character that is not an ASCII letter separates, and each maximal
    run of letters is one lowercased token when it has at least two;
  - `CountWords` does the grouping;
  - `IsTopWords` allows every top-30 list Spark may return;
  - `Combined` builds the tagged union.
- `Pipeline` (pipeline.dfy): the two streaming stages together. Every
  mapper line parses back in the reducer to the record it encodes. After
  the whole run, each (sentiment, word) count is the number of occurrences
  of the word in the rows of that sentiment.

The two pipelines are not equivalent, and the model does not relate them:

- the mapper tokenizes the second field and Spark the third;
- the mapper keeps digits, underscores and one-letter words, and Spark
  does not;
- the mapper labels rows with `int()`, and Spark uses exact string
  comparison.

Ties are handled differently by the two pipelines:

- **Reducer.** `Counter.most_common` keeps equal counts in the order their
  words were first encountered. `Ranking.MostCommon` states this as: for
  every count c, the ranked entries with count c are a prefix of the
  items with count c, in item order.
- **Spark.** `orderBy(desc("count")).limit(30)` fixes no order among equal
  counts, so Spark's top list is only specified (`Spark.IsTopWords`).
- **No lexicographic order.** Neither script breaks ties by word; the
  model adds no secondary sort key.

## Model

| member | source | states |
|---|---|---|
| Strings.Strip | mapper1.py:9 | the result is one contiguous slice of the input; every character before and after it is stripped, and the slice is empty or starts and ends with a character that is not |
| Strings.StripUnique | reducer2.py:9 | a slice whose ends are not stripped and outside which every character is stripped is the result of strip |
| Strings.StripNoop | mapper1.py:9 | a string whose ends are not stripped is returned unchanged |
| Strings.StripEmpty | spark_v2.py:38 | stripping gives the empty string exactly when every character is stripped |
| Strings.Lower | mapper1.py:26 | same length, each character lowercased, non-letters unchanged |
| Strings.SplitOn | reducer2.py:9 | str.split(sep): one more piece than separators, no separator inside a piece, and joining the pieces by sep gives back the string |
| Strings.SplitOnOne | reducer2.py:9-13 | a string with exactly one separator splits into its two sides |
| Strings.NatToString | reducer2.py:28 | str(n) of a natural is a non-empty run of digits whose value is n, with no leading zero except for "0" itself |
| Strings.ParseIntPadded | mapper1.py:14 | int(" +2 ") is 2: surrounding whitespace and a plus sign are accepted |
| Strings.ParseIntNegative | reducer2.py:15 | int("-30") is -30 |
| Strings.ParseIntTabs | reducer2.py:15 | tabs and newlines around the digits count as whitespace |
| Strings.ParseIntRejects | mapper1.py:14-16 | "1.0", "", "+" and "1 2" raise ValueError |
| Strings.IntToStringRoundTrip | reducer2.py:28 | int(str(n)) == n for every integer, negative ones included |
| Strings.FirstSeen | reducer2.py:25 | the insertion order of a dict's keys lists no key twice |
| Strings.FirstSeenMember | reducer2.py:22 | a key is in that order exactly when it occurs in the input |
| Strings.FirstSeenSnoc | reducer2.py:22 | a new key goes at the end of the order; a known key leaves the order alone |
| Ranking.Insert | reducer2.py:27 | the result is the list plus the new entry, as a multiset and entry by entry |
| Ranking.InsertSorted | reducer2.py:27 | inserting into a list with non-increasing counts keeps it non-increasing |
| Ranking.InsertWithCount | reducer2.py:27 | insertion is stable: the new entry follows the entries with the same count |
| Ranking.SortDesc | reducer2.py:27 | the sort by count is a permutation, non-increasing and stable for every count |
| Ranking.SortedPrefixIsTopK | reducer2.py:27 | the first n entries of a sorted permutation are a top-n selection: no omitted entry has a count above a listed one |
| Ranking.MostCommon | reducer2.py:27 | most_common(n) lists min(n, len) entries of the counter: non-increasing, no omitted entry counting more than a listed one, equal counts in first-encountered order |
| Ranking.TopKShort | spark_v2.py:51 | a top-k selection with fewer than k entries takes every entry |
| Mapper.FindWords | mapper1.py:27 | every word found is a non-empty run of word characters |
| Mapper.FindWordsOfWord | mapper1.py:27 | a text made of word characters is found as exactly one word |
| Mapper.FindWordsOfGap | mapper1.py:27 | a text without word characters holds no word |
| Mapper.FindWordsSplit | mapper1.py:27 | a non-word character separates: the words of a, c, b are those of a followed by those of b, repeats included |
| Mapper.CleanLabel | mapper1.py:9 | the cleaned label is no longer than the field, has no capital, and neither starts nor ends with a double quote |
| Mapper.StripPadding | mapper1.py:9 | strip() removes exactly the whitespace around a field whose ends are not whitespace |
| Mapper.StripQuotes | mapper1.py:9 | strip('"') removes exactly the enclosing quotes of a word that does not start or end with one |
| Mapper.CleanLabelUnquotes | mapper1.py:9 | a quoted word with whitespace around it cleans to the word, lowercased |
| Mapper.CleanQuotedLabel | mapper1.py:9 | the field "2" in double quotes cleans to 2 |
| Mapper.HeadersAreNotIntegers | mapper1.py:10-16 | the header labels are rejected by int() as well |
| Mapper.Classify | mapper1.py:6-23 | negative exactly when the cleaned label parses to 1, positive exactly when it parses to 2, nothing otherwise |
| Mapper.RejectedRows | mapper1.py:6-25 | an empty row, a header label, a non-integer label, an integer other than 1 and 2, or a one-field row prints nothing |
| Mapper.EmitLines | mapper1.py:28-29 | one line per word, in order, repeats included |
| Mapper.MapRow | mapper1.py:6-29 | a row prints only when it is accepted and has a second field; it then prints as many lines as its lowercased text has words, each the line of one word under the row's sentiment |
| Mapper.EmitLineShape | mapper1.py:29 | a printed line is sentiment, colon, word, tab, "1", and neither the sentiment nor the word contains a colon or a tab |
| Mapper.MapOneRow | mapper1.py:25-29 | the loop over one row's words prints exactly MapRow(row) |
| Mapper.MapRows | mapper1.py:5-29 | the loop over all rows prints the concatenation of their lines, row by row |
| Reducer.ParseFields | reducer2.py:10-21 | not two fields, a count int() rejects, or a key without a colon gives no record; otherwise the key splits at its first colon, so the word may hold colons |
| Reducer.ParseLine | reducer2.py:9-11 | after stripping, a line without exactly one tab is skipped |
| Reducer.ParseFieldsWellFormed | reducer2.py:13-21 | a key whose sentiment part has no colon, with an integer count, parses back to its parts |
| Reducer.ParseWellFormed | reducer2.py:9-21 | a well-formed line parses back to exactly its sentiment, word and count |
| Reducer.CounterAdd | reducer2.py:22 | counter[w] += n changes only w's count, by n; a new word joins the end of the order |
| Reducer.Add | reducer2.py:22 | only the entry (s, w) changes, by n; a new sentiment joins the end of the order; every other entry is unchanged |
| Reducer.CounterAddOrder | reducer2.py:22 | after a record, its counter lists the sentiment's words in first-seen order, and exactly those words have counts |
| Reducer.CounterAddCount | reducer2.py:22 | after a record, each word of its counter holds the total of its key |
| Reducer.CounterAddModels | reducer2.py:22 | adding a record to its own counter keeps the counter equal to the record totals |
| Reducer.CounterOtherModels | reducer2.py:22 | a record leaves the counters of other sentiments correct |
| Reducer.AddOwnModels | reducer2.py:22 | after a record, the counter of its sentiment holds its words in first-seen order, with their totals |
| Reducer.AddOrderModels | reducer2.py:22 | after a record, the table lists the sentiments in first-seen order |
| Reducer.AddOthersModels | reducer2.py:22 | after a record, the other sentiments' counters still hold their totals |
| Reducer.AddModels | reducer2.py:22 | one accepted record keeps the table equal to the totals of all records read |
| Reducer.TotalOfUnseenWord | reducer2.py:22 | a key never read totals 0 |
| Reducer.WordsOfUnseenSentiment | reducer2.py:22 | a sentiment never read has no words |
| Reducer.ModelsLookup | reducer2.py:8-22 | each word_counts[s][w] equals the sum of the counts of the records with that key, and 0 for a key never seen |
| Reducer.SkipModels | reducer2.py:9-20 | a skipped line leaves the table correct for the records read so far |
| Reducer.StepModels | reducer2.py:21-22 | an accepted line adds its count to its own entry, and the table stays correct |
| Reducer.Reduce | reducer2.py:5-22 | after all lines, the table lists sentiments and words in first-seen order, and each entry is the sum of the counts of the valid lines with that key |
| Reducer.ParseAllAppend | reducer2.py:8-22 | the records of two inputs back to back are the records of each, back to back |
| Reducer.TotalAppend | reducer2.py:22 | the totals of two record sequences add up |
| Reducer.MergeTotals | reducer2.py:8-22 | the totals of a concatenated input are the sums of the totals of its parts |
| Reducer.TotalsIgnoreLineOrder | reducer2.py:8-22 | two inputs with the same lines in any order give the same totals |
| Reducer.Items | reducer2.py:27 | the counter's items are its words in insertion order, each with its count |
| Reducer.RankedItems | reducer2.py:25-27 | under the table invariant, the items ranked for a sentiment are its distinct words in first-seen order, each with its total |
| Reducer.RankedTotals | reducer2.py:27-28 | every ranked entry of a sentiment is one of its words, listed with its total |
| Reducer.Header | reducer2.py:26 | the header is the fixed title, the sentiment, then a colon |
| Reducer.EntryLineFields | reducer2.py:28 | a ranked line splits at its tab into the word and a field that int() reads back as the count |
| Reducer.Block | reducer2.py:26-28 | the header first, then min(30, number of words) entry lines, the ranking of most_common(30) |
| Reducer.ModelsHasCounters | reducer2.py:25 | every sentiment the table lists has its counter |
| Reducer.PrintBlock | reducer2.py:26-28 | the loop prints exactly the block of one sentiment |
| Reducer.Report | reducer2.py:25-28 | the printed output is the blocks of the sentiments, in the table's first-seen order |
| Reducer.RunReducer | reducer2.py:5-28 | the whole script: the table holds every key's total with sentiments in first-seen order, and the output is their blocks in that order |
| Spark.LabelOf | spark_v2.py:29-35 | label 1 exactly when the trimmed, lowercased polarity is "2"; label 0 exactly when it is "1"; NULL otherwise |
| Spark.PlainPolarity | spark_v2.py:29 | a polarity without capitals or surrounding spaces is compared as it is |
| Spark.SpacedLabel | spark_v2.py:29-32 | surrounding spaces are trimmed before the comparison |
| Spark.LabelsAreExactStrings | spark_v2.py:29-35 | "02", "+1", a tab before "1" and a NULL polarity get no label |
| Spark.SparkTrim | spark_v2.py:38 | trim() keeps a slice of the text, removes only spaces, and leaves no space at either end |
| Spark.KeepRowIffNonBlank | spark_v2.py:38 | a row is kept exactly when it has a label and a text holding a character other than a space |
| Spark.Filtered | spark_v2.py:38 | the kept rows are rows of the input with a label and non-blank text, and every such row of the input is kept |
| Spark.CleanChar | spark_v2.py:42 | letters and \s stay; any other character becomes the space U+0020 |
| Spark.Replace | spark_v2.py:42 | the regexp replacement acts on each character alone |
| Spark.TrimmedIsClean | spark_v2.py:43 | trimming a text of letters and \s leaves a text of letters and \s |
| Spark.CleanText | spark_v2.py:42-43 | the cleaned text holds only lowercase letters and \s characters, and neither starts nor ends with a space |
| Spark.SplitWs | spark_v2.py:44 | split on \s+ gives at least one piece, and no piece holds a \s character |
| Spark.SplitWsOfPiece | spark_v2.py:44 | a text without \s splits into itself |
| Spark.SplitWsPrefix | spark_v2.py:44 | a prefix without \s joins the first piece of what follows it |
| Spark.SplitWsSpaceStart | spark_v2.py:44 | a text starting with \s has an empty first piece |
| Spark.SplitWsOfRun | spark_v2.py:44 | a maximal run of \s at the start leaves one empty piece, then the pieces of the rest |
| Spark.SplitWsSplit | spark_v2.py:44 | a piece, a maximal run of \s and a rest split into the piece followed by the pieces of the rest |
| Spark.SplitWsKeepsNonSpace | spark_v2.py:44 | the pieces hold exactly the characters that are not \s, in order |
| Spark.SplitWsOfLowerText | spark_v2.py:44 | splitting cleaned text gives pieces of lowercase letters |
| Spark.NonSpaceOfTrim | spark_v2.py:43 | trim removes no character that is not \s |
| Spark.NonSpaceOfReplace | spark_v2.py:42 | after the regexp replacement, the characters that are not \s are exactly the text's letters |
| Spark.NonSpaceOfLower | spark_v2.py:43 | lowercasing commutes with dropping the \s characters |
| Spark.SplitKeepsLetters | spark_v2.py:42-44 | cleaning and splitting keep exactly the text's ASCII letters, lowercased, in order |
| Spark.LongPieces | spark_v2.py:45 | the kept pieces have length at least 2 and come from the split |
| Spark.LongPiecesAppend | spark_v2.py:45 | the filter keeps the pieces of two lists back to back |
| Spark.LongPiecesOne | spark_v2.py:45 | one piece is kept exactly when it has at least 2 characters |
| Spark.RunsSpaceFront | spark_v2.py:44-45 | a leading \s character adds no token |
| Spark.RunsAfterPiece | spark_v2.py:44-45 | a piece followed by \s is one candidate token, then the tokens of the rest |
| Spark.RunsSplit | spark_v2.py:44-45 | one \s character separates: the tokens of x, c, y are those of x followed by those of y |
| Spark.RunsOfSpaces | spark_v2.py:44-45 | a text of \s characters only has no token |
| Spark.RunsSkipSpaces | spark_v2.py:44-45 | leading \s characters add no token |
| Spark.RunsDropSpaces | spark_v2.py:44-45 | trailing \s characters add no token |
| Spark.RunsOfBlankEnds | spark_v2.py:43-45 | spaces around a lowercased text add no token |
| Spark.TrimSplit | spark_v2.py:43 | a text is the spaces trim() removes in front, the trimmed text, and the spaces it removes behind |
| Spark.TokensAreRuns | spark_v2.py:42-45 | trim() does not change the tokens: they are those of the lowercased, replaced text |
| Spark.TokensSplit | spark_v2.py:42-45 | a character that is not an ASCII letter separates: the tokens of a, c, b are those of a followed by those of b |
| Spark.TokensOfWord | spark_v2.py:42-45 | a word of ASCII letters is one lowercased token when it has at least two letters, and none otherwise |
| Spark.Tokens | spark_v2.py:42-45 | every token is at least 2 characters long, all of them a to z |
| Spark.Explode | spark_v2.py:44-45 | every exploded word is a token |
| Spark.LabelWordsAreRowTokens | spark_v2.py:38-52 | the words counted for a label are the tokens of the texts of the kept rows with that label, row by row |
| Spark.TitlesAreIgnored | spark_v2.py:20-26 | rows that differ only in their title count the same words |
| Spark.DroppedRowIsIgnored | spark_v2.py:38 | a row without a label or with NULL or blank text adds no words, wherever it stands |
| Spark.CountWords | spark_v2.py:50 | groupBy("word").count() gives one entry per distinct word, counting its occurrences |
| Spark.CountWordsCovers | spark_v2.py:50 | every word of the stream has its entry |
| Spark.TopWordsExist | spark_v2.py:49-54 | a stable sort by count gives one of the lists Spark may return, so the specification can be met |
| Spark.TopEntriesAreCounts | spark_v2.py:49-51 | every entry of a top list is an entry of the word counts |
| Spark.TopWordsDistinct | spark_v2.py:49-51 | a top list lists no word twice |
| Spark.TopWordsExclude | spark_v2.py:51 | no word left off a top list has a higher count than a listed one |
| Spark.TopWordsShort | spark_v2.py:51 | a top list has fewer than 30 entries only when it lists every word of the label |
| Spark.TopWordsFacts | spark_v2.py:48-54 | each top list has at most 30 entries, non-increasing counts and distinct words; each count is the word's occurrences among the label's tokens; no omitted word counts more |
| Spark.Tag | spark_v2.py:75-76 | every entry gets its word and count with the constant sentiment column |
| Spark.Combined | spark_v2.py:75-78 | the positive list tagged "positive", then the negative list tagged "negative", as (sentiment, word, count) rows |
| Spark.SelectTag | spark_v2.py:75-76 | selecting a tag from a tagged list gives the list back, or nothing for another tag |
| Spark.CombinedSplits | spark_v2.py:77-78 | selecting by the sentiment column gives back each list unchanged |
| Pipeline.EmittedSnoc | mapper1.py:28-29 | the records for one more word are the previous records followed by that word's record |
| Pipeline.RoundTrip | mapper1.py:29 | the line the mapper prints for a word parses in the reducer to the same sentiment, the same word and count 1 |
| Pipeline.ParseEmittedLine | reducer2.py:9-22 | one printed line read alone yields its one record |
| Pipeline.ParseEmitted | reducer2.py:8-22 | the reducer reads back the lines of a row as that row's records, in order |
| Pipeline.NameIsInjective | mapper1.py:20-23 | the two sentiments print different names |
| Pipeline.TotalEmitted | mapper1.py:28-29 | within one row's lines, a key totals the occurrences of its word, or 0 for the other sentiment |
| Pipeline.TotalOfRow | mapper1.py:25-29 | a row's lines total the occurrences of the word in its text when the row has that sentiment, and 0 otherwise |
| Pipeline.CountsAreOccurrences | mapper1.py:5-29 | over all rows, the reducer's total for (s, w) is the number of occurrences of w in the texts of the rows of sentiment s |
| Pipeline.PipelineCounts | reducer2.py:8-22 | the table built from the mapper's output holds those occurrence counts |

## Left out

- Standard input and output are not modelled. The mapper's rows are a
  sequence of fields, and the reducer's lines and each printed report
  line are strings. The `csv.reader` quoting rules (mapper1.py:4) are not
  modelled.
- Character semantics are ASCII only:
  - `\w` is `[A-Za-z0-9_]`;
  - `str.lower()` and Spark's `lower()` lowercase ASCII letters only;
  - `str.isspace()` is the ASCII whitespace set;
  - Java's `\s` is space and tab to carriage return.
- Python's `int()` in the model takes an optional sign and ASCII decimal
  digits, with surrounding whitespace. It does not model underscores
  between digits or non-ASCII digits.
- Spark plumbing is not modelled:
  - the session and `spark.stop()`;
  - the S3 paths;
  - `read.csv` and the column renaming beyond the field names;
  - the `show()` previews and the label counts printed with them;
  - the `write` calls and their `count() > 0` guards with the WARNING
    prints;
  - `coalesce(1)` and distributed execution.
- The order of Spark's entries having equal counts is not modelled, since
  `orderBy(desc("count")).limit(30)` leaves it open. `Spark.IsTopWords`
  only specifies the list, and `Spark.TopWordsExist` shows it can be met.
- `unionByName(..., allowMissingColumns=True)` fills missing columns with
  NULL. Both inputs have the same columns here, so the combined rows are
  modelled as the two lists back to back.
- The streaming shuffle between the two stages is not modelled: Hadoop
  sorts the mapper's lines by key and may partition them across several
  reducers. `Reducer.TotalsIgnoreLineOrder` shows that the totals do not
  depend on the order of the lines, but the report's first-seen order of
  sentiments and words does, and the model gives the reducer the mapper's
  lines in the order they were printed.
- No non-negative counts invariant is modelled. `int()` accepts negative
  counts (reducer2.py:15), so the reducer's totals and the ranked counts
  are plain integers.

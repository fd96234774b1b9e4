# Dice-roll history of a tabletop party

This is a model of the bookkeeping core of a small console program, `main.cpp`. The program keeps the d20 rolls of six player characters and the game master (seven characters in all).

For each character (`Personagem`) it keeps:

- the rolls of the current session;
- the history of every recorded session;
- the mean of the current session and the mean over all sessions.

The history is stored in a text file. The program writes that file (`salvarHistorico`) and reads it back when the character is created (`carregarHistorico`).

Rolls are typed in at the console. A value outside 1..20 is skipped with a warning, and the first input that is not an integer ends the session. The session is then recorded (`setRolagem`) and a statistics report is produced (`processar`). The report includes the distribution of the current rolls over the faces 1..20 (`calcularDistribuicaoNormal`).

A plotting script, `plot.py`, reads the same history file with its own parser (`extrair_historico`). That parser numbers the sessions with a counter.

## What the modules contain

- `Decimal` covers the decimal text `<<` writes for an `int`, and the 32-bit `int` type.
- `IntParsing` covers `std::stoi` and Python's `int()` together with `str.strip()`, with the 4300-digit limit `int()` applies to decimal text. It proves that each reads back what `<<` wrote for a C++ `int`.
- `Strings` covers substring search and "the text after the last `:`", which is `find_last_of`/`substr` in C++ and `split(':')[-1]` in Python.
- `HistoryFormat` holds the file format as the serialiser writes it, and the C++ loader as a state machine: `LoadStep` is one line and `LoadFeed` runs it over all lines. Its main theorem is that load after save is the identity on every history without an empty session.
- `Statistics` covers sums, the concatenation of all sessions, means, counts and percentages, with their lemmas.
- `Characters` holds the class `Character` with the fields of `Personagem` other than the standard deviations and variances. Its methods update those fields in place with loops, and each method is proved against the specification functions above.
- `RollEntry` covers the roll-entry loop of `main`, over an abstract token stream.
- `PlotHistory` holds the loop of `extrair_historico` and its state machine. It proves:
  - stored sessions are non-empty and their numbers strictly increase;
  - the parse fails exactly when some roll line holds a value `int()` rejects;
  - reading a saved file gives every non-empty session, numbered from 1, when the character name holds neither "Sessão" nor ':'.
- `ParserAgreement` compares the two readers. It shows where they agree, and gives three inputs on which they differ:
  - a roll line before the first marker;
  - text after the value;
  - the numbering after an empty session.
- `Sequences` and `Wrappers` hold generic sequence facts and `Option`.

A file is modelled as its sequence of lines. For the C++ program that is what `getline` returns; for the script it is what `split('\n')` returns, which for a file ending in a newline holds one more, empty, line.

Where the script and the C++ loader differ, the model follows the code as written:

- The script reads roll lines before any session marker, as session 0. The loader ignores them.
- `stoi` reads a leading number and ignores what follows it. `int()` rejects the whole value.
- After an empty session the script's counter has still advanced, so session numbers skip.

## Model

| member | source | states |
|---|---|---|
| HistoryFormat.HistoryText | main.cpp:261-269 | defines the lines the serialiser writes: the header, a blank line, then per session a marker `Sessão i:`, one `Rolagem j: v` line per roll numbered from 1, and a blank line |
| HistoryFormat.LoadStep | main.cpp:229-244 | defines one iteration of the loader: a marker flushes a non-empty buffer and starts reading; while reading, a line with "Rolagem" and a ':' appends the `stoi` of the text after the last ':', and `None` is the throw; any other line changes nothing |
| HistoryFormat.LoadFeed | main.cpp:228-245 | defines the `getline` loop: `LoadStep` over every line in order, stopping at the first throw |
| IntParsing.Stoi | main.cpp:241 | defines `std::stoi`: C white space skipped, an optional sign, the longest run of decimal digits, `None` when there is no digit or the value leaves the `int` range |
| Decimal.IntToString | main.cpp:266 | defines the text `<<` writes for an `int`: a '-' for a negative value, then the decimal digits without leading zeros |
| Strings.AfterLast | main.cpp:239-241 | defines the text after the last ':' (`substr(find_last_of(':') + 1)`, and `split(':')[-1]` in the script); its contract states that it holds no ':' and is the tail of the line after a ':' |
| Strings.Contains | main.cpp:229 | defines substring presence: `find(...) != string::npos` (also at main.cpp:238) and Python's `in` at plot.py:106 and 111 |
| Strings.LastIndexOf | main.cpp:239 | defines `find_last_of(':')`; its contract states that the index holds the character and no later position does, and `None` exactly when the character is absent |
| IntParsing.PyStrip | plot.py:112 | defines `str.strip()`; its contract states that the result neither starts nor ends with white space |
| IntParsing.PyInt | plot.py:112 | defines `int()` on a `str`: white space stripped, an optional sign, digit groups joined by single underscores, at most 4300 digits, `None` for the `ValueError` |
| HistoryFormat.Flushed | main.cpp:230-231 | defines storing the pending session only when it is non-empty (also at main.cpp:247-249) |
| HistoryFormat.RollLike | main.cpp:238 | defines a line both readers take for a roll line: no "Sessão", a "Rolagem" and a ':' (also plot.py:111) |
| Statistics.Sum | main.cpp:122-124 | defines the sum the mean accumulates |
| Statistics.Flatten | main.cpp:185-188 | defines the concatenation of all sessions into `todasRolagens`, in order |
| Statistics.Count | main.cpp:205-207 | defines the number of rolls equal to a value, which `distribuicao[valor]++` accumulates |
| Statistics.Percentage | main.cpp:210-214 | defines the conversion of a count to a percentage of the number of rolls, left as the count when there are none |
| Statistics.Mean | main.cpp:118-126 | defines `calcularMedia`: 0 for no rolls, otherwise the sum over the count |
| RollEntry.Faces | main.cpp:450-455 | defines the filter that keeps the values in 1..20, in order |
| RollEntry.Accepted | main.cpp:441-457 | defines the rolls the console loop records: the numbers before the first unreadable input, keeping only those in 1..20, in order |
| PlotHistory.PyRollValue | plot.py:112 | defines `int(linha.split(':')[-1].strip())`, with `None` when `int()` raises |
| PlotHistory.PyStep | plot.py:106-113 | defines one iteration of the script's loop: a marker stores a non-empty session under the counter, empties it and increments the counter; a line with "Rolagem" and a ':' appends its value or raises; any other line changes nothing |
| PlotHistory.PyFeed | plot.py:105-113 | defines the `for linha in ...` loop: `PyStep` over every line in order, stopping at the first exception |
| PlotHistory.PyFlushed | plot.py:107-108 | defines storing the pending session under the counter, only when it is non-empty (also at plot.py:116-117) |
| PlotHistory.ParsedHistory | plot.py:105-117 | defines the loop over every line followed by the final store, `None` when `int()` raises |
| PlotHistory.ExtractHistory | plot.py:95-122 | defines `extrair_historico`: the empty list when the file cannot be opened or an exception is raised, otherwise the parsed entries |
| HistoryFormat.LoadAfterSaveIdentity | main.cpp:261-269 | loading the lines the serialiser writes for a history with no empty session gives back exactly that history, for any character name |
| HistoryFormat.LoadAfterSave | main.cpp:228-249 | for any history, loading what was saved gives every non-empty session, in order; empty sessions vanish |
| HistoryFormat.NonEmptySessions | main.cpp:230-231 | the sessions kept by the flush have no empty session, and a history without empty sessions is kept whole |
| HistoryFormat.LoadedHistory | main.cpp:228-249 | a successful load never holds an empty session |
| HistoryFormat.LoadFeedKeepsSessionsNonEmpty | main.cpp:229-249 | from a history without empty sessions, the loop and the final flush never add an empty session, since both flush only a non-empty buffer |
| HistoryFormat.LinesBeforeFirstMarkerIgnored | main.cpp:226-238 | lines before the first "Sessão" line are ignored, roll lines included, because the reading flag starts false |
| HistoryFormat.RollLineStep | main.cpp:238-242 | while reading a session, a roll line as the serialiser writes it adds exactly its value to the session being read |
| HistoryFormat.RollLineShape | main.cpp:266 | a written roll line contains "Rolagem", does not contain "Sessão", contains ':', and its text after the last ':' is a space followed by the value |
| HistoryFormat.SessionLineStep | main.cpp:229-235 | a session line stores the session being read if it is non-empty, empties the buffer and turns reading on |
| HistoryFormat.BlankLineStep | main.cpp:228-245 | a blank line changes nothing |
| HistoryFormat.RollLinesFeed | main.cpp:265-267 | the roll lines of a session add exactly that session's rolls, in order, to the session being read |
| HistoryFormat.RollLinesAt | main.cpp:265-267 | roll j (0-based) of a session is written as roll number j + 1, one line per roll |
| HistoryFormat.SessionBlockFeed | main.cpp:263-269 | one session's block flushes what was being read and leaves exactly that session's rolls being read |
| HistoryFormat.SessionBlocksFeed | main.cpp:263-269 | the blocks of all sessions always load and append every non-empty session to what was flushed before |
| HistoryFormat.HeaderFeed | main.cpp:261 | the header line and the blank line after it leave nothing to flush, whatever the name holds |
| HistoryFormat.TrailingMarkerChangesNothing | main.cpp:247-249 | the flush at end of file is the flush a further marker line would do, so one more marker at the end changes nothing |
| HistoryFormat.LoadFeedWithEarlier | main.cpp:231 | loading onto a history that already holds sessions puts the loaded sessions after them, and fails exactly when loading onto an empty history fails |
| HistoryFormat.FlushedWithEarlier | main.cpp:247-249 | the final flush onto earlier sessions is those sessions followed by the flush alone |
| HistoryFormat.LoadFeedAppend | main.cpp:228-245 | running the loop over two runs of lines is running it over the first and then over the second from the state reached |
| HistoryFormat.LoadFeedFailsIff | main.cpp:238-243 | from any state, the loop fails exactly when some line is a roll line whose value `stoi` rejects and reading is on at that line |
| HistoryFormat.LoadFailsIff | main.cpp:238-243 | a load fails (the `stoi` exception) if and only if some roll line after a session marker holds a value `stoi` rejects |
| HistoryFormat.NoSessionMarkerInRollLine | main.cpp:266 | a written roll line contains no 'S', so it never contains "Sessão" |
| IntParsing.StoiOfIntToString | main.cpp:241 | `stoi` reads back the value `<<` wrote for an `int`, past leading white space and before text that does not start with a digit |
| IntParsing.StoiNeedsDigit | main.cpp:241 | `stoi` throws on text without a digit |
| IntParsing.StoiSkipsSpace | main.cpp:241 | `stoi` skips the white space in front of the number |
| IntParsing.PyIntOfPaddedIntToString | plot.py:112 | `int(s.strip())` reads back the value `<<` wrote for any C++ `int`, between any white space |
| IntParsing.Int32DigitCount | plot.py:112 | the decimal text of a C++ `int` has at most 10 digits, far below the limit `int()` applies |
| IntParsing.StripPaddedDigits | plot.py:112 | `strip()` of a run of digits between white space gives the digits |
| IntParsing.LongDigitsRejected | plot.py:112 | `int()` raises on a run of more than 4300 digits |
| IntParsing.PyIntRejectsLongLiteral | plot.py:112 | `int()` raises on a decimal literal of more than 4300 digits, whatever the white space around it |
| Decimal.NatToStringLength | main.cpp:266 | a number below 10^k is written with at most k digits |
| IntParsing.PyIntOfIntToString | plot.py:112 | `int()` reads back the decimal text of any integer of at most 4300 digits |
| IntParsing.PyStripPadded | plot.py:112 | `strip()` removes exactly the white space around a text that neither starts nor ends with white space |
| Decimal.DigitsValueOfNatToString | main.cpp:266 | the digits `<<` writes for a natural number denote that number |
| Decimal.IntToStringChars | main.cpp:266 | the text of an `int` is non-empty, starts with '-' exactly when the value is negative, and is otherwise digits |
| Decimal.NatToString | main.cpp:266 | the text of a natural number is a non-empty run of digits with a leading zero only for 0 |
| Strings.AfterLastOfJoin | main.cpp:239-241 | the text after the last ':' of `a + ":" + b` is `b` when `b` holds no ':' |
| Characters.Character.constructor | main.cpp:153-161 | a new character has the given name, no rolls and no history, and both means are 0 |
| Characters.Open | main.cpp:153-164 | building a character and loading its file gives an empty history when the file is absent, otherwise exactly the sessions read; it fails exactly when the load throws |
| Characters.Character.LoadHistory | main.cpp:220-252 | the loop appends what `LoadedHistory` reads to the history already there; an absent file changes nothing; it fails exactly when `stoi` throws; the earlier history stays a prefix with no empty session; the other fields are unchanged |
| Characters.Character.LoadLine | main.cpp:228-245 | one line of the loader's loop, proved against `LoadStep`: it stores the buffer on a marker only if it is non-empty, and never adds an empty session |
| Characters.LoadFeedAt | main.cpp:228-245 | the loop from line i on is one step and then the loop from line i + 1 on |
| Characters.Character.SaveHistory | main.cpp:254-272 | the nested loops write exactly `HistoryText(name, history)`: the header, a blank line, then each session's block |
| Characters.WriteSession | main.cpp:264-268 | one pass of the outer loop appends the session's marker line, its roll lines numbered from 1, and a blank line |
| Characters.SaveThenReopen | main.cpp:254-272 | a character whose history was saved and then opened again from that file has the same history |
| Characters.Character.RecordSession | main.cpp:166-194 | the current rolls become `r` and the daily mean is their mean; an empty `r` leaves history and total mean unchanged; otherwise history gains exactly `r` at the end, earlier sessions untouched, and the total mean is the mean of all sessions concatenated |
| Characters.Character.SetDailyMean | main.cpp:172-176 | the daily mean is the mean of the given rolls; the other fields are unchanged |
| Characters.Character.UpdateTotalMean | main.cpp:178-194 | nothing changes when there are no current rolls; otherwise the current rolls are appended to the history and the total mean is recomputed over the concatenation of every session |
| Characters.Character.CountRolls | main.cpp:196-207 | there is a key for every face 1..20 and for every other value rolled, and each holds the number of current rolls equal to it |
| Characters.Character.Distribution | main.cpp:196-218 | every key holds that count as a percentage of the number of current rolls when there are any, else the raw count |
| Characters.Character.TotalRollCount | main.cpp:296-299 | the total number of rolls is the sum of the session sizes, which is the length of all sessions concatenated |
| Characters.Character.Process | main.cpp:274-325 | the report holds the current roll count, both means, the number of sessions, the total roll count and the distribution, and the lines saved are those of the history file |
| Statistics.ComputeMean | main.cpp:118-126 | the accumulating loop returns 0 for no rolls, otherwise the sum over the count |
| Statistics.MeanBounds | main.cpp:118-126 | the mean of rolls that lie between two bounds lies between them |
| Statistics.SumOfAppendedSession | main.cpp:182-191 | appending a session adds its sum and its size to those of all rolls, so the total mean weighs every roll once |
| Statistics.SumAppend | main.cpp:185-188 | the sum of two runs of rolls joined is the sum of their sums |
| Statistics.FlattenLength | main.cpp:296-299 | the length of all sessions concatenated is the sum of the session sizes |
| Statistics.CountIsMultiplicity | main.cpp:205-207 | the count of a value is its multiplicity among the current rolls |
| Statistics.CountsBetweenSnoc | main.cpp:205-207 | one more roll adds one to the counts of the range it falls in, and nothing otherwise |
| Statistics.CountsCoverAllRolls | main.cpp:200-207 | when every roll lies in 1..20, the counts of 1..20 add up to the number of rolls |
| Statistics.CountsOfEmpty | main.cpp:200-202 | with no rolls every count is 0 |
| Statistics.PercentagesScaleCounts | main.cpp:210-215 | with rolls, the percentages of a range of values are the counts of that range over the number of rolls, times 100 |
| Statistics.PercentagesAddUpTo100 | main.cpp:210-215 | when there are rolls and all lie in 1..20, the percentages of 1..20 add up to 100 |
| RollEntry.ReadRolls | main.cpp:441-457 | the input loop records exactly `Accepted(ts)` and reads every token before the first unreadable one |
| RollEntry.EnterSession | main.cpp:441-460 | the rolls entered become the character's current rolls and the daily mean is their mean; when there are any, the history gains them as one session and the total mean is taken over all sessions, otherwise history and total mean stay as they were |
| RollEntry.BeforeStop | main.cpp:444-448 | the tokens read form a prefix of the input, all numbers, followed by an unreadable token when not the whole input |
| RollEntry.AcceptedAreFaces | main.cpp:450-455 | every recorded roll lies in 1..20 |
| RollEntry.OutOfRangeSkipped | main.cpp:450-453 | a value outside 1..20 is skipped and the loop goes on |
| RollEntry.FaceKept | main.cpp:455 | a value in 1..20 is recorded, in input order |
| RollEntry.StopsAtFirstFailure | main.cpp:444-448 | nothing after the first unreadable input is read |
| RollEntry.AllFacesRecorded | main.cpp:441-457 | input made only of values in 1..20 is recorded as it is |
| RollEntry.FacesAppend | main.cpp:450-455 | filtering two runs of tokens joined is filtering each and joining |
| RollEntry.RecordedCountsCoverFaces | main.cpp:200-207 | for rolls entered at the console, the counts of the faces 1..20 add up to the number of rolls recorded |
| PlotHistory.ExtractHistoryLoop | plot.py:95-122 | the loop returns exactly `ExtractHistory(file)`: the empty list when the file is absent or `int()` raises, otherwise the sessions stored |
| PlotHistory.ReadLine | plot.py:105-113 | one line of the script's loop, proved against `PyStep`; `ok` is false exactly when `int()` raises |
| PlotHistory.PyFeedAt | plot.py:105-113 | the loop from line i on is one step and then the loop from line i + 1 on |
| PlotHistory.ParsedHistoryNumbering | plot.py:103-117 | every stored session is non-empty, session numbers strictly increase, and none exceeds the number of marker lines |
| PlotHistory.PyFeedKeepsInv | plot.py:106-113 | the loop keeps stored sessions non-empty, strictly increasing and numbered below the counter, and the counter grows by the number of marker lines |
| PlotHistory.PyStepKeepsInv | plot.py:106-110 | a marker line stores the session only if it is non-empty and always increments the counter |
| PlotHistory.NoMarkerSessionZero | plot.py:111-113 | without any marker line, every roll read belongs to session 0 |
| PlotHistory.RollsBeforeFirstMarker | plot.py:103-117 | when the parse succeeds, rolls read before the first marker are stored by that marker as the first entry, numbered 0, whatever else the rest of the file holds |
| PlotHistory.NoMarkerPrefixState | plot.py:103-113 | before the first marker the counter is still 0 and nothing has been stored |
| PlotHistory.FirstMarkerStores | plot.py:106-110 | a marker met with rolls pending and nothing stored stores those rolls as the first entry, under the current counter |
| PlotHistory.PyFeedExtendsHistory | plot.py:105-117 | the loop and the final store only append to the stored sessions |
| PlotHistory.NoMarkerCount | plot.py:106 | lines without "Sessão" hold no marker |
| PlotHistory.PyFeedFailsIff | plot.py:112 | the loop raises exactly when some roll line holds a value `int()` rejects, wherever it is |
| PlotHistory.ParseFailsIff | plot.py:120-122 | the parse fails if and only if some roll line holds a value `int()` rejects, and then the call returns the empty list |
| PlotHistory.ExtractAfterSave | plot.py:95-122 | the script reads a file the main program saved (with the final empty piece `split` gives) as every non-empty session, session i (0-based) numbered i + 1, when the name holds neither "Sessão" nor ':' |
| PlotHistory.NumberedRolls | plot.py:108-117 | the stored sessions without their numbers are the non-empty sessions of the history, in order |
| PlotHistory.NumberedAt | plot.py:108-117 | for a history without empty sessions, entry i is session i of the history, numbered i + 1 |
| PlotHistory.PyRollLineStep | plot.py:111-113 | a roll line as the main program writes it adds exactly its value to the session being read |
| PlotHistory.PySessionLineStep | plot.py:106-110 | a session line stores the current session if it is non-empty, empties it and increments the counter |
| PlotHistory.PyBlankLineStep | plot.py:105-113 | a blank line changes nothing |
| PlotHistory.PyRollLinesFeed | plot.py:111-113 | a session's roll lines add exactly its rolls, in order |
| PlotHistory.PySessionBlockFeed | plot.py:106-113 | one session's block stores what was read, increments the counter, and leaves exactly that session's rolls being read |
| PlotHistory.PySessionBlocksFeed | plot.py:105-113 | the blocks of all sessions never raise, add the number of sessions to the counter, and store every non-empty session under its number |
| PlotHistory.PyHeaderFeed | plot.py:105-113 | a header line holding neither "Sessão" nor ':', followed by the blank line, changes nothing |
| PlotHistory.PyFeedAppend | plot.py:105-113 | running the loop over two runs of lines is running it over the first and then over the second |
| PlotHistory.RollsOfAppend | plot.py:108-117 | the roll lists of two runs of entries joined are their roll lists joined |
| PlotHistory.PlainNameIgnored | main.cpp:261 | a name with no 'S' and no ':' gives a header line neither reader takes for a marker or a roll line |
| PlotHistory.RosterHeadersIgnored | main.cpp:336-342 | the header of every character's file (Nicolle, Jaeyk, Thorne, Riley, Imugi, Dean, Mestre) is ignored by both readers |
| ParserAgreement.LoadIgnoresFinalEmptyLine | main.cpp:228-249 | one more empty line at the end, the extra piece `split('\n')` gives, leaves the load unchanged |
| ParserAgreement.SavedFileReadAlike | plot.py:95-122 | for a file the serialiser wrote, with a name holding neither "Sessão" nor ':', the loader's sessions (from the `getline` lines) are the script's sessions without their numbers (from the `split('\n')` lines) |
| ParserAgreement.LongRollValueNotParsed | plot.py:112-122 | a roll line whose value has more than 4300 digits makes `int()` raise, so the script returns the empty list |
| ParserAgreement.ReadersAgree | plot.py:105-117 | when no roll line comes before the first marker and `stoi` and `int()` read every roll line alike, both readers succeed and the script's sessions without their numbers are the loader's |
| ParserAgreement.FeedsAgree | plot.py:105-113 | once a marker has been read, the two loops stay in step over lines both read alike |
| ParserAgreement.StepsAgree | plot.py:105-113 | on a line both read alike, one step of each keeps the two loops in step |
| ParserAgreement.FlushesAgree | plot.py:116-117 | loops in step store the same sessions at the end, numbers aside |
| ParserAgreement.PreambleIgnored | main.cpp:226-238 | lines before the first marker that are not roll lines change neither loop |
| ParserAgreement.RollBeforeMarkerDiffers | plot.py:111-113 | a roll line before any marker is ignored by the loader but stored by the script as session 0 |
| ParserAgreement.TrailingTextDiffers | plot.py:112 | for a roll line with words after the value past a space, `stoi` loads the value but `int()` raises and the script returns the empty list |
| ParserAgreement.TrailingTextLoaded | main.cpp:241 | `stoi` reads the leading number of a roll line with words after the value |
| ParserAgreement.TrailingTextNotParsed | plot.py:112 | the script returns the empty list for a roll line with words after the value |
| ParserAgreement.AnnotatedRollLineReadByStoi | main.cpp:238-241 | a roll line followed by such words is still a roll line, and `stoi` reads its value |
| ParserAgreement.AnnotatedRollLineRejectedByInt | plot.py:112 | on a roll line followed by such words, `int()` raises |
| ParserAgreement.IntRejectsAnnotatedValue | plot.py:112 | `int()` rejects a value followed by words past a space |
| ParserAgreement.PyIntRejectsInnerSpace | plot.py:112 | `int()` rejects text with a space inside it |
| ParserAgreement.EmptySessionSkipsNumber | plot.py:106-110 | a marker without rolls leaves no session in either reader, but the script's counter still advances, so the next session is numbered 2 |

## Left out

- The diagnostics printed when a file cannot be opened (`cerr` at main.cpp:257 and main.cpp:278) or when the script's parse raises (`print` at plot.py:121) are not modelled; they are console output only.
- Opening, reading and writing files, and the stream status checks. The history file is a sequence of lines. Splitting raw text into lines (`getline`, `split('\n')`) and the byte encoding of "Sessão" are not modelled.
- `calcularDesvioPadrao`, the variances and `sqrt` are not modelled: they are floating-point only. The means and percentages use exact real arithmetic, so `double` rounding is not modelled.
- `simularRolagens` is not modelled: it turns a clock seed into rolls with `mt19937`, which is foreign library code.
- The menu dispatch in `main`, the prompts, `criarBackupArquivos`, `limparTodosArquivos` and the directory helpers are not modelled; they are console and filesystem plumbing.
- The text of the statistics report written by `processar` is not modelled; `Process` returns its figures as a record.
- Folder discovery, the regular expressions that extract statistics, and all plotting in `plot.py` are not modelled.
- RollEntry.ReadRolls: the console is an abstract sequence of tokens, one per `cin >> valor`. An entry outside the `int` range, or one that is not a number, is a failed token; a number outside 1..20 is a token that is skipped. `cin.clear`/`cin.ignore` and the prompt counter are not modelled.
- Characters.Character.LoadHistory: a `stoi` exception ends the program. Here it is `ok == false`, with the sessions read so far in place.
- Characters.Character.LoadHistory: loading does not recompute `mediaTotal`, as in the source. It stays 0 until the first non-empty session is recorded, so no invariant ties the total mean to the history.
- Characters.Character.TotalRollCount: the addition into `int totalRolagens` is unbounded here. Its 32-bit overflow is not modelled.
- IntParsing.PyInt: `int()` is modelled only for ASCII digits. The non-ASCII decimal digits Python also accepts are not modelled. The 4300-digit limit is the default of `sys.int_max_str_digits`; a changed setting is not modelled, and Python versions without the limit would accept longer literals.

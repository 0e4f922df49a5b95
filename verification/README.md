# LubbDubb in Dafny

A model of the parts of LubbDubb whose logic is hardest to read off the code, with proofs of what those parts are for.
Each module states at its head which source file it models. Where the source changes state step by step, the model has
the class or the loop, proved against a function of the state before; the properties are then proved of that function,
over every input and, for the protocols, over every interleaving of events.

- **Line differ** (`Lcs`, `DiffLines`, `LineDiff`, `Hunks`, `Patch`): lines and their ends, trimming, the 16-bit
  table, the walk and the printed hunks. The script is a shortest one over the whole texts, and a printed patch reads
  back and applies to give the new text, under the code's own convention that an empty range still starts at the next
  line.
- **Config editor** (`Json*`, `ConfigTree`, `ConfigRender`, `ConfigFile`, `Config*`): JSON text as a concrete syntax
  tree that keeps every character (RFC 8259, sections 2 to 7), the scanners that find a value's end without parsing
  it, and the splicing of raw text. Editing the text edits the tree, and touches no other text; `ConfigLayout` has the
  form of what is written and left.
- **Discussion files** (`Discussion*`): fence-aware blocks, headings, cleaning, appending, naming, restating, and the
  pulling of tracker comments. What is written reads back; what is not rewritten reads as before. `DiscussionGrammar`
  and `DiscussionReading` say, character by character, what is read of a file.
- **Check lock** (`CheckLock`), **promise queue** (`SerialQueue`), **stage scheduler** (`CheckStages`) and **harness
  cycle** (`HarnessCycle`): transition systems over processes, promises, stages and requests.
- **Agents** (`AgentStream`, `AgentSession`, `StreamSession`, `AgentParks`, `AgentManager`, `AgentFleet`): one session
  over a stream of JSON lines, the parks of an agent that stopped, and the manager's exits, endings, resumes and reaps.
  `AgentTurns` and `AgentViews` say the same thing by thing: what ends a turn, and what each event changes.
- **Decisions** (`DispatchCooldown`, `CloseOut`, `Shortfall`, `IssueRelations`, `IssueOrigins`, `Delivery`,
  `AppErrorLink`, `AppErrorDecision`, `AppErrorReasons`, `AppErrorGroups`): procedures over logs, windows and graphs
  that may be cyclic.

`Options`, `Sequences`, `Space`, `Strings` and `Text` are shared. `dafny verify dfyconfig.toml` checks the whole project.

## Findings

Where a property the code is for turns out not to hold of every input, the code is modelled as it is. Each entry gives
an input that breaks the property and the exact condition under which it holds.

- **Setting beside a scalar** (`src/config/configFile.ts:97`). `{"a": 1}` with `a.b` set to 2 has the key `a` twice.
  `JSON.parse`, by which the program reads its config, keeps the last entry of a key and reads 2; the old 1 is
  shadowed, and the editor, which finds the first, finds nothing at `a.b`: clearing it leaves the 2
  (`ConfigRead.SetBesideScalar`). Setting `a.c` to 3 next writes a third `a` and covers the 2 (`TwoBesideScalar`).
  Keys stay unique, and the editor finds what it set, if and only if every object on the way is absent or an object
  (`ConfigTree.SetKeepsKeysUnique`, `GetSet`). What the program reads at other paths stays as it was if and only if
  the set covers none that was there (`ConfigRead.ReadSetApart`).
- **A key written twice** (`src/config/configFile.ts:93`). `{"a": 1, "a": 2}` with `a` set to 3 still reads 2
  (`ConfigRead.SetUnderDouble`). A set is read back if and only if it lands, that is, if no entry it writes over or
  into has another of its key after it, or if the value was there before; one that does not land changes nothing the
  program reads (`ReadSet`, `SetUnread`). A clear clears what the program reads if no key on its way is doubled, and
  otherwise changes nothing the program reads (`ClearReads`). In text with no key doubled, whose sets stay among
  objects, every edit does exactly what it says (`ConfigEditor.EditReads`, `UniqueClears`, `UniqueChanges`).
- **A heading behind a carriage return** (`src/discussions/parse.ts:245-262`). The cleaner takes a body line `## x`
  that ends in two carriage returns and a newline for plain text, and the reader takes it for a heading. Cleaned lines
  start no entry if and only if no line hides one so (`DiscussionAppend.CleanedShape`); an appended block is one entry
  if and only if the body hides none (or the file has `\r\n` lines), the file leaves no fence open, its last line is
  ended where it is blank, and the body closes no front matter left open (`DiscussionRoundTrip.AppendIsOneBlock`).
- **A torn end** (`src/discussions/parse.ts:268-274`). A `\r\n` file that ends in a lone `\r` has one carriage return
  more at its last line once anything is appended. A heading there, outside every fence, is lost, and so is the answer
  of a last question whose answer line it is (`DiscussionRoundTrip.TornExamples`). The old entries are read back if
  and only if the last line starts none of them and no answer is read from it, unless there is nothing but `Answer:`
  on it (`AppendReadsBack`, `DiscussionTorn.KeptFile`, `FileTorn`).
- **Restating** (`src/discussions/parse.ts:294-316`). Added text that starts an entry after the fence the body leaves
  becomes entries of its own; the restated file reads as it should if and only if it does not, and otherwise has more
  entries than before (`DiscussionRestate.RestateReads`, `FitsClosed`). Text with a `---` line, added to a file that
  leaves front matter open, takes the entry into the front matter (`RestateTaken`).
- **A lost answer** (`src/discussions/parse.ts:115-126` against 74-92). A question whose body is the lines ` ``` `,
  `~~~` and ` ``` ` is closed for the block reader and open for the answer reader, and loses its answer
  (`DiscussionRestate.AnswerLost`). An answer is read back if and only if fence lines pair up above it, and the file
  reads as it should if and only if they do and the added text fits (`AnswerReadsBack`, `AnswerRestated`).
- **Late comments** (`src/discussions/pullDesk.ts:111`). A comment dated like the newest one pulled is lost
  (`DiscussionPulls.TieIsLost`), and so is one posted under an answer that has a later one (`OvertakenIsLost`). A
  posted comment is taken if and only if it is later than the cursor at its post and no answer then on its way, and
  later written, has a comment dated as late or later (`ExactlyOnce`).
- **Failed and killed sessions** (`src/agents/streamJsonSession.ts:181`, 187 and 209-218). Only `done` is absorbing. A
  failed session leaves its status if and only if a last result comes that does not say done and no limit is parked
  on; a killed one if and only if a result says done or is the last with no limit spent (`AgentSession.FailedRevives`,
  `KilledRevives`). So a killed session can still declare a usage limit (`KilledDeclares`).
- **Stray limits** (`src/agents/agentManager.ts:157-186` and 256-277). A limit declared after a kill lets a second
  kill reap the agent while its process runs (`AgentManager.StrayLimit`). A declared limit is followed by an event
  that breaks the reaping rule if and only if no session is registered then and the agent was ended or its process
  still runs (`StrayIffBreaks`).
- **A resume that does not launch** (`src/agents/agentManager.ts:437-457`). The exit mark is dropped before the launch
  and not put back when it fails, so a crashed agent is reaped if and only if it is not answered by resuming
  (`AgentManager.CrashReaped`, `NeverReaped`), against the rule that an ending and an exit together are reaped.
- **A long span** (`src/appErrors/groups.ts:70`). A row whose sightings span more than fourteen days leaves its last
  days with no count: the last sighting's day is counted if and only if at most fourteen days lie between
  (`AppErrorGroups.SpreadReaches`). A row no newer than its read always meets that (`ReadReaches`).
- **Leading zeros** (`src/issueOrigins.ts:108-124`). `issue:007` parses and is printed `issue:7`: a reference that
  parses is the one printed for it if and only if its number, up to 2^53 - 1, has no leading zero
  (`IssueOrigins.RefParse`).

## Model

| member | source | states |
|---|---|---|
| Lcs.UpperBound | src/botPrs/lineDiff.ts:46-52 | No common subsequence of two line lists is longer than the number the table's recurrence gives. |
| Lcs.Attained | src/botPrs/lineDiff.ts:46-52 | Some common subsequence is exactly that long, so the number is the length of a longest one. |
| LineDiff.FillTable | src/botPrs/lineDiff.ts:45-52 | Filled backwards in one flat array of 16-bit cells, every cell holds the longest common subsequence of its two suffixes; no write overflows 16 bits or the array. |
| LineDiff.DiffOps | src/botPrs/lineDiff.ts:44-69 | The walk over the table yields the edit script, and counts as many additions and deletions as each side has lines outside a longest common subsequence. |
| LineDiff.ScriptOfLines | src/botPrs/lineDiff.ts:57-69 | The script reads as the old lines one way and as the new lines the other, with exactly the counted deletions and additions. |
| LineDiff.NoShorterScript | src/botPrs/lineDiff.ts:44-69 | Any script whatever between two texts changes at least as many lines as both have together less twice a longest common subsequence, so the differ's is shortest. |
| LineDiff.HeadLength | src/botPrs/lineDiff.ts:22-23 | The counted head is the longest common beginning. |
| LineDiff.TailLength | src/botPrs/lineDiff.ts:24-26 | The counted tail is the longest common ending of what the head leaves. |
| LineDiff.TrimKeepsOptimum | src/botPrs/lineDiff.ts:20-32 | Cutting the common head and tail off costs nothing: the longest common subsequence of the whole is head, tail and the middle's. |
| LineDiff.WholeScriptOptimal | src/botPrs/lineDiff.ts:19-35 | With head and tail put back the script still spans both texts and changes as few lines as any over the whole of them. |
| LineDiff.DeletionsFirst | src/botPrs/lineDiff.ts:56-67 | In the script no insertion is directly followed by a deletion: each changed stretch shows all its deletions first. |
| LineDiff.LineDiff | src/botPrs/lineDiff.ts:19-35 | The whole differ: a middle past the size limit gives no patch and no counts; otherwise the counts are the script's, and there is a patch exactly when something changed, printing the script. All of it is of the lines the two files hold, whatever ends they have; of files without carriage returns no patch is reported, within the limit, exactly when they agree up to one final newline. |
| LineDiff.TooLongSays | src/botPrs/lineDiff.ts:22-29 | The differ gives up exactly when more than 2000 lines of either text lie between their longest common beginning and the longest common ending of the rest. |
| LineDiff.ChangedIffDifferent | src/botPrs/lineDiff.ts:33-34 | There are changes exactly when the line lists differ. |
| LineDiff.PatchRoundTrip | src/botPrs/lineDiff.ts:71-100 | Reading the printed patch back and applying its hunks to the old lines gives the new lines. |
| LineDiff.PatchOfFiles | src/botPrs/lineDiff.ts:37-42 | The patch of two files that hold given lines, ended by `\n`, by `\r\n` or mixed, with or without a last end, reads back and applied to the one's lines gives the other's. |
| DiffLines.LinesOf | src/botPrs/lineDiff.ts:37-42 | A file of some lines, the last not empty or ended, with ends of either kind, is taken for exactly those lines. |
| DiffLines.SameLines | src/botPrs/lineDiff.ts:37-42 | Without carriage returns two texts are taken for the same lines exactly when they agree up to one final newline. |
| Hunks.MarkNear | src/botPrs/lineDiff.ts:72-76 | The `keep` array marks exactly the ops within three of a change. |
| Hunks.HunkLines | src/botPrs/lineDiff.ts:81-100 | Under running old and new line numbers, the printed text is the hunks of the marked runs, each header with its own start and counts. |
| Hunks.EveryChangeOnce | src/botPrs/lineDiff.ts:71-100 | The hunks show exactly the ops within three lines of a change, each in one hunk, with an op neither shows between two hunks. |
| Patch.HunksParsed | src/botPrs/lineDiff.ts:84-98 | Printed hunks parse back to the hunks, whatever text the lines hold: every header's counts match its body. |
| Patch.HunksApplied | src/botPrs/lineDiff.ts:81-100 | Applied to the old side, with the printer's own numbering, the hunks of a script give its new side. |
| JsonRoundTrip.ParsePrint | src/config/configFile.ts:180 | The grammar of RFC 8259 (sections 2 to 7), every character kept: parsing a printed document gives the document back. |
| JsonRoundTrip.PrintParse | src/config/configFile.ts:180 | Printing what was parsed gives the text back, character for character. |
| JsonGrammar.ScalarSays | src/config/configFile.ts:180 | What stands by itself is `true`, `false`, `null` or a number: a minus or none, digits with no leading zero, a fraction or none, an exponent or none. |
| JsonGrammar.DecodeSays | src/config/configFile.ts:180 | A string's contents stand for the code units of its pieces in order: characters themselves, the eight escapes, and four hexadecimal digits. |
| JsonGrammar.DecodeOnly | src/config/configFile.ts:180 | Contents that decode are made of such pieces. |
| JsonScan.ScanStringLoop | src/config/configFile.ts:24-35 | Stepping over escapes, the scanner stops after the quote that closes the string (section 7 of RFC 8259), or never finds one. |
| JsonScan.ScanValueLoop | src/config/configFile.ts:37-61 | The scanner's index loop finds the offset the character-level definition names, bracket counting and strings included. |
| JsonScan.MembersOfLoop | src/config/configFile.ts:63-80 | The member loop finds the spans the definition names, in order. |
| JsonSpans.ValueScanned | src/config/configFile.ts:37-61 | On a printed value the scanner stops exactly at the value's end, though it counts only one kind of bracket. |
| JsonSpans.ObjectScanned | src/config/configFile.ts:63-80 | The members found in an object are the object's own: their keys, and where each key and value starts and ends. |
| ConfigTree.GetSet | src/config/configFile.ts:88-132 | The editor, looking for the first entry of a key, finds what it set exactly when every object on the way was absent or an object, and nothing otherwise. |
| ConfigTree.GetSetApart | src/config/configFile.ts:88-132 | Where the way is open, the editor finds at every path apart from the one set what it found before. |
| ConfigTree.SetKeepsKeysUnique | src/config/configFile.ts:88-102 | Setting keeps keys unique exactly when every object on the way is absent or an object. |
| ConfigRead.ReadsAlike | src/config/config.ts:446-449 | Where no key on the way is doubled, what the editor finds at a path is what `JSON.parse` lets the program read there. |
| ConfigRead.ReadSet | src/config/configFile.ts:170-179 | What the program reads at a path after it is set: the value set if the set lands, and otherwise what it read before. |
| ConfigRead.SetUnread | src/config/configFile.ts:170-179 | A set that does not land changes nothing the program reads, at any path. |
| ConfigRead.SetPuts | src/config/configFile.ts:170-179 | Where no key on the way is doubled, the program reads the same value with exactly the one path put, scalars on the way made objects. |
| ConfigRead.ReadSetApart | src/config/configFile.ts:88-132 | What the program reads at a path apart from the one set is as it was, unless the set covers it, and then nothing. |
| ConfigRead.ClearReads | src/config/configFile.ts:159-169 | Clearing takes a path, and the objects it leaves empty, from what the program reads where no key on the way is doubled, and otherwise changes nothing the program reads. |
| ConfigRead.WithoutMeans | src/config/configFile.ts:159-169 | What is read without a path: nothing there, and every path apart from it as before. |
| ConfigRead.SetBesideScalar | src/config/configFile.ts:97 | `{"a": 1}` with `a.b` set to 2 has the key `a` twice; the program reads 2 and no longer 1, the editor finds nothing at `a.b`, and clearing it changes nothing. |
| ConfigRead.TwoBesideScalar | src/config/configFile.ts:97 | `{"a": 1}` with `a.b` set and then `a.c`: the program reads the second and nothing at the first. |
| ConfigRead.SetUnderDouble | src/config/configFile.ts:93 | `{"a": 1, "a": 2}` with `a` set to 3 is open, and the program still reads 2. |
| ConfigTree.ClearMeans | src/config/configFile.ts:159-169 | Clearing takes the value away, leaves every path apart from it as it read, and keeps keys unique. |
| ConfigTree.ClearLeavesNoEmptyAncestor | src/config/configFile.ts:163-168 | Where there was a value to clear, no ancestor on its path is left an empty object. |
| ConfigRender.DecodeEncode | src/config/configFile.ts:110-113 | A key or string written with its escapes reads back as the one written. |
| ConfigRender.RenderIsLayout | src/config/configFile.ts:110-113 | A rendered value is well-formed JSON at the new indentation that means the value. |
| ConfigFile.LocateLoop | src/config/configFile.ts:88-102 | The walk down a path ends at the value's member, or at the object that lacks the next key, with the keys missing from there. |
| ConfigFile.RemoveMemberLoop | src/config/configFile.ts:135-155 | The two whitespace scans cut what the definition cuts: to the next key's line, from the comma before, or from the line's start. |
| ConfigFile.NestLoop | src/config/configFile.ts:115-119 | The missing keys are wrapped round the value, innermost last. |
| ConfigFile.ClearLoop | src/config/configFile.ts:159-169 | The clearing loop removes the member and then each ancestor left `{}`. |
| ConfigFile.SetLoop | src/config/configFile.ts:170-179 | One setting writes over the value the path leads to, or into the object the path stops in. |
| ConfigFile.EditConfigText | src/config/configFile.ts:157-182 | The whole editor: the clears first, then the sets, or a refusal where there is no object to edit. |
| ConfigInsert.Inserted | src/config/configFile.ts:121-133 | The spliced member is the object's new last entry; nothing outside the object changes. |
| ConfigClear.RemoveOwn | src/config/configFile.ts:135-155 | Whichever comma goes, the text left holds the object without that member, its other members as they were. |
| ConfigFind.FoundObject | src/config/configFile.ts:88-102 | Looking a path up in text finds the value at the path in the tree, or the object the path stops in. |
| ConfigEditor.SetTextMeans | src/config/configFile.ts:170-179 | Setting a path in any text that holds an object gives text whose entries are the object's with the path set, doubled keys and all. |
| ConfigEditor.SetTouchesOnly | src/config/configFile.ts:170-179 | Setting exchanges exactly the text of the value at the path or, where there is none, writes into one run of whitespace; all other text stays. |
| ConfigEditor.ClearTextMeans | src/config/configFile.ts:159-169 | Clearing a path in text gives text whose entries are the object's with the path cleared, emptied ancestors gone innermost first. |
| ConfigEditor.EmptyIff | src/config/configFile.ts:166 | The text taken for an emptied object is an empty object's and no other's. |
| ConfigEditor.EditMeans | src/config/configFile.ts:157-182 | On text that holds an object every list of clears and sets succeeds, and the entries of the result are the object's with all of them made in turn. |
| ConfigEditor.SetTextReads | src/config/configFile.ts:170-180 | What `JSON.parse` reads of the text after a set: the value set at the path exactly when the set lands or it was read before, and nothing else changed where no key on the way is doubled. |
| ConfigEditor.ClearTextReads | src/config/configFile.ts:159-169 | What `JSON.parse` reads of the text after a clear: the value without the path where no key on the way is doubled, and the same value otherwise. |
| ConfigEditor.EditReads | src/config/configFile.ts:157-182 | Where no path of an edit meets a doubled key at its turn, `JSON.parse` reads from the new text the old value with exactly the edits made. |
| ConfigEditor.UniqueClears | src/config/configFile.ts:159-169 | In an object with no key doubled, clears meet none and leave none. |
| ConfigEditor.UniqueChanges | src/config/configFile.ts:170-179 | In an object with no key doubled, sets meet none if each stays among objects. |
| ConfigEditor.EditRefused | src/config/configFile.ts:82-86 | Text that parses, by the whole grammar of RFC 8259, to something other than an object is refused, unless there is nothing to edit. |
| ConfigLayout.RenderSays | src/config/configFile.ts:110-113 | A value is written as `JSON.stringify` writes it with two blanks, by a definition on text alone, every line but the first set in further. |
| ConfigLayout.IndentSays | src/config/configFile.ts:104-108 | A new line is set in by the whitespace its neighbour stands after, if that is all there is before it on its line, and otherwise by nothing or, beside a member, by two blanks. |
| ConfigLayout.AddedAfter | src/config/configFile.ts:129-132 | A new member follows the last one on a line of its own, set in like that one, with a comma between and nothing else changed. |
| ConfigLayout.AddedFirst | src/config/configFile.ts:124-128 | In an empty object it stands on a line of its own, two blanks further in than the object, whose brace closes on the next line. |
| ConfigLayout.CommaRemoved | src/config/configFile.ts:135-146 | A member with a comma after it goes with the comma, the blanks and line end behind that, and the blanks before it on its line: a member on its own line goes with exactly its line. |
| ConfigLayout.LastRemoved | src/config/configFile.ts:147-149 | The last of several members goes with the comma before it and the whitespace between. |
| ConfigLayout.OnlyRemoved | src/config/configFile.ts:150-154 | The only member goes with the blanks before it on its line, and nothing else. |
| DiscussionText.BlocksLoop | src/discussions/parse.ts:74-92 | The loop with its fence state finds the blocks the definition names, with their first and last line. |
| DiscussionText.BlocksRead | src/discussions/parse.ts:74-92 | Reading block by block, by line number, is reading the entries one after the other. |
| DiscussionText.SplitAnswerLoop | src/discussions/parse.ts:115-126 | The answer is cut off at the first `Answer:` line that the loop's own fence toggle leaves outside. |
| DiscussionText.ParseDiscussion | src/discussions/parse.ts:194-197 | A file's entries, read through the loops above, are the ones the definition names. |
| DiscussionGrammar.HeadingSays | src/discussions/parse.ts:26 | A line is a heading that says a text exactly when it is two hashes, one blank or more and that text, which no line terminator breaks; or two hashes alone. |
| DiscussionGrammar.FenceSays | src/discussions/parse.ts:29 | A line is a fence of a character exactly when only whitespace is before three of it, and it is a backtick or a tilde. |
| DiscussionGrammar.AnswerSays | src/discussions/parse.ts:30 | A line answers with a text exactly when it is `Answer:`, whitespace and that text, unbroken. |
| DiscussionGrammar.DateSays | src/discussions/parse.ts:28 | A date is four, two and two digits with hyphens between. |
| DiscussionGrammar.IdSays | src/discussions/parse.ts:27 | An id is letters, digits and hyphens, at least one. |
| DiscussionGrammar.StatesSay | src/discussions/parse.ts:11-16 | Which states an entry of each kind may be in. |
| DiscussionReading.HeadingParses | src/discussions/parse.ts:94-113 | Of any text: a heading is read from it exactly if, its trailing id aside, it is three or four pieces between middle dots that say a kind in letters of either case, a state of that kind or none, a date and an author; where no state is said an idea or a question is open. |
| DiscussionReading.IdSaid | src/discussions/parse.ts:94-101 | The id read is the one the text ends in after a caret and whitespace or nothing, and the rest is what is before it; if it ends in none there is none. |
| DiscussionReading.SupersededFirst | src/discussions/parse.ts:150 | The first mention of `Supersedes`, whitespace, a caret and a whole id is the first id superseded, and what follows it has the rest. |
| DiscussionReading.NothingSuperseded | src/discussions/parse.ts:150 | Without a mention nothing is superseded. |
| DiscussionReading.OpenSays | src/discussions/parse.ts:74-92 | A fence is open exactly when a line outside every fence opened it and no line of its character came since. |
| DiscussionReading.FrontSays | src/discussions/parse.ts:58-72 | Front matter is read exactly from a first line of three hyphens up to the first later one of three hyphens or three dots. |
| DiscussionReading.BlocksSay | src/discussions/parse.ts:74-92 | The blocks are one from every line that is a heading outside every fence, each up to the next or the end. |
| DiscussionReading.AnswerFirst | src/discussions/parse.ts:115-126 | A question's answer is read from the first `Answer:` line with an even number of fence lines up to it. |
| DiscussionReading.EntrySays | src/discussions/parse.ts:128-152 | What an entry says besides: its heading's text, its body up to the answer, trimmed, the answer of a question alone, and of a decision what it supersedes. |
| DiscussionLines.EntryAmong | src/discussions/parse.ts:74-92 | Lines that make one entry read as that entry among any others, which read as they did. |
| DiscussionWrite.CleanBodyLoop | src/discussions/parse.ts:245-262 | The cleaning loop with its fence state writes the definition's lines, of which `DiscussionBody.BodyKept` says that they are the body's. |
| DiscussionBody.BodyKept | src/discussions/parse.ts:245-262 | Whatever the body, the cleaned one is its trimmed text with `\r\n` made `\n`, line for line, a backslash before exactly the headings outside its fences, and one closing line more exactly where a fence is left open. |
| DiscussionBody.PlainReadsBack | src/discussions/parse.ts:264-274 | A body with no carriage return, nothing to trim, no heading outside fences and no fence left open, appended to a file that leaves nothing open, is itself the body of the entry read back; in a question, one without an `Answer:` line. |
| DiscussionBody.PlainRestated | src/discussions/parse.ts:294-316 | Restated with such a text that fits, an entry that is no question has its own body, whitespace and that very text for its body, the new state, and every other entry is as it was. |
| DiscussionWrite.CleanAuthorGood | src/discussions/parse.ts:238-243 | A cleaned author is empty or one a heading can hold: no separator, caret or line end is left in it. |
| DiscussionReading.AuthorSays | src/discussions/parse.ts:238-243 | A cleaned author is the author's words, whole and in order, with one blank for every run of whitespace, dots, carets and line ends between two, and none around. |
| DiscussionReading.NoAuthor | src/discussions/parse.ts:238-243 | An author with no word in it is cleaned to nothing. |
| DiscussionWrite.HeadingRead | src/discussions/parse.ts:94-113 | A heading that was written parses back to its kind, state, date, author and id. |
| DiscussionWrite.EntryRead | src/discussions/parse.ts:128-152 | A written heading's line starts an entry, and the entry says exactly what was written. |
| DiscussionWrite.EndsKept | src/discussions/parse.ts:268-274 | Appending keeps a file's line ends: a file without carriage returns gets none, and one whose every line ends in `\r\n` still has only those. |
| DiscussionAppend.CleanedShape | src/discussions/parse.ts:245-262 | Whatever the body, its cleaned lines start no entry and leave no fence open; read without carriage returns, exactly when none hides a heading. |
| DiscussionRoundTrip.AppendReadsBack | src/discussions/parse.ts:264-274 | An entry appended to a file that is ready for it parses back last, saying what it was given over the lines `DiscussionBody.BodyKept` speaks of, whatever headings or unclosed fences its body has; the entries before it are the old ones exactly when the file has no torn last line or that line is kept. |
| DiscussionRoundTrip.AppendIsOneBlock | src/discussions/parse.ts:264-274 | In any file the appended block is one entry of its own exactly when the file ends its lines and fences and the body hides no heading and closes no front matter. |
| DiscussionRoundTrip.WrittenBody | src/discussions/parse.ts:245-262 | With no stray carriage returns and, in a question, no `Answer:` line, the entry read back has the cleaned body (the body kept, by `DiscussionBody.BodyKept`), whole, and no answer. |
| DiscussionTorn.EntriesTorn | src/discussions/parse.ts:268-274 | With a carriage return more at the end of the last line, lines read as the same entries exactly when that line starts none, under its fence, and is not the line a question's answer is read from (or has only `Answer:` on it). |
| DiscussionTorn.FileTorn | src/discussions/parse.ts:268-274 | The same of a whole file after its front matter; the fence and the front matter left open are the same either way. |
| DiscussionRoundTrip.TornExamples | src/discussions/parse.ts:268-274 | A torn heading and a torn answer are lost; a torn heading inside a fence is not one to lose. |
| DiscussionIds.WithMissingIdsLoop | src/discussions/parse.ts:280-292 | The loop over the blocks rewrites the heading lines the definition rewrites. |
| DiscussionIds.NamedEntry | src/discussions/parse.ts:283-290 | Naming a readable entry gives it the id and changes nothing else it says. |
| DiscussionIds.NamingReads | src/discussions/parse.ts:280-292 | Every readable entry without an id gets one, in order; no other entry, and nothing else of any entry, changes. |
| DiscussionIds.NamingOnce | src/discussions/parse.ts:280-292 | Naming again, with any ids, changes no character. |
| DiscussionEnds.NamingKeepsEnds | src/discussions/parse.ts:283-290 | Naming keeps a file's line ends: one whose every line ends in `\r\n` stays so, and one without carriage returns gets none. |
| DiscussionRestate.RestateLoop | src/discussions/parse.ts:294-316 | The loop and the splice rewrite the lines the definition rewrites, or refuse. |
| DiscussionRestate.RestateReads | src/discussions/parse.ts:294-316 | With `p` the entry's own lines in the file: restating gives the first entry with the id its new state and the added text and leaves every other entry as it was exactly when the added lines start no entry below the entry's body, after the fence it leaves, and otherwise there are more entries; all for text that does not close front matter the file left open. |
| DiscussionRestate.FitsClosed | src/discussions/parse.ts:300-316 | Where the body leaves no fence open, added text fits exactly when the heading line ends in a carriage return or the text hides no heading behind one. |
| DiscussionRestate.RestateTaken | src/discussions/parse.ts:58-72 | Added text with a line that closes front matter the file left open makes the restated heading part of the front matter. |
| DiscussionRestate.SameBody | src/discussions/parse.ts:294-316 | The rewritten heading gives the entry its new state and leaves all else it says. |
| DiscussionRestate.AnswerReadsBack | src/discussions/parse.ts:115-126 | An answer added to a question's lines without one is read back exactly when fence lines pair up above it. |
| DiscussionRestate.AnswerRestated | src/discussions/parse.ts:294-316 | Restating a file's unanswered question with an `Answer:` line gives it that answer, its body and every other entry as they were, exactly when the added lines fit and fence lines pair up in the question's own. |
| DiscussionRestate.AnswerLost | src/discussions/parse.ts:115-126 | A question that shows a tilde fence inside a closed backtick fence loses its answer. |
| DiscussionRestate.BelowBody | src/discussions/parse.ts:300-316 | Text added below any other body is the end of the body read back, with only whitespace between. |
| DiscussionEnds.RestatingKeepsEnds | src/discussions/parse.ts:300-316 | So does restating, with added text that has no carriage return of its own. |
| DiscussionPulls.Fold | src/discussions/pullDesk.ts:100-119 | The fold takes every listed comment that is not the harness's own, oldest first, and moves the cursor to the newest of all of them. |
| DiscussionPulls.NeverTwice | src/discussions/pullDesk.ts:69-119 | In every run of posts, pulls, failures and writes no comment is in the file twice, each is the tracker's, and they are oldest first. |
| DiscussionPulls.PullTakes | src/discussions/pullDesk.ts:77-119 | A pull that lists and writes takes a comment exactly when it is later than the cursor, and notes it exactly when it is not the harness's own. |
| DiscussionPulls.OursAre | src/discussions/pullDesk.ts:100-105 | In every run, what is taken for the harness's own is exactly the comments recorded as sent and the one published last. |
| DiscussionPulls.ExactlyOnce | src/discussions/pullDesk.ts:77-119 | A posted comment is taken by the first pull that lists after it and is written, and once, exactly when at its post it was later than the cursor and no answer then on its way, and later written, had a comment dated as late; otherwise never. |
| DiscussionPulls.OutOfReach | src/discussions/pullDesk.ts:111 | The lost half: a comment out of reach at its post is not taken by any later step of any run. |
| DiscussionPulls.TakenByPull | src/discussions/pullDesk.ts:85-119 | The taken half: a comment in reach has been taken once a pull has listed after it and been written, whatever failed in between. |
| DiscussionPulls.TieIsLost | src/discussions/pullDesk.ts:111 | Two comments of one instant, the first pulled before the second is posted: the second is lost. |
| DiscussionPulls.OvertakenIsLost | src/discussions/pullDesk.ts:85-111 | A comment posted while an answer with a later one is on its way is lost when the answer is written. |
| DiscussionPulls.PullDesk.StartPull | src/discussions/pullDesk.ts:69-83 | A second pull of an issue shares the run in flight; one without a file is refused; a started one marks the time. |
| DiscussionPulls.PullDesk.Finish | src/discussions/pullDesk.ts:97-119 | The file gets the new notes and the new cursor in one write or neither, and the run is no longer in flight. |
| CheckLock.AtMostOneHolds | scripts/checkLock.ts:75-153 | In every state of every run of any number of processes at most one live process younger than the maximum age holds the lock, and the file is its own. |
| CheckLock.RemovesOnlyJudged | scripts/checkLock.ts:96-105 | Whatever takes the lock file away, it is the one judged: a release its own, a clear one that no live young process holds. Which files a clear does take is `ClearedDead`. |
| CheckLock.AnnouncedOnce | scripts/checkLock.ts:109-134 | A process says it is waiting at most once, however often it tries; `JudgedDead` has when it does. |
| CheckLock.JudgedDead | scripts/checkLock.ts:114-132 | A process goes on to clear the file it saw exactly when that names a holder past the maximum age or one that does not answer, or names none and is past its grace; else it tries again, and says it waits exactly for a named one, once. |
| CheckLock.ClearedDead | scripts/checkLock.ts:96-132 | In every run, a clear follows the process's own verdict that the file it saw was dead, so a young holder that answered then is not cleared; and the clear removes the file exactly if it is unchanged. |
| CheckLock.TakenOver | scripts/checkLock.ts:75-134 | From any state a dead lock is taken over: left to itself a process misses it, reads and judges it, clears it, and has then a lock of its own. |
| CheckLock.CanGoOn | scripts/checkLock.ts:109-153 | Wherever a live process stands, its next step is open to it, until it has released. |
| CheckLock.Disk.Link | scripts/checkLock.ts:75-94 | Linking the staged file succeeds only where there is none, and then the file is the staged one. |
| CheckLock.Lock.Release | scripts/checkLock.ts:136-153 | A lock is released once, and takes away only the file it was acquired with. |
| CheckStages.Scheduler.Fill | scripts/check.ts:60-76 | Starting stages keeps the load equal to the weights in flight, over the budget only for one stage alone, and leaves something in flight if anything is left to run. |
| CheckStages.Scheduler.RunAll | scripts/check.ts:54-79 | Every stage is started exactly once, heaviest first, and has exactly one result; the race never waits on nothing. |
| SerialQueue.OneAtATime | src/git/serialQueue.ts:5-15 | In every run, a work that has started finds every earlier one of its key settled: one at a time, in call order, whatever failed. |
| SerialQueue.AbsentMeansIdle | src/git/serialQueue.ts:5-15 | A key the map lacks has nothing outstanding, so a work submitted for it may start at once. |
| SerialQueue.FirstCanGoOn | src/git/serialQueue.ts:5-15 | However the earlier works ended, the first unsettled one of a key can start or settle. |
| SerialQueue.Queues.RunSerial | src/git/serialQueue.ts:5-8 | Submitting chains on the key's last promise and becomes the key's last. |
| SerialQueue.Queues.AfterSettled | src/git/serialQueue.ts:9-13 | Cleanup removes the key only while the settled promise is still its last. |
| DispatchCooldown.DispatchVerdictLoop | src/dispatcher/dispatchCooldown.ts:22-51 | The loop over the window, newest first, gives the verdict defined by counting attempts, the last attempt and the escalations since. |
| DispatchCooldown.VerdictSays | src/dispatcher/dispatchCooldown.ts:22-51 | Below the cap an origin is dispatched exactly when no attempt was made within the cooldown, and held off otherwise; at the cap it is escalated, with the count, exactly when the window has no executed escalation, and held otherwise. |
| DispatchCooldown.WindowCapped | src/dispatcher/dispatchCooldown.ts:22-51 | Where every decision follows its verdict over the last `W`, any `W` consecutive decisions hold at most `maxAttempts` attempts for an origin. |
| DispatchCooldown.AttemptsApart | src/dispatcher/dispatchCooldown.ts:22-51 | Two attempts for an origin within a window are at least the cooldown apart. |
| DispatchCooldown.EscalationsApart | src/dispatcher/dispatchCooldown.ts:22-51 | Between two cap escalations for an origin there are at least `maxAttempts` attempts. |
| IssueRelations.WatchCascadeTargets | src/issueRelations.ts:58-85 | On any mirror, cyclic or not, the queue ends with exactly what the root reaches through held issues, the root first and nothing twice; an issue that is no container yields itself. |
| IssueRelations.CascadeToChildren | src/issueRelations.ts:99-117 | The set returned is exactly what the numbers cover. |
| IssueRelations.CoversUnion | src/issueRelations.ts:99-117 | Cascading a union is the union of the cascades. |
| IssueRelations.CascadeOnce | src/issueRelations.ts:99-117 | Cascading what has been cascaded adds nothing. |
| Shortfall.FollowupSlot | src/delivery/shortfall.ts:77-98 | The counting search ends within one more candidate than there are parts, at the first slug that is free or not started, and says rightly whether a part has it. |
| Shortfall.CandidateSays | src/delivery/shortfall.ts:78-97 | The candidates are the slug with one `-followup` at its end, and then that with `-2`, `-3` and on. |
| Shortfall.TakenFit | src/delivery/shortfall.ts:80-97 | Candidates that are all taken are no more than there are parts. |
| Shortfall.BaseStable | src/delivery/shortfall.ts:78 | A follow-up of a follow-up searches under the first part's own slug. |
| IssueOrigins.ParseRef | src/issueOrigins.ts:93-124 | A printed reference parses to the origin it was printed for, in every family. |
| IssueOrigins.RefParse | src/issueOrigins.ts:108-124 | What parses is valid and, its number at most 2^53 - 1, is the reference printed for it exactly when that number has no leading zero. |
| IssueOrigins.RoleRead | src/issueOrigins.ts:162-174 | The role judged on the suffix is the parsed family's under the issue's own number, and none under any other. |
| IssueOrigins.RoleLenient | src/issueOrigins.ts:162-174 | The role is judged on the suffix alone: any id at all after a suffix that takes one, even one that does not parse, has the family's role. |
| IssueOrigins.IdsSay | src/issueOrigins.ts:35-60 | Which ids each family carries, by their characters. |
| IssueOrigins.RolesSay | src/issueOrigins.ts:35-60 | Which families are work, evidence, deliberation, and unrecognised. |
| CloseOut.CloseOutPassLoop | src/delivery/closeOut.ts:27-51 | The loop yields the steps of the definition: one per delivery that calls for one, then the declines. |
| CloseOut.DeclineUndeliveredLoop | src/delivery/closeOut.ts:110-121 | The loop declines exactly the open rows whose goal has no delivery any more. |
| CloseOut.ReopensOnlyItsOwn | src/delivery/closeOut.ts:53-90 | A row is reopened only if the desk itself settled it, its goal is delivered and no shortfall stands. |
| CloseOut.OneStepEach | src/delivery/closeOut.ts:27-51 | No row gets two steps in a pass. |
| CloseOut.DeskRests | src/delivery/closeOut.ts:27-121 | After a pass is applied every row is as the world asks: nothing is left to settle or reopen. |
| CloseOut.OpenAfter | src/delivery/closeOut.ts:53-97 | After a pass, a delivered goal has an open row exactly when its issue is listed open and it had one, or may have one and had none or one the desk settled itself; where no issues are listed, when it had one; and it says what there is to say now. |
| CloseOut.DroppedAfter | src/delivery/closeOut.ts:110-121 | A row of no delivered goal is declined, saying why, exactly if it was open for a goal, and is otherwise as it was. |
| CloseOut.IssueAtLast | src/delivery/closeOut.ts:27-31 | A goal's issue is the last one listed under its reference. |
| CloseOut.RunsOnce | src/delivery/closeOut.ts:27-121 | Run again on the same world, the desk settles nothing, reopens nothing and changes no row. |
| Delivery.DeliverySignalQuery | src/delivery/delivery.ts:50-61 | The query asks for each delivered goal once, from the earliest of their verdicts, and there is none exactly when no delivery is a goal's. |
| Delivery.HeldSays | src/delivery/delivery.ts:21-48 | A goal is held exactly when it is delivered, not back in a pick-up state, and nothing happened to its item after the verdict was last cast. |
| Delivery.NarrowedHolds | src/delivery/delivery.ts:21-48 | The events the query is answered with decide every hold as the whole log would. |
| Delivery.NoNarrower | src/delivery/delivery.ts:50-61 | A later bound or a missing reference gets some hold wrong on some log. |
| AppErrorLink.DeployWindow | src/appErrors/link.ts:115-136 | The loop over the landings gives the window that places each of them by the clone's verdicts. |
| AppErrorLink.ArrivalWindow | src/appErrors/link.ts:142-170 | The loop gives the window that places each landing by the reach probe's readings. |
| AppErrorLink.KnownWhen | src/appErrors/link.ts:115-170 | A window is decided exactly when every landing can be placed. |
| AppErrorLink.WindowHolds | src/appErrors/link.ts:122-135 | A decided window's goals are distinct and hold exactly the commits of the landings in it. |
| AppErrorLink.DeploySays | src/appErrors/link.ts:98-136 | A deploy window is decided exactly when the clone or the clock settles every landing, and holds then exactly the commits the deploy brought. |
| AppErrorLink.ArrivalSays | src/appErrors/link.ts:142-170 | An arrival window is decided exactly when the probe places every landing, and holds then exactly the commits that arrived in the look-back before the error. |
| AppErrorLink.DeployWindowStands | src/appErrors/link.ts:115-136 | A deploy window that is known is the same under every completion of the verdicts the clone did not give. |
| AppErrorLink.ArrivalWindowStands | src/appErrors/link.ts:142-170 | So is an arrival window, under every later answer of the probe about landings recent enough to matter. |
| AppErrorLink.OrderDoesNotMatter | src/appErrors/link.ts:115-170 | Landings in another order make a window with the same goals and commits. |
| AppErrorDecision.FrameEvidenceLoop | src/appErrors/link.ts:257-288 | The nested loops give the evidence of the goals that changed the frames' files. |
| AppErrorDecision.TestArrival | src/appErrors/link.ts:220-249 | The vote names a goal exactly when the other environments' arrivals all point at that one. |
| AppErrorDecision.LinkInWindow | src/appErrors/link.ts:300-335 | A linked goal is in the window; a tie names at least two distinct goals of it and links none; an undecided window links nothing. Which goal it is is `AppErrorReasons.LinkSays`. |
| AppErrorReasons.LinkSays | src/appErrors/link.ts:220-396 | An error is linked to the goal that changed more of its frames' files than any other; of goals that tie, to the one the arrivals point at if it is among them, and else all are named; with no such evidence to the arrivals' goal, and failing that to the goal whose title shares the most words; the reasons given are exactly those. Where some commit's changes are not known only the arrivals count. |
| AppErrorDecision.LandingOrder | src/appErrors/link.ts:220-396 | Landings in another order, here and everywhere the error was seen first, decide the same goal for the same reasons, or the same tie. |
| AppErrorGroups.SpreadCounts | src/appErrors/groups.ts:66-75 | The loop over the days deals the count as the definition does, a day dealt nothing left out. |
| AppErrorGroups.DaySays | src/appErrors/groups.ts:24-37 | A day is the UTC day of an instant; a row's first is that of its first sighting within the read, which goes back fourteen days where none was made. |
| AppErrorGroups.SpreadSums | src/appErrors/groups.ts:66-75 | The daily counts add up to the row's count, on at most fifteen days in order, none outside the row's span in the read. |
| AppErrorGroups.SpreadEven | src/appErrors/groups.ts:72-74 | Every day but the last has the same count; the last has the remainder besides. |
| AppErrorGroups.SpreadReaches | src/appErrors/groups.ts:67-71 | The last day dealt to is the last sighting's exactly when at most fourteen days lie between. |
| AppErrorGroups.ReadReaches | src/appErrors/groups.ts:33-37 | A row no newer than its read always reaches its last day, given the bound the read asked from. |
| AppErrorGroups.CountsKept | src/appErrors/groups.ts:66-75 | Over any run of reads the daily counts kept add up to every count reported. |
| AppErrorGroups.MergedMeans | src/appErrors/groups.ts:39-59 | Over any rows merged, `firstSeen` is the earliest, `lastSeen` the latest, and `returnedAt` the last row that began a quiet period after every earlier one ended. |
| AppErrorGroups.ReturnInSpan | src/appErrors/groups.ts:57 | A return lies inside the group's span, a quiet period or more after its first sighting. |
| HarnessCycle.OneInFlight | src/harness.ts:210-273 | However requests, readings and ends come, the cycles that have neither returned nor thrown are none or the one the harness takes to be in flight. |
| HarnessCycle.StartsLessEnds | src/harness.ts:210-256 | In every run the cycles started, each a new one, are as many as ended, or one more while one is in flight. |
| HarnessCycle.RequestStarts | src/harness.ts:210-231 | A request starts a cycle exactly when no agent awaits recovery, none is in flight and, asked for locally, there is a last world or a stored baseline, which it is then given; a manual one refused by a flight is remembered. |
| HarnessCycle.FlightStays | src/harness.ts:210-273 | A cycle stays in flight, deciding against what it was given, until it ends itself. |
| HarnessCycle.OneAttemptAfter | src/harness.ts:247-273 | However many manual cycles were refused while one ran, its end makes exactly one manual attempt, and none if none was asked for or the harness was stopped; the attempt starts unless agents await recovery. |
| HarnessCycle.StoppedForGood | src/harness.ts:180-185 | Once stopped, the end of a cycle leaves none running and starts none. |
| HarnessCycle.DiffsChain | src/harness.ts:484-496 | The recorded diffs are between each world read whole and the next, the first of them after the baseline stored at the step that first read one whole. |
| HarnessCycle.OnlyReadingsMove | src/harness.ts:298-301 | A local cycle, and a reading with a stale source, leave the baseline and the diffs alone. |
| HarnessCycle.LocalDecidesAgainst | src/harness.ts:214-222 | While a local cycle runs, the world it was given is still the last one read. |
| HarnessCycle.Harness.RunCycle | src/harness.ts:210-273 | A request is held, coalesced, unbaselined or started, and leaves the fields as its step says. |
| HarnessCycle.Harness.EndCycle | src/harness.ts:247-255 | The end of a cycle clears the flight and makes the attempt owed. |
| AgentStream.FeedLines | src/agents/streamJsonSession.ts:112-121 | The buffered loop handles exactly the lines that have ended, in order, and keeps the start of the next. |
| AgentStream.Chunking | src/agents/streamJsonSession.ts:112-121 | However the text is cut into chunks, the session ends in the same state with the same signals given. |
| AgentSession.Reachable | src/agents/streamJsonSession.ts:72-241 | In every run: the silence timer is armed only while running with a period set; waiting and stalled are told only with no message unanswered; `done` is told once, when done; `failed` only by the exit; a limit at most once per message. |
| AgentTurns.ExitSays | src/agents/streamJsonSession.ts:199-225 | An exit is told first; then a session neither killed nor done parks on a spent limit once, or finishes: done on code 0, failed on any other, unless it failed before. |
| AgentTurns.DoneTurn | src/agents/streamJsonSession.ts:166-169 | A turn that says done finishes a session that was not finished, saying so, messages unanswered or not. |
| AgentTurns.LimitTurn | src/agents/streamJsonSession.ts:170-197 | A turn that does not leaves a session as it is while messages are unanswered, and else parks it on a spent limit, once. |
| AgentTurns.WaitTurn | src/agents/streamJsonSession.ts:173-190 | Otherwise the session waits, for the reason the turn gives or as stalled, unless it waits already or is done. |
| AgentTurns.DoneSays | src/agents/streamJsonSession.ts:166 | A turn says done exactly when the sentinel is anywhere in its text. |
| AgentTurns.WaitSays | src/agents/streamJsonSession.ts:174 | A turn gives a reason exactly when both marks are in it, and gives what is between them, trimmed. |
| AgentTurns.SendSays | src/agents/streamJsonSession.ts:83-91 | A message is one more to answer, lifts the limit's mark, and has a waiting session run, with the timer armed exactly while it runs. |
| AgentTurns.KillSays | src/agents/streamJsonSession.ts:97-110 | A kill stops the timer, and marks killed exactly a started session that has not ended. |
| AgentTurns.AssistantSays | src/agents/streamJsonSession.ts:136-144 | A turn's text is kept to its end; flags, tools used and text shown are told in that order, and nothing else changes. |
| AgentSession.DoneForGood | src/agents/streamJsonSession.ts:209-218 | A session that is done stays done through anything, and has said so exactly once. |
| AgentSession.FailedRevives | src/agents/streamJsonSession.ts:180-197 | A failed session leaves that status exactly on a last result that does not say done, and then waits. |
| AgentSession.KilledRevives | src/agents/streamJsonSession.ts:180-218 | A killed session leaves that status exactly on a result that says done, or a last one with no limit spent. |
| AgentSession.KilledDeclares | src/agents/streamJsonSession.ts:152-197 | Two results and a spent limit between them make a killed session declare the limit. |
| StreamSession.StreamJsonSession.OnStdoutChunk | src/agents/streamJsonSession.ts:112-121 | The framing loop over the session's own fields does what feeding the chunk means. |
| StreamSession.StreamJsonSession.OnResultEvent | src/agents/streamJsonSession.ts:158-178 | A result counts a message answered and then finishes, parks, waits or stalls. |
| StreamSession.StreamJsonSession.OnExitCode | src/agents/streamJsonSession.ts:199-207 | An exit is told first, and then parks on a limit or finishes by its code, unless killed or done. |
| StreamSession.StreamJsonSession.SendText | src/agents/streamJsonSession.ts:83-91 | A message is one more unanswered, lifts the limit's mark, and sets a waiting session running. |
| AgentParks.StalledMeans | src/agents/agentParks.ts:128-145 | A stall costs one nudge while there is budget and a process, and otherwise parks with a clock, unless a rule answers. |
| AgentParks.ReinstatedOverClock | src/agents/agentParks.ts:197-203 | Putting a limit back keeps the limit-or-clock rule exactly where no clock runs. |
| AgentParks.ResumedLeavesGrace | src/agents/agentParks.ts:108-116 | Work seen never shortens a clock and leaves it its grace; an extension sets it outright. |
| AgentParks.ParkBook.CompleteExpiredStalls | src/agents/agentParks.ts:88-102 | The pass completes exactly the live runs whose clock ran out, and drops every other clock that did. |
| AgentParks.ParkBook.HandleStalled | src/agents/agentParks.ts:128-145 | The four collections change for the one agent as the stall says, and for no other. |
| AgentManager.LimitOrClock | src/agents/agentParks.ts:128-203 | In every run, never both usage-limited and on a stall clock, and no more nudges sent than budgeted before the run is forgotten. |
| AgentManager.ExpiryCompletes | src/agents/agentParks.ts:88-102 | A stall expiry completes exactly the live runs whose clock ran out, none of them limited. |
| AgentManager.ResumesBounded | src/agents/agentManager.ts:437-457 | Automatic resumes never exceed the configured limit over an agent's whole life. |
| AgentManager.ReapedOnceGone | src/agents/agentManager.ts:417-532 | In every run without a stray limit: only an ended agent is reaped, every reap finds no session registered and no process running, there are no more reaps than exits, and an ended agent has no session again. |
| AgentManager.StrayIffBreaks | src/agents/agentManager.ts:157-186 | The condition is exact: a limit declared when no session is registered, and the agent was ended or its process still runs, is followed by an event that breaks the rule; a limit declared otherwise is not. |
| AgentManager.ReapsAnswered | src/agents/agentManager.ts:417-532 | In every run: no more reaps than endings recorded, the one that stands included; without a stray limit no more than exits, one still owed included; and an ending and an exit never stand together unreaped. |
| AgentManager.ReapNeedsBoth | src/agents/agentManager.ts:518-525 | A step that reaps reaps once, with an ending recorded that no earlier reap answered for and, without a stray limit, an exit that none did. |
| AgentManager.StrayLimit | src/agents/agentManager.ts:256-277 | An agent killed, whose process goes on to declare a limit, is reaped by a second kill while that process runs. |
| AgentManager.CrashReaped | src/agents/agentManager.ts:424-457 | A crash is reaped at once exactly when it is not answered by resuming, which `CrashResumed` has the cases of; a resume that launches goes on, and one that does not is settled unreaped. |
| AgentManager.CrashResumed | src/agents/agentManager.ts:437-457 | A crash counts one resume more exactly when the limit is positive and not spent, the runtime can resume, the crashed session is the registered one and no usage limit is parked on; with a launch that succeeds the agent goes on in the new session, and every other crash ends it as failed. |
| AgentManager.NeverReaped | src/agents/agentManager.ts:437-457 | After a resume that failed to launch no later event reaps the agent, short of a stray limit. |
| AgentManager.LeftOverFreed | src/agents/agentManager.ts:256-277 | Any limit declared for such an agent is stray, and a kill after it does reap. |
| AgentViews.ParkedAfter | src/agents/agentParks.ts:55-232 | For every event, exactly when an agent is parked after it. |
| AgentViews.LimitedAfter | src/agents/agentParks.ts:55-232 | For every event, exactly when an agent is usage-limited after it, and by which limit. |
| AgentViews.ClockAfter | src/agents/agentParks.ts:30-230 | For every event, exactly when a stall clock runs after it, until when and with what grace. |
| AgentViews.NudgesAfter | src/agents/agentParks.ts:128-145 | Nudges spent and sent count up by the stalls that cost one and go out, and are forgotten with a run that ends, except by a kill. |
| AgentViews.SessionAfter | src/agents/agentManager.ts:417-532 | For every event, exactly which session is registered after it, which processes there have been, and whether an ending was recorded. |
| AgentViews.ReapedAfter | src/agents/agentManager.ts:488-532 | For every event, exactly when the agent is reaped and for which ending, and which ending and exit stand after it; an exit and a parked limit or ending not standing together before. |
| AgentFleet.Manager.KillAgent | src/agents/agentManager.ts:256-277 | Killing settles the agent, gives its entries up, and reaps it at once where no session was left. |
| AgentFleet.Manager.HandleTerminalOf | src/agents/agentManager.ts:488-516 | An ending forgets the parks, unregisters the session and reaps if the process is gone. |
| AgentFleet.Manager.OnExitOf | src/agents/agentManager.ts:417-422 | An exit is noted, sheds a limited session, and reaps if an ending stands. |
| AgentFleet.Manager.OnFailedOf | src/agents/agentManager.ts:424-457 | A crash leaves the agent as the step of which `AgentManager.CrashResumed` and `CrashReaped` speak, and no other agent changes. |
| AgentFleet.Manager.ResumeParkedAgent | src/agents/agentManager.ts:157-186 | Ending a limit park leaves the agent with a session and no park, or as it was. |
| AgentFleet.Manager.InterruptAllAgents | src/agents/agentManager.ts:348-365 | Every registered session is let go, and no other agent changes. |

## Left out

- LineDiff.LineDiff: line lists are unbounded sequences; that two texts past the size limit would be diffed is not modelled, as the code refuses them.
- ConfigEditor.EditMeans: a text that does not parse is not modelled, since what the scanners find in it is checked by the final parse alone; keys and strings are UTF-16 code units, and unpaired surrogates cannot be set; a number is known by its spelling, so two spellings of one number are two values; `JSON.stringify` is modelled as printing the layout it gives with two blanks of indentation.
- DiscussionRoundTrip.AppendReadsBack: front matter values and `setFrontMatterKeys` are not modelled; the file's text is one string, and its reading and writing one step.
- DiscussionText.ParseDiscussion: lower-casing is modelled for ASCII and the Kelvin sign, all that can make one of the words it is compared with.
- DiscussionPulls.ExactlyOnce: the file is taken to stay where it is while it is pulled into, and nobody edits its cursor by hand; the five-minute interval and the four workers of a pass are not modelled.
- CheckLock.AtMostOneHolds: the compare and the unlink of a clear are one step, and no pid is used again within a millisecond; the wait between two tries, and signals, are events that may come at any time.
- CheckStages.Scheduler.RunAll: a stage's own run is a completion that comes when it comes; its output and its verdict are not modelled.
- SerialQueue.OneAtATime: a promise is its place among those made; what a work returns or throws is whether it settled.
- DispatchCooldown.WindowCapped: that every executed attempt and escalation goes through the verdict, and that a pulse orders at most one for an origin, is assumed of the dispatcher.
- IssueRelations.WatchCascadeTargets: whether an issue's type names a container is a field of the issue.
- IssueOrigins.RefParse: a number past 2^53 - 1, which the source rounds as it reads it, is kept exactly here, so nothing is said of how its reference is printed.
- Shortfall.FollowupSlot: whether a part has work is a field of the part.
- CloseOut.RunsOnce: there is one row for a goal, and ids are minted fresh; titles and detail texts are functions of the goal.
- AppErrorDecision.LandingOrder: which paths are one file, and the words of a title or an operation, are parameters; the sentences that explain a link are left out.
- AppErrorGroups.MergedMeans: instants are integers, so years past 9999, whose ISO text does not sort like the others, are not modelled.
- HarnessCycle.OneInFlight: a cycle's random id is the number of cycles started before it; a cycle asked for after a stop may still start, as the code has it.
- HarnessCycle.DiffsChain: what `diffWorlds` finds between two worlds is not modelled, only which two are compared; what a cycle does after reading the world is one step, which may fail.
- AgentSession.Reachable: parsing a line of JSON and recognising an API error are parameters; a listener that calls back into the session does so after the event it was told of; the flags and transcript texts of a turn are what the parameters say.
- AgentManager.ReapedOnceGone: what a session says is any sequence of exits, turn ends and limits, each process exiting once, and an agent is launched from outside once in the life of the manager; the store's rows, transcripts, credentials and spools are not modelled.
- AgentFleet.Manager.InterruptAllAgents: the stall clocks it leaves running are modelled as the code leaves them; the next process starts with none.
- The provider clients, process spawning, HTTP and MCP channels, the SQLite store, prompts, transcripts and the panel are left out, being calls into other code or presentation.
- `issuePickupStatus`, `setFrontMatterKeys`, `resolveCoreBudget` and the config field tables are left out, as they would add only easy members.

# openpollslack: polls, votes and data migrations

openpollslack is a Slack app for polls. The `/openpoll` command posts a poll message: a
question, a badge line when the poll is anonymous or limited, one vote button and one
caption per option, and a help footer. Every click on a vote button comes back as an
action. The action toggles the user in that option's voters and checks the user's vote
limit over the whole message. It then re-renders the option's caption and posts the
message back. All state lives in the message's blocks: each button's value carries the
poll's settings, the option's index and its voters.

Two transforms reshape the stored data. `migration1` merges vote documents that share a
(channel, timestamp) pair across teams. It re-keys the closed documents from
(team, timestamp) to the channels recorded for that pair, reports the ones it cannot
resolve, and drops the team from the hidden documents. The `migrate-v3` script
flattens the old nested `team -> channel -> ts -> votes` file into flat records.

The project is organised as follows.

- `wrappers.dfy`: `Option` and a few sequence facts.
- `js_text.dfy`: the JavaScript built-ins the handlers use: `trim`, `indexOf`,
  `substr`, `split`, `parseInt` and the text of a number.
- `quote_tokenizer.dfy`: the quoted-token regular expression of `index.js:145`,
  written out as a deterministic scanner.
- `blocks.dfy`: the message blocks and the decoded button value.
- `poll_command.dfy`: the `POST /` handler. It covers the keyword loop, the token loop
  and the block builder. It also proves a round trip: writing a command and parsing it
  gives back the poll it was written for.
- `vote_action.dfy`: the `POST /actions` handler, as methods over an `array<Block>`
  that update the clicked option's two blocks in place. It also proves the invariants
  that the clicks on a poll preserve.
- `migration_one.dfy`: the loops of `migration1`.
- `migrations.dfy`: the `Migrations` runner as a class over a database object whose
  collections it replaces.
- `migrate_v3.dfy`: the flattening script, over JSON values of every kind. `Object.keys`
  and `Object.values` throw on `null` and list the indexes or characters of a string,
  and a throw ends the script before its remaining files are written.

The code differs from the app's later design in several ways, and the model follows the code:

- There is no lock, no vote table apart from the message, no `hidden` flag and no
  creator authorization. The button values in the message are the only vote state.
- The limit test is `voteCount >= limit`. It is made before the write, and it counts
  the user's votes on the other options: the total, less one when the click withdraws
  a vote.
- The limit is whatever `parseInt` read. So 0 is shown as "Limited to 0 vote" but is
  not enforced (0 is falsy), and a negative limit rejects every vote.
- A command with a question and no options still posts a poll. The `options` array is
  always truthy.
- Each token is matched by whichever quote alternative starts at it. The first token
  does not fix the quote character for the others.

## Model

| member | source | states |
|---|---|---|
| `JsText.TrimStart` | index.js:121 | the result is a suffix of the text; everything dropped is white space; the result is empty or starts with non-white space |
| `JsText.TrimEnd` | index.js:121 | the result is a prefix; everything dropped is white space; the result is empty or ends with non-white space |
| `JsText.IndexOf` | index.js:121 | -1 exactly when the character is absent; otherwise that position holds it and no earlier one does |
| `JsText.Split` | index.js:121 | at least one part; no part holds the separator; joining the parts with it gives the text back |
| `JsText.SplitJoin` | index.js:121 | splitting a join of separator-free parts gives the parts back |
| `JsText.NatToString` | index.js:178 | decimal digits only, no leading zero, one digit exactly below 10 |
| `JsText.DecimalValue` | index.js:178 | the digits of a number's text read back as that number |
| `JsText.ParseUnsignedOfNatToString` | index.js:123 | the digit run of a number's text reads back as the number |
| `JsText.ParseIntUnsigned` | index.js:123 | text starting with a digit is read by its digit run alone |
| `JsText.ParseIntMinus` | index.js:123 | text starting with `-` is read as the negated digit run after it |
| `JsText.ParseIntOfIntToString` | index.js:123 | `parseInt` of the text of any integer is that integer |
| `QuoteTokenizer.CloseAt` | index.js:145 | a position it returns lies at or after the start and holds the closing quote |
| `QuoteTokenizer.CloseAtFirst` | index.js:145 | the returned quote is the first one no backslash escapes: the scan up to it, taking a backslash and its next character as one escape, meets no other; with none found, the scan reaches the end or a lone trailing backslash without meeting one |
| `QuoteTokenizer.SingleEnd` | index.js:145 | the single-quote alternative stops at a `'`, at a lone trailing backslash, or at the end |
| `QuoteTokenizer.SingleEndFirst` | index.js:145 | the single-quote body meets no unescaped `'` before it stops, so a `'` it stops at is the first unescaped one |
| `QuoteTokenizer.OpenRunEndPlain` | index.js:145 | the run before the first escape of a curly token holds no opening curly quote and no backslash |
| `QuoteTokenizer.LastCloseIsLast` | index.js:145 | the closing curly quote found in the run is the last one; when none is found there is none |
| `QuoteTokenizer.CurlyClosing` | index.js:145 | a curly token ends at a closing curly quote at or after its body's start |
| `QuoteTokenizer.MatchEndShape` | index.js:145 | a match starts exactly at an opening quote whose alternative can close; straight and curly matches end with their closing quote |
| `QuoteTokenizer.TokensWellQuoted` | index.js:145 | every token starts with an opening quote, and straight and curly tokens end with the matching closing quote |
| `QuoteTokenizer.SkipPlain` | index.js:145 | no match starts inside a stretch without opening quotes |
| `QuoteTokenizer.QuotedWordAt` | index.js:145 | a plain word in straight double quotes is one match, and scanning resumes after its closing quote |
| `QuoteTokenizer.TokensOfQuotedList` | index.js:145 | space-separated plain words in straight quotes are matched back one by one, in order |
| `QuoteTokenizer.TokensAfterPlainText` | index.js:145 | text without opening quotes followed by quoted plain words tokenizes to exactly those quoted words |
| `PollCommand.ScanKeywords` | index.js:121-143 | the loop's settings equal the loop-free KeywordSettings: each keyword is on iff it occurs; the limit is the number after the first `limit`, else 1; a limited poll always has a limit |
| `PollCommand.KeywordsAreNotNumbers` | index.js:122-131 | neither keyword reads as a number, so a keyword right after `limit` sets the limit to 1 and is still taken as a keyword |
| `PollCommand.KeywordsOnlyBeforeQuote` | index.js:121 | text after the first straight double quote never changes the keyword words |
| `PollCommand.NoQuoteNoKeywords` | index.js:121 | without a straight double quote no keyword is read |
| `PollCommand.LimitFixedByFirstKeyword` | index.js:135-137 | once the word after the first `limit` is present, later words never change the limit |
| `PollCommand.LimitAfter` | index.js:122-131 | the word after the first `limit` sets the limit: its number, or 1 |
| `PollCommand.SplitQuestion` | index.js:145-152 | the first token, stripped of its first and last character, is the question; every later token, stripped the same way, is an option, in order |
| `PollCommand.StripAll` | index.js:146 | one stripped token per token, in order |
| `PollCommand.StripQuoted` | index.js:146 | stripping quoted words gives the words back |
| `PollCommand.BuildBlocks` | index.js:154-243 | the pushed blocks are the poll message PollBlocks |
| `PollCommand.OptionsBlocksLength` | index.js:198-229 | two blocks per option |
| `PollCommand.OptionsBlocksIndex` | index.js:198-229 | option j's button section comes first, then its `No votes` caption |
| `PollCommand.PollBlocksFrame` | index.js:154-243 | the message has twice as many blocks as options plus 4, and one more for the badge line; it opens with the question, the badge line when there is one and a divider, and closes with a divider and the help footer |
| `PollCommand.PollBlocksOption` | index.js:198-229 | option i's button, with id i and no voters, sits at `2 + 2 * i` plus the badge offset, and its `No votes` caption follows |
| `PollCommand.PollBlocksLayout` | index.js:154-243 | the whole fixed, indexable layout of a poll message |
| `PollCommand.HandleCommand` | index.js:29-258 | the reply is CommandReply: nothing for an absent or empty text; help for `help`; otherwise a poll exactly when the first token strips to a non-empty question, with any number of options |
| `PollCommand.KeywordWordsAnonymous` | index.js:133-134 | `anonymous` among the written keyword words iff the poll is anonymous |
| `PollCommand.KeywordWordsLimit` | index.js:122-143 | a written `limit n` reads back as the limit n; no `limit` word reads as no limit |
| `PollCommand.KeywordWordsSettings` | index.js:121-143 | the written keyword words read back as the settings they were written for |
| `PollCommand.KeywordWordsChars` | index.js:121 | the keyword words are non-empty and made of lower-case letters, digits and `-`, with no space |
| `PollCommand.KeywordTextPlain` | index.js:121 | the keyword text holds no quote of any kind |
| `PollCommand.KeywordTextSplit` | index.js:121 | trimming and splitting the keyword text gives the keyword words back |
| `PollCommand.QuotedListEnds` | index.js:145 | a quoted word list starts and ends with a straight double quote |
| `PollCommand.CommandTextNotHelp` | index.js:38 | a written command is not empty and does not trim to `help` |
| `PollCommand.KeywordArgsOfPrefix` | index.js:121 | before a text that opens with a straight double quote, the keyword words are the words of the prefix |
| `PollCommand.KeywordTextSettings` | index.js:121-143 | the words of the keyword text read as the settings it was written for |
| `PollCommand.CommandTextSettings` | index.js:121-143 | the keyword scan of a written command reads the settings it was written with |
| `PollCommand.CommandTokens` | index.js:145 | the tokens of a written command are its quoted question and options, in order |
| `PollCommand.CommandReplyPoll` | index.js:38-258 | a text that is neither empty nor `help`, and whose tokens are a quoted non-empty question and options, posts the poll of those words and settings |
| `PollCommand.CommandRoundTrip` | index.js:29-258 | parsing inverts writing: the command written from any settings, a non-empty question and options that need no escape posts exactly that poll |
| `VoteAction.Without` | index.js:291 | exactly the user's entries are removed; the list is unchanged when the user is absent; distinct voters stay distinct |
| `VoteAction.Toggle` | index.js:288-294 | the user is in the result iff not in the input; every other voter is unaffected; distinct voters stay distinct |
| `VoteAction.ToggleTwice` | index.js:288-294 | toggling twice from a list without the user gives the list back |
| `VoteAction.WithoutAppended` | index.js:291-293 | removing a just-appended user restores the list |
| `VoteAction.VoteCountUpdate` | index.js:297-305 | replacing a block changes the count by what the old and the new block contribute |
| `VoteAction.CountVotes` | index.js:297-305 | the loop counts the blocks whose button lists the user |
| `VoteAction.CaptionNoVotesIff` | index.js:317-333 | the caption is `No votes` exactly when the voter list is empty |
| `VoteAction.MentionsStart` | index.js:321-325 | the mentions of at least one voter start with `<` |
| `VoteAction.AnonymousCaptionHidesVoters` | index.js:322 | an anonymous caption depends on the number of voters alone |
| `VoteAction.RenderCaption` | index.js:317-333 | the accumulated text is the caption: mentions unless anonymous, the count, and `vote` or `votes` |
| `VoteAction.Rewrite` | index.js:335-338 | the write-back keeps the length and every other block; the button keeps its text and label and takes the new voters; the caption's first element is rendered from them and the rest stay |
| `VoteAction.HandleAction` | index.js:276-338 | in place: an accepted action leaves exactly ApplyAction's blocks; a rejected or broken one leaves the blocks unchanged |
| `VoteAction.WriteBack` | index.js:335-338 | the two writes leave the blocks rewritten at the button and its caption |
| `VoteAction.HandleActions` | index.js:275-340 | the loop over a payload's actions ends with RunActions' blocks; the message is posted only when every action was accepted |
| `VoteAction.ButtonIndexOfInitial` | index.js:277-282 | the handler's index arithmetic finds, in a fresh poll, the button the builder put there, followed by its caption |
| `VoteAction.InitialShape` | index.js:154-243 | a fresh poll is in shape: every option's button carries the settings, its index and distinct voters; its caption renders them; no button is anywhere else |
| `VoteAction.LayoutShape` | index.js:198-229 | a message with the poll's length, no button in its head and tail, and initial buttons with empty captions at the option places is in shape |
| `VoteAction.ValueAtShape` | index.js:277-284 | in a poll in shape, a click finds a button exactly for the options' indexes, and the button's value points back at its own place |
| `VoteAction.OptionValue` | index.js:276-284 | option i's button value carries the poll's settings, the index i and distinct voters, and its block index is option i's place |
| `VoteAction.ActionFrame` | index.js:283-338 | with the button and caption blocks in place an action is never broken: it is rejected exactly when the user's votes on the other options reach an enforced limit, and otherwise rewrites just those two blocks |
| `VoteAction.RewriteTwice` | index.js:335-338 | rewriting the same option twice is rewriting it once with the second value |
| `VoteAction.RewriteSame` | index.js:335-338 | rewriting an option with what it already shows changes nothing |
| `VoteAction.RewriteCount` | index.js:297-305 | a rewrite changes the user's count by what the old and the new button contribute |
| `VoteAction.ClickFrame` | index.js:275-338 | a click on an option of a poll in shape is never broken; it is rejected iff the limit is reached, otherwise only that option's button value and caption change |
| `VoteAction.RewriteKeepsShape` | index.js:335-338 | rewriting one option with distinct voters keeps the poll in shape |
| `VoteAction.ClickKeepsShape` | index.js:288-338 | an accepted click keeps the poll in shape |
| `VoteAction.ClickCount` | index.js:288-338 | after an accepted click a user's count rises by one for a new vote and falls by one for a withdrawn one |
| `VoteAction.ClickKeepsLimit` | index.js:296-315 | after an accepted click on a poll with an enforced limit, a user within the limit stays within it |
| `VoteAction.WithdrawAccepted` | index.js:296-315 | withdrawing a vote is always accepted while the user is within the limit |
| `VoteAction.WithdrawRestores` | index.js:288-338 | on a message that differs from the original only by the user's new vote on an option, clicking that option again is accepted and gives the original back |
| `VoteAction.VoteGivesVotedOnce` | index.js:288-338 | an accepted new vote leaves a poll in shape that differs from the original only by the user appended to that option |
| `VoteAction.VoteTwiceRestores` | index.js:288-338 | voting on an option and clicking it again restores the message exactly |
| `VoteAction.AfterClickInvariant` | index.js:275-338 | any click keeps the poll in shape and keeps every user within an enforced limit |
| `VoteAction.ReplayInvariant` | index.js:275-338 | any history of clicks keeps the poll in shape and every user within an enforced limit |
| `VoteAction.FreshPollNoVotes` | index.js:194 | a fresh poll holds no vote of anyone |
| `VoteAction.NoHolderNoVotes` | index.js:297-305 | blocks none of which lists the user count no votes |
| `VoteAction.PollHistory` | index.js:154-338 | whatever the clicks on a posted poll, it stays in shape, and on a poll limited to a positive number no user ever holds more votes |
| `VoteAction.ZeroLimitUnenforced` | index.js:296 | on a poll limited to 0 every click on an option is accepted |
| `MigrationOne.DedupAppendSpec` | utils/migrations.js:78-82 | the merged list holds exactly the voters of both lists, keeps the old list as its prefix and repeats nobody when the old list repeats nobody |
| `MigrationOne.DedupAppendConcat` | utils/migrations.js:78-82 | merging in two rounds is merging the concatenation |
| `MigrationOne.PushNew` | utils/migrations.js:78-82 | the dedup loop appends the new voters in first-seen order |
| `MigrationOne.MergeInto` | utils/migrations.js:73-83 | the option loop merges every option of the document into the entry |
| `MigrationOne.MergedPointwise` | utils/migrations.js:73-83 | a map that agrees with the merge at every key is the merge |
| `MigrationOne.Tabulate` | utils/migrations.js:58-95 | the first loop builds the tables of TallyOf |
| `MigrationOne.Add` | utils/migrations.js:62-92 | the loop body records one document: its entry merged, its channel and timestamp listed when new, the count bumped when the pair is new, its channel appended under its timestamp and team |
| `MigrationOne.Flatten` | utils/migrations.js:103-118 | the second loop lists one document per channel and timestamp of the table, in order |
| `MigrationOne.Partition` | utils/migrations.js:145-161 | the closed loop splits the documents into the re-keyed ones and the unresolved ones |
| `MigrationOne.RecordFrame` | utils/migrations.js:62-92 | recording a document changes nothing about the other channels |
| `MigrationOne.RecordValid` | utils/migrations.js:62-92 | recording a document keeps the channel list, the timestamp lists and the count consistent with the table |
| `MigrationOne.TallyOfValid` | utils/migrations.js:58-95 | after any input the channel and timestamp lists name each table key once and the count counts the pairs |
| `MigrationOne.TallyOfSeen` | utils/migrations.js:61-69 | the table has an entry for exactly the input's (channel, timestamp) pairs |
| `MigrationOne.EntryVoters` | utils/migrations.js:73-83 | an option of a merged entry is present iff some input document of its pair has it; its voters are theirs without repeats, in first-seen order |
| `MigrationOne.TableChannelOf` | utils/migrations.js:86-92 | `tableChannel[ts][team]` exists iff some document has that timestamp and team, and lists their channels in order |
| `MigrationOne.DocsOverMembers` | utils/migrations.js:103-118 | one migrated document per recorded timestamp of each channel, and no other |
| `MigrationOne.DocsOverDistinct` | utils/migrations.js:103-118 | no two migrated documents share a (channel, timestamp) pair |
| `MigrationOne.VotesMigrated` | utils/migrations.js:66-69 | exactly one migrated document per distinct (channel, timestamp) pair of the input, as many as newCount, none only for an empty input, each without team and without `teams` |
| `MigrationOne.MigratedVoters` | utils/migrations.js:107-108 | a migrated option is any option but `teams` of its input documents; its voters are theirs merged, each once, in first-seen order |
| `MigrationOne.ClosedPartition` | utils/migrations.js:145-158 | every closed document lands in exactly one of the re-keyed data and the errors |
| `MigrationOne.ClosedResolved` | utils/migrations.js:146-155 | a closed document is re-keyed iff its (timestamp, team) was seen among the votes, and then carries those documents' channels |
| `Migrations.PendingMembers` | utils/migrations.js:22-23 | the filter keeps exactly the migrations with `to` above the version |
| `Migrations.PendingConcat` | utils/migrations.js:22-23 | the filter keeps the original order |
| `Migrations.Unset` | utils/migrations.js:179 | every hidden document loses its team and keeps its other fields |
| `Migrations.ClosedNonEmpty` | utils/migrations.js:165-175 | there is re-keyed data iff some closed document resolves, and errors iff some does not |
| `Migrations.Migration1Replaces` | utils/migrations.js:122-175 | the version becomes 1; the votes are replaced iff there were any; the closed documents are replaced iff one resolves; the report is written iff one does not |
| `Migrations.MigratedUpToDate` | utils/migrations.js:19-37 | after any non-empty run the database is at version 1 and nothing is pending |
| `Migrations.Database.DbVer` | utils/properties.js:11-20 | the stored version, after storing 0 when there is none |
| `Migrations.Database.SetDbVer` | utils/properties.js:22-32 | only the version changes |
| `Migrations.Migrator.constructor` | utils/migrations.js:6-13 | the runner holds the database and no selection yet |
| `Migrations.Migrator.Init` | utils/migrations.js:19-28 | the selection is exactly the pending migrations, in order, past the stored version; only the version may be written |
| `Migrations.Migrator.Migrate` | utils/migrations.js:30-37 | the database ends as the selected migrations applied in list order |
| `Migrations.Migrator.Migration1` | utils/migrations.js:39-182 | the database ends as Migration1Spec of its old contents |
| `MigrateV3.IndexTextInjective` | scripts/migrate-v3.js:20-21 | distinct indexes of a string or an array have distinct key texts |
| `MigrateV3.IndexOfKeyFinds` | scripts/migrate-v3.js:21 | an index key is looked up by its text: the index found has that text, and none is found only when no index below the length has it |
| `MigrateV3.IndexOfKeyAt` | scripts/migrate-v3.js:21 | the text of an index below the length leads back to that index |
| `MigrateV3.Keys` | scripts/migrate-v3.js:17 | `Object.keys` throws exactly on `null`, and otherwise lists the value's own keys |
| `MigrateV3.Values` | scripts/migrate-v3.js:5 | `Object.values` throws exactly on `null`; otherwise it gives one value per own key: an object's field values, a string's characters as one-character strings, an array's elements, and none for a boolean or a number |
| `MigrateV3.FindField` | scripts/migrate-v3.js:26 | a member is found iff a field has that key |
| `MigrateV3.GetAt` | scripts/migrate-v3.js:26 | with distinct keys, the member at the i-th own key is the i-th field's value, the i-th character of a string, or the i-th element of an array |
| `MigrateV3.DistinctKeysStrings` | scripts/migrate-v3.js:17-21 | a value with distinct keys lists no own key twice, strings and arrays included |
| `MigrateV3.ValuesAreMembers` | scripts/migrate-v3.js:5 | for any value but `null` with distinct keys, `Object.values` lists each own key's member in key order |
| `MigrateV3.TeamsDefinedAll` | scripts/migrate-v3.js:17-30 | the team loop gets through a list of teams exactly when no team among them but `polls` is `null` or has a `null` channel |
| `MigrateV3.NotNullAtAll` | scripts/migrate-v3.js:20-21 | a loop over keys gets through exactly when no member at those keys is `null` |
| `MigrateV3.FlattenStamps` | scripts/migrate-v3.js:21-28 | one record per timestamp of a channel, in key order; a throw when the channel is `null` |
| `MigrateV3.FlattenChannels` | scripts/migrate-v3.js:20-29 | the records of a team's channels, in order; a throw when the team or one of its channels is `null` |
| `MigrateV3.FlattenVotes` | scripts/migrate-v3.js:17-30 | the records of every team but `polls`; a throw when the file, such a team or one of its channels is `null` |
| `MigrateV3.FlattenClosedStamps` | scripts/migrate-v3.js:33-39 | one closed record per timestamp of a team; a throw when the team is `null` |
| `MigrateV3.FlattenClosed` | scripts/migrate-v3.js:32-40 | the closed records of every team; a throw when `polls.closed` or one of its teams is `null` |
| `MigrateV3.RunScript` | scripts/migrate-v3.js:1-47 | the files the script writes before it ends or throws, as ScriptOutput says and ScriptFiles characterises |
| `MigrateV3.VoteRecordsMembers` | scripts/migrate-v3.js:17-30 | a vote record exists exactly for each (team, channel, timestamp) path outside `polls`, with the votes found there copied unchanged |
| `MigrateV3.VoteRecordsOnePerPath` | scripts/migrate-v3.js:17-30 | no two vote records share a path, and there are as many records as paths |
| `MigrateV3.ClosedRecordsMembers` | scripts/migrate-v3.js:32-40 | a closed record exists exactly for each (team, timestamp) path of `polls.closed`, with the value found there |
| `MigrateV3.ClosedRecordsOnePerPath` | scripts/migrate-v3.js:32-40 | no two closed records share a path, and there are as many records as paths |
| `MigrateV3.ScriptFiles` | scripts/migrate-v3.js:5-44 | the token file is written iff `token` exists and is not `null`, and lists its members in key order; the votes and closed files are written iff, besides, `polls` and `polls.closed` exist and are not `null` and no object the loops list is `null`, and they then hold all vote and closed records |
| `MigrateV3.NullTokenWritesNothing` | scripts/migrate-v3.js:5 | a `null` token throws before any file is written |
| `MigrateV3.NullClosedWritesTokensOnly` | scripts/migrate-v3.js:32 | a `null` `polls.closed` throws after the token file and before the other two |
| `MigrateV3.StringTeamRecords` | scripts/migrate-v3.js:20-28 | a team whose value is the string `"ab"` gives the records of channels `"0"` and `"1"`, each with timestamp `"0"` and its character as votes |

## Left out

- The HTTP layer is not modelled: the Express set-up, the headers, and the `request` posts back to `response_url`. Replies are values (`Reply`, the posted blocks).
- The OAuth redirect handler and the configuration are not modelled. They are a network call and secrets.
- The help message is the constant `HelpReply`. Its blocks are fixed data without logic.
- JSON text is not modelled: button values are records, and the two configuration files of the v3 script are `Json` trees that are already parsed. Numbers keep their literal text; the script only copies them.
- Mongo is not modelled: no cursors, `countDocuments`, progress bars or console output. The collections are sequence fields of `Database`, and `closed_reports.json` is the `closedReport` field. The script's three files are the fields of `ScriptRun`.
- The throw on a missing database in the `Migrations` and `Properties` constructors is not modelled. A Dafny reference is never null.
- JavaScript object key order is taken to be insertion order. Integer-like keys come first in real JavaScript, and that is not modelled. `__proto__` and inherited properties are left out too.
- `tableChannel[ts][res.team]` keys by the team's string form, and the model does the same: a missing team is the key `undefined`.
- `migration1` pushes the team itself into `teams`; the model pushes its key string. `teams` is deleted before anything is written, so nothing observable changes.
- `parseInt` is modelled for radix 10 and the `0x` prefix only. Text whose digits are too large for a double is read exactly.
- A button's `id` is stored as an integer. The source stores the `for..in` key as a string and coerces it with `*`, which gives the same index.
- A missing `voters` member (`value.voters ? value.voters : []`) is not modelled. The builder always writes one.
- VoteAction.HandleAction: when the caption block is in place but the button block is not, the source writes the new caption and then throws. The model checks both blocks first and changes nothing. Nothing is posted in either case.
- The action's button value is trusted as the source trusts it. Only `AfterClick` ties it to the button it came from.
- QuoteTokenizer.Tokens: the single-quote alternative has no closing quote in the pattern. Tokens of that kind are modelled as matched, but no round trip is claimed for them.
- Migrations.Apply: in `migrate`, `this[m.fct]()` dispatches by name. The only available migration is `migration1`, and `Apply` runs it.
- Migrations.Migrator.Migrate: requires that `init` ran first. Before that, the source's `this._migrations` is undefined and iterating it throws.
- PollCommand.Strip: a string is a sequence of Unicode characters, while JavaScript counts lengths and indexes in UTF-16 code units. So `option.substring(1, option.length - 1)` of a token that ends in a character outside the Basic Multilingual Plane (such as an emoji) keeps the first half of that character's surrogate pair in the source; the model drops the whole character. `substr`, `indexOf` and the quote scanner count characters in the same way, and their results differ from the source's for such text.
- MigrateV3.Values: `OwnKeys`, `IndexKeys` and `Values` give one key and one value per Unicode character of a string. `Object.keys` and `Object.values` give one per UTF-16 code unit, so for a string holding a character outside the Basic Multilingual Plane the source lists more keys and values, two of them lone surrogates.
- The await points in the source are not modelled: every step runs to completion, in order. That includes `this._props.setDbVer(1)` in `migration1`, which the source does not await: the model stores version 1 before the closed documents are read.
- Migrations.Migrator.Migration1: every vote document is taken to have a `votes` object whose members are arrays of voters. In the source, a document without `votes` makes `Object.keys(res.votes)` throw, and a member that is not iterable makes `for (const vote of res.votes[i])` throw; either aborts `migration1` before anything is written and before the version is set. A string member would be merged character by character. None of this is modelled.
- MigrateV3.Get: inherited properties (`length` of a string or an array, the prototype's members) are not modelled. The script only looks up `token`, `polls`, `closed` and own keys, none of which is inherited.

# A verified model of scastd

scastd polls streaming servers, stores their titles and statistics in a database, and keeps rotating
logs. This project models the parts of the daemon that are written by hand and proves what they
promise. `dafny verify dfyconfig.toml` checks all of it.

## What is modelled

- **Polling** (`PollTables`, `PollEngine`, `PollInvariant`, `PollTheorems`, `PollSignals`, `LogLock`). The control
  loop and its workers are a step system: a program counter for the main thread and for every worker, the
  owner of the database lock, the cursor of the shared connection, the tables in order of insertion, and
  the flags that signal handlers change between any two steps. What a server answers, and whether each
  database command succeeds, comes from outside. `PollTables` says what polling one server after another
  does; the theorems compare every interleaving with that. `LogLock` puts the logger's own lock on top.
- **Backend selection** (`Backend`). Start-up and reload as functions on the connection parameters, and a
  class with the seven variables of the loop and its two handles.
- **SQL scripts** (`SqlLexer`, `SqlScript`, `SqlJoin`, `SqlTexts`). The splitter loop with its index, quote state
  and three comment forms is proved against a lexer, and the lexer against a grammar; `SqlTexts` says the same in
  terms of the characters of a script.
- **The dump command** (`Shell`, `DumpCommand`). `Shell` reads command lines by sections 2.2.1, 2.2.2 and
  2.3 of the Shell Command Language volume of POSIX.1-2017; the string the daemon builds is read back by it.
- **Logs** (`Rotation`, `RotationHistory`, `StatusFormat`, `StatusLog`, `Logger`, `LogPaths`). A disk has
  names that denote files; an open stream holds its file, whatever that file is renamed to. On it, the
  rename loop, the size trigger and the two loggers are methods, and `RotationHistory` says what any number
  of writes leaves. `StatusFormat` reads the lines of the status log with a general reader of flat JSON objects.
- **Configuration** (`ConfigFile`, `Configuration`, `Duration`) and the title buffer (`TitleBuffer`).
  `Text` has what they share: decimal numbers, the integer scanner of the C++ library, letter case, C strings.

## Assumptions

- "order by time desc limit 1" returns the newest row inserted for a URL, and stored titles come back
  unchanged. A query runs when it is issued, as in the MySQL and Postgres backends.
- `tellp` is the size of the file, also right after opening for appending. The limit is compared as the
  signed position it is cast to, so a limit of 2^63 or more (a negative `log_max_size`) rotates on
  every write.
- Opening, renaming and removing files succeed, and no file has two names. Nobody else changes the files.
- Outside `LogLock` a signal handler is one step of the system. `LogLock` adds the lock of the logger, which
  handlers and threads take, and lets a signal arrive at any point of a call.

## What the proofs found

- The daemon can hang. Handlers log, and the lock of the logger is not recursive: a signal delivered to a
  thread that holds it makes that thread wait for itself, and then the loop can never end. This is the only
  way (`LogLock.StopsIffHolderNeverHit`, `LogLock.HangIsReachable`).
- Reloading an unchanged file is not always harmless. A server configuration without `dbname` starts on
  sqlite, and its first reload takes the sqlite path for the database name and switches to the server
  (`Backend.ReloadAfterStart`, `Backend.ReloadLeavesSqlite`). Two reloads differ from one only after an empty
  `sqlite_path` (`Backend.ReloadIdempotent`).
- A title is stored twice in a row exactly when the query for the newest title fails, the insert succeeds and
  the title is the one stored last (`PollTables.RepeatsIffBlind`, `PollTheorems.RepeatsExactlyWhenBlind`).
- The splitter gives back the statements of a script exactly when none ends in a dash with a dash comment
  right behind it (`SqlJoin.SplitUndoesJoin`, `SqlJoin.DashIsSwallowed`).
- Deleting a comment can create one (`SqlJoin.DeletedCommentLeavesComment`), so splitting what was sent is
  not the identity; `SqlJoin.SplitsToItself` says exactly when it is.
- The dump does not replace an unknown `DatabaseType`: it runs `sqlite3` on the server's database name,
  where the daemon falls back to `sqlite_path` (`DumpCommand.DumpsTheDaemonsDatabase`,
  `DumpCommand.UnknownTypeDumpsElsewhere`).
- Status lines are JSON only while their texts have no control character besides newline, carriage return
  and tab (`StatusFormat.RecordReadsBack`). docs/Logging.md:27 promises a JSON object on every line.
- Logs that share a path come apart at the first rotation (`Logger.SharedPathComesApart`).
- `1h30m` is one minute, and no duration of two parts, the larger first, has the value of its sum unless it is
  zero (`Duration.CompoundIsMisread`, `Duration.CompoundReadsAsSum`).
- docs/ResourceLimits.md:16 says that a `thread_count` of 0 means one thread per hardware thread. In the
  code it means one worker, and the model follows the code (`PollTheorems.WorkerLimit`).
- README.md:457 of the repository lists `SCASTD_DATABASE_HOST` among the recognised variables. The code does
  not read it (`Configuration.DatabaseHostIsNotRead`).

## Model

| member | source | states |
|---|---|---|
| `Text.StoiOfToString` | src/Config.cpp:134-144 | Reading a printed integer as the configuration does gives the integer back exactly when it fits in an `int`, whatever non-digit follows; otherwise the caller gets its default. |
| `Text.DecimalInjective` | src/StatusLogger.cpp:100-101 | Two rotated files never share a number text: decimal printing is injective. |
| `Text.DecimalNotation` | src/StatusLogger.cpp:100-101 | Printed numbers are decimal: the digits 0 to 9, the most significant first, no leading zero. |
| `Text.IntRange` | src/Config.cpp:134-144 | The integers that count are those from -2147483648 to 2147483647. |
| `Text.BlanksAreSkipped` | src/Config.cpp:134-144 | White space in front of a number, by code points, changes nothing. |
| `Text.PlusSign` | src/Config.cpp:134-144 | A plus sign in front of a number changes nothing. |
| `Text.NoLeadingNumber` | src/Config.cpp:137-142 | A text whose first character behind the white space is neither a digit nor a sign, or is a sign without a digit behind it, holds no number. |
| `Backend.EveryReloadConsistent` | src/scastd.cpp:493-536 | After start-up and any sequence of successful or failed reloads the type is one of the four known names, sqlite comes with empty credentials and port 0, a server type comes with user, host and name; and the name is never empty when every given `sqlite_path` is not. |
| `Backend.ReloadIdempotent` | src/scastd.cpp:620-689 | From every consistent state, reloading the same configuration twice equals reloading it once if and only if the state is not one of the flapping ones (empty name, no `dbname`, non-empty `sqlite_path`, complete server credentials). |
| `Backend.ReachableReloadIdempotent` | src/scastd.cpp:620-689 | From every reachable state, with non-empty sqlite paths, reloading an unchanged configuration a second time changes nothing. |
| `Backend.FlappingIsReachable` | src/scastd.cpp:500-509 | The condition is needed: an empty `sqlite_path` at start-up leads to a state in which two reloads differ from one. |
| `Backend.ReloadAfterStart` | src/scastd.cpp:493-509 | A first reload of the very configuration the daemon started with keeps the backend if and only if the configuration is not a server one without `dbname`; in that case sqlite turns into the server with the sqlite path as database name. |
| `Backend.ReloadLeavesSqlite` | src/scastd.cpp:493-509 | The concrete configuration: mysql with user and host but no `dbname` starts on sqlite, and its first reload selects the server with the default sqlite path as database name. |
| `Backend.FourTypes` | src/scastd.cpp:511-536 | The four known types by name; mysql, mariadb and postgres are servers, and every other name but sqlite is unknown. |
| `Backend.NoIntegerIsDefault` | src/Config.cpp:134-144 | An integer setting that does not start with a number counts as absent. |
| `Backend.StartUsesItsKeys` | src/scastd.cpp:493-499 | With a known server type, a user, a host and a name, each of the seven start parameters is the value under its own key; an absent password or TLS mode is empty, an absent or unreadable port is 0. |
| `Backend.StartsOnSqlite` | src/scastd.cpp:500-536 | Every other configuration starts on sqlite with empty credentials, at `sqlite_path` or /etc/scastd/scastd.db. |
| `Backend.ReloadUsesItsKeys` | src/scastd.cpp:620-626 | A reload that ends on a server: each parameter is the value under its own key, and an absent key keeps it as it was. |
| `Backend.ReloadsOnSqlite` | src/scastd.cpp:627-639 | Every other reload ends on sqlite, at `sqlite_path` or under the name in use. |
| `Backend.OneKeyOneParameter` | src/scastd.cpp:620-626 | Changing one key changes no other parameter, while the backend stays a server. |
| `Backend.MakePair` | src/scastd.cpp:511-536 | Two fresh, distinct, unconnected handles of the kind the type names; an unknown name is reported and gives sqlite handles. |
| `Backend.ReadSettings` | src/scastd.cpp:621-639 | The settings read step by step are the chosen ones, and an unknown type is the only case left for the later fallback. |
| `Backend.Handles.constructor` | src/scastd.cpp:493-580 | After start-up exactly two handles live, both of the kind the type names and connected with the start parameters; the schema script ran exactly when a sqlite file was missing. |
| `Backend.Handles.Replace` | src/scastd.cpp:645-673 | Both old handles are freed, the two new ones are the only live ones. |
| `Backend.Handles.SwitchTo` | src/scastd.cpp:640-678 | The handles stay the same objects exactly when the asked-for type is the current one; any other type, an unknown one included, frees both and gets new ones; an unknown type falls back to sqlite at the given path; the schema is needed exactly for a missing sqlite file. |
| `Backend.Handles.Reconnect` | src/scastd.cpp:679-686 | All seven settings are stored and both handles are connected with them. |
| `Backend.Handles.Reload` | src/scastd.cpp:585-693 | A reload keeps the invariant (two live handles, one kind, connected with the current parameters), ends with the parameters the reload function gives, and changes nothing when the file cannot be loaded. |
| `Backend.Handles.Shutdown` | src/scastd.cpp:733-740 | When the loop returns, every handle ever allocated has been freed. |
| `PollTables.SerialOneUrl` | src/scastd.cpp:348-368 | Polling servers one after another changes the histories of a URL only through the polls of that URL. |
| `PollTables.OnlyAnsweringMatter` | src/scastd.cpp:282-314 | Servers whose fetch or parse failed add no rows. |
| `PollTables.AnyOrderSameHistories` | src/scastd.cpp:348-368 | With distinct URLs every order of the answering servers leaves the same title and statistics histories. |
| `PollTables.SerialNoRepeats` | src/scastd.cpp:349-359 | If the title queries succeed, sequential polling never stores a title equal to the newest one of its URL. |
| `PollTables.FailedSelectRepeats` | src/scastd.cpp:349-359 | The shape of the failure: a server that answers twice with the same title while the title queries fail and the inserts succeed has that title stored twice in a row. |
| `PollTables.RepeatsIffBlind` | src/scastd.cpp:349-359 | A history gains two equal titles in a row if and only if some poll is blind on the history before it: its title query fails, its insert succeeds, and the newest title is the one it plays. |
| `PollTables.SerialRepeatsIffBlind` | src/scastd.cpp:349-359 | The same for each URL of the tables under sequential polling. |
| `PollTables.StaysAddUp` | src/scastd.cpp:349-359 | Two stays on a database that each add no repeat add none together, so switching away and back is covered. |
| `PollTables.SerialInfos` | src/scastd.cpp:360-367 | Server-info rows are appended in the order of the polls. |
| `PollTables.InfoRowsMatch` | src/scastd.cpp:360-367 | When the inserts succeed there is one server-info row per answering poll, with its URL and statistics. |
| `PollTables.PollStoresTitle` | src/scastd.cpp:349-359 | After a successful poll the newest title is the one played, and the history has grown by exactly it if and only if it was empty or ended otherwise. |
| `PollTables.PollStoresStats` | src/scastd.cpp:360-367 | A successful insert of statistics adds one row with the URL and the five numbers. |
| `PollTables.SerialStoresChanges` | src/scastd.cpp:349-359 | When all queries and inserts succeed, each URL has its old history and then the titles played, in order, with equal neighbours collapsed. |
| `PollInvariant.StepKeepsInv` | src/scastd.cpp:584-726 | Every step of the main thread, a worker or a signal keeps the invariant of the pool, the lock, the data and the account of servers served. |
| `PollInvariant.RunKeepsInv` | src/scastd.cpp:584-726 | So does every schedule. |
| `PollInvariant.ReachableInv` | src/scastd.cpp:584-726 | Every state reachable from start-up satisfies it. |
| `PollTheorems.PoolIsBoundedForkJoin` | src/scastd.cpp:709-724 | At most max(1, thread_count) workers live; they serve consecutive servers of the list, batch by batch; at most one is in the critical section; none lives during a load or after the loop; a finished cycle has launched every server. |
| `PollTheorems.WorkerLimit` | src/scastd.cpp:456 | The configured count is `thread_count`, or the number of hardware threads when the key is missing. It is the limit if and only if it is positive; with 0 it is one worker, which is the number of hardware threads only when there is just one. |
| `PollTheorems.ZeroThreadsIsOneWorker` | src/scastd.cpp:456 | `thread_count 0` on eight hardware threads gives one worker. |
| `PollTheorems.CycleIsSerializable` | src/scastd.cpp:699-724 | Every interleaving of a poll cycle ends with the tables that polling the answering servers one after another, in some order, would leave; unless the daemon is exiting these are the servers of the whole list. |
| `PollTheorems.CycleHistoriesAreSequential` | src/scastd.cpp:699-724 | With distinct URLs each URL ends with exactly the histories of polling the list front to back. |
| `PollTheorems.NoRepeatedTitles` | src/scastd.cpp:345-359 | In every reachable state, across batches, cycles and reloads that stay on the database (whatever credentials they change), no URL has gained two consecutive equal titles, if the deciding title queries succeeded. |
| `PollTheorems.RepeatsExactlyWhenBlind` | src/scastd.cpp:345-359 | In every reachable state with the lock free, a URL has gained two consecutive equal titles if and only if one of its polls since the database was connected was blind. |
| `PollTheorems.EveryChangeIsStored` | src/scastd.cpp:345-359 | In every reachable state with the lock free, if all polls since the database was connected succeeded, each URL has the titles found there and then those it played with equal neighbours collapsed: no change of song is missed. |
| `PollTheorems.StatusFollowsDatabase` | src/scastd.cpp:348-368 | Whenever the lock is free and inserts succeeded, the k-th server-info row and the k-th "ok" status report name the same server. |
| `PollSignals.ExitingStays` | src/scastd.cpp:383-400 | No step clears the exit request, and no server joins the cycle after it. |
| `PollSignals.StepWhenExiting` | src/scastd.cpp:694-726 | After an exit request every step of the daemon strictly lowers the distance to the end, and signals do not raise it. |
| `PollSignals.ExitIsBounded` | src/scastd.cpp:694-726 | After an exit request every schedule takes a bounded number of further steps and polls at most the servers already fetched. |
| `PollSignals.NeverStuck` | src/scastd.cpp:584-726 | With handlers taken as single steps and the lock of the logger left aside, some step of the daemon is enabled until the loop has ended: no deadlock on the database lock, the joins or the pause. With that lock see `LogLock`. |
| `PollSignals.OnlyStoppedIsFinal` | src/scastd.cpp:584-741 | In that setting, a reachable state in which only signals can happen has left the loop. |
| `PollSignals.StopsOnRequestOnly` | src/scastd.cpp:694-726 | The loop ends only when an exit was requested. |
| `PollSignals.SignalsSetFlags` | src/scastd.cpp:371-406 | SIGHUP asks for a reload, SIGTERM, SIGINT and SIGUSR2 for the exit, SIGUSR1 flips the pause, twice back to where it was; nothing else changes. |
| `PollSignals.NoCycleWhilePaused` | src/scastd.cpp:699-701 | From a paused state no schedule begins a cycle before the next SIGUSR1. |
| `PollSignals.CycleBeginsUnlessPaused` | src/scastd.cpp:699-707 | Past the exit check a daemon that is not paused begins a cycle with the servers of the member table, and can do nothing else. |
| `PollSignals.FirstCycleBegins` | src/scastd.cpp:584-707 | Without signals the third step from start-up begins a cycle, on the tables found and with the parameters of the configuration. |
| `PollSignals.FailureIsReported` | src/scastd.cpp:282-314 | A server without a usable answer is reported as an error, without the lock and without a row. |
| `PollSignals.RequestStays` | src/scastd.cpp:402-406 | A reload request stays pending until the top of the loop turns it into a load. |
| `PollSignals.HangupIsNotLost` | src/scastd.cpp:585-587 | Along every schedule after a reload request a load begins, or the request is still pending and the steps taken are bounded. |
| `PollSignals.HangupIsHeard` | src/scastd.cpp:402-406 | The same from any state for every schedule that starts with a SIGHUP, whether or not a request was pending. |
| `PollSignals.LoadIsAllOrNothing` | src/scastd.cpp:585-693 | A load never runs beside a worker or inside the critical section and keeps the invariant; a failed one moves only the program counter; a successful one has the parameters of the reload; with type, host, port and name as before, tables, order, status log and history go on, and otherwise the tables are those found. |
| `PollSignals.NewPasswordKeepsHistory` | src/scastd.cpp:620-686 | A reload that changes nothing but the password goes on with the same tables and the same history. |
| `LogLock.MoveKeepsInv` | src/logger.cpp:143-161 | Every move of threads and handlers through the logger keeps the invariant: at most one call holds the lock, and it is a call of the owner. |
| `LogLock.DeliveryEnters` | src/scastd.cpp:371-406 | A delivered signal enters the logger on top of what the thread was doing, and nothing else changes. |
| `LogLock.HandlersSetFlags` | src/scastd.cpp:371-406 | When the call of a handler returns, HUP has left a reload request, TERM, INT and USR2 an exit request, and USR1 the pause opposite to what it was at delivery; nothing else of the daemon changes. |
| `LogLock.OnlyDeliveryToHolderLocks` | src/scastd.cpp:371-406 | A thread comes to wait for itself by one move only: the delivery of a signal to the thread that holds the lock of the logger. |
| `LogLock.SelfLockedStays` | src/logger.cpp:143-145 | From then on no thread gets the lock or gives it back. |
| `LogLock.SelfLockedForGood` | src/scastd.cpp:371-406 | From then on, under every schedule, the loop never ends, the code takes a bounded number of further steps, and no signal has any effect. |
| `LogLock.CanStopIffNotSelfLocked` | src/scastd.cpp:694-726 | From any state some schedule ends the loop if and only if the holder does not wait for itself. |
| `LogLock.ProgressUnlessSelfLocked` | src/scastd.cpp:584-726 | While it does not, something other than a signal can happen until the loop has ended. |
| `LogLock.StopsIffHolderNeverHit` | src/scastd.cpp:371-406 | After every run from start-up the loop can still end if and only if no signal was delivered to a thread while it held the lock of the logger. |
| `LogLock.HangIsReachable` | src/scastd.cpp:402-406 | The input: a SIGHUP while the main thread writes its first message, after which the loop can never end. |
| `SqlLexer.FlattenLex` | src/scastd.cpp:138-175 | Cutting a script into pieces loses and moves no character. |
| `SqlLexer.LexFlatten` | src/scastd.cpp:138-175 | A grammatical sequence of pieces is what the lexer finds in its text. |
| `SqlLexer.LexGrammatical` | src/scastd.cpp:138-175 | The lexer result is grammatical for every text, unterminated strings and comments included. |
| `SqlLexer.LexIsTheGrammar` | src/scastd.cpp:138-175 | The lexer result is the one and only grammatical cut of a text. |
| `SqlLexer.LexConcat` | src/scastd.cpp:138-175 | Closed text followed by more text is cut as the two are, when no comment opener arises at the seam. |
| `SqlScript.TrimIs` | src/scastd.cpp:113-118 | `trim(s)` is `t` if and only if `s` is `t` between blanks and `t` has no blank at either end. |
| `SqlScript.RawIsVisible` | src/scastd.cpp:138-175 | The raw statements joined with their semicolons are the script with its comments deleted. |
| `SqlScript.QuotedStaysWhole` | src/scastd.cpp:142-148 | Every quoted string of a script is, whole, part of one statement. |
| `SqlScript.SentCountIs` | src/scastd.cpp:163-175 | The number of queries sent is all of them exactly when every one is accepted; otherwise the last one sent is the first that fails. |
| `SqlScript.LineEnd` | src/scastd.cpp:149-156 | The scan for the end of a line comment stops where the lexer ends it. |
| `SqlScript.BlockEnd` | src/scastd.cpp:157-162 | The scan for the end of a block comment stops where the lexer ends it, although the index can pass the end of the script. |
| `SqlScript.SkipComment` | src/scastd.cpp:149-162 | The three comparisons recognise a comment exactly when the lexer does and skip exactly its text. |
| `SqlScript.TakeQuoted` | src/scastd.cpp:142-147 | One turn inside a string, backslash included, keeps what is still to be sent. |
| `SqlScript.SendTrimmed` | src/scastd.cpp:163-169 | A statement is trimmed and sent unless it is empty. |
| `SqlScript.Scanner` | src/scastd.cpp:138-175 | The loop sends what the lexer makes of the script, stops at the first failure, indexes in range and terminates, on every input. |
| `SqlScript.RunScript` | src/scastd.cpp:138-175 | A script is sent as its queries in order, up to the first that fails; the result is true exactly when none failed. |
| `SqlScript.SetupDatabase` | src/scastd.cpp:120-176 | The installed script is preferred to the one in the source tree; a missing script sends nothing and fails; sqlite gets the script whole, the others statement by statement. |
| `SqlScript.InstalledScriptWins` | src/scastd.cpp:123-128 | /etc/scastd/mysql.sql is used when it is there and src/mysql.sql otherwise; likewise for sqlite and postgres. |
| `SqlJoin.ItemQueries` | src/scastd.cpp:138-175 | A clean statement between gaps, followed by a semicolon, gives what is left of the statement, and the rest is split on its own. |
| `SqlJoin.KeptIs` | src/scastd.cpp:149-156 | All of the statement is left if and only if it is not fused: it does not end in a dash with a dash comment right behind it. |
| `SqlJoin.ScriptQueries` | src/scastd.cpp:138-175 | Any list of clean statements, joined by semicolons with any white space and any complete comments around them, is split into what is left of each. |
| `SqlJoin.SplitUndoesJoin` | src/scastd.cpp:138-175 | Such a script is split into exactly the list of its statements if and only if no statement is fused with the comment behind it. |
| `SqlJoin.SplitUndoesJoinOpen` | src/scastd.cpp:138-175 | The same when the last statement has no semicolon. |
| `SqlJoin.DashIsSwallowed` | src/scastd.cpp:149-156 | The statement `-` with the comment `--` right behind it is not sent at all. |
| `SqlJoin.SplitsToItself` | src/scastd.cpp:138-175 | A tight text is one query, itself, if and only if it has no comment and no semicolon outside strings. |
| `SqlJoin.DeletedCommentLeavesComment` | src/scastd.cpp:157-162 | Deleting comments can leave a comment: `-/**/-` is sent as `--`. |
| `SqlTexts.LineCommentIsSkipped` | src/scastd.cpp:149-156 | `--` or `#` and what follows up to the end of the line is skipped. |
| `SqlTexts.BlockCommentIsSkipped` | src/scastd.cpp:157-162 | `/*` and what follows up to the next `*/` is skipped. |
| `SqlTexts.BlankIsSkipped` | src/scastd.cpp:113-118 | A blank, tab, carriage return or newline in front changes nothing. |
| `SqlTexts.EmptyIsSkipped` | src/scastd.cpp:163-169 | Empty statements are not sent. |
| `SqlTexts.QuotedIsOneStatement` | src/scastd.cpp:142-148 | Text in either kind of quotes is one statement, semicolons, comment openers and the other quote included. |
| `SqlTexts.BackslashProtects` | src/scastd.cpp:142-147 | A backslash inside quotes protects any character, the quote and the backslash included. |
| `SqlTexts.SemicolonEndsStatement` | src/scastd.cpp:163-169 | Plain text up to its semicolon is one statement, and the rest is split on its own. |
| `DumpCommand.ShellEscape` | src/scastd.cpp:103-111 | The loop computes the escaped field. |
| `DumpCommand.ReadEscaped` | src/scastd.cpp:103-111 | A shell reads an escaped field, whatever it holds, as exactly its characters, all of them quoted; an empty field is an empty word. |
| `DumpCommand.ReadLine` | src/scastd.cpp:230-245 | A shell reads a line of such parts part by part into exactly their tokens. |
| `DumpCommand.LineWithNul` | src/scastd.cpp:230-245 | A NUL in a field cuts the C string inside a quotation, which the shell then finds unterminated. |
| `DumpCommand.ParseCommand` | src/scastd.cpp:244-245 | A command name, its words and one redirection are read as that command. |
| `DumpCommand.ParseWithEnv` | src/scastd.cpp:231-243 | The same behind one variable assignment. |
| `DumpCommand.DumpLineMeans` | src/scastd.cpp:230-248 | The line built for given settings means the intended command when no field holds a NUL, and no command otherwise. |
| `DumpCommand.ServerCommand` | src/scastd.cpp:231-243 | The string built step by step for a server is that line, with the options that are given. |
| `DumpCommand.SqliteCommand` | src/scastd.cpp:244-245 | The same for sqlite. |
| `DumpCommand.DumpCommandLine` | src/scastd.cpp:209-248 | For every configuration: what the shell started by `system` runs is exactly the intended dump with one redirection to the dump file if no field holds a NUL, and nothing otherwise. |
| `DumpCommand.DumpsTheDaemonsDatabase` | src/scastd.cpp:209-245 | The dump is one of the database that the daemon uses when it starts with the same configuration, if and only if the type is known, or user, host or name is missing, or the name is the sqlite path. |
| `DumpCommand.UnknownTypeDumpsElsewhere` | src/scastd.cpp:209-245 | With `DatabaseType oracle` and user, host and name given, the two differ. |
| `DumpCommand.EscapedTexts` | src/scastd.cpp:103-111 | A field without quotes is put between quotes; a quote inside becomes quote, backslash, quote, quote. |
| `DumpCommand.ServerDumpRuns` | src/scastd.cpp:209-245 | For complete server settings: `mysqldump` with MYSQL_PWD, -h, -P, -u, or `pg_dump` with PGPASSWORD, -h, -p, -U, each with the value under its own key, the port only when positive, then the database name; for any other type `sqlite3` on the database name. |
| `DumpCommand.LocalDumpRuns` | src/scastd.cpp:209-245 | Every other configuration runs `sqlite3` on `sqlite_path` or /etc/scastd/scastd.db with `.dump`. |
| `TitleBuffer.TrimRight` | src/scastd.cpp:92-101 | In place, the C string in the buffer becomes its right-trimmed form, and only the removed blanks are overwritten. |
| `TitleBuffer.TrimmedRightIs` | src/scastd.cpp:92-101 | Right-trimming removes exactly the blanks at the end, except that it never removes the first character. |
| `Rotation.SlotInjective` | src/logger.cpp:170-172 | The names of one log's files are all different. |
| `Rotation.SlotNames` | src/StatusLogger.cpp:100-101 | The live file has the path as its name, the others the path, a dot and their decimal number. |
| `Rotation.MoveOneSlot` | src/logger.cpp:170-178 | One turn of the rename loop moves one slot up and frees the one below, for every pattern of files. |
| `Rotation.MoveSlot` | src/logger.cpp:171-177 | One turn renames the file if it is there, and its rename replaces no existing file. |
| `Rotation.ShiftFiles` | src/logger.cpp:170-178 | The whole loop shifts the family, gaps included, changes no contents and no other name, and never renames onto an existing file. |
| `Rotation.RotateFiles` | src/logger.cpp:169-179 | A rotation puts a new empty file in front of the shifted family; slot R is lost only if slot R-1 was there. |
| `Rotation.RotationOfFiles` | src/StatusLogger.cpp:98-108 | Seen by contents, slot i receives what slot i-1 held, the live file is empty, and files outside the family are as before. |
| `Rotation.AppendToLive` | src/StatusLogger.cpp:88-89 | Writing to the live file appends to slot 0 and changes no other file. |
| `RotationHistory.AfterAllIsWritten` | src/StatusLogger.cpp:72-109 | The bookkeeping of which file holds which messages agrees with the bytes of the files after any run of writes, from every start. |
| `RotationHistory.FilesOfLayoutOf` | src/StatusLogger.cpp:92-109 | Every family of files, gaps included, is such a start. |
| `RotationHistory.HeldAfter` | src/StatusLogger.cpp:92-109 | One write drops the oldest file exactly when the family rotates while its last two slots are occupied, and keeps everything else in order. |
| `RotationHistory.HeldIsSuffix` | src/StatusLogger.cpp:72-109 | From every start, gaps included, what a family holds is always a suffix of everything ever written to it, message by message. |
| `RotationHistory.RetainedFromBelow` | src/logger.cpp:143-180 | From a gap-free family whose rotated files are full: either nothing was dropped or at least maxSize bytes for each rotated slot are still there. |
| `RotationHistory.GapLosesMore` | src/logger.cpp:163-180 | With a gap the bound fails: with slot 1 missing, the first rotation drops the oldest of three slots and leaves less than three full files. |
| `RotationHistory.EveryFileBounded` | src/logger.cpp:143-180 | From every start, gaps and oversized files included, no file to which the run added something exceeds maxSize - 1 + L bytes, where no message is longer than L; and no file does at all if none did at the start. |
| `RotationHistory.RetainedFromAbove` | src/logger.cpp:143-180 | A family with R rotated slots and no file over that bound at the start, an empty one for example, never holds more than (R + 1) * (maxSize - 1 + L) bytes. |
| `RotationHistory.NoLimitNeverRotates` | src/logger.cpp:164-165 | With limit 0 a run of writes only adds to the live file. |
| `RotationHistory.HugeLimitRotatesAlways` | src/logger.cpp:166-168 | With a limit of 2^63 or more every write goes to a new file and the live one becomes slot 1, whatever it held. |
| `RotationHistory.RotatesAtLimit` | src/logger.cpp:164-168 | Between these the family rotates exactly when the bytes of the live file have reached the limit. |
| `StatusFormat.Escape` | src/StatusLogger.cpp:56-70 | The loop computes the escaped text. |
| `StatusFormat.EscapedReadsBack` | src/StatusLogger.cpp:56-70 | By section 7 of RFC 8259 an escaped text reads back as itself if and only if it has no control character besides newline, carriage return and tab. |
| `StatusFormat.LineReadsAsMembers` | src/StatusLogger.cpp:83-87 | By a general reader of flat JSON objects a line is the four pairs named "timestamp", "action", "result" and "metadata" with the four values, in this order, if and only if its three texts are readable; otherwise it does not read. |
| `StatusFormat.ShortEscapes` | src/StatusLogger.cpp:59-67 | The five escaped characters, as they are written and as they are read; every other one stands for itself. |
| `StatusFormat.ReadableCodes` | src/StatusLogger.cpp:59-67 | Readable texts have no code point below 32 besides 9, 10 and 13. |
| `StatusFormat.RecordReadsBack` | src/StatusLogger.cpp:83-87 | Looking the members up by those names gives the record back if and only if its three texts are readable. |
| `StatusFormat.LineHasNoNewline` | src/StatusLogger.cpp:83-88 | A record is one line, whatever its texts are. |
| `StatusLog.StatusLogger.constructor` | src/StatusLogger.cpp:30-33 | A new logger has its stream open on its path; an existing file keeps its contents. |
| `StatusLog.StatusLogger.SetPath` | src/StatusLogger.cpp:35-40 | The stream is open on the file the new path names; existing contents are kept. |
| `StatusLog.StatusLogger.SetRotation` | src/StatusLogger.cpp:42-46 | Limit and retention are stored, the stream stays bound. |
| `StatusLog.StatusLogger.RotateIfNeeded` | src/StatusLogger.cpp:92-109 | The family rotates exactly when limit and retention are set and the live file has reached the limit as a signed stream position. |
| `StatusLog.StatusLogger.Log` | src/StatusLogger.cpp:72-90 | One call adds exactly one record line to the family, rotating first when due, and touches no other file. |
| `StatusLog.Render` | src/StatusLogger.cpp:82-88 | The text put together member by member is the record line. |
| `StatusLog.LogAll` | src/StatusLogger.cpp:72-90 | A run of calls on one logger leaves its family as the record lines, written one after another, make it, and no other file changes. |
| `StatusLog.FileReadsBack` | src/StatusLogger.cpp:72-90 | A file written record by record reads back as those records. |
| `StatusLog.FamilyReadsBack` | src/StatusLogger.cpp:92-109 | Reading slots R down to 1 and then the live file, missing ones skipped, gives the records held, none split across files. |
| `StatusLog.StatusFamilyReadsBack` | src/StatusLogger.cpp:72-109 | From any family of whole records, gaps included, after any run of calls the files read back as a suffix of the records found followed by the calls; if one is missing although there was no gap and the rotated files were full, at least R * maxSize bytes are still there. |
| `StatusLog.FreshStatusFamilyReadsBack` | src/StatusLogger.cpp:72-109 | A new log reads back as a suffix of the calls; if a call is missing the files hold at least R * maxSize bytes. |
| `Logger.Logger.constructor` | src/logger.cpp:32-49 | The streams are open exactly when logging is enabled, each on the file its path names. |
| `Logger.Logger.SetLogFiles` | src/logger.cpp:51-60 | The same after new paths, for any paths. |
| `Logger.Logger.SetLogDir` | src/logger.cpp:62-74 | The three standard names are set and are separate in every directory. |
| `Logger.Logger.SetDebugLevel` | src/logger.cpp:81-86 | The level is limited to 1 to 4. |
| `Logger.Logger.SetRotation` | src/logger.cpp:95-99 | Limit and retention are stored; streams are untouched. |
| `Logger.Logger.SetEnabled` | src/logger.cpp:101-113 | A change opens all three streams on their current paths or closes all three; no change does nothing. |
| `Logger.Logger.OpenStreams` | src/logger.cpp:128-141 | Every stream is open on the file its path names now, even when paths coincide; existing files keep their contents. |
| `Logger.Logger.RotateIfNeeded` | src/logger.cpp:163-180 | The whole effect on disk and stream, whether or not the stream is bound to its path. |
| `Logger.Logger.Write` | src/logger.cpp:143-161 | Nothing when disabled; otherwise the whole effect on the disk in every state, and for a bound stream: it stays bound, its family has one more newline-terminated message and every other file is as before. |
| `Logger.OneNewline` | src/logger.cpp:149-151 | A message that is not empty is written with the newline it ends in, or with exactly one added; an empty one stays empty. |
| `Logger.Logger.LogAccess` | src/logger.cpp:115-117 | With separate paths all three streams stay bound and only the access family changes. |
| `Logger.Logger.LogError` | src/logger.cpp:119-121 | With separate paths all three streams stay bound and only the error family changes. |
| `Logger.Logger.LogDebug` | src/logger.cpp:123-126 | The same for the debug family; nothing above the debug level. |
| `Logger.RotatedNamesDiffer` | src/logger.cpp:170-172 | Rotated names of two logs coincide only for the same path and number. |
| `Logger.FamiliesAreDisjoint` | src/logger.cpp:170-172 | All rotation names of two logs are distinct if and only if the paths differ and neither is the other plus "." and a printed number. |
| `Logger.BoundWrite` | src/logger.cpp:143-161 | A write through a bound stream leaves it bound and its family with one more message. |
| `Logger.StaysBound` | src/logger.cpp:163-180 | Another log stays bound during a write if and only if this log does not rotate, or the other path is not among its slots, or is its last slot with nothing moving up. |
| `Logger.SharedPathComesApart` | src/logger.cpp:163-180 | Two logs at one path: after the first rotation the other stream writes to the file that is now the newest rotated one. |
| `Logger.EachLogOnItsOwn` | src/logger.cpp:143-180 | However writes to separate logs are interleaved, each log's files end as if its own messages had been written alone. |
| `Logger.EachLogKeepsItsNewest` | src/logger.cpp:143-180 | In any such interleaving, from every start, each log ends with a suffix of what it held and its messages, and every file the run filled is within the bound; the two-sided bounds on the total hold from gap-free and from bounded starts. |
| `Logger.LogMessages` | src/logger.cpp:115-161 | Any sequence of access, error and debug calls on a logger with separate paths is such a run, one write for each message that is not above the debug level, and leaves all three streams bound. |
| `LogPaths.ConfiguredLogsApart` | src/Config.cpp:201-209 | Two relative log names, or two others, are separate in any directory if and only if the names are; a relative and another one if and only if the other lies outside the directory or does not collide inside it. |
| `LogPaths.LandsInDirectory` | src/Config.cpp:201-209 | A relative name lands in the log directory with exactly one slash added when the directory lacks it; other names stay as they are. |
| `Duration.UnitIsLongestSuffix` | src/Config.cpp:156-172 | The comparisons, in the order the program makes them, find the longest suffix that names a unit: no unit is misread as another. |
| `Duration.UnitBehindNumber` | src/Config.cpp:156-172 | Behind a digit only what follows it can be a unit, and cutting the unit off leaves the digits. |
| `Duration.NumberAndLastUnitCount` | src/Config.cpp:146-179 | In a setting that starts with a printed number only that number and the last unit count, whichever letters are capitals. |
| `Duration.DurationReadsBack` | src/Config.cpp:146-179 | Every printed number with every unit, each letter small or the capital 32 code points below it, reads as the product when it fits; a number out of range gives the default. |
| `Duration.SuffixesAsDocumented` | src/Config.cpp:146-179 | `ms` and no suffix are milliseconds, `s` counts 1000, `m` 60000, `h` and `hr` 3600000. |
| `Duration.CapitalsCount` | src/Config.cpp:151-155 | `5M` is 300000 milliseconds. |
| `Duration.NoNumberIsDefault` | src/Config.cpp:173-178 | A setting that does not start with a number gives the default. |
| `Duration.CompoundIsMisread` | src/Config.cpp:146-179 | `1h30m` reads as one minute. |
| `Duration.CompoundReadsAsSum` | src/Config.cpp:146-179 | A setting of two numbers with units, the larger unit first, has the value of the sum if and only if both numbers are zero. |
| `Configuration.Config.GetDuration` | src/Config.cpp:146-179 | The method computes that value, and the default for a missing key. |
| `ConfigFile.LineReads` | src/Config.cpp:36-50 | A line gives its first two words, whatever the spacing and whatever words or comment follow. |
| `ConfigFile.CommentIsIgnored` | src/Config.cpp:37-45 | Blank lines and comment lines set nothing. |
| `ConfigFile.KeyAlone` | src/Config.cpp:41-49 | A key without a value is set to the empty text. |
| `ConfigFile.WordsByCode` | src/Config.cpp:36-49 | Words and white space by code points; the comment sign is code point 35. |
| `ConfigFile.LinesAreCut` | src/Config.cpp:35-36 | Lines are cut at newlines, and an end without a newline is a line too. |
| `ConfigFile.FromLines` | src/Config.cpp:36-51 | Line by line, every key ends with the value of its last line, or else its earlier value. |
| `ConfigFile.FileReadsBack` | src/Config.cpp:30-51 | A printed list of settings reads back, the last one for a key winning. |
| `Configuration.StrongestLayerWins` | src/Config.cpp:69-121 | The overrides, applied in the program's order, give every key the value of its strongest layer. |
| `Configuration.SecretReads` | src/Config.cpp:53-66 | A secret is the first line of its file with one carriage return at its end dropped. |
| `Configuration.NoSecret` | src/Config.cpp:53-61 | There is no secret exactly when no file is named, the file cannot be opened, or it is empty. |
| `Configuration.UsernameLayers` | src/Config.cpp:69-89 | `username` is SCASTD_USERNAME, or else the secret in the file SCASTD_USERNAME_FILE names, or else that in `username_file`, or else as loaded. |
| `Configuration.PasswordLayers` | src/Config.cpp:73-93 | `password` likewise, from SCASTD_PASSWORD, SCASTD_PASSWORD_FILE and `password_file`. |
| `Configuration.AdminLayers` | src/Config.cpp:95-108 | `iceadminuser` is ICEADMINUSER, or else SCASTD_ADMINUSER; `iceuserpass` is ICEUSERPASS, or else SCASTD_USERPASS. |
| `Configuration.LimitLayers` | src/Config.cpp:110-121 | `thread_count`, `cpu_cores` and `memory_limit` have one variable each. |
| `Configuration.OtherKeysAreAsLoaded` | src/Config.cpp:69-121 | Every other key is as the file leaves it. |
| `Configuration.OnlyTheseVariables` | src/Config.cpp:78-121 | A load depends on the environment through eleven variables only. |
| `Configuration.DatabaseHostIsNotRead` | src/Config.cpp:78-121 | The variable `SCASTD_DATABASE_HOST` has no influence. |
| `Configuration.Config.Load` | src/Config.cpp:30-124 | A file that cannot be opened changes nothing; otherwise every key has the value of its strongest layer over what the lines leave. |
| `Configuration.Config.LoadLines` | src/Config.cpp:35-51 | The line loop reads every line of the file, a last one without newline included. |
| `Configuration.Config.LoadOverrides` | src/Config.cpp:53-121 | The overrides are applied in the program's order. |
| `Configuration.Config.Set` | src/Config.cpp:181-183 | Exactly one key changes. |

## Left out

- RotationHistory.RetainedFromBelow: starts from a gap-free family whose rotated files are full, because otherwise the bound fails (`RotationHistory.GapLosesMore`), and needs a positive limit below 2^63.
- StatusLog.StatusFamilyReadsBack: limit and retention stay fixed during the run, because a smaller retention strands old files.
- Logger.EachLogOnItsOwn: limit and retention are fixed and the same for all logs, as the daemon sets them from the same two settings; a smaller retention strands old files.
- Logger.Logger.LogAccess: keeps all three streams bound only for separate paths; for other paths `Logger.StaysBound` says exactly when.
- PollTheorems.StatusFollowsDatabase: the status log is the list of poll reports; requests to the HTTP interface also write to it, and its rotation is treated by itself in `StatusLog`.
- PollSignals.NeverStuck: leaves the lock of the logger aside, with which it is false; `LogLock` has the exact condition.
- LogLock.StopsIffHolderNeverHit: a thread may call the logger between any two of its steps rather than at the program's own places; the threads of the HTTP server, which log too, are not part of this model, and neither is memory shared with an interrupted library call.
- PollTheorems.NoRepeatedTitles: a reload onto another database starts from what is found there; `PollTables.StaysAddUp` joins two stays on the same database.
- Backend.Handles.Reload: connecting and running the schema script are taken to succeed, as the code ignores their results; the directory of a sqlite file is not created.
- SqlScript.SetupDatabase: the sqlite script is handed over whole; what the library makes of it is not part of this model.
- DumpCommand.DumpCommandLine: the shell reader covers the tokens, quotes, assignments and output redirections that such lines use; any other operator or expansion makes it report that it cannot read the line.
- Configuration.Config.GetDuration: a product outside the `int` range is undefined in C++ and is a separate result here.
- The lazy `prepare` and `step` of the sqlite backend: insert counts do not hold for it.
- libcurl, libxml2, libmicrohttpd, OpenSSL and the database client libraries: their answers are parameters.
- The HTTP server, the Icecast client, URL parsing, translation and usage texts: plumbing with easy properties.
- Fixed buffers and `strcpy` in `processServer`, and the truncation of long queries: memory and platform concerns. The engine takes titles as already trimmed.
- Unescaped titles inside SQL text and dialect questions (dollar quoting, `#` as an operator): queries are abstract commands.
- Boolean settings, console and syslog output, file permissions, `mkdir`, forking, CPU and memory limits, the PID file.
- Time: the timestamp of a record is any text that needs no escaping, and the sleep between cycles has no length.
- Command-line overrides of a loaded configuration: they are further `Set` calls on it, so the selection functions take the resulting map.
- `\u` escapes in the JSON reader: the writer never produces them.

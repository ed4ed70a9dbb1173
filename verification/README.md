# A verified model of the IRC bot

The bot reads bytes from an IRC server, parses them into messages, offers each
message to its plugins, and lets every plugin handle what it accepted on a thread
of its own; users talk to plugins through command lines. This project models that
path in Dafny and proves what it keeps and where its promises end.

| file | what it models |
|---|---|
| `irc_message.dfy` | the message value and its printer |
| `irc_parser.dfy` | the line parser as a class: character lexer, token queue, token machine; its meaning as functions |
| `irc_eager.dfy` | the same parser without the queue, refined by the queued one at every character |
| `irc_agreement.dfy` | lexer and token machine agree in every reachable state |
| `irc_shape.dfy` | the shape of everything the parser emits |
| `irc_chunking.dfy` | what cutting the input loses, and exactly which cuts are harmless |
| `irc_grammar.dfy`, `irc_rfc.dfy`, `irc_stream.dfy` | lines of section 2.3.1 of RFC 1459 and streams of them, and exactly which are understood |
| `irc_reconnect.dfy` | what a broken connection leaves behind for the next one |
| `irc_roundtrip.dfy` | printing and parsing as inverses, exactly |
| `irc_noise.dfy` | characters that have no place where they stand, and that they can be left out |
| `command_parser.dfy`, `command_quoting.dfy` | the parser of user commands, its splitter position by position, and encoders |
| `command_grammar.dfy` | a grammar of all texts the command parser accepts, and that it reads each as the grammar means it |
| `plugin_worker.dfy` | network, worker and control thread of one plugin, interleaved |
| `plugin_control.dfy` | what a start, stop, restart or reload comes to, and what exceptions and waiting do to the worker |
| `dispatch.dfy`, `system.dfy` | the receive handler, and the whole path of a message under every interleaving, with plugins that come and go |
| `worker_histories.dfy` | every plugin of the whole system runs as a plugin alone |
| `handler.dfy` | the handler and the queues in place as a run of the whole system |
| `registry.dfy` | plugin vector, library handles and the loader's reference counts |
| `backoff.dfy` | the waiting times between connection attempts in 32-bit arithmetic |

`options.dfy` holds the option type. `dafny verify dfyconfig.toml` checks everything.

How it is put together. The lexer's transition (`IRCParsing.MoveOf`) depends on
the state and the character only; `LexChar` applies it to the token buffer. The
class `IRCParser` runs both machines in place and is proved equal to `ParseChunk`.
Proofs about whole runs go through the queue-free form (`IRCEager`), one character
at a time. Characters are Dafny `char`s; the code only compares them, so bytes are
a special case.

Where the code falls short of its own documentation, the model follows the code:

- Messages may come "in parts" (`include/ircbot/irc_parser.hpp:15-17`): the partial
  token is local to one call, so a cut inside a token loses text
  (`IRCChunking.PartsLoseText`). What remains true is `ChunkingOnlyLosesText`, and
  `CutIsHarmlessIffBufferEmpty` says exactly when nothing is lost.
- RFC 1459 compliance (`include/ircbot/irc_parser.hpp:13`): a user with an '@', a nick
  without user and host, a ':' inside a middle parameter, an unprefixed command of one
  character, and a command without a space behind it are not understood, and an empty
  line before a line is not ignored but becomes part of it. `IRCRfc.RfcLineIff` proves
  for one line, and `IRCStream.StreamIff` for any stream of lines and empty lines, that
  these are the only exceptions.
- The parser outlives its connection: a connection that breaks inside a line spoils the
  next one, and `IRCReconnect.ReconnectIff` proves that nothing else does.
- The receive is armed before the plugins are loaded: what arrives earlier reaches none
  of them (`WholeSystem.GreetingIsMissed`). `WholeSystem.WholeShareIff` proves that a
  plugin has its part of everything exactly when it admits nothing that came before it.
- The optional prefix of a command parser (`include/ircbot/command_parser.hpp:17-20`):
  without one a plugin is offered only empty texts
  (`Dispatch.NoPrefixAdmitsOnlyEmptyTexts`).
- A stop that clears the flag before the new thread has stored to it is undone by
  that store; `PluginWorker.StopBoundIff` proves that this is the only way in which
  a stop lets more than one message through, and `StopBoundFails` that a start and an
  immediate stop get there.
- A reload closes whatever handle is on record for the id, if any.
  `Registry.LedgerIff` proves that the count of open libraries stays what plugins use
  and have leaked exactly as long as every reload finds its plugin's own library and
  succeeds; `Registry.LibrariesOutlivePlugins` that no library is closed under a plugin
  exactly as long as every reload closes one that is open more often than the others
  need it; `AllowedRunsAreSound` gives a rule that ensures both. Every reload of a plugin
  connected over TCP fails it (`TcpReloadFaults`).
- The backoff is capped doubling only for the configurations of `Backoff.Safe`.

## Model

| member | source | states |
|---|---|---|
| IRCMessages.ToString | source/irc_message.cpp:13-37 | the printer's appending loop writes the text of the message read from left to right, with or without the line end |
| IRCParsing.IRCParser.Parse | source/irc_parser.cpp:10 | one call takes the parser to the state `ParseChunk` gives, from any state |
| IRCParsing.IRCParser.Lexer | source/irc_parser.cpp:22-170 | the character loop, with its local token buffer and its calls of the token machine, computes `ParseChunk` |
| IRCParsing.IRCParser.LexOne | source/irc_parser.cpp:34-162 | the chain of branches for one character is the transition table applied to the buffer |
| IRCParsing.IRCParser.Parser | source/irc_parser.cpp:172-248 | the queue is emptied and every token absorbed in order |
| IRCParsing.IRCParser.GetMessage | source/irc_parser.cpp:16-20 | the first finished message is handed out and leaves the queue |
| IRCEager.ChunksRefine | source/irc_parser.cpp:164-168 | over every run of calls the queued parser is the parser that absorbs each token as it is put |
| IRCAgreement.LexerParserAgreement | source/irc_parser.cpp:164-248 | in every reachable state the queued tokens form a path fixed by the lexer state; every call of the token machine reports no error, pushes exactly one message and leaves queue and message blank |
| IRCShape.OutputsAreClean | source/irc_parser.cpp:43-153 | no emitted message has server name and nick, all its parts are free of their delimiters, and all parameters but the last are non-empty words |
| IRCChunking.ChunkingOnlyLosesText | source/irc_parser.cpp:22-23 | for every stream and every cutting, the messages correspond one to one, every field is a suffix of the uncut one, and parameters are only deleted or cut at the front |
| IRCChunking.FramingIgnoresCuts | source/irc_parser.cpp:31-169 | lexer state and number of messages depend on the stream only, not on how it is cut |
| IRCChunking.CutIsHarmlessIffBufferEmpty | source/irc_parser.cpp:22-23 | in every reachable state a cut is harmless for every continuation if and only if the token buffer is empty there |
| IRCChunking.CutIsHarmlessIffNothingKept | source/irc_parser.cpp:22-153 | the same on the text alone: if and only if no character of the call is kept for a token still open, reading the transitions of the lexer over everything received |
| IRCChunking.LineEndIsHarmless | source/irc_parser.cpp:164-168 | cutting where the parser is back at its start changes nothing |
| IRCChunking.HarmlessCutsJoin | source/irc_parser.cpp:10-23 | a run of calls that each end with an empty buffer is one call on the joined text |
| IRCChunking.WholeLinesAreHarmless | source/irc_parser.cpp:22-168 | calls that each start and end between two lines leave the buffer empty every time |
| IRCChunking.PartsLoseText | include/ircbot/irc_parser.hpp:15-17 | a command cut after two or more letters comes out without them, for all such commands |
| IRCGrammar.LineYieldsFound | source/irc_parser.cpp:34-168 | every readable line yields exactly one message, and which one, also when a ':' in a middle parameter swallows the rest |
| IRCGrammar.EndlessCommand | source/irc_parser.cpp:95-114 | a command without a space behind it swallows its line end and yields nothing |
| IRCRfc.FirstCommand | source/irc_parser.cpp:34-42 | for every text, the first message's command is a word after a prefix, and otherwise the first character followed by a word |
| IRCRfc.EveryCommand | source/irc_parser.cpp:34-168 | in a text parsed in one call every command is a word or, only without a prefix, one more character that is no ':' and a word |
| IRCRfc.RfcLineIff | include/ircbot/irc_parser.hpp:13 | a line of RFC 1459 section 2.3.1, with any spacing and either line end, users with '@' and nicks alone included, yields the message of the grammar if and only if it is `Understood`, and then leaves the parser as it was |
| IRCStream.StreamIff | include/ircbot/irc_parser.hpp:13-18 | any lines and empty lines one after another yield exactly the meanings of the lines if and only if every line is understood and no empty line comes before a line |
| IRCStream.LineYieldsAtMostOne | source/irc_parser.cpp:31-169 | from wherever a line can begin, also behind empty or unended ones, a line yields at most one message and ends where another can begin |
| IRCStream.EmptyLineTaints | source/irc_parser.cpp:35-42 | after an empty line, whatever follows, the next message's command begins with that line's first character |
| IRCNoise.NoiseIsIgnored | source/irc_parser.cpp:82-162 | in every reachable state a character that has no place there might as well not have been received, whatever follows |
| IRCNoise.NoiseCanBeLeftOut | source/irc_parser.cpp:82-162 | all of them can be left out of a call together |
| IRCNoise.NoiseInCommand | source/irc_parser.cpp:95-114 | whatever stands between the letters of a command, but a space, is left out, for all such commands |
| IRCReconnect.ReconnectIff | program/ircbot.cpp:132-152 | a new connection is read as a fresh parser reads it, in every delivery, if and only if what was received before ends between two lines |
| IRCRoundTrip.RoundTripIff | source/irc_message.cpp:13-37 | parsing the printed form gives the normalised message if and only if the message is `Printable` |
| IRCRoundTrip.StreamRoundTrip | source/irc_message.cpp:13-37 | any list of printable messages, printed and joined, is parsed back in order, in one call or one message a call, behind any waiting messages |
| IRCRoundTrip.StreamRoundTripIff | source/irc_message.cpp:13-37 | the joined texts of any list of messages come back as that list normalised if and only if every one of them is printable |
| IRCRoundTrip.StripOnlyCutsTheEnd | source/irc_message.cpp:31-36 | stripping leaves out the carriage return and the line feed and nothing else |
| IRCRoundTrip.BareTextIff | source/irc_message.cpp:13-37 | what is printed for a message without parameters, with a space instead of the line end before it, is parsed back if and only if prefix and command can be read |
| IRCRoundTrip.EmittedFixpoint | source/irc_message.cpp:13-37 | whatever the parser emits on any chunking is re-parsed from its printed form, to a message that prints the same, if and only if it has a parameter and a readable command |
| IRCRoundTrip.UncutFixpoint | source/irc_message.cpp:13-37 | for a text parsed in one call, an emitted message is re-parsed from its printed form if and only if it has a parameter and a prefix or a command of two characters |
| CommandParsing.CommandParser.Parse | source/command_parser.cpp:11-119 | on every text on which its 32-bit escape counter does not overflow, the automaton computes the meaning defined position by position, and fails exactly on a missing prefix or on the first wrong character of the command word, which it returns |
| CommandParsing.CounterFitsIff | source/command_parser.cpp:19-107 | the escape counter fits for every text of up to 2^31 characters, and for a text without a backslash and an error only for those |
| CommandParsing.ScanIsPositional | source/command_parser.cpp:61-105 | after any number of characters the escape flag is the parity of the run of backslashes, the quotes are those open at the position, and the arguments are the pieces between unescaped, unquoted breaks |
| CommandParsing.ThrowsIff | source/command_parser.cpp:40-60 | parsing throws if and only if the prefix is missing or some character is the first one behind the prefix that is not allowed and no space, which of the two, and that it names this character |
| CommandQuoting.EveryArgumentListIsExpressible | source/command_parser.cpp:61-116 | any argument list, each argument escaped, single-quoted or double-quoted, is read back exactly behind any command word |
| CommandQuoting.LastArgumentIsRead | source/command_parser.cpp:110-116 | one more argument in any style at the end of the line, with no space behind it, is read back too, unless it is empty |
| CommandQuoting.WordAloneIsRead | source/command_parser.cpp:48-60 | the prefix and a command word alone are that command without arguments |
| CommandGrammar.PhraseIsRead | source/command_parser.cpp:48-116 | every command word with line ends anywhere in it, and any words of plain and escaped characters, quotations and carriage returns behind it, with a quotation or a backslash left open at the end, mean what the grammar says |
| CommandGrammar.EveryTextIsALine | source/command_parser.cpp:61-116 | every text is the text of such a line of arguments |
| CommandGrammar.PhraseIff | source/command_parser.cpp:11-119 | a text is parsed to a command if and only if it is a phrase that means it, or the empty text and the empty command |
| CommandQuoting.CanonicalForm | source/command_parser.cpp:48-119 | whatever is parsed can be written in a canonical line that parses to the same command |
| CommandQuoting.BareWordIff | source/command_parser.cpp:61-105 | a word followed by a space is read as itself if and only if it holds no special character |
| PluginWorker.FifoConservation | source/plugin.cpp:34-89 | in every interleaving the messages received are the messages taken followed by the queue, across exceptions, stops and restarts, and the front of an empty queue is never read nor a live thread overwritten or destroyed |
| PluginWorker.StopLeavesNoThread | source/plugin.cpp:23-32 | after every stop that has returned there is no thread left to join |
| PluginWorker.StopBoundIff | source/plugin.cpp:23-77 | until a stop's join is over the worker takes at most one more message, on every continuation, if and only if it had already stored to the flag |
| PluginWorker.QuickStopIsPossible | source/plugin.cpp:114-125 | a start and an immediate stop reach the state in which the stop is about to clear the flag and the new thread has not stored to it |
| PluginWorker.StopBoundFails | source/plugin.cpp:23-47 | from there any number of messages is taken before the stop's join is over |
| PluginWorker.StopInTimeEnds | source/plugin.cpp:43-77 | a stop in time leaves the worker at most five effective steps, one of which is always possible until it has exited |
| PluginControl.StartStarts | source/plugin.cpp:114-125 | every run of a start up to its return ends with a new thread about to run and the flag up |
| PluginControl.StopStops | source/plugin.cpp:23-32 | every run of a stop up to its return ends without a thread, with the flag down unless the worker stored late, and runs the shutdown hook once if the plugin was running and else never |
| PluginControl.StopIsKeptIff | source/plugin.cpp:23-47 | every run of a stop leaves the flag down if and only if the thread had already run |
| PluginControl.RestartRestarts | source/core.cpp:414-423 | every run of a restart up to its return ends with a new thread about to run and the flag up, from every reachable idle state |
| PluginControl.ReloadDestroys | source/core.cpp:425-436 | every run of a reload up to its return destroys the plugin without a thread and without a fault |
| PluginControl.EveryCallCanReturn | source/core.cpp:399-442 | in every reachable idle state every call can be made, a start only once, and has a run in which it returns |
| PluginControl.WaitGoesOn | source/plugin.cpp:50-52 | without a message and a timeout the wait goes on however often the worker is woken |
| PluginControl.WakeTakesFront | source/plugin.cpp:50-53 | with a message, being woken for whatever reason leads to handling the oldest one |
| PluginControl.ExceptionsAreCaught | source/plugin.cpp:57-69 | with a command parser the worker takes any number of messages whose handlers throw |
| PluginControl.UncaughtExceptionEndsThread | source/plugin.cpp:114-121 | without one, and in the start-up hook, an exception ends the thread, which takes no further message |
| Dispatch.SafeAdmission | source/plugin.cpp:54-103 | a message passes the pre-filter if and only if the worker has a branch for it; an admitted one fails to parse if and only if its command word holds a wrong character, the error names the first such one, and the prefix is never missing |
| Dispatch.NoPrefixAdmitsOnlyEmptyTexts | include/ircbot/command_parser.hpp:17-20 | of all messages the line parser emits, a plugin whose command parser has no prefix admits exactly the private messages with an empty text, and each is the empty command |
| Dispatch.Process | source/plugin.cpp:53-74 | the body of the worker's loop takes the branch of the message: without a parser the message itself is handled, what is not addressed to the plugin has no branch, exactly the command parsed from the last parameter reaches the handler, and failures are exactly the wrong command words |
| Dispatch.PreFilterIff | source/plugin.cpp:93-104 | a message passes if and only if there is no command parser or it is a private message whose text starts with the prefix |
| Dispatch.PhraseReachesHandler | source/plugin.cpp:57-62 | a private message whose text is a phrase of the command grammar is admitted and reaches the handler as the command the phrase means |
| Dispatch.ArgumentsReachHandler | source/plugin.cpp:57-62 | in particular any argument list in any of the three styles |
| Dispatch.AdmittedIsSelection | source/core.cpp:154-166 | the admitted messages are exactly those that pass the pre-filter and the plugin's own filter, each once and in order |
| Dispatch.AdmittedCount | source/core.cpp:154-166 | a message is admitted as often as it was parsed if it passes both filters, and else never |
| Dispatch.PluginQueue.Receive | source/plugin.cpp:34-41 | the message is appended to the queue |
| Dispatch.PluginQueue.GetCommand | source/plugin.cpp:85-89 | the front of the queue is taken |
| Dispatch.HandleReceive | source/core.cpp:149-167 | every plugin's queue grows by exactly the admitted subsequence of the parsed messages, namely all that pass both filters, in order, whatever the other plugins do, and the parser is drained |
| WholeSystem.ExtractionIsHarmless | source/irc_parser.cpp:16-20 | taking finished messages out before a call changes nothing but what stands in front of the new ones |
| WholeSystem.EndToEnd | source/core.cpp:136-174 | in every interleaving of network, workers and control, with plugins joining and leaving between two handlers, each plugin's messages taken and waiting are the admitted part of those offered since it joined, it joined after exactly the messages of the calls before it, and those offered and pending are the messages of the bytes received |
| WholeSystem.WholeShareIff | source/core.cpp:270-287 | in every run a plugin has its part of all messages ever offered if and only if it admits none of the messages of the calls before it joined |
| WholeSystem.GreetingIsMissed | source/core.cpp:274-281 | a printed message that arrives before a plugin joins never reaches it, though it admits it, for all such messages |
| WholeSystem.QuiescentShare | source/core.cpp:149-167 | when no call cuts a token, each plugin's share is the admitted part of the parse of the whole stream from where it joined, and of all of it exactly when it admits nothing before |
| WholeSystem.WholeLinesShare | source/core.cpp:149-167 | in particular when every call delivers whole lines |
| WholeSystem.UnderstoodStreamArrives | source/core.cpp:149-167 | a stream of understood lines, cut nowhere inside a token, reaches each plugin as the grammar means it, filtered, in order and from where it joined |
| WholeSystem.PrintedMessagesArrive | source/core.cpp:149-167 | printed messages received one a call reach each plugin normalised, filtered, in order and from where it joined |
| WholeSystem.HandledMessagesAreAdmitted | source/plugin.cpp:53-74 | no worker ever handles a message it has no branch for or whose prefix is missing, whatever plugins come and go |
| WorkerHistories.PluginsRunAlone | source/core.cpp:149-167 | in every run the events that concern a plugin are a possible run of that plugin alone, take it exactly where it is, and deliver exactly its share |
| WorkerHistories.EventsAreLocal | source/core.cpp:331-351 | each event changes the plugin it is about and leaves the others, and their order, as they were |
| WholeSystem.StoppedPluginsLeaveNoThread | source/core.cpp:433-435 | in every run a plugin whose stop is past its join has no thread, so destroying it is safe |
| HandlerRefinement.Handle | source/core.cpp:149-167 | the handler in place, with all queues free, is a run of network and offer events: it keeps parser and queues in the state of the whole system |
| HandlerRefinement.HandlerRun | source/core.cpp:149-167 | from every state between two handlers with all queues free there is such a run, and it appends to each queue the admitted part of what was parsed |
| HandlerRefinement.Take | source/plugin.cpp:85-89 | taking the front in place is the worker's step on the same queue |
| Registry.Core.FindPlugin | source/core.cpp:324-329 | the search returns the first plugin with the id, or the end |
| Registry.Core.LoadPlugin | source/core.cpp:95-133 | a load opens the library, records its handle and appends the plugin, or stops at the first step that fails: library, handle, vector and fault afterwards are given for every outcome; accounts and used libraries stay right |
| Registry.Core.RemovePlugin | source/core.cpp:344-351 | only the first plugin with the id goes, nothing changes if there is none, its library stays open, and accounts and used libraries stay right |
| Registry.Core.ReloadPlugin | source/core.cpp:425-442 | the first plugin with the id is destroyed, the handle on record closed once and the plugin loaded again at the end, with all other plugins and handles untouched and every fault named; accounts stay right if and only if the reload is `Sound`, used libraries stay open if and only if it is `Safe` |
| Registry.Core.DeinitializePlugins | source/core.cpp:85-88 | all plugins go, their libraries stay open, and the accounts stay right |
| Registry.UnloadKeepsInv | source/core.cpp:433-438 | in the middle of a reload every library that another plugin uses is still open |
| Registry.LedgerIff | source/core.cpp:331-442 | over every run, each library is open exactly as often as loaded plugins use it plus its leaks, and no handle is misused, after every operation, if and only if every reload that finds a plugin finds that plugin's own library on record and succeeds |
| Registry.LibrariesOutlivePlugins | source/core.cpp:331-442 | over every run, each library stays open at least as often as loaded plugins use it, and no handle is misused, if and only if every reload that finds a plugin closes a library open more often than the remaining plugins use it, and succeeds |
| Registry.AllowedRunsAreSound | source/core.cpp:383-442 | one library for each id, and reloads only of plugins with a library that load again, keep both properties in every run |
| Registry.InvStepIff | source/core.cpp:383-442 | an operation keeps the accounts and the map of handles in agreement if and only if it is allowed |
| Registry.SharedIdClosesWrongLibrary | source/core.cpp:395 | with one id for two libraries a reload leaves a library open once less than plugins use it, whatever path is configured by then |
| Registry.ReloadWithoutHandleFaults | source/core.cpp:434-437 | a reload of a plugin for whose id no library is on record closes a null handle, from every state |
| Registry.TcpReloadFaults | source/admin_port.cpp:66-72 | every reload of a plugin connected over TCP ends in that fault |
| Registry.ReloadMovesToTheEnd | source/core.cpp:425-442 | a reload keeps the ids and the order of the other plugins and puts the reloaded one last |
| Backoff.Connect | source/core.cpp:51-71 | the waits of the retry loop are the iterates of wrapped doubling under the cap |
| Backoff.BackoffIff | source/core.cpp:64-65 | every wait is min(initial · 2^k, maximum) if and only if the configuration is `Safe` |
| Backoff.WaitsGrow | source/core.cpp:64-65 | in a safe configuration that starts below the cap the waits never fall and never exceed the cap |

## Left out

- CommandParsing.CommandParser.Parse: requires `CounterFits`, and so does Dispatch.Process of the last parameter, because on other texts the escape counter of the program overflows, which C++ leaves undefined.
- PluginWorker.StopInTimeEnds: handlers and the start-up hook are assumed to return or throw; how long they take is not modelled.
- PluginWorker: starting, stopping and spawning are steps of a state machine on values, since their interleaving is the point; control calls are serialised, and the stop that a TCP plugin issues from its own socket callback is not modelled.
- WholeSystem.EndToEnd: plugins join and leave between two receive handlers. For TCP plugins, reloads and removals this is so, because they run on the one thread of the network context (`source/network/context_provider.cpp:14-19`); for the loading on the main thread (`source/core.cpp:277-281`) it is assumed, because the program does not synchronise it with the handler and leaves an overlap undefined. What waits in a queue is discarded when its plugin leaves; a reload is a leave and a join.
- HandlerRefinement.Handle: a handler that has to wait for a queue's mutex is covered by the interleavings of the whole system, not by this method, which runs in one go.
- Dispatch.SafeAdmission: the command parser of a plugin is fixed; installing one while messages wait is not covered.
- Registry: the loader is a ledger of open counts with any outcome of opening and of finding the entry point; closing a null handle and using a plugin that failed to load count as faults. The file-name checks before a load are one outcome, and a library is assumed to hand out a plugin with the configured id.
- Backoff.Connect: the number of failed attempts is a parameter; the attempt counter, which is only logged, is not kept.
- Exceptions carry only the character found; message texts and all logging are left out.
- The map from command words to functions, configuration and the individual plugins: single lookups; plugins appear as a filter and a handler that may throw.
- Sockets, timers, admin port, TCP plugins and their handshake, and the order of `Core::stop`: library behaviour that is not part of this model.
- Conversion to and from protocol buffers and the Python bindings: field-by-field copies.

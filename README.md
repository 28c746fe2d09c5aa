# lwmud core, modelled in Dafny

lwmud is a small Rust library for text-based multi-user servers. A server
holds three things: a table of verbs, a table of lifecycle hooks and a
registry of connected clients. Each verb is a list of aliases plus a
handler. Each hook is an event kind plus a handler.

Every connection runs a read loop. The loop trims each line it reads and
forwards it to the dispatch loop (`listen`). The dispatch loop tokenizes
the line and looks up its lowercased first token among the verbs' aliases.
It then invokes the first matching verb, or tells the client the command
is unknown. Connect and disconnect events go to a consumer. For each event
the consumer first runs the hooks of the event's kind in registration order,
stopping at the first failure (`run_hook`), and then updates the registry. A builder collects a name and an address and creates
the server.

This project models those rules and proves what they promise. Sockets,
tasks and locks are taken out. The model is built as follows:

- **Channels.** A channel is the sequence of items its consumer receives.
- **Socket reads.** A socket is the sequence of results its `read_line`
  calls return.
- **Handlers.** A handler is an opaque identity. Its result is given by a
  function parameter `outcome` of handler and context.
- **Client outboxes.** An outbox is a `Channel` object, shared by every
  copy of the client handle. `send` appends the UTF-8 bytes of the text to
  it.

Each core file's structure is kept:

- `MudServer`, `MudServerConfig` and `MudServerBuilder` are classes. Their
  methods update fields in place.
- `run_hook`, the `listen` loop, the event consumer, `is_match` and the
  read loop are methods with loops. Each is proved against a declarative
  function.
- The error messages, the context builder and the text operations are
  functions.

Modules, in dependency order:

| module | content |
|---|---|
| `Wrappers` | the Option and Result types |
| `Errors` | `src/error.rs` |
| `Text` | `char::is_whitespace`, `trim`, `split_whitespace`, `to_lowercase` |
| `Utf8` | `as_bytes` |
| `Clients` | `src/client.rs` |
| `Handlers` | handler identities and results |
| `Hooks` | the hook table and the batch that `run_hook` runs |
| `Verb` | `src/verb.rs` |
| `Dispatch` | the per-line decision of `listen` |
| `Connections` | the registry rules |
| `Server` | the `MudServer` class and the event consumer |
| `Builder` | `src/builder.rs` |

## Model

| member | source | states |
|---|---|---|
| Errors.Display | src/error.rs:13-23 | the text `fmt` writes for each of the five kinds; `DisplayIsDescription`, `MessageRoundTrip` and `MessagesDistinct` state its properties |
| Errors.Description | src/error.rs:25-35 | the text `description` returns for each kind; `DisplayIsDescription` shows it equals `Display` |
| Errors.FromMessage | src/error.rs:15-21 | not a function of the source: an inverse of the `fmt` mapping at these lines, used to state that a message determines its kind; a message that parses to a kind is that kind's text under both `fmt` and `description` |
| Errors.DisplayIsDescription | src/error.rs:15-33 | `fmt` and `description` give the same text for every kind |
| Errors.MessageRoundTrip | src/error.rs:16-20 | parsing a kind's message gives that kind back, so every message determines its kind |
| Errors.MessagesDistinct | src/error.rs:16-20 | two kinds with the same message are the same kind; in particular `VerbNoClient` and `VerbnoClients` read differently |
| Utf8.EncodeChar | src/client.rs:95 | one character takes 1 to 4 bytes, and exactly 1 byte when it is ASCII |
| Utf8.Encode | src/client.rs:95 | a string's encoding has at least one byte and at most four bytes per character |
| Utf8.EncodeConcat | src/client.rs:95 | encoding a concatenation gives the concatenation of the encodings |
| Utf8.EncodeFront | src/client.rs:95 | an encoding is the first character's bytes followed by the rest's |
| Utf8.DecodeEncodedChar | src/client.rs:95 | decoding the front of an encoded character gives back the character and its byte count, whatever bytes follow |
| Utf8.DecodeEncode | src/client.rs:93-98 | decoding the bytes `send` enqueues gives back exactly the text sent |
| Utf8.EncodeAscii | src/client.rs:95 | ASCII text encodes to one byte per character, equal to the character's code |
| Text.IsWhitespace | src/client.rs:43 | `char::is_whitespace`: membership in the Unicode White_Space ranges; `LetterNotWhitespace` and `LowerKeepsWhitespace` state its properties |
| Text.Lower | src/verb.rs:27-29 | `to_lowercase` on ASCII letters, keeping the length; `LowerAt`, `LowerIdempotent` and `LowerKeepsWhitespace` state its properties |
| Text.LowerAt | src/verb.rs:27-29 | each character of a lowercased string is its original character lowercased |
| Text.LowerIdempotent | src/verb.rs:27-29 | lowercasing twice is the same as lowercasing once |
| Text.LowerKeepsWhitespace | src/server/mod.rs:61 | lowercasing neither creates nor removes whitespace, at any position |
| Text.Trim | src/client.rs:43 | the result has no leading or trailing whitespace, and a string without either is returned unchanged |
| Text.TrimIsStartThenEnd | src/client.rs:43 | `trim` equals `trim_start` followed by `trim_end`: it removes exactly the leading and the trailing whitespace |
| Text.TrimStart | src/client.rs:43 | the result is a suffix of the input; everything removed is whitespace; the result does not start with whitespace |
| Text.TrimEnd | src/client.rs:43 | the result is a prefix of the input; everything removed is whitespace; the result does not end with whitespace |
| Text.TrimIdempotent | src/client.rs:43 | trimming a trimmed string changes nothing |
| Text.Word | src/server/mod.rs:53 | the longest prefix of the input with no whitespace |
| Text.SplitWhitespace | src/server/mod.rs:53-54 | every token is non-empty and free of whitespace; `SplitWord` and `SplitAtWhitespace` fix the tokens as the maximal runs between whitespace |
| Text.SplitWord | src/server/mod.rs:53-54 | a non-empty string without whitespace is exactly one token, itself |
| Text.WordStopsAtWhitespace | src/server/mod.rs:53-54 | a word ends at the first whitespace character, whatever text follows it |
| Text.SplitAtWhitespace | src/server/mod.rs:53-54 | the tokens of two strings joined by a whitespace character are the first string's tokens followed by the second's, so tokens are the maximal runs between whitespace |
| Text.SplitKeepsLetters | src/server/mod.rs:53-54 | the tokens, concatenated, are exactly the input's non-whitespace characters in order: nothing is lost or invented |
| Text.FirstToken | src/server/mod.rs:53-60 | input that starts with a non-whitespace character has at least one token, and the first token is its leading word |
| Text.TrimmedLineHasToken | src/server/mod.rs:60 | a trimmed non-empty line has a first token, so `input[0]` is defined for every line the read loop forwards |
| Text.TrimLowerToken | src/server/mod.rs:61 | for a token, lowercasing and then trimming equals lowercasing |
| Clients.Channel.constructor | src/client.rs:26 | a new outbound channel is empty |
| Clients.FirstEnd | src/client.rs:42-46 | the position of the first read that is an error or reads zero bytes (or the number of reads when none is); no earlier read ends the loop |
| Clients.Send | src/client.rs:93-98 | the client's channel gains exactly one payload at the end, the UTF-8 bytes of the text; nothing else changes |
| Clients.ReadLoop | src/client.rs:39-55 | forwards one input per read before the first ending read, in read order, each tagged with this client and trimmed; blank lines are included as the empty string. Exactly one Disconnected update for this client follows when a read ends the loop |
| Clients.NewClient | src/client.rs:18-65 | a client with the given address and an empty fresh channel, its Connected update, and the read loop's forwarded lines and Disconnected update |
| Clients.ForwardedAreTrimmed | src/client.rs:43-50 | every forwarded line is trimmed and carries the same client |
| Hooks.IsMatch | src/server/hooks.rs:25-27 | an entry matches exactly the hook kind it was registered for; `MatchingFindsAll` and `BatchNoMatch` use it |
| Hooks.MatchingUpTo | src/server/hooks.rs:49-50 | the positions among the first `n` entries that are of the kind, strictly increasing |
| Hooks.MatchingComplete | src/server/hooks.rs:49-50 | no entry of the kind among the first `n` is missing from those positions |
| Hooks.Matching | src/server/hooks.rs:49-50 | the positions of entries of the kind, in registration order |
| Hooks.MatchingFindsAll | src/server/hooks.rs:49-50 | every entry of the kind is among the matching positions |
| Hooks.FirstFailure | src/server/hooks.rs:52 | the first position whose handler fails; every handler before it succeeds |
| Hooks.FirstFailureAt | src/server/hooks.rs:52 | when every earlier handler succeeds and the handler at `p` fails, the first failure is at `p` |
| Hooks.FirstFailureNone | src/server/hooks.rs:52 | when every handler succeeds, there is no failure |
| Hooks.BatchAtSkip | src/server/hooks.rs:50 | an entry of another kind changes nothing |
| Hooks.BatchAtStopped | src/server/hooks.rs:52 | after a failure, a later matching entry is not invoked |
| Hooks.BatchAtFails | src/server/hooks.rs:50-52 | a matching entry whose handler fails is invoked and stops the loop with its error |
| Hooks.BatchAtSucceeds | src/server/hooks.rs:50-53 | a matching entry whose handler succeeds is invoked and sets `matched` |
| Hooks.BatchAtRunning | src/server/hooks.rs:50-53 | while running, a matching entry is invoked and its result decides whether the loop continues |
| Hooks.BatchAtStep | src/server/hooks.rs:49-55 | the declarative description of the batch advances by exactly one loop step per entry |
| Hooks.BatchLoopInvariant | src/server/hooks.rs:47-55 | the loop of `run_hook` is, after every prefix of entries, where the declarative description says it is |
| Hooks.BatchInvoked | src/server/hooks.rs:47-62 | the declarative list of invoked entries: the matching positions up to and including the first failure; `BatchInvokesInOrder` and `BatchStopsAtFailure` state its properties |
| Hooks.BatchResult | src/server/hooks.rs:47-62 | the declarative result: the first failure's error, else `VerbNotFound` with no match, else `Ok(Null)`; `BatchOkIff`, `BatchNoMatch` and `BatchStopsAtFailure` state its properties |
| Hooks.BatchLoopAgrees | src/server/hooks.rs:47-62 | what the loop returns and invokes over the whole table is the declarative batch result and invocation list |
| Hooks.BatchLoopStaysStopped | src/server/hooks.rs:52 | once a handler fails, the remaining entries change nothing |
| Hooks.BatchInvokesInOrder | src/server/hooks.rs:49-55 | only entries of the kind are invoked, each at most once, in registration order, and no matching entry before the last invoked one is skipped |
| Hooks.BatchOkIff | src/server/hooks.rs:56-58 | the batch returns Ok exactly when some entry matched and every matching handler succeeded; the value is then `Null` and every matching entry was invoked |
| Hooks.BatchNoMatch | src/server/hooks.rs:56-60 | with no entry of the kind, nothing is invoked and the result is `Err(VerbNotFound)` |
| Hooks.BatchStopsAtFailure | src/server/hooks.rs:52 | when a matching handler fails, the batch stops at the first failing handler (that one or an earlier one) and returns its error unchanged. Every other invoked handler succeeded, and nothing after it is invoked |
| Hooks.NotFoundIsAmbiguous | src/server/hooks.rs:52-60 | a single hook that fails with `VerbNotFound` gives the same result as an empty table, though it was invoked |
| Verb.IsMatch | src/verb.rs:26-34 | the early-return loop answers true exactly when some alias equals the name, ignoring case |
| Verb.NoAliasNoMatch | src/verb.rs:28-33 | an entry without aliases matches no name |
| Verb.MatchIgnoresCase | src/verb.rs:27-29 | lowercasing the name first does not change whether it matches |
| Verb.FirstMatch | src/server/mod.rs:63 | the position found, if any, is within the table |
| Verb.FirstMatchIsFirst | src/server/mod.rs:63 | the entry found matches and no earlier entry does; a miss means no entry matches |
| Verb.Find | src/server/mod.rs:63 | the table scan returns the first matching position, or none |
| Verb.FirstMatchAt | src/server/mod.rs:63 | a matching entry with no match before it is the one found |
| Verb.FirstMatchAppendKeeps | src/server/mod.rs:94-108 | adding verbs later never changes which entry an already-matching name finds |
| Verb.FirstMatchAppendLater | src/server/mod.rs:94-108 | a name unmatched by the earlier entries finds its first match among the appended ones |
| Verb.ClientOf | src/verb.rs:54-60 | Ok with the client exactly when the context has one, else `Err(VerbNoClient)` |
| Verb.ClientsOf | src/verb.rs:76-82 | Ok with the registry exactly when the context has one, else `Err(VerbnoClients)` |
| Verb.NewBuilder | src/verb.rs:93-95 | a new builder has no client, no input and no registry |
| Verb.WithClients | src/verb.rs:97-100 | sets the registry and keeps the other fields |
| Verb.WithClient | src/verb.rs:102-105 | sets the client and keeps the other fields |
| Verb.WithInput | src/verb.rs:107-110 | sets the input and keeps the other fields |
| Verb.Build | src/verb.rs:117-125 | the context copies client, input and registry unchanged and carries the given tables |
| Verb.SettersCommute | src/verb.rs:97-110 | setters of different fields commute, and a later call of a setter overrides an earlier one |
| Verb.AccessorsSeeBuilder | src/verb.rs:54-125 | the accessors of a built context see what was set, and report `VerbNoClient` / `VerbnoClients` for a fresh builder |
| Verb.RunVerb | src/verb.rs:62-74 | on a miss, `Err(VerbNotFound)` and no invocation. On a hit, the first matching entry is invoked once, with the caller's client, no input and no registry, and its result is returned unchanged |
| Dispatch.DispatchLine | src/server/mod.rs:46-69 | the decision for one trimmed line: skip an empty line, else invoke the first verb matching the lowercased first token, else send the unknown-command notice; `NameOfToken`, `EmptyLinesDoNothing`, `KnownLinesAllInvoked` and `UnknownLineGetsOneNotice` state its properties |
| Dispatch.FirstMatchIgnoresCase | src/server/mod.rs:61-63 | looking up the lowercased name finds the same entry as the name as typed |
| Dispatch.NameOfToken | src/server/mod.rs:60-63 | the name `listen` looks up (first token, lowercased, trimmed) finds the same entry as the token itself |
| Dispatch.OnlyNoticesAreSent | src/server/mod.rs:64-66 | the loop never echoes: everything it sends on any channel is the unknown-command notice |
| Dispatch.EmptyLinesDoNothing | src/server/mod.rs:50-52 | empty lines invoke nothing and send nothing |
| Dispatch.KnownLinesAllInvoked | src/server/mod.rs:62-69 | when every line names a verb, each line makes exactly one invocation, in line order, with the sender as client |
| Dispatch.UnknownLineGetsOneNotice | src/server/mod.rs:64-67 | a line whose first token matches no entry invokes nothing and sends exactly one notice, to its sender |
| Dispatch.EmptyTableUnknown | src/server/mod.rs:62-66 | against an empty table, every non-empty line is an unknown command |
| Dispatch.GoUpTokens | src/server/mod.rs:53-54 | "GO up" splits into "GO" and "up" |
| Dispatch.FirstRegisteredWins | src/server/mod.rs:53-69 | with two entries both matching `go`, "GO up" invokes the first one, with both tokens as input |
| Connections.Retain | src/server/connections.rs:36 | keeps the entries whose address differs from the departing one, never more entries than its input; `RetainMembers`, `RetainConcat`, `RetainAddrs` and `RetainUnique` state its properties |
| Connections.Apply | src/server/connections.rs:26-36 | a connect pushes the client, a disconnect retains the other addresses; `ConnectAddsOne` and `DisconnectRemovesAll` state its properties |
| Connections.RetainMembers | src/server/connections.rs:36 | the entries kept are exactly the entries with another address |
| Connections.RetainConcat | src/server/connections.rs:36 | `retain` keeps relative order: over a concatenation it is the concatenation of the two retains |
| Connections.RetainAbsent | src/server/connections.rs:36 | removing an address that is not present changes nothing |
| Connections.RetainAddrs | src/server/connections.rs:36 | the addresses after a disconnect are those before, minus the departing one |
| Connections.RetainUnique | src/server/connections.rs:36 | removal keeps addresses distinct |
| Connections.CountZero | src/server/connections.rs:36 | an absent address has no entries |
| Connections.ConnectAddsOne | src/server/connections.rs:30 | a connect appends without deduplicating: the address gains exactly one entry, so an address absent before is present exactly once after |
| Connections.DisconnectRemovesAll | src/server/connections.rs:36 | after a disconnect no entry with the address remains, and every other entry is kept |
| Connections.RegistryAddrs | src/server/connections.rs:23-39 | for every event sequence, the registry's addresses are exactly the live ones, where "live" follows arrival order: a Disconnected that arrives before its client's Connected leaves that client live |
| Connections.RegistryIntegrity | src/server/connections.rs:23-39 | when connecting peers are not already live, the registry never holds one address twice |
| Server.InvocationsOf | src/server/hooks.rs:49-52 | one invocation per invoked position |
| Server.InvocationsAt | src/server/hooks.rs:51-52 | the `j`-th invocation is of the `j`-th invoked entry, with its handler and the batch's context |
| Server.EventContext | src/server/connections.rs:27 | hooks of an event get the event's client, no input and the registry as it is before the event |
| Server.Runs | src/server/connections.rs:23-39 | one batch per event |
| Server.RunsAt | src/server/connections.rs:23-39 | the `i`-th batch runs against the registry after the first `i` events |
| Server.BatchCallsContext | src/server/hooks.rs:51 | every hook of one batch gets the same context, built from the same builder |
| Server.HooksRunBeforeEvent | src/server/connections.rs:26-36 | hooks of event `i` see the event's client and the registry as the earlier events left it; the event is applied only afterwards |
| Server.HooksSeeMembership | src/server/connections.rs:32-36 | for every event sequence, disconnect hooks of a live client see its address in the registry |
| Server.ConnectHooksMissAddress | src/server/connections.rs:26-30 | when connecting peers are not already live, connect hooks never see the connecting address in the registry |
| Server.MudServer.constructor | src/server/mod.rs:30-39 | the given name and host, empty registry and tables, no event channel |
| Server.MudServer.AddVerb | src/server/mod.rs:94-108 | appends exactly one entry with the given aliases at the end; earlier entries stay, nothing is replaced or deduplicated |
| Server.MudServer.AddHook | src/server/hooks.rs:31-45 | appends exactly one entry at the end; earlier entries stay |
| Server.MudServer.RunHook | src/server/hooks.rs:47-62 | the loop's result and invocations are the declarative batch's |
| Server.MudServer.HandleLine | src/server/mod.rs:46-69 | handles one line as `DispatchLine` decides; the sender's channel gains the notice only for an unknown command |
| Server.MudServer.HandleLineOf | src/server/mod.rs:46-69 | the same, seen from every channel of the input: each gains what `NoticeFor` says |
| Server.MudServer.Listen | src/server/mod.rs:41-72 | the loop's invocations and every channel's new payloads are exactly what `DispatchLine` decides line by line; handler results are discarded |
| Server.MudServer.HandleUpdate | src/server/connections.rs:24-37 | runs the event's batch against the current registry, then appends or removes the client, whatever the batch returned |
| Server.MudServer.ProcessUpdates | src/server/connections.rs:23-39 | events are handled one at a time in arrival order: the final registry and every batch are those of the events applied in turn |
| Server.WithServer | src/verb.rs:112-115 | `server(s)` sets the registry to the server's and keeps the other fields |
| Server.ListenStep | src/server/mod.rs:46-70 | one more line extends the invocations and sends by exactly that line's decision |
| Server.RunsStep | src/server/connections.rs:23-39 | one more event adds exactly its batch |
| Server.RegistryStep | src/server/connections.rs:23-39 | one more event applies exactly that event to the registry |
| Builder.MudServerConfig.constructor | src/builder.rs:18-27 | a new configuration has neither name nor host |
| Builder.MudServerBuilder.constructor | src/builder.rs:18-32 | a new builder holds a fresh configuration with neither name nor host |
| Builder.MudServerBuilder.Sharing | src/builder.rs:13-16 | a clone shares its configuration with the original |
| Builder.MudServerBuilder.Bind | src/builder.rs:36-42 | sets the host, keeps the name, and returns a clone sharing the configuration |
| Builder.MudServerBuilder.Name | src/builder.rs:45-51 | sets the name, keeps the host, and returns a clone sharing the configuration |
| Builder.MudServerBuilder.Run | src/builder.rs:53-61 | `Err(NoAddress)` without a host; otherwise a fresh server with that host, the configured name or "Server", and empty collections |
| Builder.ChainedSetup | src/builder.rs:36-61 | settings made through the clones reach the original builder's `run` |
| Builder.RunWithoutAddress | src/builder.rs:55 | without `bind`, `run` fails with `NoAddress` whatever the name |
| Builder.RunWithoutName | src/builder.rs:56 | without `name`, the server is called "Server" |

## Left out

- The TCP listener, `bind` and the accept loop of `setup` (src/server/mod.rs:74-92) are network I/O. The `InvalidAddress` error they produce exists only as a kind.
- The socket write task (src/client.rs:27-31) is I/O. A channel's queue is what it would write.
- `peer_addr` and `get_read_write` (src/client.rs:23, 87-91) are foreign calls. The address is a parameter of `NewClient`.
- Line splitting inside the buffered reader is out. `ReadLoop` receives one result per `read_line` call, with the text that call appends to the cleared buffer.
- `tokio::spawn`, the mpsc channels, `RwLock` and `Mutex` are concurrency machinery. Tables and registry are plain sequences, and each loop consumes a given sequence of items in order.
- The order of the Connected event relative to command lines and Disconnected is left out. Connected is sent from a separate task, so that order is decided by the scheduler.
- Clients.Send: enqueues at once. The source enqueues from a spawned task per call, so the payloads of successive sends may reach the channel in either order; the model's queue is in call order. The `unwrap` on a closed channel is not modelled.
- Clients.ReadLoop: takes the forward at src/client.rs:51 to always succeed. In the source, the `unwrap` panics once the dispatch loop's receiver is gone (for instance after a verb handler panicked inside `listen`); the read task then ends without sending Disconnected, so the disconnect hooks do not run and the client stays in the registry. `Clients.NewClient` inherits this.
- Server.MudServer.HandleUpdate: hook contexts carry the registry as a value. The source hands hooks the shared registry (src/verb.rs:76-82, 112-115), and a hook could change it before the `push` or `retain`; the model takes handlers not to write the registry, so `ProcessUpdates` also relies on that.
- Connections.Live: liveness follows event arrival order. Connected is sent from a separate task (src/client.rs:57-63), so a client's Disconnected may arrive first; the client then stays in the registry, and `RegistryAddrs` counts it as live.
- Handler bodies, futures and `serde_json::Value` contents are opaque. `outcome` gives a handler's result, and `Value` is `Null` or an uninterpreted value.
- Nested `run_verb` calls from inside handlers are not traced, and recursion depth is not bounded. `RunVerb` models one call.
- `println!` logging (src/builder.rs:57, src/server/mod.rs:86) is left out.
- src/lib.rs is not part of this model (module declarations only).
- Channel buffer sizes (32, 100) only bound how far senders run ahead, so they are left out.
- Text.Lower: lowercases ASCII letters only, not full Unicode `to_lowercase`. Idempotence and keeping whitespace are proved for this version.
- Server.MudServer.HandleLine: requires a trimmed line. On a line of whitespace only, the source indexes an empty token list and panics. The read loop never forwards such a line (`ForwardedAreTrimmed`), so the model takes only trimmed input.
- Server.MudServer.Listen: the tables and registry are the ones at the start of the run. In the source, handlers and events running concurrently may change them between lines.
- Verb.RunVerb: requires that the context has a client whenever a verb matches. The source unwraps the client there and panics without one.
- Verb.RunVerb: the context it builds carries the client and the tables but no registry, as `run_verb` does (src/verb.rs:68-70). So inside a nested call, `clients()` returns `Err(VerbnoClients)`.
- Hooks.BatchOkIff: `Err(VerbNotFound)` does not mean that no hook matched, because a handler can itself fail with `VerbNotFound` (`NotFoundIsAmbiguous`). The "iff" holds for `Ok`, and `BatchNoMatch` covers the no-match direction.

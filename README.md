# Chat relay session, modelled in Dafny

The system is a small TCP chat server. Every accepted connection runs one
session. The session greets the client with its default name
(`<ip>_<port>`) and the help text. It then handles, one at a time, either a
line from the client or a message from the server-wide broadcast channel.
A line is `\help`, `\quit`, a rename (`/name X`) checked against the shared
set of claimed names, or chat, which goes to every session decorated with the
sender's current name. Bus messages are written to the client verbatim.

The model has four modules:

- `Decimal` (decimal.dfy) renders the port number of the default name and
  parses it back.
- `Protocol` (protocol.dfy) holds the fixed texts and the default name. It
  reads a line as a command and defines one session's handling of an event as
  a pure transition. `Step` handles one event; `Run` handles a sequence of
  events and stops at `\quit`. Lemmas state each case the code distinguishes.
- `Server` (server.dfy) interleaves many sessions over one name set. Every
  update of the set is a single atomic insert, so an interleaving is a
  sequence of actions: an accept, or one step of one session. A history
  records every name granted by a rename. Over every interleaving, no name
  is granted twice, and no two sessions that have renamed themselves hold
  the same name.
- `Connection` (connection.dfy) is the session as imperative code. It has a
  `NameRegistry` object (the shared `HashSet`) and a `Bus` object (the
  broadcast sender, as the log of what was sent). A `Session` object has the
  mutable `name`, a `running` flag for the `break` and the log of what was
  written to the client. Its `Step` and `Run` methods are proved equal to
  `Protocol.Step` and `Protocol.Run`.

The model follows the code as written, including where it differs from the
intended protocol:

- The help and quit commands use a backslash (`\help`, `\quit`), not `/`.
- A successful rename inserts the new name and never removes the old one.
- `/name ` with nothing after it claims the empty name.
- An inbound read that yields nothing (end of stream) or a decoding error is
  ignored. The loop goes on; it does not end the session.
- A receive error on the bus (lagged or closed) is ignored.
- Leaving the loop does not release the session's name. A name stays claimed
  after its owner quits (`Server.QuitKeepsNameClaimed`).
- Connecting does not put the default name in the set. So a session can
  rename itself to another session's default name, and then two sessions show
  the same name. Uniqueness therefore holds among sessions that have renamed
  themselves, not among all sessions.

## Model

| member | source | states |
|---|---|---|
| `Decimal.ValueOfRender` | src/main.rs:49-53 | the decimal text of the port parses back to the port |
| `Decimal.RenderOfValue` | src/main.rs:49-53 | a canonical digit string is the rendering of its value |
| `Decimal.Render` | src/main.rs:52 | the port's `{}` formatting is canonical decimal (no leading zero) with no underscore |
| `Protocol.DefaultName` | src/main.rs:49-53 | the default name is the ip text, an underscore, and after it (the last underscore) the port in canonical decimal |
| `Protocol.DefaultNameRoundTrip` | src/main.rs:49-53 | the default name `<ip>_<port>` determines the peer's ip text and port |
| `Protocol.ParsedDefaultName` | src/main.rs:49-53 | any name the parser accepts is the default name of the address it returns |
| `Protocol.ExampleDefaultName` | src/main.rs:49-53 | the peer 127.0.0.1 port 55001 gets the default name `127.0.0.1_55001` |
| `Protocol.Connect` | src/main.rs:47-65 | a new session runs, has its default name, has written exactly `You are <name>\n<help>`, and leaves the name set unchanged |
| `Protocol.Parse` | src/main.rs:73-84 | a line is help or quit exactly when it equals `\help` or `\quit`; otherwise it is a rename exactly when it starts with `/name `, and the requested name is the rest; everything else is chat with the line unchanged |
| `Protocol.UnparseParse` | src/main.rs:73-107 | every line is the text of the command it is read as; a line read as chat is not a command |
| `Protocol.ParseUnparse` | src/main.rs:73-107 | the text of each command is read back as that command |
| `Protocol.Step` | src/main.rs:69-118 | the name set only grows, by at most the new name; a changed name was free and is now claimed; any growth comes with the announcement `<old> is now <new>`; the session ends exactly on `\quit`, saying only goodbye; at most one message is produced |
| `Protocol.Run` | src/main.rs:67-120 | over any event sequence the name set only grows; a name different from the starting one is claimed; a claimed name stays claimed; once any rename has succeeded the current name is claimed; an ended session handles nothing; at most one message per event |
| `Protocol.HelpIsPrivate` | src/main.rs:74-76 | `\help` writes exactly the help text to the client, broadcasts nothing, changes no state |
| `Protocol.QuitSaysGoodbye` | src/main.rs:77-80 | `\quit` writes `Goodbye!!`, broadcasts nothing, ends the session, keeps name and set |
| `Protocol.QuitEndsSession` | src/main.rs:77-80 | no event after `\quit` is handled |
| `Protocol.RenameToFreeName` | src/main.rs:84-95 | `/name X` with X free adds X to the set, keeps the old name in it, makes X the name, and broadcasts `<old> is now X` with the name from before the update |
| `Protocol.RenameToClaimedName` | src/main.rs:84-98 | `/name X` with X claimed writes `name X already exists` to the client only; nothing else changes |
| `Protocol.RenameToEmpty` | src/main.rs:84-88 | `/name ` with an empty remainder claims the empty name |
| `Protocol.ChatIsBroadcast` | src/main.rs:104-107 | any other line L broadcasts `<name>: L ❤️!` with the current name, writes nothing, changes no state |
| `Protocol.NameWithoutSpaceIsChat` | src/main.rs:84-107 | `/name` without the space is chat |
| `Protocol.DeliveryAndIgnoredEvents` | src/main.rs:70-118 | a bus message is written verbatim; an empty or failed read and a bus error change nothing |
| `Protocol.RunUnfolds` | src/main.rs:67-120 | a run of a live session is its first step followed by the run of the rest |
| `Protocol.RunSplits` | src/main.rs:67-120 | running `xs + ys` is running `xs`, then `ys` from the resulting state |
| `Protocol.RunOneMore` | src/main.rs:67-120 | one more event only extends the outputs and the set |
| `Protocol.RunClaimsAtMostOnePerEvent` | src/main.rs:84-95 | a run adds at most one name to the set per event |
| `Protocol.RenameChatQuit` | src/main.rs:67-120 | rename, chat, quit: the bus gets the announcement and the line under the new name, the client gets only the goodbye |
| `Server.Start` | src/main.rs:22 | the server starts with an empty name set and no sessions |
| `Server.Apply` | src/main.rs:27-31 | one accept or one session step never removes a name, only adds sessions, grants and sends, keeps each peer, and grants at most one name, which was free |
| `Server.Replay` | src/main.rs:27-31 | over an interleaving the name set, the grants and the sends only grow, by at most one session and one grant per action |
| `Server.StartInv` | src/main.rs:22 | the interleaving invariant holds at start-up |
| `Server.ApplyKeepsInv` | src/main.rs:86-95 | an accept or one session step keeps the invariant: granted names are distinct, were free and stay claimed, each session holds its default or a name granted to it, and a session that has renamed itself holds a name granted to it |
| `Server.ReplayKeepsInv` | src/main.rs:27-31 | every interleaving of accepts and session steps keeps the invariant and only grows the set and the grants |
| `Server.NonDefaultNamesUnique` | src/main.rs:86-95 | two sessions that both hold a name other than their own default hold different names |
| `Server.NamesUniqueFromStart` | src/main.rs:22-31 | from start-up, over every interleaving, sessions not holding their own default name hold distinct names |
| `Server.RenamedNamesUnique` | src/main.rs:86-95 | two sessions that have both renamed themselves hold different names |
| `Server.RenamedNamesUniqueFromStart` | src/main.rs:22-31 | from start-up, over every interleaving, sessions that have renamed themselves hold distinct names |
| `Server.SecondClaimFails` | src/main.rs:86-98 | of two sessions asking for one free name in turn, the first gets it and the second changes nothing |
| `Server.QuitKeepsNameClaimed` | src/main.rs:77-98 | after the owner of a name quits, the name stays claimed and another session cannot take it |
| `Connection.NameRegistry.constructor` | src/main.rs:22 | the shared name set starts empty |
| `Connection.NameRegistry.Insert` | src/main.rs:88 | inserting adds the name and answers whether it was absent |
| `Connection.Bus.constructor` | src/main.rs:25 | nothing has been sent when the channel is created |
| `Connection.Bus.Send` | src/main.rs:106 | a send appends exactly the message to the log |
| `Connection.Session.constructor` | src/main.rs:42-65 | the new session's state and writes are those of `Protocol.Connect` |
| `Connection.Session.Step` | src/main.rs:69-118 | one loop turn changes the session, the name set, the client's writes and the bus exactly as `Protocol.Step` says |
| `Connection.Session.Run` | src/main.rs:67-120 | the loop over an event sequence, leaving at `\quit`, does exactly what `Protocol.Run` says |

## Left out

- The TCP bind, the accept loop and the spawning of a task per connection are network I/O and scheduling. In `Server` an accept is an action that adds a session.
- The fairness of `tokio::select!` is left out. The choice between an inbound line and a bus message is the given order of events.
- The mutex around the name set is left out. Each insert is atomic in the model.
- The broadcast channel's capacity of 32, subscriber cursors and lag are library internals. Sends are appends to a log. A received bus message is a given `Delivered` event and is not tied to that log.
- The `Err` of a broadcast send is left out. The session holds its own receiver, so a send always has a subscriber and does not fail.
- `LinesCodec` framing, UTF-8 decoding and the newline added on writes are left out. Lines are given strings, and a write is recorded without its newline.
- Write failures propagated by `?` are I/O errors. They would end the session; the model has no event for them.
- The contents of `help.txt` are a constant the model does not see. The help text is a parameter.
- The IP's textual form (`ip().to_string()`) is a library format. The model takes the ip text as given.
- `write_to_connection_with_name` is never called, and so is not modelled.
- examples/cancel.rs is a timer demo outside the chat server, and so is not modelled.

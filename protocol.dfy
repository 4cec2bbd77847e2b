/** One chat session as a deterministic transition system: the server's
    fixed messages, the default name a connection gets from its peer
    address, the reading of an inbound line as a command, and the step that
    handles one event against the shared set of claimed names. */
module Protocol {
  import Decimal

  datatype Option<T> = None | Some(value: T)

  // ---------------------------------------------------------------------
  // Fixed texts

  /** The commands are matched with a backslash, exactly as written. */
  const HelpCommand: string := "\\help"
  const QuitCommand: string := "\\quit"
  /** A rename is any line that starts with this prefix, trailing space included. */
  const RenamePrefix: string := "/name "
  const Goodbye: string := "Goodbye!!"
  /** Appended to every chat line: a space, U+2764 U+FE0F (a red heart) and `!`. */
  const ChatSuffix: string := " \U{2764}\U{FE0F}!"

  function Greeting(name: string, help: string): string {
    "You are " + name + "\n" + help
  }

  function RenameNotice(before: string, after: string): string {
    before + " is now " + after
  }

  function AlreadyExists(requested: string): string {
    "name " + requested + " already exists"
  }

  function ChatLine(name: string, line: string): string {
    name + ": " + line + ChatSuffix
  }

  // ---------------------------------------------------------------------
  // Default name

  /** The peer's socket address; the IP's textual form is taken as given. */
  datatype Addr = Addr(ip: string, port: Decimal.Port)

  /** `<ip>_<port>`, the name a session starts with: the ip text, an
      underscore, and after it (the last underscore) the port in decimal. */
  function DefaultName(a: Addr): (n: string)
    ensures |n| > |a.ip| && n[..|a.ip|] == a.ip && n[|a.ip|] == '_'
    ensures '_' !in n[|a.ip| + 1..]
    ensures Decimal.IsCanonical(n[|a.ip| + 1..]) && Decimal.Value(n[|a.ip| + 1..]) == a.port
  {
    var digits := Decimal.Render(a.port);
    Decimal.ValueOfRender(a.port);
    var n := a.ip + "_" + digits;
    assert n[|a.ip| + 1..] == digits;
    n
  }

  /** The last position of `c` in `s`, if any. */
  function LastIndex(s: string, c: char): (r: Option<nat>)
    ensures r.None? ==> c !in s
    ensures r.Some? ==> r.value < |s| && s[r.value] == c && c !in s[r.value + 1..]
    decreases |s|
  {
    if s == [] then None
    else if s[|s| - 1] == c then Some(|s| - 1)
    else
      var r := LastIndex(s[..|s| - 1], c);
      assert s == s[..|s| - 1] + [s[|s| - 1]];
      r
  }

  /** Recovers the peer address from a default name: the text after the last
      underscore must be a port in canonical decimal form. */
  function ParseDefaultName(n: string): Option<Addr> {
    match LastIndex(n, '_')
    case None => None
    case Some(i) =>
      var digits := n[i + 1..];
      if Decimal.IsCanonical(digits) && Decimal.Value(digits) < 0x1_0000
      then Some(Addr(n[..i], Decimal.Value(digits)))
      else None
  }

  lemma {:induction false} LastIndexOfSuffixFree(p: string, c: char, t: string)
    requires c !in t
    ensures LastIndex(p + [c] + t, c) == Some(|p|)
    decreases |t|
  {
    var s := p + [c] + t;
    if t != [] {
      assert s[..|s| - 1] == p + [c] + t[..|t| - 1];
      LastIndexOfSuffixFree(p, c, t[..|t| - 1]);
    }
  }

  /** The default name determines the peer address. */
  lemma DefaultNameRoundTrip(a: Addr)
    ensures ParseDefaultName(DefaultName(a)) == Some(a)
  {
    var digits := Decimal.Render(a.port);
    Decimal.ValueOfRender(a.port);
    LastIndexOfSuffixFree(a.ip, '_', digits);
    var n := DefaultName(a);
    assert n == a.ip + ['_'] + digits;
    assert n[|a.ip| + 1..] == digits;
    assert n[..|a.ip|] == a.ip;
  }

  /** Every name the parser accepts is the default name of what it returns. */
  lemma ParsedDefaultName(n: string)
    requires ParseDefaultName(n).Some?
    ensures DefaultName(ParseDefaultName(n).value) == n
  {
    var i := LastIndex(n, '_').value;
    var digits := n[i + 1..];
    Decimal.RenderOfValue(digits);
    assert n == n[..i] + "_" + digits;
  }

  // ---------------------------------------------------------------------
  // Commands

  datatype Command = Help | Quit | Rename(requested: string) | Chat(text: string)

  /** How the session reads an inbound line: the two exact commands first,
      then the rename prefix, and everything else is chat. */
  function Parse(line: string): (c: Command)
    ensures c == Help <==> line == HelpCommand
    ensures c == Quit <==> line == QuitCommand
    ensures c.Rename? <==> line != HelpCommand && line != QuitCommand && RenamePrefix <= line
    ensures c.Rename? ==> line == RenamePrefix + c.requested
    ensures c.Chat? <==> IsPlainChat(line)
    ensures c.Chat? ==> c.text == line
  {
    if line == HelpCommand then Help
    else if line == QuitCommand then Quit
    else if RenamePrefix <= line then Rename(line[|RenamePrefix|..])
    else Chat(line)
  }

  /** The line a client sends to issue a command. */
  function Unparse(c: Command): string {
    match c
    case Help => HelpCommand
    case Quit => QuitCommand
    case Rename(x) => RenamePrefix + x
    case Chat(t) => t
  }

  /** A chat text that the session would not read as a command. */
  predicate IsPlainChat(t: string) {
    t != HelpCommand && t != QuitCommand && !(RenamePrefix <= t)
  }

  /** Every line is the rendering of the command it is read as. */
  lemma UnparseParse(line: string)
    ensures Unparse(Parse(line)) == line
    ensures Parse(line).Chat? ==> IsPlainChat(line)
  {
  }

  /** Every command other than a chat text that looks like a command is read back. */
  lemma ParseUnparse(c: Command)
    requires c.Chat? ==> IsPlainChat(c.text)
    ensures Parse(Unparse(c)) == c
  {
  }

  // ---------------------------------------------------------------------
  // The step

  /** What one event can be: a line read from the client; a read that gave
      nothing or a decoding error; a message received from the bus; a
      receive error on the bus (lagged or closed). */
  datatype Event = Line(text: string) | NoLine | Delivered(msg: string) | BusError

  /** The state private to one connection. `peer` never changes. */
  datatype State = State(peer: Addr, name: string, running: bool)

  /** The result of handling events: the new private state, the new shared
      name set, what was written to this client, what was sent to the bus. */
  datatype Transition = Transition(state: State, names: set<string>, replies: seq<string>, broadcasts: seq<string>)

  /** The session right after connecting: default name, and the greeting as
      its only write. The name set is not touched. */
  function Connect(peer: Addr, help: string, names: set<string>): (t: Transition)
    ensures t.state.running && t.state.peer == peer
    ensures t.state.name == DefaultName(peer)
    ensures t.names == names
    ensures t.replies == ["You are " + DefaultName(peer) + "\n" + help] && t.broadcasts == []
  {
    var name := DefaultName(peer);
    Transition(State(peer, name, true), names, [Greeting(name, help)], [])
  }

  /** Handles one event of a running session. */
  function Step(help: string, s: State, names: set<string>, e: Event): (t: Transition)
    requires s.running
    // the name set only grows, by at most the session's new name
    ensures names <= t.names && t.names <= names + {t.state.name}
    // a changed name is one that was free and is now claimed
    ensures t.state.name != s.name ==> t.state.name !in names && t.state.name in t.names
    ensures t.names != names ==> t.state.name !in names && t.broadcasts == [RenameNotice(s.name, t.state.name)]
    ensures t.state.peer == s.peer
    // the session ends only on the quit command, saying goodbye
    ensures !t.state.running <==> e == Line(QuitCommand)
    ensures !t.state.running ==> t.replies == [Goodbye] && t.broadcasts == [] && t.names == names
    // at most one message is produced, to the client or to the bus
    ensures |t.replies| + |t.broadcasts| <= 1
  {
    match e
    case NoLine => Transition(s, names, [], [])
    case BusError => Transition(s, names, [], [])
    case Delivered(m) => Transition(s, names, [m], [])
    case Line(line) =>
      match Parse(line)
      case Help => Transition(s, names, [help], [])
      case Quit => Transition(s.(running := false), names, [Goodbye], [])
      case Rename(x) =>
        if x !in names then Transition(s.(name := x), names + {x}, [], [RenameNotice(s.name, x)])
        else Transition(s, names, [AlreadyExists(x)], [])
      case Chat(l) => Transition(s, names, [], [ChatLine(s.name, l)])
  }

  /** Handles events in order until they run out or the session has ended;
      events after the quit command are never looked at. */
  function Run(help: string, s: State, names: set<string>, events: seq<Event>): (t: Transition)
    ensures names <= t.names
    ensures t.state.peer == s.peer
    ensures t.state.name != s.name ==> t.state.name in t.names
    ensures s.name in names ==> t.state.name in t.names
    // once any rename has succeeded, the current name is claimed
    ensures t.names != names ==> t.state.name in t.names
    ensures !s.running ==> t.state == s && t.names == names && t.replies == [] && t.broadcasts == []
    ensures |t.replies| + |t.broadcasts| <= |events|
    decreases |events|
  {
    if events == [] || !s.running then Transition(s, names, [], [])
    else
      var first := Step(help, s, names, events[0]);
      var rest := Run(help, first.state, first.names, events[1..]);
      Transition(rest.state, rest.names, first.replies + rest.replies, first.broadcasts + rest.broadcasts)
  }

  // ---------------------------------------------------------------------
  // Properties of single steps

  lemma HelpIsPrivate(help: string, s: State, names: set<string>)
    requires s.running
    ensures Step(help, s, names, Line(HelpCommand)) == Transition(s, names, [help], [])
  {
  }

  lemma QuitSaysGoodbye(help: string, s: State, names: set<string>)
    requires s.running
    ensures Step(help, s, names, Line(QuitCommand)) == Transition(s.(running := false), names, [Goodbye], [])
  {
  }

  /** After the quit command nothing else is handled, whatever follows it. */
  lemma QuitEndsSession(help: string, s: State, names: set<string>, later: seq<Event>)
    requires s.running
    ensures Run(help, s, names, [Line(QuitCommand)] + later)
         == Transition(s.(running := false), names, [Goodbye], [])
  {
  }

  /** A free name is claimed; the old one stays claimed and is announced. */
  lemma RenameToFreeName(help: string, s: State, names: set<string>, x: string)
    requires s.running && x !in names
    ensures var t := Step(help, s, names, Line(RenamePrefix + x));
      t.names == names + {x} && t.state == s.(name := x) &&
      t.replies == [] && t.broadcasts == [s.name + " is now " + x] &&
      (s.name in names ==> s.name in t.names)
  {
  }

  /** A claimed name is refused, privately, with nothing changed. */
  lemma RenameToClaimedName(help: string, s: State, names: set<string>, x: string)
    requires s.running && x in names
    ensures Step(help, s, names, Line(RenamePrefix + x))
         == Transition(s, names, ["name " + x + " already exists"], [])
  {
  }

  /** `/name ` with nothing after it claims the empty name. */
  lemma RenameToEmpty(help: string, s: State, names: set<string>)
    requires s.running && "" !in names
    ensures Step(help, s, names, Line(RenamePrefix)).names == names + {""}
    ensures Step(help, s, names, Line(RenamePrefix)).state.name == ""
  {
  }

  /** Any other line is decorated with the current name and broadcast. */
  lemma ChatIsBroadcast(help: string, s: State, names: set<string>, line: string)
    requires s.running && IsPlainChat(line)
    ensures Step(help, s, names, Line(line))
         == Transition(s, names, [], [s.name + ": " + line + " \U{2764}\U{FE0F}!"])
  {
  }

  /** `/name` without the trailing space is chat, not a rename. */
  lemma NameWithoutSpaceIsChat(help: string, s: State, names: set<string>)
    requires s.running
    ensures Step(help, s, names, Line("/name")).broadcasts == [ChatLine(s.name, "/name")]
    ensures Step(help, s, names, Line("/name")).names == names
  {
  }

  /** Bus messages are written out verbatim; ignored events change nothing. */
  lemma DeliveryAndIgnoredEvents(help: string, s: State, names: set<string>, m: string)
    requires s.running
    ensures Step(help, s, names, Delivered(m)) == Transition(s, names, [m], [])
    ensures Step(help, s, names, NoLine) == Transition(s, names, [], [])
    ensures Step(help, s, names, BusError) == Transition(s, names, [], [])
  {
  }

  // ---------------------------------------------------------------------
  // Properties of runs

  function Then(a: Transition, b: Transition): Transition {
    Transition(b.state, b.names, a.replies + b.replies, a.broadcasts + b.broadcasts)
  }

  /** A run of a running session is its first step followed by the rest. */
  lemma RunUnfolds(help: string, s: State, names: set<string>, events: seq<Event>)
    requires s.running && events != []
    ensures var first := Step(help, s, names, events[0]);
      Run(help, s, names, events) == Then(first, Run(help, first.state, first.names, events[1..]))
  {
  }

  /** Running two batches of events is running the first, then the second
      from where the first left off. */
  lemma {:induction false} RunSplits(help: string, s: State, names: set<string>, xs: seq<Event>, ys: seq<Event>)
    ensures var a := Run(help, s, names, xs);
      Run(help, s, names, xs + ys) == Then(a, Run(help, a.state, a.names, ys))
    decreases |xs|
  {
    if xs == [] {
      assert xs + ys == ys;
    } else if s.running {
      var first := Step(help, s, names, xs[0]);
      var tail := Run(help, first.state, first.names, xs[1..]);
      var b := Run(help, tail.state, tail.names, ys);
      RunUnfolds(help, s, names, xs);
      assert (xs + ys)[0] == xs[0] && (xs + ys)[1..] == xs[1..] + ys;
      RunUnfolds(help, s, names, xs + ys);
      RunSplits(help, first.state, first.names, xs[1..], ys);
      ThenAssociates(first, tail, b);
    }
  }

  lemma ThenAssociates(a: Transition, b: Transition, c: Transition)
    ensures Then(a, Then(b, c)) == Then(Then(a, b), c)
  {
  }

  /** Running one more event extends the outputs and nothing else. */
  lemma RunOneMore(help: string, s: State, names: set<string>, xs: seq<Event>, e: Event)
    ensures var a := Run(help, s, names, xs);
      var b := Run(help, s, names, xs + [e]);
      a.replies <= b.replies && a.broadcasts <= b.broadcasts && a.names <= b.names
  {
    RunSplits(help, s, names, xs, [e]);
  }

  /** Every claim a run makes is the session's own name at some point, and
      the name set after a run is the old one plus at most one name per event. */
  lemma {:induction false} RunClaimsAtMostOnePerEvent(help: string, s: State, names: set<string>, events: seq<Event>)
    ensures |Run(help, s, names, events).names - names| <= |events|
    decreases |events|
  {
    if events != [] && s.running {
      var first := Step(help, s, names, events[0]);
      var rest := Run(help, first.state, first.names, events[1..]);
      RunClaimsAtMostOnePerEvent(help, first.state, first.names, events[1..]);
      assert rest.names - names <= (rest.names - first.names) + (first.names - names);
      assert first.names - names <= {first.state.name};
      SubsetCard(rest.names - names, (rest.names - first.names) + (first.names - names));
      UnionCard(rest.names - first.names, first.names - names);
      SubsetCard(first.names - names, {first.state.name});
    }
  }

  lemma SubsetCard<T>(a: set<T>, b: set<T>)
    requires a <= b
    ensures |a| <= |b|
  {
    assert b == a + (b - a);
  }

  lemma UnionCard<T>(a: set<T>, b: set<T>)
    ensures |a + b| <= |a| + |b|
  {
  }

  // ---------------------------------------------------------------------
  // An example run, with the code's backslash commands

  /** A client renames itself to a free name, chats, quits, and whatever it
      sends afterwards is not handled: the rename and the chat line (with the
      new name) go to the bus, the goodbye goes to the client only. */
  lemma {:induction false} RenameChatQuit(help: string, s: State, names: set<string>, x: string, line: string, later: seq<Event>)
    requires s.running && x !in names && IsPlainChat(line)
    ensures Run(help, s, names, [Line(RenamePrefix + x), Line(line), Line(QuitCommand)] + later)
         == Transition(s.(name := x, running := false), names + {x}, [Goodbye], [RenameNotice(s.name, x), ChatLine(x, line)])
  {
    var events := [Line(RenamePrefix + x), Line(line), Line(QuitCommand)] + later;
    var s1 := s.(name := x);
    RenameToFreeName(help, s, names, x);
    RunUnfolds(help, s, names, events);
    var rest := events[1..];
    assert events[0] == Line(RenamePrefix + x) && rest[0] == Line(line);
    ChatIsBroadcast(help, s1, names + {x}, line);
    RunUnfolds(help, s1, names + {x}, rest);
    assert rest[1..] == [Line(QuitCommand)] + later;
    QuitEndsSession(help, s1, names + {x}, later);
  }

  /** The default name of the example's peer. */
  lemma ExampleDefaultName()
    ensures DefaultName(Addr("127.0.0.1", 55001)) == "127.0.0.1_55001"
  {
  }
}

/** The per-connection task as the imperative code it is: a session object
    whose fields the loop updates, the shared name set it inserts into, and
    the broadcast sender it publishes on. Each method is proved to do what
    the transition functions of `Protocol` say. */
module Connection {
  import opened Protocol

  /** The server-wide set of claimed names, created empty at start-up. */
  class NameRegistry {
    var names: set<string>

    constructor ()
      ensures names == {}
    {
      names := {};
    }

    /** Adds `name`; answers whether it was absent before, as `HashSet::insert`. */
    method Insert(name: string) returns (inserted: bool)
      modifies this
      ensures inserted <==> name !in old(names)
      ensures names == old(names) + {name}
    {
      inserted := name !in names;
      names := names + {name};
    }
  }

  /** The sending side of the broadcast channel, as the log of everything sent. */
  class Bus {
    var log: seq<string>

    constructor ()
      ensures log == []
    {
      log := [];
    }

    method Send(msg: string)
      modifies this
      ensures log == old(log) + [msg]
    {
      log := log + [msg];
    }
  }

  class Session {
    const peer: Addr
    const help: string
    const registry: NameRegistry
    const bus: Bus
    /** The display name; starts as the default name. */
    var name: string
    /** False once the loop has been left. */
    var running: bool
    /** Every message written to this client, in order. */
    var written: seq<string>

    function Current(): State
      reads this
    {
      State(peer, name, running)
    }

    /** Accepting a connection: the default name, and the greeting written
        before any event is handled. The name set and the bus are not touched. */
    constructor (peer: Addr, help: string, registry: NameRegistry, bus: Bus)
      ensures this.peer == peer && this.help == help
      ensures this.registry == registry && this.bus == bus
      ensures var t := Connect(peer, help, registry.names);
        Current() == t.state && written == t.replies
    {
      this.peer := peer;
      this.help := help;
      this.registry := registry;
      this.bus := bus;
      var defaultName := DefaultName(peer);
      name := defaultName;
      running := true;
      written := [Greeting(defaultName, help)];
    }

    /** One turn of the loop, for the event the select picked. */
    method Step(e: Event)
      requires running
      modifies this, registry, bus
      ensures var t := Protocol.Step(help, old(Current()), old(registry.names), e);
        Current() == t.state && registry.names == t.names &&
        written == old(written) + t.replies && bus.log == old(bus.log) + t.broadcasts
    {
      match e
      case NoLine =>
      case BusError =>
      case Delivered(msg) =>
        written := written + [msg];
      case Line(msg) =>
        if msg == HelpCommand {
          written := written + [help];
        } else if msg == QuitCommand {
          written := written + [Goodbye];
          running := false;
        } else if RenamePrefix <= msg {
          var userName := msg[|RenamePrefix|..];
          var notExists := registry.Insert(userName);
          if notExists {
            bus.Send(RenameNotice(name, userName));
            name := userName;
          } else {
            written := written + [AlreadyExists(userName)];
          }
        } else {
          var line := msg + ChatSuffix;
          assert name + ": " + line == ChatLine(name, msg);
          bus.Send(name + ": " + line);
        }
    }

    /** The loop: handles the events in order and leaves at the quit command. */
    method Run(events: seq<Event>)
      modifies this, registry, bus
      ensures var t := Protocol.Run(help, old(Current()), old(registry.names), events);
        Current() == t.state && registry.names == t.names &&
        written == old(written) + t.replies && bus.log == old(bus.log) + t.broadcasts
    {
      ghost var whole := Protocol.Run(help, Current(), registry.names, events);
      ghost var replies: seq<string> := [];
      ghost var sent: seq<string> := [];
      var i := 0;
      while i < |events| && running
        invariant 0 <= i <= |events|
        invariant written == old(written) + replies && bus.log == old(bus.log) + sent
        invariant whole == Then(Transition(Current(), registry.names, replies, sent),
                                Protocol.Run(help, Current(), registry.names, events[i..]))
      {
        ghost var before := Current();
        ghost var names := registry.names;
        ghost var t := Protocol.Step(help, before, names, events[i]);
        Step(events[i]);
        RunUnfolds(help, before, names, events[i..]);
        assert events[i..][1..] == events[i + 1..];
        ThenAssociates(Transition(before, names, replies, sent), t,
                       Protocol.Run(help, t.state, t.names, events[i + 1..]));
        replies := replies + t.replies;
        sent := sent + t.broadcasts;
        i := i + 1;
      }
      assert replies + [] == replies && sent + [] == sent;
    }
  }
}

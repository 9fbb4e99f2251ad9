/** The module-level state of src/command.ts: the `commands` registry, the
    console that `help` writes to, and a log of handler invocations. Each
    operation is proved against the functions of module Commands. */
module CommandState {
  import opened Commands

  class CommandModule {
    /** The registry, in registration order; only ever appended to. */
    var commands: seq<Command>
    /** Lines written with `console.log`, oldest first. */
    var console: seq<string>
    /** Every handler call made so far, oldest first. */
    var invocations: seq<Invocation>

    /** From module load on, the built-in help command is the first entry. */
    ghost predicate Valid()
      reads this
    {
      StartsWithHelp(commands)
    }

    /** Loading the module: an empty registry, then the built-in `help` command. */
    constructor ()
      ensures Valid()
      ensures commands == [BuiltinHelp] && console == [] && invocations == []
    {
      commands := [];
      console := [];
      invocations := [];
      new;
      var help := NewCommand("Help", "help", Some(""), HelpHandler);
    }

    /** `new Command(name, identifier, usage, commandFunction)`: builds the command
        and appends exactly it to the end of the registry. */
    method NewCommand(name: string, identifier: string, usage: Option<string>, handler: Handler) returns (c: Command)
      modifies this`commands
      ensures c == MakeCommand(name, identifier, usage, handler)
      ensures commands == old(commands) + [c]
      ensures old(Valid()) ==> Valid()
    {
      c := MakeCommand(name, identifier, usage, handler);
      if Valid() {
        RegisterKeepsHelpFirst(commands, c);
      }
      commands := commands + [c];
    }

    /** `getCommands()`: the registry in registration order. */
    method GetCommands() returns (r: seq<Command>)
      ensures r == commands
    {
      r := commands;
    }

    /** `getCommand(identifier, name?)`: scan in order, return at the first entry
        whose identifier or name matches; null when none does. */
    method GetCommand(identifier: string, name: Option<string>) returns (r: Option<Command>)
      ensures r == Lookup(commands, identifier, name)
      ensures r.None? <==> forall j :: 0 <= j < |commands| ==> !Matches(commands[j], identifier, name)
      ensures r.Some? ==> Matches(r.value, identifier, name)
    {
      var i := 0;
      while i < |commands|
        invariant 0 <= i <= |commands|
        invariant forall j :: 0 <= j < i ==> !Matches(commands[j], identifier, name)
      {
        var command := commands[i];
        if command.GetIdentifier() == identifier || (name.Some? && name.value == command.GetName()) {
          FirstMatchIsEarliest(commands, identifier, name, i);
          return Some(command);
        }
        i := i + 1;
      }
      return None;
    }

    /** `help()`: the title, the reference line, one line per command in
        registration order, and the trailer. */
    method Help()
      modifies this`console
      ensures commands == old(commands) && invocations == old(invocations)
      ensures console == old(console) + HelpLines(commands)
    {
      console := console + [HelpTitle, HelpReference];
      var i := 0;
      while i < |commands|
        invariant 0 <= i <= |commands|
        invariant console == old(console) + [HelpTitle, HelpReference] + CommandLines(commands[..i])
      {
        var command := commands[i];
        var info := "[" + command.GetName() + "] " + command.GetIdentifier() + " " + command.GetUsage();
        assert commands[..i + 1][..i] == commands[..i];
        console := console + [info];
        i := i + 1;
      }
      assert commands[..i] == commands;
      console := console + [HelpTrailer];
    }

    /** `command.execute(args)`: the command's handler is invoked once with `args`;
        the built-in help handler prints the listing. */
    method Execute(command: Command, args: seq<string>)
      modifies this`console, this`invocations
      ensures invocations == old(invocations) + ExecuteEffect(commands, command, args).calls
      ensures console == old(console) + ExecuteEffect(commands, command, args).lines
    {
      invocations := invocations + [Invocation(command.GetFunction(), args)];
      if command.GetFunction() == HelpHandler {
        Help();
      }
    }

    /** `fire(identifier, args?)`: help for the empty identifier; otherwise look the
        command up by identifier and execute it with `args || []`. */
    method Fire(identifier: string, args: Option<seq<string>>) returns (outcome: Outcome)
      modifies this`console, this`invocations
      ensures commands == old(commands)
      ensures outcome == Dispatch(commands, identifier, args).outcome
      ensures console == old(console) + Dispatch(commands, identifier, args).lines
      ensures invocations == old(invocations) + Dispatch(commands, identifier, args).calls
      ensures Valid() && identifier == "help" ==> console == old(console) + HelpLines(commands)
    {
      if Valid() && identifier == "help" {
        DispatchHelpCommand(commands, args);
      }
      if identifier == "" {
        Help();
        outcome := Returned;
      } else {
        var actual := if args.Some? then args.value else [];
        var command := GetCommand(identifier, None);
        if command.None? {
          outcome := NullDereference;
        } else {
          Execute(command.value, actual);
          outcome := Returned;
        }
      }
    }
  }

  /** A client of the loaded module: registering a user command, then firing it,
      firing an unknown identifier, and firing `help`. */
  method Scenario(id: nat)
  {
    var m := new CommandModule();
    var greet := m.NewCommand("Greet", "greet", None, UserHandler(id));
    assert m.commands == [BuiltinHelp, greet];
    var before := m.console;
    var o1 := m.Fire("greet", Some(["World"]));
    assert o1 == Returned && m.invocations == [Invocation(UserHandler(id), ["World"])];
    assert m.console == before;
    var o2 := m.Fire("bogus", None);
    assert o2 == NullDereference && |m.invocations| == 1;
    var o3 := m.Fire("help", None);
    assert m.console == HelpLines([BuiltinHelp, greet]);
  }
}

# Command registry and dispatcher (command-cli), modelled in Dafny

`src/command.ts` keeps a module-level array `commands` of `Command` objects. Every
`Command` registers itself by pushing onto that array when it is constructed, and
the module registers one built-in command, `help`, when it is loaded. `getCommand`
scans the array for the first entry whose identifier (or optional name) matches.
`help` prints a title, a reference line and one `[name] identifier usage` line per
command. `fire` shows help for an empty identifier; otherwise it looks the command
up by identifier and executes its handler with the arguments (default `[]`).

The model has two modules:

- `Commands` (commands.dfy) holds the values and the pure specification: the
  `Command` record and its getters, the value the constructor builds
  (`MakeCommand`), the match test and first-match lookup (`Matches`, `FirstMatch`,
  `Lookup`), the help listing (`FormatLine`, `CommandLines`, `HelpLines`), a reader
  for help lines (`ParseLine`), and the effect of one dispatch (`Dispatch`) as
  console lines, handler invocations and an outcome. The lemmas about these
  functions are here too.
- `CommandState` (command_module.dfy) holds the class `CommandModule`. It stands
  for the module's mutable state: the registry `commands`, the `console` lines
  written so far, and the `invocations` log of handler calls. Its methods follow
  the source's loops and branches, and each is proved against the functions of
  `Commands`. `Valid()` says the built-in help command is the first entry, which
  holds from module load on.

Handlers are opaque. `HelpHandler` is the built-in closure, which calls `help()`.
`UserHandler(id)` is any other closure, known only by its id. Executing a command
appends `Invocation(handler, args)` to the log, and the help handler also prints the
listing. `console.log(s)` appends the line `s`, so `console.log("\n")` appends `"\n"`.

Facts about this version of the code that the model keeps:

- `fire` has no "not found" message. For an unknown identifier `getCommand`
  returns `null` and `command.execute(args)` dereferences it, which throws a
  TypeError to the caller. The model returns the outcome `NullDereference`, with
  no output and no handler invoked.
- `getCommands` returns the live array, not a copy.
- `help` prints no special notice for an empty registry. (After module load the
  registry is never empty.)
- `fire` looks up by identifier only. The name is matched only when `getCommand`
  is given one, and `fire` never gives one.

## Model

| member | source | states |
|---|---|---|
| Commands.MakeCommand | src/command.ts:28-64 | the getters of the built command return the given name, identifier and handler unchanged; the usage is "" exactly when the supplied usage is absent or empty, and otherwise the supplied string |
| Commands.BuiltinHelp | src/command.ts:170-172 | definition, no contract: the built-in command ("Help", "help", "", the help handler); the constructor is proved to register exactly it, and DispatchHelpCommand shows firing "help" then prints the listing |
| Commands.Matches | src/command.ts:104 | definition, no contract: the per-entry test of the scan (identifier equal, or a supplied name equal); characterised through FirstMatch and LookupSpec |
| Commands.Lookup | src/command.ts:94-112 | definition, no contract: the entry `getCommand` returns, or null; characterised by LookupSpec and FirstMatchIsEarliest, and GetCommand is proved equal to it |
| Commands.FormatLine | src/command.ts:136 | definition, no contract: the `[name] identifier usage` line; characterised by ParseFormatLine |
| Commands.CommandLines | src/command.ts:132-138 | definition, no contract: the per-command lines in registration order; characterised by CommandLinesAt and HelpLinesAppend |
| Commands.HelpLines | src/command.ts:118-141 | definition, no contract: everything `help` prints; characterised by HelpLinesShape and HelpLinesAppend, and Help is proved to print it |
| Commands.ExecuteEffect | src/command.ts:70-73 | definition, no contract: one invocation of the handler, plus the listing for the built-in help handler; Execute is proved to have this effect |
| Commands.Dispatch | src/command.ts:148-159 | definition, no contract: what `fire` prints, invokes and how it ends; characterised by DispatchEmptyIsHelp, DispatchInvokesFirst, DispatchUnknownFails, DispatchAtMostOneHandler and DispatchHelpCommand, and Fire is proved to have this effect |
| Commands.FirstMatch | src/command.ts:99-111 | the index found matches the identifier or the name and no earlier entry matches; no index is found exactly when no entry matches |
| Commands.FirstMatchIsEarliest | src/command.ts:99-107 | an entry that matches while every earlier entry does not is the one lookup returns, so the first registered wins among duplicates |
| Commands.LookupSpec | src/command.ts:94-112 | lookup gives null exactly when no entry matches by identifier or name; otherwise it gives an entry that matches with no matching entry before it |
| Commands.FirstMatchAppend | src/command.ts:35 | registering a command never changes a lookup that already succeeded; a lookup that failed then finds the new command exactly when it matches |
| Commands.CommandLinesAt | src/command.ts:132-138 | the per-command lines are one per registered command, and line k is the formatted line of command k |
| Commands.HelpLinesShape | src/command.ts:118-141 | the listing has exactly one line per command plus 3: the title "\nCommand List:", the reference line, the command lines in registration order, then "\n" |
| Commands.HelpLinesAppend | src/command.ts:35 | after registering a command the listing is the old listing with exactly that command's line inserted before the trailer |
| Commands.ParseFormatLine | src/command.ts:136 | a line `[name] identifier usage` reads back to the same name, identifier and usage when the name has no ']' and the identifier no space |
| Commands.DispatchEmptyIsHelp | src/command.ts:151-152 | firing the empty identifier prints exactly the help listing, invokes no handler and returns |
| Commands.DispatchInvokesFirst | src/command.ts:153-158 | firing a non-empty identifier invokes the handler of the first command with that identifier exactly once, with the given arguments, or [] when none are given; it prints the help listing if that handler is the built-in one and nothing otherwise |
| Commands.DispatchUnknownFails | src/command.ts:157-158 | firing a non-empty identifier fails with the null dereference exactly when no command has that identifier (names are not consulted), and then nothing is printed or invoked |
| Commands.DispatchAtMostOneHandler | src/command.ts:148-159 | one fire invokes at most one handler, and exactly one when the identifier is non-empty and the call returns |
| Commands.DispatchHelpCommand | src/command.ts:170-172 | while the built-in is the first entry, firing "help" prints the same listing as help() and as firing "", and invokes only the help handler |
| Commands.RegisterKeepsHelpFirst | src/command.ts:28-36 | registering a command keeps the built-in help command first and leaves every earlier entry unchanged |
| CommandState.CommandModule.constructor | src/command.ts:170-172 | after module load the registry is exactly the built-in help command `BuiltinHelp` ("Help", "help", "", the help handler), nothing has been printed and no handler invoked |
| CommandState.CommandModule.NewCommand | src/command.ts:28-36 | construction appends exactly the built command to the end of the registry, changes nothing else, and keeps the built-in first |
| CommandState.CommandModule.GetCommands | src/command.ts:84-86 | returns the registry in registration order and changes nothing |
| CommandState.CommandModule.GetCommand | src/command.ts:94-112 | the index loop with early return gives the first-match lookup result, null exactly when no entry matches, and changes nothing |
| CommandState.CommandModule.Help | src/command.ts:118-141 | appends exactly the help listing of the current registry to the console and changes nothing else, so two calls in a row print the same lines |
| CommandState.CommandModule.Execute | src/command.ts:70-73 | logs one invocation of the command's handler with the arguments; the built-in help handler also prints the listing |
| CommandState.CommandModule.Fire | src/command.ts:148-159 | the outcome, console lines and invocations are those of the dispatch specification, the registry is unchanged, and with the built-in first firing "help" prints the help listing |

## Left out

- `init` and `src/main.ts`: `init` is imported by main.ts but defined nowhere in command.ts. main.ts only reads `process.argv` and returns a fixed exit code of 0, which is process plumbing. Neither is modelled.
- What user handlers do: a user closure is an opaque id, and executing it only logs the invocation. Handler exceptions are not modelled.
- The relative order of console lines and handler invocations: they are kept in two separate logs.
- JavaScript truthiness: only `usage || ""` is modelled, with an absent usage (`null` or `undefined`) written as `None`. `args || []` is modelled as `None` becoming `[]`, because an array is always truthy.
- CommandState.CommandModule.GetCommands: returns the registry as a value. The source returns the live array, and a caller that mutated it would change the registry; this aliasing is not modelled.
- Fields of a `Command` are public in the source and could be reassigned after registration. Nothing in the code does this, so a registered command is an immutable value here.

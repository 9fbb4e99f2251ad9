/** Values and pure specifications of the command registry in src/command.ts:
    the Command record, the first-match lookup, the help listing and what one
    call of `fire` does, stated as functions of the registry. */
module Commands {

  datatype Option<T> = None | Some(value: T)

  /** A command's handler, kept opaque: either the built-in closure that prints
      the help listing, or a user-supplied closure known only by an id. */
  datatype Handler = HelpHandler | UserHandler(id: nat)

  /** One registry entry. The getters return the stored fields unchanged. */
  datatype Command = Command(name: string, identifier: string, usage: string, handler: Handler)
  {
    function GetName(): string { name }
    function GetIdentifier(): string { identifier }
    function GetUsage(): string { usage }
    function GetFunction(): Handler { handler }
  }

  /** The command the constructor builds. `usage` is None for null/undefined;
      `usage || ""` keeps a truthy string and turns every falsy one into "". */
  function MakeCommand(name: string, identifier: string, usage: Option<string>, handler: Handler): (c: Command)
    ensures c.GetName() == name && c.GetIdentifier() == identifier && c.GetFunction() == handler
    ensures c.GetUsage() == "" <==> (usage.None? || usage.value == "")
    ensures usage.Some? ==> c.GetUsage() == usage.value
  {
    Command(name, identifier, if usage.Some? && usage.value != "" then usage.value else "", handler)
  }

  /** The built-in command registered when the module is loaded. */
  const BuiltinHelp: Command := Command("Help", "help", "", HelpHandler)

  /** The registry as it stands after module load, and ever after: the built-in first. */
  predicate StartsWithHelp(cs: seq<Command>)
  {
    |cs| > 0 && cs[0] == BuiltinHelp
  }

  // ---------------------------------------------------------------- lookup

  /** The test `getCommand` applies to each entry: the identifier matches, or a
      name was supplied and it matches. An absent name matches nothing. */
  predicate Matches(c: Command, identifier: string, name: Option<string>)
  {
    c.identifier == identifier || (name.Some? && name.value == c.name)
  }

  /** Index of the first registry entry that matches, if any. */
  function FirstMatch(cs: seq<Command>, identifier: string, name: Option<string>): (r: Option<nat>)
    ensures r.Some? ==> r.value < |cs| && Matches(cs[r.value], identifier, name)
    ensures r.Some? ==> forall j :: 0 <= j < r.value ==> !Matches(cs[j], identifier, name)
    ensures r.None? <==> forall j :: 0 <= j < |cs| ==> !Matches(cs[j], identifier, name)
  {
    if cs == [] then None
    else if Matches(cs[0], identifier, name) then Some(0)
    else
      match FirstMatch(cs[1..], identifier, name)
      case None =>
        assert forall j :: 1 <= j < |cs| ==> cs[j] == cs[1..][j - 1];
        None
      case Some(i) =>
        assert forall j :: 1 <= j < i + 1 ==> cs[j] == cs[1..][j - 1];
        Some(i + 1)
  }

  /** What `getCommand(identifier, name)` returns: the first matching entry, or null. */
  function Lookup(cs: seq<Command>, identifier: string, name: Option<string>): Option<Command>
  {
    match FirstMatch(cs, identifier, name)
    case None => None
    case Some(i) => Some(cs[i])
  }

  /** An entry that matches while every earlier one does not is the one found. */
  lemma FirstMatchIsEarliest(cs: seq<Command>, identifier: string, name: Option<string>, i: nat)
    requires i < |cs| && Matches(cs[i], identifier, name)
    requires forall j :: 0 <= j < i ==> !Matches(cs[j], identifier, name)
    ensures FirstMatch(cs, identifier, name) == Some(i)
    ensures Lookup(cs, identifier, name) == Some(cs[i])
  {
  }

  /** Lookup fails exactly when no entry matches; when it succeeds, the result is
      an entry that matches and no earlier entry does. */
  lemma LookupSpec(cs: seq<Command>, identifier: string, name: Option<string>)
    ensures Lookup(cs, identifier, name).None? <==> forall j :: 0 <= j < |cs| ==> !Matches(cs[j], identifier, name)
    ensures Lookup(cs, identifier, name).Some? ==>
      exists i :: 0 <= i < |cs| && cs[i] == Lookup(cs, identifier, name).value && Matches(cs[i], identifier, name) &&
        forall j :: 0 <= j < i ==> !Matches(cs[j], identifier, name)
  {
    var r := FirstMatch(cs, identifier, name);
    if r.Some? {
      assert cs[r.value] == Lookup(cs, identifier, name).value;
    }
  }

  /** Registering a command never changes the result of a lookup that already
      succeeded (the first registered wins), and a failed lookup then finds the
      new command exactly when it matches. */
  lemma {:induction false} FirstMatchAppend(cs: seq<Command>, c: Command, identifier: string, name: Option<string>)
    ensures FirstMatch(cs + [c], identifier, name) ==
      (if FirstMatch(cs, identifier, name).Some? then FirstMatch(cs, identifier, name)
       else if Matches(c, identifier, name) then Some(|cs|)
       else None)
  {
    var r := FirstMatch(cs, identifier, name);
    var cs' := cs + [c];
    if r.Some? {
      FirstMatchIsEarliest(cs', identifier, name, r.value);
    } else if Matches(c, identifier, name) {
      assert cs'[|cs|] == c;
      FirstMatchIsEarliest(cs', identifier, name, |cs|);
    } else {
      assert forall j :: 0 <= j < |cs'| ==> !Matches(cs'[j], identifier, name) by {
        forall j | 0 <= j < |cs'| ensures !Matches(cs'[j], identifier, name) {
          if j < |cs| { assert cs'[j] == cs[j]; }
        }
      }
    }
  }

  // ---------------------------------------------------------------- help listing

  /** The title, and the reference line `Reference: ${format}` with the format written out. */
  const HelpTitle: string := "\nCommand List:"
  const HelpReference: string := "Reference: [command_name] command_identifier command_usage"
  const HelpTrailer: string := "\n"

  /** The line `help` prints for one command: `[name] identifier usage`. */
  function FormatLine(c: Command): string
  {
    "[" + c.GetName() + "] " + c.GetIdentifier() + " " + c.GetUsage()
  }

  /** One formatted line per command, in registration order. */
  function CommandLines(cs: seq<Command>): seq<string>
  {
    if cs == [] then [] else CommandLines(cs[..|cs| - 1]) + [FormatLine(cs[|cs| - 1])]
  }

  /** Everything one call of `help` prints. */
  function HelpLines(cs: seq<Command>): seq<string>
  {
    [HelpTitle, HelpReference] + CommandLines(cs) + [HelpTrailer]
  }

  lemma {:induction false} CommandLinesAt(cs: seq<Command>)
    ensures |CommandLines(cs)| == |cs|
    ensures forall k :: 0 <= k < |cs| ==> CommandLines(cs)[k] == FormatLine(cs[k])
  {
    if cs != [] {
      var init := cs[..|cs| - 1];
      CommandLinesAt(init);
      assert forall k :: 0 <= k < |init| ==> init[k] == cs[k];
    }
  }

  /** The listing is the title, the reference line, the line of each command at
      its registration index, and the trailer: |cs| + 3 lines in all. */
  lemma HelpLinesShape(cs: seq<Command>)
    ensures |HelpLines(cs)| == |cs| + 3
    ensures HelpLines(cs)[0] == "\nCommand List:"
    ensures HelpLines(cs)[1] == "Reference: [command_name] command_identifier command_usage"
    ensures forall k :: 0 <= k < |cs| ==> HelpLines(cs)[k + 2] == FormatLine(cs[k])
    ensures HelpLines(cs)[|cs| + 2] == "\n"
  {
    CommandLinesAt(cs);
  }

  /** Registering a command adds exactly its line to the listing, just before the trailer. */
  lemma HelpLinesAppend(cs: seq<Command>, c: Command)
    ensures CommandLines(cs + [c]) == CommandLines(cs) + [FormatLine(c)]
    ensures HelpLines(cs + [c]) == [HelpTitle, HelpReference] + CommandLines(cs) + [FormatLine(c), HelpTrailer]
  {
    assert (cs + [c])[..|cs|] == cs;
  }

  // ---------------------------------------------------------------- reading a line back

  /** The fields a help line carries. */
  datatype LineFields = LineFields(name: string, identifier: string, usage: string)

  /** Position of the first `ch` in `s`. */
  function IndexOf(s: string, ch: char): (r: Option<nat>)
    ensures r.Some? ==> r.value < |s| && s[r.value] == ch && ch !in s[..r.value]
    ensures r.None? <==> ch !in s
  {
    if s == [] then None
    else if s[0] == ch then Some(0)
    else
      match IndexOf(s[1..], ch)
      case None => None
      case Some(i) =>
        assert s[..i + 1] == [s[0]] + s[1..][..i];
        Some(i + 1)
  }

  lemma IndexOfSplit(a: string, ch: char, b: string)
    requires ch !in a
    ensures IndexOf(a + [ch] + b, ch) == Some(|a|)
  {
    var s := a + [ch] + b;
    assert s[|a|] == ch;
    assert s[..|a|] == a;
  }

  /** Reads `[name] identifier usage` back: the name ends at the first ']' and the
      identifier at the first space after it. */
  function ParseLine(line: string): Option<LineFields>
  {
    if |line| == 0 || line[0] != '[' then None
    else
      match IndexOf(line[1..], ']')
      case None => None
      case Some(k) =>
        var after := line[k + 2..];
        if |after| == 0 || after[0] != ' ' then None
        else
          var rest := after[1..];
          match IndexOf(rest, ' ')
          case None => None
          case Some(m) => Some(LineFields(line[1..k + 1], rest[..m], rest[m + 1..]))
  }

  /** A help line determines the command's name, identifier and usage, as long as
      the name holds no ']' and the identifier no space. */
  lemma ParseFormatLine(c: Command)
    requires ']' !in c.name && ' ' !in c.identifier
    ensures ParseLine(FormatLine(c)) == Some(LineFields(c.name, c.identifier, c.usage))
  {
    var n, i, u := c.name, c.identifier, c.usage;
    var tail := i + [' '] + u;
    FormatLineShape(c);
    var line := FormatLine(c);
    BracketSlices(n, tail);
    IndexOfSplit(n, ']', [' '] + tail);
    IndexOfSplit(i, ' ', u);
    assert tail[..|i|] == i && tail[|i| + 1..] == u;
    ParseLineSome(line, |n|, |i|);
  }

  lemma FormatLineShape(c: Command)
    ensures FormatLine(c) == ['['] + (c.name + [']'] + ([' '] + (c.identifier + [' '] + c.usage)))
  {
  }

  lemma BracketSlices(n: string, tail: string)
    ensures var line := ['['] + (n + [']'] + ([' '] + tail));
      |line| > |n| + 2 && line[0] == '[' && line[|n| + 2] == ' ' &&
      line[1..] == n + [']'] + ([' '] + tail) && line[1..|n| + 1] == n && line[|n| + 3..] == tail
  {
    var line := ['['] + (n + [']'] + ([' '] + tail));
    assert line[1..] == n + [']'] + ([' '] + tail);
    assert line[1..|n| + 1] == n;
    assert line[|n| + 3..] == tail;
  }

  /** The steps `ParseLine` takes on a line whose separators are where expected. */
  lemma ParseLineSome(line: string, k: nat, m: nat)
    requires |line| > k + 2 && line[0] == '[' && line[k + 2] == ' '
    requires IndexOf(line[1..], ']') == Some(k)
    requires IndexOf(line[k + 3..], ' ') == Some(m)
    ensures ParseLine(line) == Some(LineFields(line[1..k + 1], line[k + 3..][..m], line[k + 3..][m + 1..]))
  {
    assert line[k + 2..][1..] == line[k + 3..];
  }

  // ---------------------------------------------------------------- dispatch

  /** One handler call: which handler, with which arguments. */
  datatype Invocation = Invocation(handler: Handler, args: seq<string>)

  /** How `fire` ends: it returns, or it dereferences the null that a failed
      lookup gives back (a TypeError thrown to the caller). */
  datatype Outcome = Returned | NullDereference

  /** Console lines printed and handlers invoked by one call. */
  datatype Effect = Effect(lines: seq<string>, calls: seq<Invocation>, outcome: Outcome)

  /** `execute(args)` on command `c` while the registry is `cs`: the handler is
      invoked once; the built-in help handler then prints the listing. */
  function ExecuteEffect(cs: seq<Command>, c: Command, args: seq<string>): Effect
  {
    Effect(if c.handler == HelpHandler then HelpLines(cs) else [], [Invocation(c.handler, args)], Returned)
  }

  /** `fire(identifier, args)`: help for the empty identifier; otherwise lookup by
      identifier alone (no name) and execute with `args || []`. */
  function Dispatch(cs: seq<Command>, identifier: string, args: Option<seq<string>>): Effect
  {
    if identifier == "" then Effect(HelpLines(cs), [], Returned)
    else
      match Lookup(cs, identifier, None)
      case None => Effect([], [], NullDereference)
      case Some(c) => ExecuteEffect(cs, c, if args.Some? then args.value else [])
  }

  /** `fire("", args)` prints exactly the help listing and invokes no handler. */
  lemma DispatchEmptyIsHelp(cs: seq<Command>, args: Option<seq<string>>)
    ensures Dispatch(cs, "", args).lines == HelpLines(cs)
    ensures Dispatch(cs, "", args).calls == []
    ensures Dispatch(cs, "", args).outcome == Returned
  {
  }

  /** For a non-empty identifier, the handler of the first command registered
      under it is invoked exactly once, with the arguments (or []) unchanged;
      only the built-in help handler prints anything. */
  lemma DispatchInvokesFirst(cs: seq<Command>, identifier: string, args: Option<seq<string>>, i: nat)
    requires identifier != "" && i < |cs| && cs[i].identifier == identifier
    requires forall j :: 0 <= j < i ==> cs[j].identifier != identifier
    ensures Dispatch(cs, identifier, args).calls == [Invocation(cs[i].handler, if args.Some? then args.value else [])]
    ensures Dispatch(cs, identifier, args).outcome == Returned
    ensures Dispatch(cs, identifier, args).lines == (if cs[i].handler == HelpHandler then HelpLines(cs) else [])
  {
    FirstMatchIsEarliest(cs, identifier, None, i);
  }

  /** For a non-empty identifier, `fire` fails exactly when no command has that
      identifier (names are not consulted), and then it prints and invokes nothing. */
  lemma DispatchUnknownFails(cs: seq<Command>, identifier: string, args: Option<seq<string>>)
    requires identifier != ""
    ensures Dispatch(cs, identifier, args).outcome == NullDereference <==>
      forall j :: 0 <= j < |cs| ==> cs[j].identifier != identifier
    ensures Dispatch(cs, identifier, args).outcome == NullDereference ==>
      Dispatch(cs, identifier, args).lines == [] && Dispatch(cs, identifier, args).calls == []
  {
    LookupSpec(cs, identifier, None);
  }

  /** Every call of `fire` invokes at most one handler, and one exactly when it
      returns normally for a non-empty identifier. */
  lemma DispatchAtMostOneHandler(cs: seq<Command>, identifier: string, args: Option<seq<string>>)
    ensures |Dispatch(cs, identifier, args).calls| <= 1
    ensures |Dispatch(cs, identifier, args).calls| == 1 <==>
      (identifier != "" && Dispatch(cs, identifier, args).outcome == Returned)
  {
  }

  /** Once the built-in is registered first, `fire("help", args)` prints the same
      listing as `help()` (and as `fire("")`). */
  lemma DispatchHelpCommand(cs: seq<Command>, args: Option<seq<string>>)
    requires StartsWithHelp(cs)
    ensures Dispatch(cs, "help", args).lines == HelpLines(cs) == Dispatch(cs, "", args).lines
    ensures Dispatch(cs, "help", args).calls == [Invocation(HelpHandler, if args.Some? then args.value else [])]
  {
    DispatchInvokesFirst(cs, "help", args, 0);
  }

  /** Registering a command keeps the built-in first. */
  lemma RegisterKeepsHelpFirst(cs: seq<Command>, c: Command)
    requires StartsWithHelp(cs)
    ensures StartsWithHelp(cs + [c])
    ensures (cs + [c])[..|cs|] == cs
  {
  }
}

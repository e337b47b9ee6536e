/**
 * The slash-command registry of the server (voudp/src/commands.rs): commands
 * stored by name, an alias table pointing at names, and the parser that turns
 * a chat line into a command and its arguments.
 */
module Commands {
  import opened Wrappers
  import opened Bytes
  import opened Net
  import opened Text
  import opened Iteration

  datatype CommandCategory = User | Channel | Audio | Chat | Admin | Utility | Fun

  datatype ServerCommand = ServerCommand(
    name: string,
    description: string,
    usage: string,
    category: CommandCategory,
    aliases: seq<string>,
    requiresAuth: bool,
    adminOnly: bool)

  datatype CommandContext = CommandContext(
    senderAddr: SocketAddr,
    senderMask: Option<string>,
    channelId: u32,
    arguments: seq<string>,
    isAdmin: bool)

  datatype CommandResult = Success(msg: string) | Error(msg: string) | Silent

  /** A handler; it may panic on some contexts, hence a partial function. */
  type CommandFn = CommandContext --> CommandResult

  /** The one built-in command: `/test`, alias `/`, needing a nickname. */
  function TestCommand(): ServerCommand {
    ServerCommand("/test", "Test command", "/test <args>", Fun, ["/"], true, false)
  }

  /** The `/test` handler; it unwraps the sender's mask. */
  function TestHandler(ctx: CommandContext): (r: CommandResult)
    requires ctx.senderMask.Some?
    ensures r == Success("Good name") <==> ctx.senderMask.value == "spixa"
    ensures r != Success("Good name") <==> r == Error("Bad name")
  {
    if ctx.senderMask.value == "spixa" then Success("Good name") else Error("Bad name")
  }

  /** The alias entries `register_command` adds: each alias points at `name`. */
  function AliasEntries(aliases: seq<string>, name: string): map<string, string> {
    map a | a in aliases :: name
  }

  predicate Allowed(c: ServerCommand, isAdmin: bool) {
    !c.adminOnly || isAdmin
  }

  class CommandSystem {
    var commands: map<string, (ServerCommand, CommandFn)>
    var aliases: map<string, string>

    /** `CommandSystem::new`: the registry with `/test` registered. */
    constructor ()
      ensures commands.Keys == {"/test"} && commands["/test"].0 == TestCommand()
      ensures aliases == map["/" := "/test"]
    {
      commands := map[];
      aliases := map[];
      new;
      RegisterCommand(TestCommand(), TestHandler);
      assert AliasEntries(["/"], "/test") == map["/" := "/test"];
    }

    /** `register_command`: stored under its name (replacing any earlier one), then each alias mapped to the name. */
    method RegisterCommand(command: ServerCommand, f: CommandFn)
      modifies this
      ensures commands == old(commands)[command.name := (command, f)]
      ensures aliases == old(aliases) + AliasEntries(command.aliases, command.name)
      ensures forall a :: a in command.aliases ==> GetCommand(a).Some? && GetCommand(a).value.0 == command
    {
      commands := commands[command.name := (command, f)];
      var table := aliases;
      for i := 0 to |command.aliases|
        invariant table == old(aliases) + AliasEntries(command.aliases[..i], command.name)
      {
        assert command.aliases[..i + 1] == command.aliases[..i] + [command.aliases[i]];
        table := table[command.aliases[i] := command.name];
      }
      assert command.aliases[..|command.aliases|] == command.aliases;
      aliases := table;
    }

    /** `get_command`: the alias table is consulted first, then the name itself. */
    function GetCommand(name: string): Option<(ServerCommand, CommandFn)>
      reads this
    {
      var actual := if name in aliases then aliases[name] else name;
      if actual in commands then Some(commands[actual]) else None
    }

    /** `get_all_commands`: every stored command, in the map's iteration order. */
    function AllCommands(order: seq<string>): (r: seq<ServerCommand>)
      reads this
      requires IsEnumeration(order, commands.Keys)
      ensures |r| == |commands|
      ensures forall k :: k in commands ==> commands[k].0 in r
    {
      EnumerationSize(order, commands.Keys);
      Values(order)
    }

    /** The stored commands under the keys of `order`, in that order. */
    function Values(order: seq<string>): (r: seq<ServerCommand>)
      reads this
      requires forall i :: 0 <= i < |order| ==> order[i] in commands
      ensures |r| == |order|
      ensures forall i :: 0 <= i < |order| ==> r[i] == commands[order[i]].0
    {
      if order == [] then [] else [commands[order[0]].0] + Values(order[1..])
    }

    /** `get_commands_for_user`: the stored commands an admin, or anyone, may run, in iteration order. */
    function CommandsForUser(isAdmin: bool, order: seq<string>): (r: seq<ServerCommand>)
      reads this
      requires forall i :: 0 <= i < |order| ==> order[i] in commands
      ensures |r| <= |order|
      ensures forall j :: 0 <= j < |r| ==> Allowed(r[j], isAdmin)
      ensures forall i :: 0 <= i < |order| ==> (commands[order[i]].0 in r <==> Allowed(commands[order[i]].0, isAdmin))
      ensures IsSubsequence(r, Values(order))
    {
      if order == [] then []
      else
        var c := commands[order[0]].0;
        var rest := CommandsForUser(isAdmin, order[1..]);
        assert Values(order)[1..] == Values(order[1..]);
        if Allowed(c, isAdmin) then
          assert ([c] + rest)[1..] == rest;
          [c] + rest
        else rest
    }

    /** `parse_command`: a trimmed line starting with '/' names a command by its first token; the rest are arguments. */
    function ParseCommand(input: string): Option<(ServerCommand, CommandFn, seq<string>)>
      reads this
    {
      var trimmed := Trim(input);
      if !StartsWith(trimmed, "/") then None
      else
        var parts := SplitWhitespace(trimmed);
        if parts == [] then None
        else match GetCommand(parts[0])
          case None => None
          case Some(entry) => Some((entry.0, entry.1, parts[1..]))
    }
  }

  /** An alias hides a command of the same name: it resolves to its target, or to nothing. */
  lemma AliasShadowsName(cs: CommandSystem, name: string)
    requires name in cs.aliases
    ensures cs.GetCommand(name).Some? <==> cs.aliases[name] in cs.commands
    ensures cs.GetCommand(name).Some? ==> cs.GetCommand(name).value.0 == cs.commands[cs.aliases[name]].0
  {
  }

  /** A name that is no alias is looked up directly. */
  lemma DirectLookup(cs: CommandSystem, name: string)
    requires name !in cs.aliases
    ensures cs.GetCommand(name).Some? <==> name in cs.commands
    ensures cs.GetCommand(name).Some? ==> cs.GetCommand(name).value.0 == cs.commands[name].0
  {
  }

  /** An admin sees every command, in the same order as `get_all_commands`. */
  lemma AdminSeesAll(cs: CommandSystem, order: seq<string>)
    requires IsEnumeration(order, cs.commands.Keys)
    ensures cs.CommandsForUser(true, order) == cs.AllCommands(order)
  {
    ForUserAll(cs, order);
  }

  lemma {:induction false} ForUserAll(cs: CommandSystem, order: seq<string>)
    requires forall i :: 0 <= i < |order| ==> order[i] in cs.commands
    ensures cs.CommandsForUser(true, order) == cs.Values(order)
    decreases |order|
  {
    if order != [] {
      ForUserAll(cs, order[1..]);
    }
  }

  /** Input that does not start with '/' once trimmed is never a command. */
  lemma ParseNeedsSlash(cs: CommandSystem, input: string)
    requires !StartsWith(Trim(input), "/")
    ensures cs.ParseCommand(input).None?
  {
  }

  lemma {:induction false} JoinBounds(ws: seq<string>)
    requires |ws| >= 1
    requires forall i :: 0 <= i < |ws| ==> IsToken(ws[i])
    ensures |Join(ws, " ")| > 0 && |ws[0]| > 0 && |ws[|ws| - 1]| > 0
    ensures Join(ws, " ")[0] == ws[0][0]
    ensures Join(ws, " ")[|Join(ws, " ")| - 1] == ws[|ws| - 1][|ws[|ws| - 1]| - 1]
  {
    assert IsToken(ws[0]) && IsToken(ws[|ws| - 1]);
    if |ws| > 1 {
      JoinBounds(ws[1..]);
      assert ws[1..][|ws| - 2] == ws[|ws| - 1];
    }
  }

  /** A string with no whitespace at either end is its own trim. */
  lemma TrimUnchanged(s: string)
    requires s != [] && !IsWhitespace(s[0]) && !IsWhitespace(s[|s| - 1])
    ensures Trim(s) == s
  {
    assert TrimStart(s) == s;
  }

  /** `/name arg1 … argN` parses to the command `name` resolves to, with the arguments in order. */
  lemma ParseTokens(cs: CommandSystem, name: string, args: seq<string>)
    requires IsToken(name) && name[0] == '/'
    requires forall i :: 0 <= i < |args| ==> IsToken(args[i])
    ensures cs.ParseCommand(Join([name] + args, " ")).Some? <==> cs.GetCommand(name).Some?
    ensures cs.GetCommand(name).Some? ==>
      cs.ParseCommand(Join([name] + args, " ")).value.0 == cs.GetCommand(name).value.0
      && cs.ParseCommand(Join([name] + args, " ")).value.2 == args
  {
    var ws := [name] + args;
    var line := Join(ws, " ");
    assert forall i :: 0 <= i < |ws| ==> IsToken(ws[i]);
    JoinBounds(ws);
    TrimUnchanged(line);
    assert StartsWith(line, "/");
    SplitJoin(ws);
    assert SplitWhitespace(Trim(line)) == ws;
    assert ws[0] == name && ws[1..] == args;
    ParseOf(cs, line, ws);
  }

  lemma ParseOf(cs: CommandSystem, line: string, ws: seq<string>)
    requires Trim(line) == line && StartsWith(line, "/")
    requires SplitWhitespace(line) == ws && ws != []
    ensures cs.ParseCommand(line).Some? <==> cs.GetCommand(ws[0]).Some?
    ensures cs.GetCommand(ws[0]).Some? ==>
      cs.ParseCommand(line).value.0 == cs.GetCommand(ws[0]).value.0
      && cs.ParseCommand(line).value.2 == ws[1..]
  {
    var g := cs.GetCommand(ws[0]);
    assert cs.ParseCommand(line) == if g.None? then None else Some((g.value.0, g.value.1, ws[1..]));
  }

  /** After `new()`, the input `/` resolves to `/test` through its alias. */
  lemma SlashIsTest(cs: CommandSystem)
    requires cs.commands.Keys == {"/test"} && cs.commands["/test"].0 == TestCommand()
    requires cs.aliases == map["/" := "/test"]
    ensures cs.ParseCommand("/").Some? && cs.ParseCommand("/").value.0 == TestCommand()
    ensures cs.ParseCommand("/").value.2 == []
  {
    ParseTokens(cs, "/", []);
    assert Join(["/"] + [], " ") == "/";
  }
}

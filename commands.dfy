/**
 * The command library (`Commands` in assets/js/commands.js): category and
 * text filters over the command reference, and the custom command box.
 */
module CommandLibrary {
  import opened Wrappers
  import opened Text
  import opened Lists

  /** A command reference entry of the game data. */
  datatype CommandInfo = CommandInfo(name: string, syntax: string, description: string, category: string)

  /** `filterByCategory`: every command for "all", otherwise those of exactly that category. */
  function CommandsInCategory(commands: seq<CommandInfo>, category: string): (r: seq<CommandInfo>)
    ensures category == "all" ==> r == commands
    ensures category != "all" ==> forall c :: c in r <==> c in commands && c.category == category
  {
    if category == "all" then commands else Filter(commands, (c: CommandInfo) => c.category == category)
  }

  /** Whether the lower-cased name, syntax or description contains `term` (already lower-cased). */
  predicate Mentions(c: CommandInfo, term: string) {
    || Contains(ToLower(c.name), term)
    || Contains(ToLower(c.syntax), term)
    || Contains(ToLower(c.description), term)
  }

  /**
   * `searchCommands`: every command when the term is blank after trimming,
   * otherwise those mentioning the lower-cased (untrimmed) term.
   */
  function SearchCommands(commands: seq<CommandInfo>, searchTerm: string): (r: seq<CommandInfo>)
    ensures IsBlank(searchTerm) ==> r == commands
    ensures !IsBlank(searchTerm) ==> forall c :: c in r <==> c in commands && Mentions(c, ToLower(searchTerm))
  {
    if IsBlank(searchTerm) then commands
    else Filter(commands, (c: CommandInfo) => Mentions(c, ToLower(searchTerm)))
  }

  /** A search matches regardless of the case the term is typed in. */
  lemma SearchIgnoresCase(commands: seq<CommandInfo>, a: string, b: string)
    requires ToLower(a) == ToLower(b) && IsBlank(a) == IsBlank(b)
    ensures SearchCommands(commands, a) == SearchCommands(commands, b)
  {
  }

  /** A search keeps the library's order: it distributes over concatenation. */
  lemma SearchKeepsOrder(a: seq<CommandInfo>, b: seq<CommandInfo>, searchTerm: string)
    ensures SearchCommands(a + b, searchTerm) == SearchCommands(a, searchTerm) + SearchCommands(b, searchTerm)
  {
    if !IsBlank(searchTerm) {
      FilterAppend(a, b, (c: CommandInfo) => Mentions(c, ToLower(searchTerm)));
    }
  }

  /** The text `executeCustomCommand` runs: the command, then a space and the parameters when given. */
  function FullCommand(command: string, params: string): (r: string)
    ensures params == "" ==> r == command
    ensures params != "" ==> |r| == |command| + 1 + |params|
    ensures params != "" ==> r[..|command|] == command && r[|command|..] == " " + params
  {
    if params == "" then command else command + " " + params
  }

  /** When the command box holds one word, the server reads it as the first word of the line. */
  lemma CommandIsFirstWord(command: string, params: string)
    requires Free(command, ' ')
    ensures Split(FullCommand(command, params), ' ')[0] == command
  {
    if params == "" {
      SplitPrefix(command, "", ' ');
      assert command + "" == command;
    } else {
      assert FullCommand(command, params) == command + (" " + params);
      SplitPrefix(command, " " + params, ' ');
      assert (" " + params)[1..] == params;
    }
  }

  /** The library's state, including the two text boxes of the custom command form. */
  class Library {
    var commands: seq<CommandInfo>
    var filteredCommands: seq<CommandInfo>
    var selectedCommand: Option<CommandInfo>
    var customCommand: string
    var commandParams: string

    constructor (data: seq<CommandInfo>)
      ensures commands == data && filteredCommands == data && selectedCommand == None
      ensures customCommand == "" && commandParams == ""
    {
      commands := data;
      filteredCommands := data;
      selectedCommand := None;
      customCommand := "";
      commandParams := "";
    }

    /** `filterByCategory` */
    method FilterByCategory(category: string)
      modifies this
      ensures filteredCommands == CommandsInCategory(commands, category)
      ensures commands == old(commands) && selectedCommand == old(selectedCommand)
      ensures customCommand == old(customCommand) && commandParams == old(commandParams)
    {
      if category == "all" {
        filteredCommands := commands;
      } else {
        filteredCommands := Filter(commands, (c: CommandInfo) => c.category == category);
      }
    }

    /** `searchCommands` */
    method Search(searchTerm: string)
      modifies this
      ensures filteredCommands == SearchCommands(commands, searchTerm)
      ensures commands == old(commands) && selectedCommand == old(selectedCommand)
      ensures customCommand == old(customCommand) && commandParams == old(commandParams)
    {
      if IsBlank(searchTerm) {
        filteredCommands := commands;
      } else {
        var term := ToLower(searchTerm);
        filteredCommands := Filter(commands, (c: CommandInfo) => Mentions(c, term));
      }
    }

    /** `selectCommand` */
    method SelectCommand(command: CommandInfo)
      modifies this
      ensures selectedCommand == Some(command)
      ensures commands == old(commands) && filteredCommands == old(filteredCommands)
      ensures customCommand == old(customCommand) && commandParams == old(commandParams)
    {
      selectedCommand := Some(command);
    }

    /** The two text boxes as the user types into them. */
    method EnterCustomCommand(command: string, params: string)
      modifies this
      ensures customCommand == command && commandParams == params
      ensures commands == old(commands) && filteredCommands == old(filteredCommands)
      ensures selectedCommand == old(selectedCommand)
    {
      customCommand := command;
      commandParams := params;
    }

    /**
     * `executeCustomCommand`: nothing happens with an empty command box;
     * otherwise the full command is executed and both boxes are cleared.
     */
    method ExecuteCustomCommand() returns (issued: seq<string>)
      modifies this
      ensures old(customCommand) == "" ==> issued == [] && customCommand == "" && commandParams == old(commandParams)
      ensures old(customCommand) != "" ==>
        issued == [FullCommand(old(customCommand), old(commandParams))] && customCommand == "" && commandParams == ""
      ensures commands == old(commands) && filteredCommands == old(filteredCommands)
      ensures selectedCommand == old(selectedCommand)
    {
      if customCommand == "" {
        return [];
      }
      var fullCommand := customCommand;
      if commandParams != "" {
        fullCommand := fullCommand + " " + commandParams;
      }
      issued := [fullCommand];
      customCommand := "";
      commandParams := "";
    }

    /** `refresh`: reload the library and show all of it; the selection stays. */
    method Refresh(data: seq<CommandInfo>)
      modifies this
      ensures commands == data && filteredCommands == data
      ensures selectedCommand == old(selectedCommand)
      ensures customCommand == old(customCommand) && commandParams == old(commandParams)
    {
      commands := data;
      filteredCommands := data;
    }
  }

  /** `executeCommand` from the details pane: the syntax line, unchanged. */
  method ExecuteCommand(syntax: string) returns (issued: seq<string>)
    ensures issued == [syntax]
  {
    issued := [syntax];
  }
}

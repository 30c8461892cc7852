/**
 * The command abstraction.  The three command classes of the batch language
 * (filename, exec and pipecmd) are not part of this model: what their `parse`
 * extracts from an element and what it registers in the symbol table is given
 * as a `Parser` value, and a command is represented by what its `parse` was
 * given: its kind, its element and the symbol table as it stood at that moment.
 */
module Commands {
  import opened Dom

  /** The symbol table: alias identifier to file path. */
  type SymbolMap = map<string, string>

  /** The three command classes a document element can be dispatched to. */
  datatype CommandKind = Filename | Exec | Pipecmd

  /** The effect of `parse(elem, filenames)` of a command of the given kind on the symbol table. */
  type Parser = (CommandKind, Node, SymbolMap) -> SymbolMap

  /** A mutable symbol table, the `Map` that every `parse` call of one build shares. */
  class SymbolTable {
    var entries: SymbolMap

    constructor ()
      ensures entries == map[]
    {
      entries := map[];
    }
  }

  /** The value a command was parsed into. */
  datatype ParsedCommand = ParsedCommand(kind: CommandKind, element: Node, symbols: SymbolMap)

  /** A command object; it is not changed after `parse`. */
  class Command {
    const kind: CommandKind
    const element: Node
    const symbols: SymbolMap

    /** Instantiates a command of the given kind and runs its `parse` on `elem`, which updates `table`. */
    constructor Parse(kind: CommandKind, elem: Node, table: SymbolTable, parse: Parser)
      modifies table
      ensures this.kind == kind && element == elem && symbols == old(table.entries)
      ensures table.entries == parse(kind, elem, old(table.entries))
    {
      this.kind := kind;
      element := elem;
      symbols := table.entries;
      new;
      table.entries := parse(kind, elem, table.entries);
    }

    function View(): ParsedCommand {
      ParsedCommand(kind, element, symbols)
    }
  }

  /** The values of a null-free list of commands. */
  function Views(cs: seq<Command?>): (vs: seq<ParsedCommand>)
    requires null !in cs
  {
    seq(|cs|, i requires 0 <= i < |cs| => cs[i].View())
  }
}

/**
 * Building a batch from a document: every element child of the root, in
 * document order, is dispatched by its tag name to a command kind, parsed with
 * one shared symbol table and appended to a new batch.
 */
module BatchBuilding {
  import opened Wrappers
  import opened Dom
  import opened CaseFold
  import opened Commands
  import opened Batches

  /**
   * Why a build throws: the root's name was null (dereferenced by the root-tag
   * check), or `addCommand` rejected the null that an unrecognised tag yields.
   */
  datatype BuildError = NullRootName | AddRejected(cause: BatchError)

  /** The command kind an element's tag name dispatches to; `None` for a null or unrecognised name. */
  function CommandKindOf(name: Option<string>): (r: Option<CommandKind>)
    ensures name.None? ==> r.None?
    ensures r.Some? ==> EqualsIgnoreCase(name.value, Keyword(r.value))
  {
    if name.None? then None
    else if EqualsIgnoreCase(name.value, "filename") then Some(Filename)
    else if EqualsIgnoreCase(name.value, "exec") then Some(Exec)
    else if EqualsIgnoreCase(name.value, "pipecmd") then Some(Pipecmd)
    else None
  }

  /** The tag name each kind is written with. */
  function Keyword(k: CommandKind): string {
    match k
    case Filename => "filename"
    case Exec => "exec"
    case Pipecmd => "pipecmd"
  }

  /**
   * Dispatch picks kind `k` exactly when the name equals `k`'s keyword ignoring
   * case; since no name matches two keywords, at most one branch runs.
   */
  lemma DispatchByKeyword(name: Option<string>, k: CommandKind)
    ensures CommandKindOf(name) == Some(k) <==> name.Some? && EqualsIgnoreCase(name.value, Keyword(k))
  {
  }

  /** A null name, or one matching no keyword, yields no command. */
  lemma DispatchUnknown(name: Option<string>)
    ensures CommandKindOf(name).None? <==>
              name.None? || forall k: CommandKind :: !EqualsIgnoreCase(name.value, Keyword(k))
  {
    forall k: CommandKind
      ensures CommandKindOf(name) == Some(k) <==> name.Some? && EqualsIgnoreCase(name.value, Keyword(k))
    {
      DispatchByKeyword(name, k);
    }
  }

  /** Names that differ only in case dispatch the same way. */
  lemma DispatchIgnoresCase(a: string, b: string)
    requires EqualsIgnoreCase(a, b)
    ensures CommandKindOf(Some(a)) == CommandKindOf(Some(b))
  {
  }

  /** Tags are matched in any mixture of cases; anything else, and a null name, yields no command. */
  lemma DispatchExamples()
    ensures CommandKindOf(Some("EXEC")) == Some(Exec) && CommandKindOf(Some("Exec")) == Some(Exec)
    ensures CommandKindOf(Some("FileName")) == Some(Filename)
    ensures CommandKindOf(Some("PIPECMD")) == Some(Pipecmd)
    ensures CommandKindOf(Some("pipe")) == None && CommandKindOf(Some("batch")) == None
    ensures CommandKindOf(None) == None
  {
    assert ToLowerAscii("pipe"[0]) != ToLowerAscii("exec"[0]);
  }

  /** The result of building from `children` after `prefix` was already built. */
  function Then(prefix: seq<ParsedCommand>, r: Result<seq<ParsedCommand>, BuildError>): Result<seq<ParsedCommand>, BuildError> {
    match r
    case Success(rest) => Success(prefix + rest)
    case Failure(e) => Failure(e)
  }

  lemma ThenAppend(prefix: seq<ParsedCommand>, c: ParsedCommand, r: Result<seq<ParsedCommand>, BuildError>)
    ensures Then(prefix, Then([c], r)) == Then(prefix + [c], r)
  {
    if r.Success? {
      assert prefix + ([c] + r.value) == (prefix + [c]) + r.value;
    }
  }

  /**
   * The commands built from `children`, starting with symbol table `symbols`:
   * non-element children are skipped; an element whose name dispatches to no
   * kind stops the build with the exception `addCommand` throws; otherwise the
   * element is parsed, which updates the table for the children after it.
   */
  function BuildCommands(children: seq<Node>, symbols: SymbolMap, parse: Parser): (r: Result<seq<ParsedCommand>, BuildError>)
    ensures r.Failure? ==> r.error == AddRejected(NullCommand)
    decreases |children|
  {
    if children == [] then Success([])
    else
      var n := children[0];
      if !IsElement(n) then BuildCommands(children[1..], symbols, parse)
      else match CommandKindOf(n.name)
        case None => Failure(AddRejected(NullCommand))
        case Some(k) => Then([ParsedCommand(k, n, symbols)], BuildCommands(children[1..], parse(k, n, symbols), parse))
  }

  /** The batch built from a document: the root's children, with a fresh, empty symbol table. */
  function BuildDocument(doc: Document, parse: Parser): (r: Result<seq<ParsedCommand>, BuildError>)
    ensures doc.root.name.None? ==> r == Failure(NullRootName)
    ensures r.Success? <==> doc.root.name.Some? && AllRecognised(doc.root.children)
    ensures r.Success? ==> |r.value| == |Elements(doc.root.children)|
  {
    if doc.root.name.None? then Failure(NullRootName)
    else
      BuildSucceedsIff(doc.root.children, map[], parse);
      var built := BuildCommands(doc.root.children, map[], parse);
      if built.Failure? then built
      else
        BuildCharacterized(doc.root.children, map[], parse, built.value);
        built
  }

  /** Only the element children matter: text, comments and other nodes contribute nothing. */
  lemma {:induction false} BuildSkipsNonElements(children: seq<Node>, symbols: SymbolMap, parse: Parser)
    ensures BuildCommands(children, symbols, parse) == BuildCommands(Elements(children), symbols, parse)
  {
    if children != [] {
      var n := children[0];
      if IsElement(n) {
        assert Elements(children) == [n] + Elements(children[1..]);
        assert ([n] + Elements(children[1..]))[1..] == Elements(children[1..]);
        match CommandKindOf(n.name)
        case None =>
        case Some(k) =>
          BuildSkipsNonElements(children[1..], parse(k, n, symbols), parse);
      } else {
        BuildSkipsNonElements(children[1..], symbols, parse);
      }
    }
  }

  /** Inserting a text, comment or other non-element node anywhere among the children changes nothing. */
  lemma {:induction false} BuildIgnoresInsertedNode(xs: seq<Node>, n: Node, ys: seq<Node>, symbols: SymbolMap, parse: Parser)
    requires !IsElement(n)
    ensures BuildCommands(xs + [n] + ys, symbols, parse) == BuildCommands(xs + ys, symbols, parse)
  {
    var with := xs + [n] + ys;
    var without := xs + ys;
    assert Elements([n]) == [] by {
      assert [n][1..] == [];
    }
    ElementsAppend(xs, [n]);
    ElementsAppend(xs + [n], ys);
    ElementsAppend(xs, ys);
    assert Elements(with) == Elements(without);
    BuildSkipsNonElements(with, symbols, parse);
    BuildSkipsNonElements(without, symbols, parse);
  }

  /** Every element child has a recognised tag name. */
  ghost predicate AllRecognised(children: seq<Node>) {
    forall e :: e in Elements(children) ==> CommandKindOf(e.name).Some?
  }

  /** A build succeeds exactly when every element child has a recognised tag name. */
  lemma {:induction false} BuildSucceedsIff(children: seq<Node>, symbols: SymbolMap, parse: Parser)
    ensures BuildCommands(children, symbols, parse).Success? <==> AllRecognised(children)
  {
    if children != [] {
      var n := children[0];
      if IsElement(n) {
        assert Elements(children) == [n] + Elements(children[1..]);
        match CommandKindOf(n.name)
        case None =>
        case Some(k) =>
          BuildSucceedsIff(children[1..], parse(k, n, symbols), parse);
      } else {
        BuildSucceedsIff(children[1..], symbols, parse);
      }
    }
  }

  /**
   * `cmds` is one command per element of `elems`, in the same order, of the kind
   * the element's name dispatches to, each parsed with the table left by the
   * parse before it, the first with `start`.
   */
  ghost predicate Describes(cmds: seq<ParsedCommand>, elems: seq<Node>, start: SymbolMap, parse: Parser) {
    && |cmds| == |elems|
    && (forall i :: 0 <= i < |cmds| ==> cmds[i].element == elems[i] && CommandKindOf(elems[i].name) == Some(cmds[i].kind))
    && (|cmds| > 0 ==> cmds[0].symbols == start)
    && (forall i :: 0 < i < |cmds| ==> cmds[i].symbols == parse(cmds[i - 1].kind, cmds[i - 1].element, cmds[i - 1].symbols))
  }

  lemma {:induction false} ElementListCharacterized(es: seq<Node>, symbols: SymbolMap, parse: Parser, cmds: seq<ParsedCommand>)
    requires forall e :: e in es ==> IsElement(e)
    ensures BuildCommands(es, symbols, parse) == Success(cmds) <==> Describes(cmds, es, symbols, parse)
  {
    if es == [] {
    } else {
      var n := es[0];
      assert IsElement(n);
      match CommandKindOf(n.name)
      case None =>
        assert !Describes(cmds, es, symbols, parse) by {
          if |cmds| == |es| {
            assert CommandKindOf(es[0].name) != Some(cmds[0].kind);
          }
        }
      case Some(k) =>
        var next := parse(k, n, symbols);
        if cmds == [] {
          assert !Describes(cmds, es, symbols, parse);
        } else {
          var tail := cmds[1..];
          ElementListCharacterized(es[1..], next, parse, tail);
          if BuildCommands(es, symbols, parse) == Success(cmds) {
            var rest := BuildCommands(es[1..], next, parse);
            assert rest.Success? && cmds == [ParsedCommand(k, n, symbols)] + rest.value;
            assert rest == Success(tail);
            forall i | 0 <= i < |cmds|
              ensures cmds[i].element == es[i] && CommandKindOf(es[i].name) == Some(cmds[i].kind)
            {
              if i > 0 { assert cmds[i] == tail[i - 1] && es[i] == es[1..][i - 1]; }
            }
            forall i | 0 < i < |cmds|
              ensures cmds[i].symbols == parse(cmds[i - 1].kind, cmds[i - 1].element, cmds[i - 1].symbols)
            {
              if i > 1 { assert cmds[i] == tail[i - 1] && cmds[i - 1] == tail[i - 2]; }
            }
          }
          if Describes(cmds, es, symbols, parse) {
            assert cmds[0] == ParsedCommand(k, n, symbols);
            forall i | 0 <= i < |tail|
              ensures tail[i].element == es[1..][i] && CommandKindOf(es[1..][i].name) == Some(tail[i].kind)
            {
              assert tail[i] == cmds[i + 1];
            }
            forall i | 0 < i < |tail|
              ensures tail[i].symbols == parse(tail[i - 1].kind, tail[i - 1].element, tail[i - 1].symbols)
            {
              assert tail[i] == cmds[i + 1] && tail[i - 1] == cmds[i];
            }
            assert Describes(tail, es[1..], next, parse);
            assert cmds == [cmds[0]] + tail;
          }
        }
    }
  }

  /**
   * A build yields `cmds` exactly when `cmds` has one command per element child,
   * in document order, of the kind its tag dispatches to, with the symbol table
   * threaded through the parse calls in that order.
   */
  lemma BuildCharacterized(children: seq<Node>, symbols: SymbolMap, parse: Parser, cmds: seq<ParsedCommand>)
    ensures BuildCommands(children, symbols, parse) == Success(cmds) <==> Describes(cmds, Elements(children), symbols, parse)
  {
    BuildSkipsNonElements(children, symbols, parse);
    ElementListCharacterized(Elements(children), symbols, parse, cmds);
  }

  /**
   * The root's tag name is never checked: any two documents with non-null root
   * names and the same children build the same batch.
   */
  lemma BuildIgnoresRootName(doc: Document, other: Document, parse: Parser)
    requires doc.root.name.Some? && other.root.name.Some?
    requires doc.root.children == other.root.children
    ensures BuildDocument(doc, parse) == BuildDocument(other, parse)
  {
  }

  /**
   * A document whose root is not named "batch" still builds: the text and
   * comment children are skipped, and the exec element is parsed with the
   * table the filename element's parse left behind.
   */
  lemma UnnamedRootExample(parse: Parser)
    ensures
      var f := Node(ElementNode, Some("filename"), map["id" := "f1", "path" := "/tmp/out.txt"], []);
      var x := Node(ElementNode, Some("EXEC"), map["out" := "f1"], []);
      var text := Node(TextNode, Some("#text"), map[], []);
      var note := Node(CommentNode, Some("#comment"), map[], []);
      var doc := Document(Node(ElementNode, Some("notabatch"), map[], [text, f, note, x, text]));
      BuildDocument(doc, parse) == Success([ParsedCommand(Filename, f, map[]), ParsedCommand(Exec, x, parse(Filename, f, map[]))])
  {
    var f := Node(ElementNode, Some("filename"), map["id" := "f1", "path" := "/tmp/out.txt"], []);
    var x := Node(ElementNode, Some("EXEC"), map["out" := "f1"], []);
    var text := Node(TextNode, Some("#text"), map[], []);
    var note := Node(CommentNode, Some("#comment"), map[], []);
    var t1 := parse(Filename, f, map[]);
    assert CommandKindOf(f.name) == Some(Filename);
    assert CommandKindOf(x.name) == Some(Exec);
    assert [text][1..] == [];
    assert BuildCommands([text], parse(Exec, x, t1), parse) == Success([]);
    assert [x, text][1..] == [text];
    assert [ParsedCommand(Exec, x, t1)] + [] == [ParsedCommand(Exec, x, t1)];
    assert BuildCommands([x, text], t1, parse) == Success([ParsedCommand(Exec, x, t1)]);
    assert [note, x, text][1..] == [x, text];
    assert BuildCommands([note, x, text], t1, parse) == Success([ParsedCommand(Exec, x, t1)]);
    assert [f, note, x, text][1..] == [note, x, text];
    assert [ParsedCommand(Filename, f, map[])] + [ParsedCommand(Exec, x, t1)] == [ParsedCommand(Filename, f, map[]), ParsedCommand(Exec, x, t1)];
    assert BuildCommands([f, note, x, text], map[], parse) == Success([ParsedCommand(Filename, f, map[]), ParsedCommand(Exec, x, t1)]);
    assert [text, f, note, x, text][1..] == [f, note, x, text];
  }

  lemma {:induction false} BuildStep(children: seq<Node>, i: nat, symbols: SymbolMap, parse: Parser)
    requires i < |children|
    ensures BuildCommands(children[i..], symbols, parse) ==
              var n := children[i];
              if !IsElement(n) then BuildCommands(children[i + 1..], symbols, parse)
              else match CommandKindOf(n.name)
                case None => Failure(AddRejected(NullCommand))
                case Some(k) => Then([ParsedCommand(k, n, symbols)], BuildCommands(children[i + 1..], parse(k, n, symbols), parse))
  {
    assert children[i..][1..] == children[i + 1..];
  }

  class BatchBuilder {

    constructor ()
    {
    }

    /**
     * Instantiates the command class `elem`'s tag name dispatches to and parses
     * `elem` into it with `filenames`; returns null, without parsing, for a null
     * or unrecognised name.
     */
    method ParseCommand(elem: Node, filenames: SymbolTable, parse: Parser) returns (cmd: Command?)
      modifies filenames
      ensures CommandKindOf(elem.name).None? ==> cmd == null && filenames.entries == old(filenames.entries)
      ensures CommandKindOf(elem.name).Some? ==>
                && cmd != null && fresh(cmd)
                && cmd.View() == ParsedCommand(CommandKindOf(elem.name).value, elem, old(filenames.entries))
                && filenames.entries == parse(cmd.kind, elem, old(filenames.entries))
    {
      cmd := null;
      var name := elem.name;
      if name.None? {
        // no command for a nameless element
      } else if EqualsIgnoreCase(name.value, "filename") {
        cmd := new Command.Parse(Filename, elem, filenames, parse);
      } else if EqualsIgnoreCase(name.value, "exec") {
        cmd := new Command.Parse(Exec, elem, filenames, parse);
      } else if EqualsIgnoreCase(name.value, "pipecmd") {
        cmd := new Command.Parse(Pipecmd, elem, filenames, parse);
      } else {
        // no command for an unrecognised name
      }
    }

    /**
     * Builds a new batch from the root's element children, in document order,
     * threading one new symbol table through their parse calls.
     */
    method BuildBatch(doc: Document, parse: Parser) returns (r: Result<Batch, BuildError>)
      ensures r.Success? <==> BuildDocument(doc, parse).Success?
      ensures r.Failure? ==> r.error == BuildDocument(doc, parse).error
      ensures r.Success? ==> fresh(r.value) && r.value.Valid() && Views(r.value.commandList) == BuildDocument(doc, parse).value
    {
      var batch := new Batch();
      var filenames := new SymbolTable();

      var root := doc.root;
      var name := root.name;
      if name.None? {
        return Failure(NullRootName);
      }
      var isBatch := EqualsIgnoreCase(name.value, "batch");
      if !isBatch {
        // the root's tag is not enforced
      }

      var children := root.children;
      var i := 0;
      assert children[i..] == children && Views(batch.commandList) == [];
      ghost var whole := BuildCommands(children, filenames.entries, parse);
      assert whole.Success? ==> [] + whole.value == whole.value;
      while i < |children|
        invariant 0 <= i <= |children|
        invariant fresh(batch) && fresh(filenames) && batch.Valid()
        invariant BuildDocument(doc, parse) == Then(Views(batch.commandList), BuildCommands(children[i..], filenames.entries, parse))
      {
        var node := children[i];
        BuildStep(children, i, filenames.entries, parse);
        if IsElement(node) {
          ghost var before := batch.commandList;
          var cmd := ParseCommand(node, filenames, parse);
          var added := batch.AddCommand(cmd);
          if added.Fail? {
            return Failure(AddRejected(added.error));
          }
          assert Views(batch.commandList) == Views(before) + [cmd.View()];
          ThenAppend(Views(before), cmd.View(), BuildCommands(children[i + 1..], filenames.entries, parse));
        }
        i := i + 1;
      }
      assert children[i..] == [];
      assert Views(batch.commandList) + [] == Views(batch.commandList);
      return Success(batch);
    }
  }
}

# Batch runner: batch assembly and sequential execution

This project models the core of a small Java batch processor. The processor reads an XML
"batch" document and turns each child element of the root into a command. The command kinds
are `filename` (register a file alias), `exec` (run one process) and `pipecmd` (run a
pipeline). It then runs the commands one after another.

The model covers two classes:

- `BatchBuilder`. `buildBatch` walks the root's children in document order and keeps only
  element nodes. It shares one fresh symbol table (alias to path) across all of them.
  `parseCommand` picks the command class by comparing the tag name, ignoring case, with
  `filename`, `exec` and `pipecmd`. Then it parses the element into that command. For a
  null or unrecognised name it returns `null`.
- `Batch`. It holds an ordered command list. `addCommand` rejects `null` with a
  `NullPointerException` and otherwise appends. `execute` visits the commands in insertion
  order. For each command it prints the description, calls `execute()`, and waits for the
  returned process if there is one.

Files and modules:

- `wrappers.dfy` (`Wrappers`): `Option` stands for a possibly-null value. `Result` and
  `Outcome` stand for a thrown exception.
- `dom.dfy` (`Dom`): the document tree (node type, nullable name, attributes, children) and
  `Elements`, which filters a child list down to its element nodes.
- `case_fold.dfy` (`CaseFold`): `equalsIgnoreCase` over ASCII letters.
- `commands.dfy` (`Commands`): the command kinds and the mutable `SymbolTable`. The three
  command classes are not part of this model. A `Command` object records its kind, its
  element and the symbol table its `parse` received. The effect of `parse` on the table is a
  parameter of type `Parser`.
- `batch.dfy` (`Batches`): the `Batch` class and the trace of a run. Each command at
  position `i` produces the events `Described(i)`, `Executed(i)` and, only when its
  `execute()` returned a process, `Waited(i)`. Whether `execute()` returns a process is
  a parameter `launches`.
- `batch_builder.dfy` (`BatchBuilding`): the dispatch function `CommandKindOf`, the
  reference definition `BuildCommands` / `BuildDocument` of what a build produces, the lemmas
  about it, and the `BatchBuilder` class whose methods are proved against it.

Where the code does less than its comments and TODO notes announce, the model follows the code:

- The root-tag check is an empty `if`. A root not named `batch` is accepted, not rejected.
- An unrecognised tag makes `parseCommand` return `null`. The build then stops with the
  `NullPointerException` from `addCommand`, not with a dedicated "unknown command" error.

Other modelling choices:

- `addCommand(null)` throws the `NullPointerException` its documentation names; the model
  returns it as the `NullCommand` error.
- A null root name makes the root-tag check itself throw `NullPointerException`; the model
  keeps that as `NullRootName`, although a parsed document never has one.
- The `BatchBuilder` constructor does nothing and is modelled as an empty constructor.

## Model

| member | source | states |
|---|---|---|
| `Dom.Elements` | BatchBuilder.java:52-56 | a node is kept iff it is an element child of the list, and no more nodes are kept than there are children; order is kept, by `ElementsAppend` |
| `Dom.ElementsAppend` | BatchBuilder.java:53-55 | filtering distributes over concatenation, so a non-element child anywhere contributes nothing |
| `Commands.SymbolTable.constructor` | BatchBuilder.java:41 | a new symbol table is empty |
| `Commands.Command.Parse` | BatchBuilder.java:85-86 | a new command of the given kind records its element and the table it was handed, and the table becomes what that kind's parse makes of it |
| `Batches.Batch.constructor` | Batch.java:26-29 | a new batch has an empty, null-free command list |
| `Batches.Batch.AddCommand` | Batch.java:37-45 | null is rejected with the null-command error and the list is unchanged; otherwise the list becomes the old list plus the command; the list stays null-free |
| `Batches.Batch.Execute` | Batch.java:54-69 | the run's trace is exactly `RunTrace` of the list, and the method cannot modify the list |
| `Batches.RunTrace` | Batch.java:57-68 | the events of running a list are about commands in the list only, two or three per command |
| `Batches.RunTraceEvents` | Batch.java:61-67 | an event occurs in a run iff its command index is in the list, and a wait occurs iff that command's `execute()` returned a process |
| `Batches.RunTraceOrdered` | Batch.java:61-68 | the trace is strictly ordered: each event at most once, all steps of command i before command i+1, describe before execute before wait |
| `Batches.RunTraceLength` | Batch.java:61-68 | a run has exactly two events per command plus one wait per command whose `execute()` returned a process |
| `BatchBuilding.CommandKindOf` | BatchBuilder.java:78-102 | a null name gives no kind, and a kind is given only for a name equal to that kind's keyword ignoring case |
| `BatchBuilding.DispatchByKeyword` | BatchBuilder.java:83-97 | dispatch yields kind k iff the name equals k's keyword ignoring case, so at most one branch runs |
| `BatchBuilding.DispatchUnknown` | BatchBuilder.java:77-102 | dispatch yields no command iff the name is null or matches none of the three keywords |
| `BatchBuilding.DispatchIgnoresCase` | BatchBuilder.java:83-97 | names that are equal ignoring case dispatch to the same kind |
| `BatchBuilding.DispatchExamples` | BatchBuilder.java:80-100 | `EXEC` and `Exec` are exec, `FileName` is filename, `PIPECMD` is pipecmd; `pipe`, `batch` and null give no command |
| `BatchBuilding.BuildCommands` | BatchBuilder.java:52-60 | the child loop fails only through `addCommand` rejecting the null command an unrecognised tag yields |
| `BatchBuilding.BuildDocument` | BatchBuilder.java:40-62 | a null root name fails with `NullRootName`; otherwise the build succeeds iff every element child has a recognised tag, and then has one command per element child |
| `BatchBuilding.BuildSkipsNonElements` | BatchBuilder.java:52-60 | building the children gives the same result as building only their element children |
| `BatchBuilding.BuildIgnoresInsertedNode` | BatchBuilder.java:53-55 | inserting a non-element node anywhere among the children leaves the build's result unchanged |
| `BatchBuilding.BuildSucceedsIff` | BatchBuilder.java:52-60 | a build succeeds iff every element child has a recognised tag |
| `BatchBuilding.BuildCharacterized` | BatchBuilder.java:41-60 | a build yields `cmds` iff there is one command per element child, in document order, of the kind its tag dispatches to, with the first parse given the starting table and each later parse the table left by the one before |
| `BatchBuilding.BuildIgnoresRootName` | BatchBuilder.java:44-48 | any two documents with non-null root names and the same children build the same commands |
| `BatchBuilding.UnnamedRootExample` | BatchBuilder.java:44-60 | a document rooted at `notabatch` with text and comment children around a filename and an `EXEC` element builds those two commands, the second parsed with the table the first left |
| `BatchBuilding.BatchBuilder.ParseCommand` | BatchBuilder.java:75-103 | for a null or unrecognised name it returns null and leaves the table alone; otherwise a fresh command of the dispatched kind, parsed from the element with the old table, and the table updated by that parse |
| `BatchBuilding.BatchBuilder.BuildBatch` | BatchBuilder.java:38-63 | succeeds iff `BuildDocument` does and then returns a fresh, null-free batch whose commands are exactly `BuildDocument`'s; on failure it throws the same error |

## Left out

- The command classes (`filename`, `exec`, `pipecmd`) are not part of this model. What their `parse` reads from an element and registers in the symbol table is the `Parser` parameter. Alias resolution, redirection and pipe wiring are not modelled.
- Exceptions thrown inside a command's `parse` (a malformed element, an unknown alias) are not modelled, because that code is not part of this model.
- `describe()` text and the `System.out.println` lines are not modelled. The printed description is the `Described(i)` event, and the "Parsing ..." progress lines are dropped.
- Process spawning and `Process.waitFor()` are operating-system work. Whether `execute()` returns a process is the `launches` parameter, and the wait is the `Waited(i)` event. `IOException` and `InterruptedException` from that layer are not modelled.
- Reading the file and XML parsing in `BatchProcessor.main` are I/O and a foreign library. The document arrives as a `Dom.Document` value.
- `equalsIgnoreCase` is modelled for ASCII letters only. Unicode case folding is not modelled.
- `launches` is a function of the command object, so whether `execute()` returns a process is fixed per command; a command that behaves differently on separate runs is not modelled.

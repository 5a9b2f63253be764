/**
 * The dispatch chain of `procesar_comando`: the first token is compared,
 * exactly and case-sensitively (`strcmp`), with each command name in turn;
 * the matching branch either reports usage or hands the remaining tokens to
 * its handler. Handlers are not run here: the result is the action chosen.
 */
module Commands {

  import opened Wrappers

  /** What one line makes the shell do. */
  datatype Action =
    | NoOp                                                        // no tokens
    | Usage(command: string)                                      // usage line printed
    | ChangeOwner(owner: string, group: string, files: seq<string>) // propietario(...)
    | ChangeMode(mode: string, files: seq<string>)                // permisos(...)
    | Copy(source: string, target: string)                        // copiar(...)
    | Move(source: string, target: string)                        // mover(...)
    | Rename(file: string, newName: string)                       // renombrar(...)
    | List(dir: string)                                           // listar(...)
    | MakeDir(dir: string)                                        // creardir(...)
    | ChangeDir(dir: string)                                      // ir(...)
    | Exit(status: int)                                           // exit(status)
    | Unknown(name: string)                                       // "Comando desconocido"
  {
    /** The action calls one of the command handlers (or terminates). */
    predicate IsHandlerCall() {
      !(NoOp? || Usage? || Unknown?)
    }
  }

  /** Dispatch on the argument vector `args[0..i)`, as in `procesar_comando`. */
  function Dispatch(args: seq<string>): (a: Action)
    ensures a == NoOp <==> args == []
    ensures a.Unknown? ==> a.name == args[0]
    ensures a.Usage? ==> a.command == args[0]
    ensures a.IsHandlerCall() ==> CommandName(a) == args[0]
  {
    if |args| == 0 then NoOp
    else
      var n := |args|;
      var name := args[0];
      if name == "propietario" then
        if n >= 4 then ChangeOwner(args[1], args[2], args[3..]) else Usage(name)
      else if name == "permisos" then
        if n >= 3 then ChangeMode(args[1], args[2..]) else Usage(name)
      else if name == "copiar" then
        if n == 3 then Copy(args[1], args[2]) else Usage(name)
      else if name == "mover" then
        if n == 3 then Move(args[1], args[2]) else Usage(name)
      else if name == "renombrar" then
        if n == 3 then Rename(args[1], args[2]) else Usage(name)
      else if name == "listar" then
        List(if n == 2 then args[1] else ".")
      else if name == "creardir" then
        if n == 2 then MakeDir(args[1]) else Usage(name)
      else if name == "ir" then
        if n == 2 then ChangeDir(args[1]) else Usage(name)
      else if name == "exit" then
        Exit(0)
      else
        Unknown(name)
  }

  // ---------------------------------------------------------------------
  // The command table: an independent, data-driven statement of the arity
  // rules the dispatch chain enforces.
  // ---------------------------------------------------------------------

  /** How many tokens (command name included) a command accepts. */
  datatype Arity = Exactly(count: nat) | AtLeast(least: nat) | AnyCount {
    predicate Admits(n: nat) {
      match this
      case Exactly(c) => n == c
      case AtLeast(m) => n >= m
      case AnyCount => true
    }
  }

  /** The command names of the dispatch chain, with the token counts they accept. */
  const Table: seq<(string, Arity)> := [
    ("propietario", AtLeast(4)),
    ("permisos", AtLeast(3)),
    ("copiar", Exactly(3)),
    ("mover", Exactly(3)),
    ("renombrar", Exactly(3)),
    ("listar", AnyCount),
    ("creardir", Exactly(2)),
    ("ir", Exactly(2)),
    ("exit", AnyCount)
  ]

  /** The arity recorded for `name` in `table`, if `name` is one of its commands. */
  function LookupIn(table: seq<(string, Arity)>, name: string): (r: Option<Arity>)
    ensures r.None? <==> forall i :: 0 <= i < |table| ==> table[i].0 != name
    ensures r.Some? ==> exists i :: 0 <= i < |table| && table[i] == (name, r.value)
  {
    if table == [] then None
    else if table[0].0 == name then Some(table[0].1)
    else LookupIn(table[1..], name)
  }

  /** The arity of a known command name. */
  function ArityOf(name: string): (r: Option<Arity>) {
    LookupIn(Table, name)
  }

  /** The table, entry by entry. */
  lemma ArityOfEntries(name: string)
    ensures ArityOf(name) ==
      if name == "propietario" then Some(AtLeast(4))
      else if name == "permisos" then Some(AtLeast(3))
      else if name == "copiar" || name == "mover" || name == "renombrar" then Some(Exactly(3))
      else if name == "creardir" || name == "ir" then Some(Exactly(2))
      else if name == "listar" || name == "exit" then Some(AnyCount)
      else None
  {
    var t := Table;
    assert t[9..] == [];
    assert LookupIn(t[8..], name) == if t[8].0 == name then Some(t[8].1) else None;
    assert LookupIn(t[7..], name) == if t[7].0 == name then Some(t[7].1) else LookupIn(t[8..], name);
    assert LookupIn(t[6..], name) == if t[6].0 == name then Some(t[6].1) else LookupIn(t[7..], name);
    assert LookupIn(t[5..], name) == if t[5].0 == name then Some(t[5].1) else LookupIn(t[6..], name);
    assert LookupIn(t[4..], name) == if t[4].0 == name then Some(t[4].1) else LookupIn(t[5..], name);
    assert LookupIn(t[3..], name) == if t[3].0 == name then Some(t[3].1) else LookupIn(t[4..], name);
    assert LookupIn(t[2..], name) == if t[2].0 == name then Some(t[2].1) else LookupIn(t[3..], name);
    assert LookupIn(t[1..], name) == if t[1].0 == name then Some(t[1].1) else LookupIn(t[2..], name);
  }

  /** The name of the command an action runs. */
  function CommandName(a: Action): (name: string)
    requires a.IsHandlerCall()
  {
    match a
    case ChangeOwner(_, _, _) => "propietario"
    case ChangeMode(_, _) => "permisos"
    case Copy(_, _) => "copiar"
    case Move(_, _) => "mover"
    case Rename(_, _) => "renombrar"
    case List(_) => "listar"
    case MakeDir(_) => "creardir"
    case ChangeDir(_) => "ir"
    case Exit(_) => "exit"
  }

  /** A canonical argument vector that asks for action `a`. */
  function ToArgs(a: Action): (args: seq<string>)
    requires a.IsHandlerCall()
    ensures |args| > 0 && args[0] == CommandName(a)
  {
    match a
    case ChangeOwner(owner, group, files) => ["propietario", owner, group] + files
    case ChangeMode(mode, files) => ["permisos", mode] + files
    case Copy(source, target) => ["copiar", source, target]
    case Move(source, target) => ["mover", source, target]
    case Rename(file, newName) => ["renombrar", file, newName]
    case List(dir) => ["listar", dir]
    case MakeDir(dir) => ["creardir", dir]
    case ChangeDir(dir) => ["ir", dir]
    case Exit(_) => ["exit"]
  }

  /** The actions the dispatcher can produce: variadic commands name a file, and exit is 0. */
  predicate Reachable(a: Action) {
    match a
    case ChangeOwner(_, _, files) => |files| > 0
    case ChangeMode(_, files) => |files| > 0
    case Exit(status) => status == 0
    case _ => a.IsHandlerCall()
  }

  // ---------------------------------------------------------------------
  // Properties of the dispatch chain
  // ---------------------------------------------------------------------

  /** A usage message is printed exactly when a known command gets a count its entry rejects. */
  lemma UsageIffArityRejected(args: seq<string>)
    ensures Dispatch(args).Usage? <==>
            |args| > 0 && ArityOf(args[0]).Some? && !ArityOf(args[0]).value.Admits(|args|)
  {
    if |args| > 0 {
      ArityOfEntries(args[0]);
    }
  }

  /** A handler runs exactly when a known command gets a count its entry admits. */
  lemma HandlerIffArityAdmitted(args: seq<string>)
    ensures Dispatch(args).IsHandlerCall() <==>
            |args| > 0 && ArityOf(args[0]).Some? && ArityOf(args[0]).value.Admits(|args|)
  {
    if |args| > 0 {
      ArityOfEntries(args[0]);
    }
  }

  /** A first token that is not a command name (exactly) is reported as unknown. */
  lemma UnknownIffNotInTable(args: seq<string>)
    ensures Dispatch(args).Unknown? <==> |args| > 0 && ArityOf(args[0]).None?
  {
    if |args| > 0 {
      ArityOfEntries(args[0]);
    }
  }

  /** Every action the dispatcher can reach is asked for by its canonical argument vector. */
  lemma DispatchToArgs(a: Action)
    requires Reachable(a)
    ensures Dispatch(ToArgs(a)) == a
  {
  }

  /**
   * Handlers see exactly the tokens after the command name: the argument
   * vector of any handler call other than `listar` and `exit` is rebuilt
   * from the action, and `listar` with one operand is too.
   */
  lemma ToArgsOfDispatch(args: seq<string>)
    requires Dispatch(args).IsHandlerCall()
    requires args[0] != "exit" && (args[0] == "listar" ==> |args| == 2)
    ensures Reachable(Dispatch(args))
    ensures ToArgs(Dispatch(args)) == args
  {
  }

  /** The handlers with operands that are interpreted, and what they receive. */
  lemma InterpretedOperands(args: seq<string>)
    ensures Dispatch(args).ChangeMode? <==> |args| >= 3 && args[0] == "permisos"
    ensures Dispatch(args).ChangeOwner? <==> |args| >= 4 && args[0] == "propietario"
    ensures Dispatch(args).Exit? <==> |args| > 0 && args[0] == "exit"
    ensures Dispatch(args).ChangeMode? ==>
              Dispatch(args) == ChangeMode(args[1], args[2..])
    ensures Dispatch(args).ChangeOwner? ==>
              Dispatch(args) == ChangeOwner(args[1], args[2], args[3..])
  {
  }

  /** `listar` never prints usage; it lists `args[1]` given exactly one operand and "." otherwise. */
  lemma ListDefaultsToCurrentDir(args: seq<string>)
    requires |args| > 0 && args[0] == "listar"
    ensures Dispatch(args) == List(if |args| == 2 then args[1] else ".")
    ensures Dispatch(["listar"]) == Dispatch(["listar", "."])
  {
  }

  /** `exit` terminates with status 0 whatever follows it. */
  lemma ExitIgnoresOperands(args: seq<string>)
    requires |args| > 0 && args[0] == "exit"
    ensures Dispatch(args) == Exit(0)
  {
  }
}

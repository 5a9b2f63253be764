/**
 * `procesar_comando` end to end: tokenize the line, dispatch on the tokens,
 * and run the `permisos` or `propietario` handler. The other handlers are
 * system-call wrappers and stay abstract: the outcome names the action.
 */
module Shell {

  import opened Tokenizer
  import opened Commands
  import opened Octal
  import opened Ownership
  import opened Handlers

  /** What the handlers need from the system: lookups and the per-file calls. */
  datatype System = System(
    users: Directory,                  // getpwnam
    groups: Directory,                 // getgrnam
    chmod: (string, nat) -> bool,      // chmod(file, mode) == 0
    chown: (string, int, int) -> bool  // chown(file, uid, gid) == 0
  )

  /** What processing one line did. */
  datatype Outcome =
    | Idle                                    // no tokens
    | UsagePrinted(command: string)           // wrong token count: nothing run
    | ModesChanged(mode: nat, log: seq<Attempt>)
    | OwnersChanged(report: OwnerReport)
    | Delegated(action: Action)               // copiar, mover, renombrar, listar, creardir, ir
    | Exited(status: int)
    | UnknownReported(name: string)           // "Comando desconocido"

  /** Run the handler an action calls (the wrappers stay abstract). */
  method RunAction(action: Action, sys: System) returns (outcome: Outcome)
    ensures outcome == Idle <==> action == NoOp
    ensures outcome.UsagePrinted? <==> action.Usage?
    ensures outcome.UsagePrinted? ==> outcome.command == action.command
    ensures outcome.UnknownReported? <==> action.Unknown?
    ensures outcome.UnknownReported? ==> outcome.name == action.name
    ensures outcome.Exited? <==> action.Exit?
    ensures outcome.Exited? ==> outcome.status == action.status
    ensures outcome.Delegated? <==>
            action.IsHandlerCall() && !(action.ChangeMode? || action.ChangeOwner? || action.Exit?)
    ensures outcome.Delegated? ==> outcome.action == action
    ensures outcome.ModesChanged? <==> action.ChangeMode?
    ensures outcome.ModesChanged? ==>
              && outcome.mode == ParseOctal(action.mode)
              && |outcome.log| == |action.files|
              && forall i :: 0 <= i < |action.files| ==>
                   outcome.log[i] == Attempt(action.files[i], sys.chmod(action.files[i], outcome.mode))
    ensures outcome.OwnersChanged? <==> action.ChangeOwner?
    ensures outcome.OwnersChanged? ==>
              var report, owner, group := outcome.report, action.owner, action.group;
              && (report.OwnerNotFound? <==> owner != KeepMarker && owner !in sys.users)
              && (report.GroupNotFound? <==>
                    (owner == KeepMarker || owner in sys.users)
                    && group != KeepMarker && group !in sys.groups)
              && (report.OwnerNotFound? ==> report.owner == owner)
              && (report.GroupNotFound? ==> report.group == group)
              && (report.Changed? ==>
                    && report.uid == (if owner == KeepMarker then Unchanged else sys.users[owner])
                    && report.gid == (if group == KeepMarker then Unchanged else sys.groups[group])
                    && |report.log| == |action.files|
                    && forall i :: 0 <= i < |action.files| ==>
                         report.log[i] == Attempt(action.files[i],
                                                  sys.chown(action.files[i], report.uid, report.gid)))
  {
    match action {
      case NoOp =>
        outcome := Idle;
      case Usage(command) =>
        outcome := UsagePrinted(command);
      case Unknown(name) =>
        outcome := UnknownReported(name);
      case Exit(status) =>
        outcome := Exited(status);
      case ChangeMode(mode, files) =>
        var m, log := ChangeModes(mode, files, sys.chmod);
        outcome := ModesChanged(m, log);
      case ChangeOwner(owner, group, files) =>
        var report := ChangeOwners(sys.users, sys.groups, owner, group, files, sys.chown);
        outcome := OwnersChanged(report);
      case _ =>
        outcome := Delegated(action);
    }
  }

  /** Process one input line. */
  method ProcessCommand(line: string, sys: System) returns (outcome: Outcome)
    ensures outcome == Idle <==> AllDelims(line)
    ensures outcome.UsagePrinted? <==> Dispatch(Tokenize(line)).Usage?
    ensures var args := Tokenize(line);
            outcome.UnknownReported? <==>
              |args| > 0 && forall i :: 0 <= i < |Table| ==> Table[i].0 != args[0]
    ensures var args := Tokenize(line);
            outcome.ModesChanged? <==> |args| >= 3 && args[0] == "permisos"
    ensures var args := Tokenize(line);
            outcome.OwnersChanged? <==> |args| >= 4 && args[0] == "propietario"
    ensures var args := Tokenize(line);
            outcome.Exited? <==> |args| > 0 && args[0] == "exit"
    ensures var args := Tokenize(line);
            outcome.ModesChanged? ==>
              && outcome.mode == ParseOctal(args[1])
              && |outcome.log| == |args| - 2
              && forall i :: 0 <= i < |outcome.log| ==> outcome.log[i].file == args[i + 2]
    ensures var args := Tokenize(line);
            outcome.OwnersChanged? && outcome.report.Changed? ==>
              && |outcome.report.log| == |args| - 3
              && forall i :: 0 <= i < |outcome.report.log| ==> outcome.report.log[i].file == args[i + 3]
    ensures var args := Tokenize(line);
            && (outcome.UsagePrinted? ==> outcome.command == args[0])
            && (outcome.UnknownReported? ==> outcome.name == args[0])
            && (outcome.Delegated? ==> outcome.action == Dispatch(args))
    ensures var args := Tokenize(line);
            outcome.ModesChanged? ==>
              forall i :: 0 <= i < |outcome.log| ==>
                outcome.log[i] == Attempt(args[i + 2], sys.chmod(args[i + 2], outcome.mode))
    ensures var args := Tokenize(line);
            outcome.OwnersChanged? ==>
              var report := outcome.report;
              && (report.OwnerNotFound? <==> args[1] != KeepMarker && args[1] !in sys.users)
              && (report.GroupNotFound? <==>
                    (args[1] == KeepMarker || args[1] in sys.users)
                    && args[2] != KeepMarker && args[2] !in sys.groups)
              && (report.OwnerNotFound? ==> report.owner == args[1])
              && (report.GroupNotFound? ==> report.group == args[2])
              && (report.Changed? ==>
                    && report.uid == (if args[1] == KeepMarker then Unchanged else sys.users[args[1]])
                    && report.gid == (if args[2] == KeepMarker then Unchanged else sys.groups[args[2]])
                    && forall i :: 0 <= i < |report.log| ==>
                         report.log[i] == Attempt(args[i + 3], sys.chown(args[i + 3], report.uid, report.gid)))
    ensures outcome.Exited? ==> outcome.status == 0
  {
    var args := Tokenize(line);
    BlankLineHasNoTokens(line);
    UsageIffArityRejected(args);
    UnknownIffNotInTable(args);
    InterpretedOperands(args);
    var action := Dispatch(args);
    outcome := RunAction(action, sys);
    if action.ChangeMode? {
      assert forall i :: 0 <= i < |action.files| ==> action.files[i] == args[i + 2];
    } else if action.ChangeOwner? {
      assert forall i :: 0 <= i < |action.files| ==> action.files[i] == args[i + 3];
    }
  }
}

/**
 * The two handlers whose argument handling is modelled: `permisos` and
 * `propietario`. The `chmod` and `chown` calls themselves are abstract:
 * each is a function saying whether the call on a file succeeds.
 */
module Handlers {

  import opened Octal
  import opened Ownership

  /** One per-file call and whether it succeeded (success or error message printed). */
  datatype Attempt = Attempt(file: string, ok: bool)

  /** The outcome of `propietario`. */
  datatype OwnerReport =
    | OwnerNotFound(owner: string)                     // getpwnam failed: nothing changed
    | GroupNotFound(group: string)                     // getgrnam failed: nothing changed
    | Changed(uid: int, gid: int, log: seq<Attempt>)   // chown tried on every file

  /**
   * The per-file loop of both handlers: the call is made on every file, in
   * order, and a failure on one file does not stop the loop.
   */
  method AttemptEach(files: seq<string>, op: string -> bool) returns (log: seq<Attempt>)
    ensures |log| == |files|
    ensures forall i :: 0 <= i < |files| ==> log[i] == Attempt(files[i], op(files[i]))
  {
    log := [];
    var i := 0;
    while i < |files|
      invariant 0 <= i <= |files|
      invariant |log| == i
      invariant forall j :: 0 <= j < i ==> log[j] == Attempt(files[j], op(files[j]))
    {
      log := log + [Attempt(files[i], op(files[i]))];
      i := i + 1;
    }
  }

  /** `permisos`: read the mode as octal, then `chmod` each file with it. */
  method ChangeModes(modeText: string, files: seq<string>, chmod: (string, nat) -> bool)
    returns (mode: nat, log: seq<Attempt>)
    ensures mode == ParseOctal(modeText)
    ensures |log| == |files|
    ensures forall i :: 0 <= i < |files| ==> log[i] == Attempt(files[i], chmod(files[i], mode))
  {
    mode := ParseOctal(modeText);
    var m := mode;
    log := AttemptEach(files, f => chmod(f, m));
  }

  /**
   * `propietario`: resolve the owner, then the group, giving up before any
   * `chown` if either lookup fails; then `chown` each file with both ids.
   */
  method ChangeOwners(users: Directory, groups: Directory, owner: string, group: string,
                      files: seq<string>, chown: (string, int, int) -> bool)
    returns (report: OwnerReport)
    ensures report.OwnerNotFound? <==> owner != KeepMarker && owner !in users
    ensures report.GroupNotFound? <==>
            (owner == KeepMarker || owner in users) && group != KeepMarker && group !in groups
    ensures report.OwnerNotFound? ==> report.owner == owner
    ensures report.GroupNotFound? ==> report.group == group
    ensures report.Changed? ==>
            && report.uid == (if owner == KeepMarker then Unchanged else users[owner])
            && report.gid == (if group == KeepMarker then Unchanged else groups[group])
            && |report.log| == |files|
            && forall i :: 0 <= i < |files| ==>
                 report.log[i] == Attempt(files[i], chown(files[i], report.uid, report.gid))
  {
    var uid := ResolveId(owner, users);
    if uid.None? {
      return OwnerNotFound(owner);
    }
    var gid := ResolveId(group, groups);
    if gid.None? {
      return GroupNotFound(group);
    }
    var u, g := uid.value, gid.value;
    var log := AttemptEach(files, f => chown(f, u, g));
    report := Changed(u, g, log);
  }
}

/**
 * How `propietario` turns its owner and group operands into the ids handed
 * to `chown`: "-" means "leave unchanged", written as id -1; any other name
 * is looked up (`getpwnam` / `getgrnam`), and a name that is not found makes
 * the whole command give up.
 */
module Ownership {

  import opened Wrappers

  /** The id `(uid_t) -1` / `(gid_t) -1`, which tells `chown` to leave that id as it is. */
  const Unchanged: int := -1

  /** The operand that asks for no change. */
  const KeepMarker: string := "-"

  /** A user or group database: names to ids, partial. */
  type Directory = map<string, nat>

  /** The id to pass to `chown` for an operand, or None when the name is not found. */
  function ResolveId(name: string, db: Directory): (r: Option<int>)
    ensures r.None? <==> name != KeepMarker && name !in db
    ensures r == Some(Unchanged) <==> name == KeepMarker
    ensures r.Some? && name != KeepMarker ==> r.value == db[name] && r.value >= 0
  {
    if name == KeepMarker then Some(Unchanged)
    else if name in db then Some(db[name])
    else None
  }
}

# lfs-shell command processing, modelled in Dafny

`lfs_shell.c` is a small interactive shell: it reads a line, splits it into
tokens, and dispatches on the first token to one of a fixed set of file
commands (`propietario`, `permisos`, `copiar`, `mover`, `renombrar`,
`listar`, `creardir`, `ir`, `exit`). This project models the
line-to-action pipeline of `procesar_comando` and the argument handling of
the two handlers that interpret their operands (`permisos` and
`propietario`), and proves properties of them.

Modules, following the program's structure:

- `Tokenizer` (`tokenizer.dfy`): the `strtok` loop on the delimiters
  space, tab and newline, capped at `MAX_ARGS - 1` = 99 tokens.
- `TokenLayout` (`token_layout.dfy`): an independent description of a line
  as words separated by delimiter runs, and the proof that the tokens are
  exactly those words, in both directions.
- `Commands` (`commands.dfy`): the `Action` datatype, the dispatch chain,
  and a command table (name and accepted token count) against which the
  chain's usage and handler branches are proved.
- `Octal` (`octal.dfy`): the `strtol(modo, NULL, 8)` mode reading of
  `permisos`, with a round trip through octal numerals.
- `Ownership` (`ownership.dfy`): the `"-"`-means-unchanged (id -1) rule and
  the partial user and group lookups of `propietario`.
- `Handlers` (`handlers.dfy`): `permisos` and `propietario` as methods with
  the per-file loop; `chmod` and `chown` are abstract functions that say
  whether the call on a file succeeds.
- `Shell` (`shell.dfy`): `procesar_comando` end to end.
- `Wrappers` (`wrappers.dfy`): the `Option` type.

Parameters standing in for the system: the user and group databases are
maps from names to ids (`getpwnam`, `getgrnam`), and `chmod`/`chown` are
total functions from their arguments to success. A line is the text of the
C string that `procesar_comando` receives (the characters before its NUL).

Facts about `lfs_shell.c` that the model keeps:

- An unknown first token only prints `Comando desconocido`
  (lfs_shell.c:221); nothing is executed (`Commands.Dispatch` returns
  `Unknown`).
- `listar` accepts any number of tokens (lfs_shell.c:203-205): it lists
  `args[1]` with exactly two tokens and `.` otherwise, so `listar a b` lists
  `.` and never prints usage.
- `exit` ignores any further tokens (lfs_shell.c:218-219).
- `lfs_shell.c` has no audit log, no daemon commands, no execution of
  external programs and no signal handler; its command set is exactly the
  nine names above.

## Model

| member | source | states |
|---|---|---|
| Tokenizer.NextToken | lfs_shell.c:162-167 | one `strtok` call finds no token exactly when only delimiters remain; otherwise it returns a non-empty, delimiter-free token and a strictly shorter remainder |
| Tokenizer.DelimRunStops | lfs_shell.c:162-167 | `strtok` skips the whole leading run of delimiters: the character after the skipped run is not a delimiter |
| Tokenizer.WordRunStops | lfs_shell.c:162-167 | a token runs to the next delimiter: the character after it, if any, is a delimiter |
| Tokenizer.AllTokens | lfs_shell.c:162-168 | every token is non-empty and free of space, tab and newline; a line has no tokens exactly when it is made only of delimiters |
| Tokenizer.Scan | lfs_shell.c:165-168 | the capped loop stores at most `budget` tokens, each non-empty and delimiter-free |
| Tokenizer.Tokenize | lfs_shell.c:160-169 | the argument vector has at most `MAX_ARGS - 1` = 99 tokens, each non-empty and delimiter-free |
| Tokenizer.ScanIsPrefix | lfs_shell.c:165-168 | the capped loop keeps the first `budget` tokens in input order and drops the rest |
| Tokenizer.TokenizeCapsAtMaxTokens | lfs_shell.c:165-166 | with at most 99 words every token is kept; with more, exactly the first 99 are kept and the rest dropped without error |
| Tokenizer.BlankLineHasNoTokens | lfs_shell.c:169-171 | the argument vector is empty if and only if the line is empty or only delimiters |
| TokenLayout.TokensOfLayout | lfs_shell.c:162-168 | a line built from words separated by non-empty delimiter runs (with optional leading and trailing runs) tokenizes to exactly those words |
| TokenLayout.LayoutOfTokens | lfs_shell.c:162-168 | every line is such a layout of its own tokens, so tokens are the maximal delimiter-free runs of the line, in order |
| TokenLayout.TokensIffLayout | lfs_shell.c:162-168 | the tokens of a line are `ts` if and only if the line is a delimiter layout of the words `ts` |
| TokenLayout.TokenizeLayout | lfs_shell.c:160-169 | the argument vector of a line laid out from words is those words cut after the first 99 |
| Commands.Dispatch | lfs_shell.c:171-222 | no action exactly for an empty vector; usage and unknown-command reports name `args[0]`; a handler call is for the command named by `args[0]` |
| Commands.UsageIffArityRejected | lfs_shell.c:173-217 | usage is printed exactly when `args[0]` is a table command whose accepted token count (`propietario` at least 4, `permisos` at least 3, `copiar`/`mover`/`renombrar` exactly 3, `creardir`/`ir` exactly 2) rejects the vector's length |
| Commands.HandlerIffArityAdmitted | lfs_shell.c:173-219 | a handler runs exactly when `args[0]` is a table command whose accepted token count admits the vector's length |
| Commands.UnknownIffNotInTable | lfs_shell.c:220-221 | the unknown-command report is produced exactly when `args[0]` is not equal, case-sensitively, to any command name |
| Commands.InterpretedOperands | lfs_shell.c:173-219 | `permisos` runs exactly with at least three tokens, on mode `args[1]` and files `args[2..]`; `propietario` exactly with at least four, on owner `args[1]`, group `args[2]` and files `args[3..]`; `exit` whenever it is the first token |
| Commands.DispatchToArgs | lfs_shell.c:173-219 | every reachable action is produced by its canonical argument vector (command name followed by the action's operands) |
| Commands.ToArgsOfDispatch | lfs_shell.c:173-217 | handlers receive exactly the tokens after the command name: owner `args[1]`, group `args[2]`, files `args[3..]`; mode `args[1]`, files `args[2..]`; source `args[1]`, destination `args[2]`; directory `args[1]` |
| Commands.ListDefaultsToCurrentDir | lfs_shell.c:203-205 | `listar` never prints usage; its directory is `args[1]` with exactly two tokens and `.` otherwise, so `listar` equals `listar .` |
| Commands.ExitIgnoresOperands | lfs_shell.c:218-219 | `exit` yields exit status 0 whatever tokens follow it |
| Octal.OctalValue | lfs_shell.c:104 | the value of an octal numeral of k digits is below 8^k |
| Octal.OctalPrefixLength | lfs_shell.c:104 | the mode is read from the longest leading run of octal digits: every character in it is a digit `0`-`7` and the next one is not |
| Octal.ParseOctal | lfs_shell.c:104 | the mode read from a token is below 8^k for its k leading octal digits |
| Octal.ParseStopsAtNonDigit | lfs_shell.c:104 | reading stops at the first non-octal character: the mode of digits followed by anything else is the value of the digits |
| Octal.OctalStringValue | lfs_shell.c:104 | the value of the octal numeral of `n` is `n` |
| Octal.ParseOctalString | lfs_shell.c:104 | round trip: any mode written as an octal numeral is read back exactly |
| Octal.Mode644 | lfs_shell.c:104 | `644` is read as 420 (`rw-r--r--`) |
| Octal.ModeStopsEarly | lfs_shell.c:104 | `75x9` is read as 61, and tokens with no leading octal digit (`8`, `rw`) as 0 |
| Ownership.ResolveId | lfs_shell.c:116-147 | `-` resolves to the unchanged id -1 and is the only operand that does; any other name resolves to its (non-negative) database id, and lookup fails exactly when the name is missing |
| Handlers.AttemptEach | lfs_shell.c:105-111 | the per-file call is made on every file, in order, whatever earlier calls returned |
| Handlers.ChangeModes | lfs_shell.c:103-112 | `permisos` reads the mode as octal and attempts `chmod` with it on every file in order |
| Handlers.ChangeOwners | lfs_shell.c:115-157 | `propietario` stops on a missing owner before looking at the group, stops on a missing group before any `chown`, and otherwise attempts `chown` with the resolved ids (-1 for `-`) on every file in order |
| Shell.RunAction | lfs_shell.c:173-222 | each action runs its own handler only: `permisos` attempts `chmod` with the octal mode on each file in order, `propietario` resolves owner then group and attempts `chown` on each file in order, `exit` carries its status, usage and unknown reports carry the command name, and the other commands are handed over unchanged |
| Shell.ProcessCommand | lfs_shell.c:160-222 | a line does nothing exactly when it is blank; usage, unknown-command, `permisos`, `propietario` and `exit` outcomes occur exactly under their token conditions and name `args[0]`; the other commands hand exactly the dispatched action (with its operands) to their wrapper; `permisos` attempts `chmod` with the octal mode of `args[1]` on `args[2..]` in order; `propietario` fails on a missing owner `args[1]`, then on a missing group `args[2]`, before any `chown`, and otherwise attempts `chown` with the resolved ids on `args[3..]` in order |

## Left out

- The bodies of `copiar`, `mover`, `renombrar`, `listar`, `creardir` and `ir`: they are system-call wrappers on files and directories, represented only by the action that would call them. `copiar` also ignores short writes, so it does not promise a byte-identical copy.
- The interactive loop, prompt and `fgets` line limit, and `exit(0)` ending the process: input and output; the model stops at the `Exit(0)` action.
- The printed messages, including the `errno`-dependent wording of the lookup errors: only which outcome is reported is modelled.
- The NULL checks on the owner and group operands of `propietario`: the dispatcher always passes tokens, so they never fire.
- Octal.ParseOctal: reads only an unsigned run of octal digits; `strtol`'s leading white space (other than the three delimiters, which never reach it) and sign, its overflow clamp, and the truncation to `mode_t` are not modelled.
- Ownership.ResolveId: ids are unbounded naturals, so a database id equal to `(uid_t) -1` is not confused with "unchanged" as it would be in the C types.
- Handlers.ChangeModes: the result of `chmod` on a file is a fixed function of file and mode, so a file system whose answers change between calls within one command is not modelled.
- Handlers.ChangeOwners: the result of `chown` on a file is a fixed function of file and ids, for the same reason.

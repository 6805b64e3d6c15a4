# KeyValueStore storage engine in Dafny

This project models the storage engine of the KeyValueStore project: the class
`KeyValDataStore` in `main.py`. The store keeps its records in a flat text
file. Each key owns a slot, which is the line whose 1-based number is a
polynomial rolling hash of the key. A record is the line
`json.dumps(key) + " " + json.dumps(value)`.

The model has five modules:

- `HashIndex`: the hash as recursive functions, with its closed form proved by
  modular arithmetic.
- `PyText`: the Python string operations the engine relies on:
  - `str.isspace`;
  - `strip()`;
  - `split()[0]`, including the `IndexError` on a blank line;
  - `startswith`.
- `JsonText`: a JSON value and `json.dumps` with its default settings:
  - `ensure_ascii` escaping;
  - the separators `", "` and `": "`.
- `KeyValSpec`: specification functions for what each operation does to the file's
  lines, the error codes of `KeyValDataStoreException`, and lemmas about how the
  operations compose.
- `KeyValStore`: the class `KeyValDataStore`, with the file as a `seq<string>`
  field.
  - `__hash_function`, `__add_object`, `__remove_object`, `create` and `delete` are
    methods.
  - The hash and the two line-by-line rewrites are loops proved against the
    specification functions.

Python's `%` with a positive modulus never gives a negative result, and neither
does Dafny's `%` on `int`. So the hash needs no sign correction, even though the
weight of a character below `'@'` is negative.

The method comments in `main.py` promise an add "if it is not a duplicate key"
(main.py:82-84) and a removal "only if that key exists" (main.py:110-111). The
code keeps these promises only partly, and it does several things the comments
do not mention. The model follows the code, and the lemmas named below prove
each point.

- **Re-creating a key does not fail with error 008; it overwrites the old value.**
  - The duplicate check compares the first word of the stored line with the
    decoded key. The stored line starts with the JSON-encoded key, which is
    quoted. So the check never fires on the record of the same key
    (`DuplicateCheckMisses`). It can fire on the record of a different key `k1` without whitespace
    in the same slot, when the new key is the text `json.dumps(k1)`.
  - A second `create` of the same key therefore succeeds, and the slot holds the
    new record (`AddAgainOverwrites`).
- **The file is never grown.** A key whose hash is 0 or larger than the number of
  lines matches no line. The add then reports success and writes no record;
  every line is still rewritten stripped (`AddObject`).
- **Every other line is copied back stripped, not unchanged.**
- **An empty slot cannot be filled.** On an empty target line `split()[0]` raises
  `IndexError`, which becomes error 004. So a slot emptied by a remove can never
  be written again (`RemoveThenAddFails`).
- **`delete` uses the key text as given.** It passes the key to `__remove_object`
  without decoding it, while `create` hashes the decoded key. For example, for
  the key `a` the two reach different lines (`DeleteHashesKeyText`).

## Model

| member | source | states |
|---|---|---|
| `HashIndex.HashPrefix` | main.py:68-72 | The loop's `hash_value` after `n` characters is always in `[0, 1000000009)`, whatever the signs of the character weights. |
| `HashIndex.HashOf` | main.py:66-73 | The hash of any key is in `[0, 1000000009)`, and the empty key hashes to 0. |
| `HashIndex.PowModIsPow` | main.py:68-72 | The loop's `p_pow` after `i` turns is `31^i mod 1000000009`. |
| `HashIndex.HashIsPolynomial` | main.py:68-73 | The rolling hash equals the polynomial `Σ (ord(key[j]) - 64) * 31^j`, computed in unbounded integers and reduced once at the end. |
| `KeyValStore.KeyValDataStore.HashFunction` | main.py:66-73 | The two-accumulator loop returns `HashOf(key)`, which is the polynomial mod 1000000009, in range. |
| `PyText.Strip` | main.py:92 | `strip()` leaves no whitespace at either end, never lengthens a string, and leaves an already stripped string unchanged. |
| `PyText.StripIsTrim` | main.py:92 | `strip()` removes exactly the leading and trailing whitespace: its result is a prefix of `lstrip()` of the line, and what follows that prefix is all whitespace. |
| `PyText.StripFacts` | main.py:92 | `strip()` gives `""` exactly when the line is all whitespace, and it never introduces a line break. |
| `PyText.FirstWord` | main.py:96 | `split()[0]` fails exactly on an all-whitespace string. Otherwise it is a non-empty word without whitespace that starts the left-stripped string and is followed by whitespace or nothing. |
| `PyText.FirstWordOfStrip` | main.py:92-96 | Taking `split()[0]` of the stripped line gives the same word as taking it of the original line. |
| `JsonText.Escape` | main.py:98 | `json.dumps` escaping of one character: printable ASCII other than `"` and `\` is kept as is, and every other character becomes a printable escape starting with `\`. A space appears exactly when the character is a space. |
| `JsonText.EncodeString` | main.py:98 | `json.dumps` of a string is printable ASCII in quotes and contains a space only when the string does. |
| `JsonText.DumpsShape` | main.py:98 | `json.dumps` of any value is a non-empty printable ASCII string that neither starts nor ends with a space. |
| `KeyValSpec.ErrorCode.ErrNo` | main.py:17-22 | Every error number is one of the eight three-digit codes `001`…`008`. |
| `KeyValSpec.ErrNoInjective` | main.py:17-22 | Distinct kinds of error carry distinct error numbers. |
| `KeyValSpec.Record` | main.py:98 | The line the add prints starts with `json.dumps(key)`, is already stripped, and holds no line break. |
| `KeyValSpec.Rewrite` | main.py:91-98 | One pass keeps the line count. Line `h` becomes the given target and every other line becomes its stripped original. |
| `KeyValSpec.RewriteKeepsLines` | main.py:92-94 | A pass over single lines, with a single-line target, leaves every line a single line. |
| `KeyValSpec.RewriteExtend` | main.py:91-94 | After one more line, the output of a pass is the previous output plus that line, rewritten. |
| `KeyValSpec.AddSpecFacts` | main.py:87-102 | The add keeps the line count. On success every other line is stripped, line `h` is the record and every line is stripped. A slot outside the file gives success, with no record written and every line stripped. Any failure is 004 and leaves the lines unchanged. |
| `KeyValSpec.AddFailureCauses` | main.py:89-102 | The add fails with 004 exactly when the lock fails, the target line is blank (`IndexError`), or the target line's first word is the key (008, re-raised as 004). |
| `KeyValSpec.RemoveSpecFacts` | main.py:115-131 | The remove keeps the line count. It succeeds exactly when the lock is taken and the stripped target line, if there is one, starts with `json.dumps(key)`; then that line is `""` and the others are stripped. Any failure (including 006) is 005 and leaves the lines unchanged. |
| `KeyValSpec.RewriteTwice` | main.py:91-94 | A second pass over the same slot does not change the other lines again, because stripping is idempotent. |
| `KeyValSpec.AddThenRemove` | main.py:124-125 | Round trip: after a successful add of `key`, a remove of the same key with the lock free succeeds and blanks the slot. |
| `KeyValSpec.DuplicateCheckMisses` | main.py:96-98 | The record the add writes for a key never has that decoded key as its first word, so the 008 check never fires on the record of the same key. |
| `KeyValSpec.RecordFirstWord` | main.py:96-98 | For a key without whitespace, the first word of its record is the whole encoded key. |
| `KeyValSpec.EncKeyNoSpace` | main.py:98 | A key without whitespace encodes to a single word at least two characters longer than the key. |
| `KeyValSpec.RecordPassesCheck` | main.py:92-97 | A record the add wrote passes the add's own target-line check. |
| `KeyValSpec.AddAgainOverwrites` | main.py:96-98 | A second add of the same key, after a successful one, succeeds and leaves the new record in the slot. |
| `KeyValSpec.RemoveThenAddFails` | main.py:96 | After a successful remove, an add to the same slot hits `split()[0]` on an empty line and fails with 004. |
| `KeyValSpec.RemoveTwiceFails` | main.py:124-131 | Removing the same key twice fails the second time with 005. |
| `KeyValSpec.CreateWithTtlClearsSlot` | main.py:158-161 | A `create` that passes the checks, has a non-negative TTL and free locks, and whose add succeeds, ends with the key's slot blank. |
| `KeyValSpec.DeleteHashesKeyText` | main.py:199-200 | For the key `a`, `create` targets line 33 but `delete` with the text `"a"` targets line 999972172. |
| `KeyValStore.KeyValDataStore.constructor` | main.py:39-47 | A store over a file with the given lines, none of which holds a line break. |
| `KeyValStore.KeyValDataStore.AddObject` | main.py:87-102 | `__add_object` produces exactly the add specification's outcome and lines, succeeding exactly when nothing in the block raises. It keeps the line count. On success the other lines are stripped, the slot holds the record and every line is stripped. Every failure is 004 with the lines unchanged. A slot outside the file gives success. |
| `KeyValStore.KeyValDataStore.AddPass` | main.py:91-98 | The loop raises what the add specification says for the target line. When it raises nothing, it outputs the rewrite with the record in the slot. |
| `KeyValStore.KeyValDataStore.CheckTarget` | main.py:96-97 | The check on the stripped target line raises `IndexError` exactly when the line is all whitespace, raises 008 exactly when its first word is the key, and raises nothing exactly when neither holds. |
| `KeyValStore.KeyValDataStore.RemoveObject` | main.py:115-131 | `__remove_object` produces exactly the remove specification's outcome and lines. It succeeds exactly when the lock is taken and the stripped slot line, if there is one, starts with `json.dumps(key)`. It keeps the line count and blanks the slot, and every failure is 005 with the lines unchanged. |
| `KeyValStore.KeyValDataStore.RemovePass` | main.py:119-127 | The loop raises 006 exactly when the stripped target line does not start with the encoded key. Otherwise it outputs the rewrite with `""` in the slot. |
| `KeyValStore.KeyValDataStore.Create` | main.py:149-161 | Key length over 32 gives 001, then a non-object value gives 002, then a size over 16384 gives 003, each before any write. Then comes the add, and with a TTL the remove of the same decoded key. With a non-negative TTL, free locks and a successful add, the slot ends blank and the other lines stripped. |
| `KeyValStore.KeyValDataStore.Delete` | main.py:199-200 | `delete` is `__remove_object` on the key as given: the same outcome and lines, and either success or 005 with the lines unchanged. |

## Left out

- Locking:
  - `fcntl.flock` becomes a boolean input that says whether the lock was taken, and concurrency is not modelled.
  - The code passes the file path instead of a file descriptor, which in CPython raises `TypeError`. So, as written, every add and remove fails with 004 or 005. This is the `lockOk = false` case of the model.
- A failed pass: when the `try` block raises during the pass, `fileinput.input(inplace=True)` leaves a partly rewritten file behind. That file depends on `fileinput` internals, so the model reports the error and keeps the old lines instead. The same event also leaves the module-wide `fileinput` state open and `sys.stdout` redirected into the data file. In the running process every later `fileinput.input(...)` then raises `RuntimeError`, so every later add fails with 004 and every later remove with 005. The model does not capture this: later operations run normally on the old lines.
- File plumbing:
  - `fileinput` and `print` are replaced by reading and writing the line sequence. The model does not keep the line terminator that `print` adds after every line.
  - The default `filepath` is left out.
  - The `Key added` / `Key removed` messages are left out.
- `read`: it runs `awk` through `os.popen`, which is foreign-process I/O, so it is not modelled. The model only keeps its error code 007, as `ReadKeyMissing`.
- `json.loads`:
  - `create` receives the key and the value already decoded.
  - Parse errors, keys that are not strings, and duplicate object keys are not modelled.
  - Floats are not part of the JSON values.
  - Dafny's `char` holds Unicode scalar values only, so keys and strings with lone surrogates, such as the decoding of `"\ud800"`, are outside the model.
- `getsizeof`: the size of the value is an input, `size`.
- `time.sleep`: timing is left out and only the order (add, then remove) is kept. A negative TTL makes `time.sleep` raise `ValueError` after the add (`NegativeSleep`). A TTL that is not a number is not modelled.
- `KeyValDataStoreException.__str__`: message formatting only. `ErrMsg` holds the messages but states nothing about them.

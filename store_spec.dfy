/**
 * What the store's operations do to the backing file, as functions of the file's
 * lines: the error codes, the rewrite that `__add_object` and `__remove_object`
 * perform, the validation chain of `create`, and how the operations compose.
 */
module KeyValSpec {
  import opened Optional
  import opened PyText
  import opened JsonText
  import opened HashIndex

  /** The error numbers of `KeyValDataStoreException`. */
  datatype ErrorCode =
    | KeyTooLong
    | ValueNotObject
    | ValueTooLarge
    | CannotAdd
    | CannotRemove
    | KeyNotFound
    | ReadKeyMissing
    | DuplicateKey
  {
    /** `ErrNo`: three digits, one number per kind of error. */
    function ErrNo(): (s: string)
      ensures |s| == 3 && s[..2] == "00" && '1' <= s[2] <= '8'
    {
      match this
      case KeyTooLong => "001"
      case ValueNotObject => "002"
      case ValueTooLarge => "003"
      case CannotAdd => "004"
      case CannotRemove => "005"
      case KeyNotFound => "006"
      case ReadKeyMissing => "007"
      case DuplicateKey => "008"
    }

    /** `ErrMsg`. */
    function ErrMsg(): string {
      match this
      case KeyTooLong => "Invalid Key. Entered key should not exceed 32 characters."
      case ValueNotObject => "Invalid Value. Entered value is not a valid JSON Object."
      case ValueTooLarge => "Invalid Value. Entered value should not exceed 16 KB."
      case CannotAdd => "Cannot be added, file currently in use."
      case CannotRemove => "Cannot be deleted, file currently in use."
      case KeyNotFound => "Cannot be deleted, entered key does not exist."
      case ReadKeyMissing => "Specified key does not exist."
      case DuplicateKey => "Cannot insert duplicate key."
    }
  }

  /** Distinct kinds of error carry distinct numbers. */
  lemma ErrNoInjective(a: ErrorCode, b: ErrorCode)
    requires a.ErrNo() == b.ErrNo()
    ensures a == b
  {
    assert a.ErrNo()[2] == b.ErrNo()[2];
  }

  /** What the `try` block of `__add_object` or `__remove_object` can raise before the bare `except` replaces it. */
  datatype Raised =
    | LockFailed            // `fcntl.flock` raised
    | NoFirstWord           // `line.split()[0]` on a blank line raised `IndexError`
    | Thrown(code: ErrorCode)  // a `KeyValDataStoreException` raised inside the block

  /** How a public operation ends: normally, with a store error, or with the `ValueError` of `time.sleep` on a negative TTL. */
  datatype Outcome = Ok | Fail(code: ErrorCode) | NegativeSleep

  /** An outcome together with the file's lines afterwards. */
  datatype Step = Step(outcome: Outcome, lines: seq<string>)

  const MaxKeyLength := 32
  const MaxValueSize := 16384

  /** `json.dumps(key)` for a string key. */
  function EncKey(key: string): string {
    Dumps(JStr(key))
  }

  /** The line `print(json.dumps(key), json.dumps(value))` writes: one line, already stripped, starting with the encoded key. */
  function Record(key: string, value: Json): (r: string)
    ensures StartsWith(r, EncKey(key)) && IsStripped(r) && NoLineBreak(r)
  {
    var k, v := EncKey(key), Dumps(value);
    var r := k + " " + v;
    DumpsShape(value);
    DumpsShape(JStr(key));
    assert r[..|k|] == k;
    PrintableSpace(r[0]);
    PrintableSpace(r[|r| - 1]);
    assert Printable(r) by {
      forall i | 0 <= i < |r| ensures ' ' <= r[i] <= '~' {
        if i > |k| { assert r[i] == v[i - |k| - 1]; }
      }
    }
    PrintableNoLineBreak(r);
    r
  }

  /** Line number `h` (1-based) is one of the file's lines. */
  predicate InFile(lines: seq<string>, h: int) {
    1 <= h <= |lines|
  }

  /** One `fileinput` pass: every line is printed back stripped, except line number `h`, which becomes `target`. */
  function Rewrite(lines: seq<string>, h: int, target: string): (r: seq<string>)
    ensures |r| == |lines|
    ensures forall k :: 0 <= k < |lines| ==> r[k] == if k + 1 == h then target else Strip(lines[k])
  {
    if lines == [] then []
    else
      var last := |lines| - 1;
      var front := Rewrite(lines[..last], h, target);
      assert forall k :: 0 <= k < last ==> front[k] == if k + 1 == h then target else Strip(lines[k]) by {
        assert forall k :: 0 <= k < last ==> lines[..last][k] == lines[k];
      }
      front + [if last + 1 == h then target else Strip(lines[last])]
  }

  /** What the `try` block of `__add_object` raises, if anything, when `key` hashes to line `h`. */
  function AddRaises(lines: seq<string>, h: int, key: string, lockOk: bool): Option<Raised> {
    if !lockOk then Some(LockFailed)
    else
      if !InFile(lines, h) then None
      else
        TargetRaises(Strip(lines[h - 1]), key)
  }

  /** What the add's check of the stripped target line raises: `IndexError` on a blank line, error 008 when its first word is the key. */
  function TargetRaises(line: string, key: string): Option<Raised> {
    match FirstWord(line)
    case None => Some(NoFirstWord)
    case Some(w) => if w == key then Some(Thrown(DuplicateKey)) else None
  }

  /** `__add_object(key, value)` with `key` hashing to line `h`: any exception becomes error 004 and keeps the file as it was. */
  function AddSpec(lines: seq<string>, h: int, key: string, value: Json, lockOk: bool): Step {
    if AddRaises(lines, h, key, lockOk).Some? then Step(Fail(CannotAdd), lines)
    else Step(Ok, Rewrite(lines, h, Record(key, value)))
  }

  /** What the `try` block of `__remove_object` raises, if anything, when `key` hashes to line `h`. */
  function RemoveRaises(lines: seq<string>, h: int, key: string, lockOk: bool): Option<Raised> {
    if !lockOk then Some(LockFailed)
    else
      if InFile(lines, h) && !StartsWith(Strip(lines[h - 1]), EncKey(key)) then Some(Thrown(KeyNotFound))
      else None
  }

  /** `__remove_object(key)` with `key` hashing to line `h`: any exception becomes error 005 and keeps the file as it was. */
  function RemoveSpec(lines: seq<string>, h: int, key: string, lockOk: bool): Step {
    if RemoveRaises(lines, h, key, lockOk).Some? then Step(Fail(CannotRemove), lines)
    else Step(Ok, Rewrite(lines, h, ""))
  }

  /** The three checks `create` makes before it writes anything. */
  predicate Admissible(key: string, value: Json, size: nat) {
    |key| <= MaxKeyLength && value.JObj? && size <= MaxValueSize
  }

  /**
   * `create(key, value, ttl)` with the key and value already decoded, `size` standing
   * for `getsizeof(value)`, and one lock outcome for each of the two rewrites.
   */
  function CreateSpec(lines: seq<string>, key: string, value: Json, size: nat, ttl: Option<real>,
                      lockForAdd: bool, lockForRemove: bool): Step
  {
    if |key| > MaxKeyLength then Step(Fail(KeyTooLong), lines)
    else if !value.JObj? then Step(Fail(ValueNotObject), lines)
    else if size > MaxValueSize then Step(Fail(ValueTooLarge), lines)
    else
      var h := HashOf(key);
      var added := AddSpec(lines, h, key, value, lockForAdd);
      if added.outcome != Ok || ttl.None? then added
      else if ttl.value < 0.0 then Step(NegativeSleep, added.lines)
      else RemoveSpec(added.lines, h, key, lockForRemove)
  }

  /**
   * What `__add_object` leaves behind. The file keeps its number of lines. On success
   * every line other than `h` is its stripped original, line `h` (when the file has it)
   * is the record, and so every line is stripped; a line number the file does not have
   * gives success without writing anything. Every failure is error 004 and leaves
   * the file as it was.
   */
  lemma AddSpecFacts(lines: seq<string>, h: int, key: string, value: Json, lockOk: bool)
    ensures var st := AddSpec(lines, h, key, value, lockOk);
      && |st.lines| == |lines|
      && (st.outcome == Ok <==> AddRaises(lines, h, key, lockOk).None?)
      && (st.outcome != Ok ==> st.outcome == Fail(CannotAdd) && st.lines == lines)
      && (st.outcome == Ok ==> forall i :: 0 <= i < |lines| && i + 1 != h ==> st.lines[i] == Strip(lines[i]))
      && (st.outcome == Ok && InFile(lines, h) ==> st.lines[h - 1] == Record(key, value))
      && (st.outcome == Ok ==> forall i :: 0 <= i < |lines| ==> IsStripped(st.lines[i]))
      && (lockOk && !InFile(lines, h) ==> st.outcome == Ok)
  {
  }

  /**
   * The three causes of error 004: the lock call failing, a target line that is blank
   * (so `split()` is empty and indexing it raises), and a target line whose first word
   * is the key itself (error 008, re-raised as 004).
   */
  lemma AddFailureCauses(lines: seq<string>, h: int, key: string, value: Json, lockOk: bool)
    ensures AddSpec(lines, h, key, value, lockOk).outcome == Fail(CannotAdd) <==>
      || !lockOk
      || (InFile(lines, h) && (AllSpace(lines[h - 1]) || FirstWord(lines[h - 1]) == Some(key)))
  {
    if lockOk && InFile(lines, h) {
      FirstWordOfStrip(lines[h - 1]);
      StripFacts(lines[h - 1]);
    }
  }

  /**
   * What `__remove_object` leaves behind. The file keeps its number of lines. It
   * succeeds exactly when the lock is taken and line `h`, if the file has it, starts
   * with the encoded key after stripping; then line `h` is blank and every other line
   * is its stripped original. Every failure is error 005 and leaves the file as it was.
   */
  lemma RemoveSpecFacts(lines: seq<string>, h: int, key: string, lockOk: bool)
    ensures var st := RemoveSpec(lines, h, key, lockOk);
      && |st.lines| == |lines|
      && (st.outcome == Ok <==> lockOk && (InFile(lines, h) ==> StartsWith(Strip(lines[h - 1]), EncKey(key))))
      && (st.outcome != Ok ==> st.outcome == Fail(CannotRemove) && st.lines == lines)
      && (st.outcome == Ok ==> forall i :: 0 <= i < |lines| && i + 1 != h ==> st.lines[i] == Strip(lines[i]))
      && (st.outcome == Ok && InFile(lines, h) ==> st.lines[h - 1] == "")
  {
  }

  /** A rewrite keeps every line a single line, so the file keeps its line structure. */
  lemma RewriteKeepsLines(lines: seq<string>, h: int, target: string)
    requires forall i :: 0 <= i < |lines| ==> NoLineBreak(lines[i])
    requires NoLineBreak(target)
    ensures forall i :: 0 <= i < |lines| ==> NoLineBreak(Rewrite(lines, h, target)[i])
  {
    forall i | 0 <= i < |lines|
      ensures NoLineBreak(Strip(lines[i]))
    {
      StripFacts(lines[i]);
    }
  }

  /** A pass that has printed `i` lines has printed the rewrite of the first `i` lines; one more line extends it by one. */
  lemma RewriteExtend(lines: seq<string>, i: int, h: int, target: string)
    requires 0 <= i < |lines|
    ensures Rewrite(lines[..i + 1], h, target) == Rewrite(lines[..i], h, target) + [if i + 1 == h then target else Strip(lines[i])]
  {
    assert lines[..i + 1][..i] == lines[..i];
  }

  /** A second rewrite that leaves the same line as the first does not change the other lines again. */
  lemma RewriteTwice(lines: seq<string>, h: int, first: string, second: string)
    ensures Rewrite(Rewrite(lines, h, first), h, second) == Rewrite(lines, h, second)
  {
    var once := Rewrite(lines, h, first);
    forall i | 0 <= i < |lines| && i + 1 != h
      ensures Strip(once[i]) == Strip(lines[i])
    {
    }
  }

  /**
   * Round trip: once `__add_object(key, value)` has succeeded, `__remove_object(key)`
   * with the lock free succeeds too, and the file is the original with the target
   * line blanked and every other line stripped.
   */
  lemma AddThenRemove(lines: seq<string>, h: int, key: string, value: Json)
    requires AddSpec(lines, h, key, value, true).outcome == Ok
    ensures RemoveSpec(AddSpec(lines, h, key, value, true).lines, h, key, true) == Step(Ok, Rewrite(lines, h, ""))
  {
    var rec := Record(key, value);
    var added := Rewrite(lines, h, rec);
    assert RemoveRaises(added, h, key, true).None? by {
      if InFile(added, h) {
        assert added[h - 1] == rec;
        assert Strip(rec) == rec;
      }
    }
    RewriteTwice(lines, h, rec, "");
  }

  /**
   * The duplicate check compares the first word of the stored line with the decoded
   * key, but the stored line starts with the encoded key: on a line that `__add_object`
   * wrote, the check never fires.
   */
  lemma DuplicateCheckMisses(key: string, value: Json)
    ensures FirstWord(Record(key, value)) != Some(key)
  {
    if NoSpace(key) {
      RecordFirstWord(key, value);
    }
  }

  /** The first word of a record whose key has no whitespace is the whole encoded key. */
  lemma RecordFirstWord(key: string, value: Json)
    requires NoSpace(key)
    ensures FirstWord(Record(key, value)) == Some(EncKey(key))
  {
    var e, rest := EncKey(key), " " + Dumps(value);
    assert Record(key, value) == e + rest;
    EncKeyNoSpace(key);
    FirstWordOfConcat(e, rest);
  }

  /** A key without whitespace encodes to a single word, longer than the key by its quotes at least. */
  lemma EncKeyNoSpace(key: string)
    requires NoSpace(key)
    ensures NoSpace(EncKey(key)) && |EncKey(key)| >= |key| + 2
  {
    var e := EncodeString(key);
    assert ' ' !in key;
    forall k | 0 <= k < |e| ensures !IsSpace(e[k]) {
      assert e[k] != ' ';
      PrintableSpace(e[k]);
    }
  }

  /** A line that `__add_object` wrote passes the add's own check of the target line. */
  lemma RecordPassesCheck(key: string, value: Json)
    ensures TargetRaises(Record(key, value), key).None?
  {
    var rec := Record(key, value);
    assert Strip(rec) == rec;
    assert !AllSpace(rec) by {
      assert !IsSpace(rec[0]);
    }
    DuplicateCheckMisses(key, value);
  }

  /**
   * Creating a key that is already stored replaces its value instead of failing:
   * the second `__add_object` succeeds and the slot holds the new record.
   */
  lemma AddAgainOverwrites(lines: seq<string>, h: int, key: string, v1: Json, v2: Json)
    requires AddSpec(lines, h, key, v1, true).outcome == Ok
    ensures AddSpec(AddSpec(lines, h, key, v1, true).lines, h, key, v2, true) == Step(Ok, Rewrite(lines, h, Record(key, v2)))
  {
    var rec := Record(key, v1);
    var added := Rewrite(lines, h, rec);
    assert AddRaises(added, h, key, true).None? by {
      if InFile(added, h) {
        assert added[h - 1] == rec;
        RecordPassesCheck(key, v1);
      }
    }
    RewriteTwice(lines, h, rec, Record(key, v2));
  }

  /**
   * A slot blanked by `__remove_object` cannot be filled again: the next
   * `__add_object` of the same key meets an empty line, `split()[0]` raises,
   * and the add fails with 004.
   */
  lemma RemoveThenAddFails(lines: seq<string>, h: int, key: string, value: Json)
    requires InFile(lines, h)
    requires RemoveSpec(lines, h, key, true).outcome == Ok
    ensures AddRaises(RemoveSpec(lines, h, key, true).lines, h, key, true) == Some(NoFirstWord)
    ensures AddSpec(RemoveSpec(lines, h, key, true).lines, h, key, value, true).outcome == Fail(CannotAdd)
  {
    var removed := RemoveSpec(lines, h, key, true).lines;
    assert removed[h - 1] == "";
  }

  /** A second `__remove_object` of a key whose slot is already blank fails with 005. */
  lemma RemoveTwiceFails(lines: seq<string>, h: int, key: string)
    requires InFile(lines, h)
    requires RemoveSpec(lines, h, key, true).outcome == Ok
    ensures RemoveSpec(RemoveSpec(lines, h, key, true).lines, h, key, true).outcome == Fail(CannotRemove)
  {
    var removed := RemoveSpec(lines, h, key, true).lines;
    assert removed[h - 1] == "";
  }

  /**
   * `create` with a non-negative TTL and both locks free, whose add succeeds,
   * ends with the key's slot blank: the add and the remove of the same decoded key.
   */
  lemma CreateWithTtlClearsSlot(lines: seq<string>, key: string, value: Json, size: nat, ttl: real)
    requires Admissible(key, value, size) && ttl >= 0.0
    requires AddSpec(lines, HashOf(key), key, value, true).outcome == Ok
    ensures CreateSpec(lines, key, value, size, Some(ttl), true, true) == Step(Ok, Rewrite(lines, HashOf(key), ""))
  {
    AddThenRemove(lines, HashOf(key), key, value);
  }

  /**
   * `delete` hashes the key text exactly as given, while `create` hashes the decoded
   * key: for the JSON text `"a"`, `create` writes line 33 and `delete` looks at line
   * 999972172, which no file of fewer lines has.
   */
  lemma DeleteHashesKeyText()
    ensures EncKey("a") == "\"a\""
    ensures HashOf("a") == 33
    ensures HashOf(EncKey("a")) == 999972172
  {
    assert EncKey("a") == "\"a\"" by {
      assert Escape('a') == "a";
      assert EscapeAll("a") == "a";
    }
    var k := EncKey("a");
    assert HashOf("a") == 33 by {
      assert HashPrefix("a", 1) == (0 + 33 * 1) % M;
    }
    assert HashOf(k) == 999972172 by {
      assert HashPrefix(k, 1) == M - 30;
      assert PowMod(1) == 31;
      assert HashPrefix(k, 2) == (M - 30 + 33 * 31) % M;
      assert PowMod(2) == 961;
      assert HashPrefix(k, 3) == (993 + (-30) * 961) % M;
    }
  }
}

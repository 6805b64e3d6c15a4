/**
 * The storage engine, `KeyValDataStore`: the backing file as a sequence of lines
 * that each mutation rewrites in full, one line per pass of the loop.
 */
module KeyValStore {
  import opened Optional
  import opened PyText
  import opened JsonText
  import opened HashIndex
  import opened KeyValSpec

  class KeyValDataStore {
    /** The backing file, one string per line, without the line terminators. */
    var lines: seq<string>

    /** Each element really is one line of the file: printing it and reading it back gives it back. */
    ghost predicate Valid()
      reads this
    {
      forall i :: 0 <= i < |lines| ==> NoLineBreak(lines[i])
    }

    /** A store over a file with the given lines. */
    constructor (contents: seq<string>)
      requires forall i :: 0 <= i < |contents| ==> NoLineBreak(contents[i])
      ensures Valid() && lines == contents
    {
      lines := contents;
    }

    /** `__hash_function`: the rolling hash, accumulated one character at a time. */
    method HashFunction(key: string) returns (h: int)
      ensures h == HashOf(key)
      ensures h == PolySum(key, |key|) % M
      ensures 0 <= h < M
    {
      var p, m, pPow := 31, 1000000009, 1;
      var hashValue := 0;
      for i := 0 to |key|
        invariant pPow == PowMod(i)
        invariant hashValue == HashPrefix(key, i)
      {
        hashValue := (hashValue + (key[i] as int - 'A' as int + 1) * pPow) % m;
        pPow := pPow * p % m;
      }
      HashIsPolynomial(key, |key|);
      h := hashValue;
    }

    /**
     * `__add_object(key, value)`: under the lock, print every line back stripped,
     * except line number `HashOf(key)`, which must hold a first word other than the
     * key and is replaced by the record. Whatever the block raises becomes error 004.
     */
    method AddObject(key: string, value: Json, lockOk: bool) returns (r: Outcome)
      requires Valid()
      modifies this
      ensures Valid()
      ensures Step(r, lines) == AddSpec(old(lines), HashOf(key), key, value, lockOk)
      ensures r == Ok <==> AddRaises(old(lines), HashOf(key), key, lockOk).None?
      ensures r != Ok ==> r == Fail(CannotAdd) && lines == old(lines)
      ensures |lines| == |old(lines)|
      ensures r == Ok ==> forall i :: 0 <= i < |lines| && i + 1 != HashOf(key) ==> lines[i] == Strip(old(lines)[i])
      ensures r == Ok && InFile(lines, HashOf(key)) ==> lines[HashOf(key) - 1] == Record(key, value)
      ensures r == Ok ==> forall i :: 0 <= i < |lines| ==> IsStripped(lines[i])
      ensures lockOk && !InFile(old(lines), HashOf(key)) ==> r == Ok
    {
      ghost var before := lines;
      AddSpecFacts(before, HashOf(key), key, value, lockOk);
      if !lockOk {
        return Fail(CannotAdd);
      }
      var h := HashFunction(key);
      var raised, out := AddPass(h, key, value);
      if raised.Some? {
        r := Fail(CannotAdd);
      } else {
        RewriteKeepsLines(lines, h, Record(key, value));
        lines := out;
        r := Ok;
      }
    }

    /**
     * The `for line in fileinput.input(...)` pass of `__add_object` for a key that
     * hashes to line `h`: the lines it prints, or what it raises on the way.
     */
    method AddPass(h: int, key: string, value: Json) returns (raised: Option<Raised>, out: seq<string>)
      ensures raised == AddRaises(lines, h, key, true)
      ensures raised.None? ==> out == Rewrite(lines, h, Record(key, value))
    {
      var rec := Record(key, value);
      raised, out := None, [];
      var i := 0;
      while i < |lines|
        invariant 0 <= i <= |lines| && out == Rewrite(lines[..i], h, rec) && raised.None?
        invariant InFile(lines, h) && h <= i ==> TargetRaises(Strip(lines[h - 1]), key).None?
      {
        var line := Strip(lines[i]);
        if i + 1 == h {
          raised := CheckTarget(line, key);
          if raised.Some? {
            return;
          }
          line := rec;
        }
        RewriteExtend(lines, i, h, rec);
        out := out + [line];
        i := i + 1;
      }
      assert lines[..i] == lines;
    }

    /** The check `__add_object` makes on the stripped target line: `split()[0]`, then the comparison with the key. */
    static method CheckTarget(line: string, key: string) returns (raised: Option<Raised>)
      ensures raised == Some(NoFirstWord) <==> AllSpace(line)
      ensures raised == Some(Thrown(DuplicateKey)) <==> FirstWord(line) == Some(key)
      ensures raised.None? <==> !AllSpace(line) && FirstWord(line) != Some(key)
    {
      var word := FirstWord(line);
      if word.None? {
        return Some(NoFirstWord);
      }
      if word.value == key {
        return Some(Thrown(DuplicateKey));
      }
      return None;
    }

    /**
     * `__remove_object(key)`: under the lock, print every line back stripped, except
     * line number `HashOf(key)`, which must start with the encoded key and becomes
     * empty. Whatever the block raises becomes error 005.
     */
    method RemoveObject(key: string, lockOk: bool) returns (r: Outcome)
      requires Valid()
      modifies this
      ensures Valid()
      ensures Step(r, lines) == RemoveSpec(old(lines), HashOf(key), key, lockOk)
      ensures r == Ok <==> lockOk && (InFile(old(lines), HashOf(key)) ==> StartsWith(Strip(old(lines)[HashOf(key) - 1]), EncKey(key)))
      ensures r != Ok ==> r == Fail(CannotRemove) && lines == old(lines)
      ensures |lines| == |old(lines)|
      ensures r == Ok ==> forall i :: 0 <= i < |lines| && i + 1 != HashOf(key) ==> lines[i] == Strip(old(lines)[i])
      ensures r == Ok && InFile(lines, HashOf(key)) ==> lines[HashOf(key) - 1] == ""
    {
      ghost var before := lines;
      RemoveSpecFacts(before, HashOf(key), key, lockOk);
      if !lockOk {
        return Fail(CannotRemove);
      }
      var h := HashFunction(key);
      var raised, out := RemovePass(h, key);
      if raised.Some? {
        r := Fail(CannotRemove);
      } else {
        RewriteKeepsLines(lines, h, "");
        lines := out;
        r := Ok;
      }
    }

    /**
     * The `for line in fileinput.input(...)` pass of `__remove_object` for a key that
     * hashes to line `h`: the lines it prints, or what it raises on the way.
     */
    method RemovePass(h: int, key: string) returns (raised: Option<Raised>, out: seq<string>)
      ensures raised == RemoveRaises(lines, h, key, true)
      ensures raised.None? ==> out == Rewrite(lines, h, "")
    {
      raised, out := None, [];
      var i := 0;
      while i < |lines|
        invariant 0 <= i <= |lines| && out == Rewrite(lines[..i], h, "") && raised.None?
        invariant InFile(lines, h) && h <= i ==> StartsWith(Strip(lines[h - 1]), EncKey(key))
      {
        var line := Strip(lines[i]);
        if i + 1 == h {
          if !StartsWith(line, EncKey(key)) {
            raised := Some(Thrown(KeyNotFound));
            return;
          }
          line := "";
        }
        RewriteExtend(lines, i, h, "");
        out := out + [line];
        i := i + 1;
      }
      assert lines[..i] == lines;
    }

    /**
     * `create(key, value, ttl)`, with the key and the value already decoded by
     * `json.loads`, `size` standing for `getsizeof(value)` and one lock outcome for
     * each rewrite. The three checks come first, in order, and write nothing; then
     * the add; then, with a TTL, the remove of the same key.
     */
    method Create(key: string, value: Json, size: nat, ttl: Option<real>, lockForAdd: bool, lockForRemove: bool)
      returns (r: Outcome)
      requires Valid()
      modifies this
      ensures Valid()
      ensures Step(r, lines) == CreateSpec(old(lines), key, value, size, ttl, lockForAdd, lockForRemove)
      ensures |key| > MaxKeyLength ==> r == Fail(KeyTooLong) && lines == old(lines)
      ensures |key| <= MaxKeyLength && !value.JObj? ==> r == Fail(ValueNotObject) && lines == old(lines)
      ensures |key| <= MaxKeyLength && value.JObj? && size > MaxValueSize ==> r == Fail(ValueTooLarge) && lines == old(lines)
      ensures Admissible(key, value, size) && ttl.None? ==> Step(r, lines) == AddSpec(old(lines), HashOf(key), key, value, lockForAdd)
      ensures Admissible(key, value, size) && ttl.Some? && ttl.value >= 0.0 && lockForAdd && lockForRemove
              && AddRaises(old(lines), HashOf(key), key, true).None?
              ==> r == Ok && lines == Rewrite(old(lines), HashOf(key), "")
    {
      if |key| > MaxKeyLength {
        return Fail(KeyTooLong);
      }
      if !value.JObj? {
        return Fail(ValueNotObject);
      }
      if size > MaxValueSize {
        return Fail(ValueTooLarge);
      }
      ghost var before := lines;
      r := AddObject(key, value, lockForAdd);
      if r != Ok || ttl.None? {
        return;
      }
      if ttl.value < 0.0 {
        return NegativeSleep;
      }
      r := RemoveObject(key, lockForRemove);
      if lockForAdd && lockForRemove {
        AddThenRemove(before, HashOf(key), key, value);
      }
    }

    /** `delete(key)`: `__remove_object` on the key exactly as given, without decoding it. */
    method Delete(key: string, lockOk: bool) returns (r: Outcome)
      requires Valid()
      modifies this
      ensures Valid()
      ensures Step(r, lines) == RemoveSpec(old(lines), HashOf(key), key, lockOk)
      ensures r == Ok || (r == Fail(CannotRemove) && lines == old(lines))
    {
      r := RemoveObject(key, lockOk);
    }
  }
}

/**
 * Text handling on the server (upload_server.py): the name `chunk_{index}.part` under which
 * a chunk is stored, the parse that turns a directory entry back into an index, and the
 * Python string routines those two rely on (`str(int)`, `int(str)`, `split`, `strip`).
 */
module ChunkNames {
  import opened Wrappers

  const ChunkPrefix: string := "chunk_"
  const ChunkSuffix: string := ".part"
  /** The entry of every session directory that holds the original filename. */
  const MetaFileName: string := "meta_filename.txt"

  predicate StartsWith(s: string, p: string) { |p| <= |s| && s[..|p|] == p }
  predicate EndsWith(s: string, p: string) { |p| <= |s| && s[|s| - |p|..] == p }

  /**
   * Python's `str.isspace`, the whitespace `strip()` and `int()` remove: `\t` to `\r`,
   * 28 to 31, space, U+0085, U+00A0, U+1680, U+2000 to U+200A, U+2028, U+2029, U+202F,
   * U+205F and U+3000.
   */
  predicate IsSpace(c: char) {
    var n := c as int;
    || 9 <= n <= 13 || 28 <= n <= 32 || n == 0x85 || n == 0xA0 || n == 0x1680
    || 0x2000 <= n <= 0x200A || n == 0x2028 || n == 0x2029 || n == 0x202F || n == 0x205F || n == 0x3000
  }

  /** `s` without its leading whitespace (`str.lstrip()`). */
  function TrimLeft(s: string): string {
    if s != [] && IsSpace(s[0]) then TrimLeft(s[1..]) else s
  }

  /** `s` without its trailing whitespace (`str.rstrip()`). */
  function TrimRight(s: string): string {
    if s != [] && IsSpace(s[|s| - 1]) then TrimRight(s[..|s| - 1]) else s
  }

  /** Python's `str.strip()`: `s` without its leading and trailing whitespace. */
  function Strip(s: string): string {
    TrimRight(TrimLeft(s))
  }

  /** What `lstrip` removes is whitespace, and what it keeps is a suffix not starting with any. */
  lemma {:induction false} TrimLeftShape(s: string)
    ensures var r := TrimLeft(s);
      && |r| <= |s| && r == s[|s| - |r|..]
      && (r == [] || !IsSpace(r[0]))
      && forall i :: 0 <= i < |s| - |r| ==> IsSpace(s[i])
  {
    if s != [] && IsSpace(s[0]) {
      TrimLeftShape(s[1..]);
      var r := TrimLeft(s[1..]);
      forall i | 0 <= i < |s| - |r| ensures IsSpace(s[i]) {
        if i > 0 {
          assert s[i] == s[1..][i - 1];
        }
      }
    }
  }

  /** What `rstrip` removes is whitespace, and what it keeps is a prefix not ending with any. */
  lemma {:induction false} TrimRightShape(s: string)
    ensures var r := TrimRight(s);
      && |r| <= |s| && r == s[..|r|]
      && (r == [] || !IsSpace(r[|r| - 1]))
      && forall i :: |r| <= i < |s| ==> IsSpace(s[i])
  {
    if s != [] && IsSpace(s[|s| - 1]) {
      TrimRightShape(s[..|s| - 1]);
      var r := TrimRight(s[..|s| - 1]);
      forall i | |r| <= i < |s| ensures IsSpace(s[i]) {
        if i < |s| - 1 {
          assert s[i] == s[..|s| - 1][i];
        }
      }
    }
  }

  /** `strip` leaves text with no whitespace at either end, made of characters of its input, and leaves nothing exactly when all of it is whitespace. */
  lemma StripShape(s: string)
    ensures var r := Strip(s);
      && |r| <= |s|
      && (r == [] || (!IsSpace(r[0]) && !IsSpace(r[|r| - 1])))
      && (r == [] <==> forall k :: 0 <= k < |s| ==> IsSpace(s[k]))
      && forall c :: c in r ==> c in s
  {
    var l := TrimLeft(s);
    TrimLeftShape(s);
    TrimRightShape(l);
    var r := TrimRight(l);
    forall c | c in r ensures c in s {
      var k :| 0 <= k < |r| && r[k] == c;
      assert l[k] == c;
      assert s[|s| - |l| + k] == c;
    }
    if r == [] {
      assert l == [];
    } else {
      assert r[0] == l[0];
      if l != [] {
        assert !IsSpace(s[|s| - |l|]);
      }
    }
  }

  /** Text that neither starts nor ends with whitespace is left as it is by `strip`. */
  lemma StripKeepsTrimmed(s: string)
    requires s == [] || (!IsSpace(s[0]) && !IsSpace(s[|s| - 1]))
    ensures Strip(s) == s
  {
  }

  predicate IsDigit(c: char) { '0' <= c <= '9' }

  predicate IsDecimal(s: string) {
    |s| > 0 && forall k :: 0 <= k < |s| ==> IsDigit(s[k])
  }

  function DigitChar(d: nat): (c: char)
    requires d < 10
    ensures IsDigit(c) && c as int - '0' as int == d
  {
    ('0' as int + d) as char
  }

  /** The decimal digits of `n`, most significant first, without leading zeros. */
  function NatToDecimal(n: nat): (s: string)
    ensures IsDecimal(s)
    decreases n
  {
    if n < 10 then [DigitChar(n)] else NatToDecimal(n / 10) + [DigitChar(n % 10)]
  }

  /** The number a string of decimal digits denotes (leading zeros allowed, as in `int("007")`). */
  function DecimalValue(s: string): nat
    requires forall k :: 0 <= k < |s| ==> IsDigit(s[k])
  {
    if s == [] then 0
    else
      assert IsDigit(s[|s| - 1]);
      10 * DecimalValue(s[..|s| - 1]) + (s[|s| - 1] as int - '0' as int)
  }

  lemma {:induction false} DecimalRoundTrip(n: nat)
    ensures DecimalValue(NatToDecimal(n)) == n
    decreases n
  {
    if n >= 10 {
      var s := NatToDecimal(n);
      assert s[..|s| - 1] == NatToDecimal(n / 10);
      DecimalRoundTrip(n / 10);
    }
  }

  /** Python's `str(i)`: an optional minus sign and the decimal digits of `|i|`. */
  function IntToString(i: int): (s: string)
    ensures |s| > 0 && !IsSpace(s[0]) && !IsSpace(s[|s| - 1])
    ensures '_' !in s && '.' !in s
  {
    if i < 0 then "-" + NatToDecimal(-i) else NatToDecimal(i)
  }

  /**
   * Python's `int(s)` on ASCII digits: surrounding whitespace is dropped, then one
   * optional `+` or `-` and at least one decimal digit must be all that is left.
   */
  function ParseInt(s: string): (r: Option<int>)
    ensures r.Some? ==>
      var t := Strip(s);
      && |t| > 0 && (IsDigit(t[0]) || t[0] == '-' || t[0] == '+')
      && (forall k :: 1 <= k < |t| ==> IsDigit(t[k]))
    ensures r.Some? && r.value < 0 ==> Strip(s)[0] == '-'
  {
    var t := Strip(s);
    if |t| > 0 && (t[0] == '-' || t[0] == '+') then
      if IsDecimal(t[1..]) then
        Some(if t[0] == '-' then 0 - DecimalValue(t[1..]) else DecimalValue(t[1..]))
      else None
    else if IsDecimal(t) then Some(DecimalValue(t))
    else None
  }

  /** `int(str(i)) == i`. */
  lemma ParseIntRoundTrip(i: int)
    ensures ParseInt(IntToString(i)) == Some(i)
  {
    var s := IntToString(i);
    StripKeepsTrimmed(s);
    if i < 0 {
      assert s[1..] == NatToDecimal(-i);
      DecimalRoundTrip(-i);
    } else {
      DecimalRoundTrip(i);
    }
  }

  /** Python's `s.split(c)[0]`: the longest prefix of `s` without `c`. */
  function Before(s: string, c: char): (r: string)
    ensures |r| <= |s| && r == s[..|r|]
    ensures c !in r
    ensures |r| < |s| ==> s[|r|] == c
  {
    if s == [] || s[0] == c then [] else [s[0]] + Before(s[1..], c)
  }

  /** The name under which `upload_chunk` stores chunk `index`: `chunk_{index}.part`. */
  function ChunkName(index: int): (name: string)
    ensures StartsWith(name, ChunkPrefix) && EndsWith(name, ChunkSuffix)
  {
    ChunkPrefix + IntToString(index) + ChunkSuffix
  }

  /**
   * The index `status` and `complete` read off a directory entry: names that start with
   * `chunk_` and end with `.part` give `int(name.split("_")[1].split(".")[0])`, when that
   * parses; every other name gives nothing. The first `_` of such a name is the one in
   * `chunk_`, so `split("_")[1]` is the text after it up to the next `_`.
   */
  function ParseChunkName(name: string): (r: Option<int>)
    ensures r.Some? ==> StartsWith(name, ChunkPrefix) && EndsWith(name, ChunkSuffix)
  {
    if StartsWith(name, ChunkPrefix) && EndsWith(name, ChunkSuffix) then
      ParseInt(Before(Before(name[|ChunkPrefix|..], '_'), '.'))
    else None
  }

  /** Every name `upload_chunk` writes parses back to its index, negative indices included. */
  lemma ChunkNameRoundTrip(index: int)
    ensures ParseChunkName(ChunkName(index)) == Some(index)
  {
    var digits := IntToString(index);
    var name := ChunkName(index);
    var tail := name[|ChunkPrefix|..];
    assert tail == digits + ChunkSuffix;
    var field := Before(tail, '_');
    assert field == tail;
    var text := Before(field, '.');
    assert field[|digits|] == '.';
    assert text == digits;
    ParseIntRoundTrip(index);
  }

  /** Distinct indices are stored under distinct names. */
  lemma ChunkNameInjective(i: int, j: int)
    requires ChunkName(i) == ChunkName(j)
    ensures i == j
  {
    ChunkNameRoundTrip(i);
    ChunkNameRoundTrip(j);
  }

  /** The filename entry of a session directory is never taken for a chunk. */
  lemma MetaFileIsNotAChunk()
    ensures ParseChunkName(MetaFileName) == None
    ensures forall i :: ChunkName(i) != MetaFileName
  {
    assert !StartsWith(MetaFileName, ChunkPrefix) by {
      assert MetaFileName[0] != ChunkPrefix[0];
    }
  }
}

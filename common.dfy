/**
 * Value-level helpers shared by the model: the Option wrapper used for SQL
 * NULL and PHP's `??`, the PHP string functions the controllers call
 * (trim, strtoupper, str_pad, basename, str_contains / str_ends_with as
 * produced by Laravel's `*` globs), decimal rendering of integers, PHP
 * truthiness of strings, half-away-from-zero rounding, and a descending
 * sort used to state "newest first" orderings.
 */
module Common {

  /** SQL NULL / absent request key (None) or a present value (Some). */
  datatype Option<T> = None | Some(value: T) {
    /** PHP's `$x ?? default`. */
    function GetOr(default: T): T {
      if Some? then value else default
    }
  }

  // ---------------------------------------------------------------------
  // PHP truthiness and Laravel's "filled"
  // ---------------------------------------------------------------------

  /** A PHP string is falsy exactly when it is "" or "0". */
  predicate Truthy(s: string) {
    s != "" && s != "0"
  }

  /** The characters PHP's trim() strips: space, \t, \n, \r, NUL and \x0B. */
  predicate IsTrimChar(c: char) {
    c == ' ' || c == '\t' || c == '\n' || c == '\r' || c as int == 0 || c as int == 11
  }

  function TrimLeft(s: string): (r: string)
    ensures |r| <= |s| && r == s[|s| - |r|..]
    ensures r == [] || !IsTrimChar(r[0])
    ensures forall i :: 0 <= i < |s| - |r| ==> IsTrimChar(s[i])
  {
    if s != [] && IsTrimChar(s[0]) then TrimLeft(s[1..]) else s
  }

  function TrimRight(s: string): (r: string)
    ensures |r| <= |s| && r == s[..|r|]
    ensures r == [] || !IsTrimChar(r[|r| - 1])
    ensures forall i :: |r| <= i < |s| ==> IsTrimChar(s[i])
  {
    if s != [] && IsTrimChar(s[|s| - 1]) then TrimRight(s[..|s| - 1]) else s
  }

  /** PHP trim(): strips the trim characters from both ends. */
  function Trim(s: string): (r: string)
    ensures |r| <= |s|
    ensures r == [] || (!IsTrimChar(r[0]) && !IsTrimChar(r[|r| - 1]))
    ensures (forall i :: 0 <= i < |s| ==> IsTrimChar(s[i])) <==> r == []
  {
    var l := TrimLeft(s);
    var r := TrimRight(l);
    r
  }

  /** A string that starts and ends with a non-trim character is its own trim. */
  lemma TrimOfTrimmed(s: string)
    requires s == [] || (!IsTrimChar(s[0]) && !IsTrimChar(s[|s| - 1]))
    ensures Trim(s) == s
  {
  }

  /** Laravel's `filled` / `required` on a string: not blank after trimming. */
  predicate Filled(s: string) {
    Trim(s) != ""
  }

  // ---------------------------------------------------------------------
  // Case and padding
  // ---------------------------------------------------------------------

  /** PHP strtoupper() on one byte: only ASCII a-z change. */
  function UpperChar(c: char): (u: char)
    ensures !('a' <= u <= 'z')
    ensures !('a' <= c <= 'z') ==> u == c
  {
    if 'a' <= c <= 'z' then (c as int - 32) as char else c
  }

  function Upper(s: string): (r: string)
    ensures |r| == |s|
    ensures forall i :: 0 <= i < |s| ==> r[i] == UpperChar(s[i])
  {
    if s == [] then [] else [UpperChar(s[0])] + Upper(s[1..])
  }

  function Repeat(c: char, n: nat): (r: string)
    ensures |r| == n
    ensures forall i :: 0 <= i < n ==> r[i] == c
  {
    if n == 0 then [] else [c] + Repeat(c, n - 1)
  }

  /** PHP str_pad($s, $width, $pad, STR_PAD_LEFT) with a one-character pad. */
  function PadLeft(s: string, width: nat, pad: char): (r: string)
    ensures |r| == if |s| >= width then |s| else width
    ensures r[|r| - |s|..] == s
    ensures forall i :: 0 <= i < |r| - |s| ==> r[i] == pad
  {
    if |s| >= width then s else Repeat(pad, width - |s|) + s
  }

  // ---------------------------------------------------------------------
  // Decimal rendering of natural numbers (PHP string interpolation of ints)
  // ---------------------------------------------------------------------

  predicate IsDigit(c: char) {
    '0' <= c <= '9'
  }

  function DigitChar(d: nat): (c: char)
    requires d < 10
    ensures IsDigit(c)
  {
    ('0' as int + d) as char
  }

  function NatToString(n: nat): (r: string)
    ensures |r| >= 1
    ensures forall i :: 0 <= i < |r| ==> IsDigit(r[i])
  {
    if n < 10 then [DigitChar(n)] else NatToString(n / 10) + [DigitChar(n % 10)]
  }

  /** The decimal value of a string of digits (leading zeros allowed). */
  function DigitsValue(s: string): nat
    requires forall i :: 0 <= i < |s| ==> IsDigit(s[i])
  {
    if s == [] then 0
    else
      assert IsDigit(s[|s| - 1]);
      DigitsValue(s[..|s| - 1]) * 10 + (s[|s| - 1] as int - '0' as int)
  }

  /** Rendering then reading back a number gives the number. */
  lemma {:induction false} NatToStringValue(n: nat)
    ensures DigitsValue(NatToString(n)) == n
  {
    if n >= 10 {
      var s := NatToString(n);
      assert s[..|s| - 1] == NatToString(n / 10);
      NatToStringValue(n / 10);
    }
  }

  /** Distinct numbers render to distinct strings. */
  lemma NatToStringInjective(a: nat, b: nat)
    requires NatToString(a) == NatToString(b)
    ensures a == b
  {
    NatToStringValue(a);
    NatToStringValue(b);
  }

  /** Left zero padding does not change the decimal value. */
  lemma {:induction false} ZeroPadValue(s: string, width: nat)
    requires forall i :: 0 <= i < |s| ==> IsDigit(s[i])
    ensures forall i :: 0 <= i < |PadLeft(s, width, '0')| ==> IsDigit(PadLeft(s, width, '0')[i])
    ensures DigitsValue(PadLeft(s, width, '0')) == DigitsValue(s)
  {
    if |s| < width {
      ZeroPrefixValue(width - |s|, s);
    }
  }

  lemma {:induction false} ZeroPrefixValue(k: nat, s: string)
    requires forall i :: 0 <= i < |s| ==> IsDigit(s[i])
    ensures forall i :: 0 <= i < |Repeat('0', k) + s| ==> IsDigit((Repeat('0', k) + s)[i])
    ensures DigitsValue(Repeat('0', k) + s) == DigitsValue(s)
  {
    var t := Repeat('0', k) + s;
    if s == [] {
      assert t == Repeat('0', k);
      AllZerosValue(k);
    } else {
      assert t[..|t| - 1] == Repeat('0', k) + s[..|s| - 1];
      ZeroPrefixValue(k, s[..|s| - 1]);
    }
  }

  lemma {:induction false} AllZerosValue(k: nat)
    ensures DigitsValue(Repeat('0', k)) == 0
  {
    if k > 0 {
      var z := Repeat('0', k);
      assert z[..k - 1] == Repeat('0', k - 1);
      AllZerosValue(k - 1);
    }
  }

  // ---------------------------------------------------------------------
  // Substring tests (Laravel `is()` globs with one leading `*`)
  // ---------------------------------------------------------------------

  predicate EndsWith(s: string, suffix: string) {
    |suffix| <= |s| && s[|s| - |suffix|..] == suffix
  }

  /** `sub` occurs in `s` starting at position i. */
  predicate OccursAt(s: string, sub: string, i: int) {
    0 <= i <= |s| - |sub| && s[i..i + |sub|] == sub
  }

  predicate Contains(s: string, sub: string) {
    exists i | 0 <= i <= |s| - |sub| :: OccursAt(s, sub, i)
  }

  /** A string that ends with `x + y` contains `x`. */
  lemma EndsWithContainsPrefix(s: string, x: string, y: string)
    requires EndsWith(s, x + y)
    ensures Contains(s, x)
  {
    var i := |s| - |x + y|;
    assert s[i..i + |x|] == (x + y)[..|x|] == x;
    assert OccursAt(s, x, i);
  }

  // ---------------------------------------------------------------------
  // PHP basename()
  // ---------------------------------------------------------------------

  function StripTrailingSlashes(s: string): (r: string)
    ensures r == [] || r[|r| - 1] != '/'
  {
    if s != [] && s[|s| - 1] == '/' then StripTrailingSlashes(s[..|s| - 1]) else s
  }

  /** The part of `s` after its last '/', or all of `s` when it has none. */
  function AfterLastSlash(s: string): (r: string)
    ensures '/' !in r
  {
    if s == [] then []
    else if s[|s| - 1] == '/' then []
    else AfterLastSlash(s[..|s| - 1]) + [s[|s| - 1]]
  }

  /** A path without a slash is its own last component. */
  lemma {:induction false} AfterLastSlashWhole(s: string)
    requires '/' !in s
    ensures AfterLastSlash(s) == s
  {
    if s != [] {
      var init := s[..|s| - 1];
      assert '/' !in init by {
        forall i | 0 <= i < |init| ensures init[i] != '/' {
          assert init[i] == s[i];
        }
      }
      AfterLastSlashWhole(init);
      assert s[|s| - 1] in s;
      assert init + [s[|s| - 1]] == s;
    }
  }

  /** PHP basename(): trailing slashes are ignored, then the last path component. */
  function Basename(path: string): string {
    AfterLastSlash(StripTrailingSlashes(path))
  }

  /** A basename holds no slash, and reducing to the basename twice is the same as once. */
  lemma BasenameIdempotent(path: string)
    ensures '/' !in Basename(path)
    ensures Basename(Basename(path)) == Basename(path)
  {
    var b := Basename(path);
    assert StripTrailingSlashes(b) == b by {
      assert b == [] || b[|b| - 1] != '/' by {
        if b != [] { assert b[|b| - 1] in b; }
      }
    }
    AfterLastSlashWhole(b);
  }

  // ---------------------------------------------------------------------
  // Rounding (PHP round(), half away from zero)
  // ---------------------------------------------------------------------

  /** round(n / d) with halves rounded away from zero, for a positive divisor. */
  function RoundDiv(n: int, d: int): (r: int)
    requires d > 0
    ensures n >= 0 ==> 2 * n - d <= 2 * r * d <= 2 * n + d
    ensures n >= 0 ==> r >= 0
  {
    if n >= 0 then (2 * n + d) / (2 * d) else -((2 * -n + d) / (2 * d))
  }

  // ---------------------------------------------------------------------
  // Newest-first ordering (ORDER BY created_at DESC)
  // ---------------------------------------------------------------------

  ghost predicate SortedDesc<T>(s: seq<T>, key: T -> int) {
    forall i, j :: 0 <= i < j < |s| ==> key(s[i]) >= key(s[j])
  }

  /** Inserts x before the first element whose key is not larger. */
  function InsertDesc<T>(x: T, s: seq<T>, key: T -> int): (r: seq<T>)
    ensures multiset(r) == multiset(s) + multiset{x}
  {
    if s == [] || key(x) >= key(s[0]) then [x] + s
    else
      assert s == [s[0]] + s[1..];
      [s[0]] + InsertDesc(x, s[1..], key)
  }

  lemma {:induction false} InsertDescSorted<T>(x: T, s: seq<T>, key: T -> int)
    requires SortedDesc(s, key)
    ensures SortedDesc(InsertDesc(x, s, key), key)
    ensures InsertDesc(x, s, key)[0] == x || InsertDesc(x, s, key)[0] == s[0]
  {
    if s != [] && key(x) < key(s[0]) {
      var rest := InsertDesc(x, s[1..], key);
      InsertDescSorted(x, s[1..], key);
      var r := [s[0]] + rest;
      forall i, j | 0 <= i < j < |r| ensures key(r[i]) >= key(r[j]) {
        if i == 0 {
          assert key(s[0]) >= key(rest[0]);
          assert key(rest[0]) >= key(rest[j - 1]) || j == 1;
        } else {
          assert r[i] == rest[i - 1] && r[j] == rest[j - 1];
        }
      }
    }
  }

  /** The rows of `s`, newest (largest key) first: a sorted permutation. */
  function SortDesc<T>(s: seq<T>, key: T -> int): (r: seq<T>)
    ensures multiset(r) == multiset(s)
  {
    if s == [] then []
    else
      assert s == [s[0]] + s[1..];
      InsertDesc(s[0], SortDesc(s[1..], key), key)
  }

  lemma {:induction false} SortDescSorted<T>(s: seq<T>, key: T -> int)
    ensures SortedDesc(SortDesc(s, key), key)
  {
    if s != [] {
      SortDescSorted(s[1..], key);
      InsertDescSorted(s[0], SortDesc(s[1..], key), key);
    }
  }

  // ---------------------------------------------------------------------
  // Reading a table: `scan` is the order in which the database hands the
  // rows of a keyed table over, each id once
  // ---------------------------------------------------------------------

  predicate IsScan<T(!new)>(table: map<nat, T>, scan: seq<nat>) {
    && (forall i :: 0 <= i < |scan| ==> scan[i] in table)
    && (forall id :: id in table ==> id in scan)
    && (forall i, j :: 0 <= i < j < |scan| ==> scan[i] != scan[j])
  }

  /** The rows the scan meets that satisfy `keep` (a WHERE clause), in scan order. */
  function Select<T(!new)>(table: map<nat, T>, scan: seq<nat>, keep: T -> bool): (r: seq<T>)
    requires forall i :: 0 <= i < |scan| ==> scan[i] in table
    ensures forall x :: x in r <==> exists i :: 0 <= i < |scan| && table[scan[i]] == x && keep(x)
  {
    if scan == [] then []
    else
      var rest := Select(table, scan[1..], keep);
      assert forall x :: (exists i :: 0 <= i < |scan[1..]| && table[scan[1..][i]] == x && keep(x)) <==>
        (exists i :: 1 <= i < |scan| && table[scan[i]] == x && keep(x)) by {
        forall x ensures (exists i :: 0 <= i < |scan[1..]| && table[scan[1..][i]] == x && keep(x)) <==>
          (exists i :: 1 <= i < |scan| && table[scan[i]] == x && keep(x)) {
          if exists i :: 1 <= i < |scan| && table[scan[i]] == x && keep(x) {
            var i :| 1 <= i < |scan| && table[scan[i]] == x && keep(x);
            assert scan[1..][i - 1] == scan[i];
          }
        }
      }
      (if keep(table[scan[0]]) then [table[scan[0]]] else []) + rest
  }

  /** `WHERE keep ORDER BY key DESC`: exactly the matching rows, largest key first. */
  function NewestFirst<T(==,!new)>(table: map<nat, T>, scan: seq<nat>, keep: T -> bool, key: T -> int): (r: seq<T>)
    requires IsScan(table, scan)
    ensures forall x :: x in r <==> x in table.Values && keep(x)
    ensures SortedDesc(r, key)
  {
    var rows := Select(table, scan, keep);
    assert forall x :: x in table.Values && keep(x) ==> x in rows by {
      forall x | x in table.Values && keep(x) ensures x in rows {
        var id :| id in table && table[id] == x;
        var i :| 0 <= i < |scan| && scan[i] == id;
      }
    }
    var r := SortDesc(rows, key);
    SortDescSorted(rows, key);
    assert forall x :: x in r <==> x in multiset(r);
    assert forall x :: x in rows <==> x in multiset(rows);
    r
  }
}

/**
 * Character and string rules the recorder applies to device names and key
 * names: lower-casing, substring search, the alphanumeric test and the
 * "safe name" used to build export file names.
 */
module Text {

  /** Lower-cases one character (ASCII letters only). */
  function LowerChar(c: char): (l: char)
    ensures 'A' <= c <= 'Z' ==> 'a' <= l <= 'z' && l as int == c as int + 32
    ensures !('A' <= c <= 'Z') ==> l == c
  {
    if 'A' <= c <= 'Z' then (c as int + 32) as char else c
  }

  /** `s.lower()`: every character lower-cased, length kept. */
  function Lower(s: string): (r: string)
    ensures |r| == |s|
    ensures forall i :: 0 <= i < |s| ==> r[i] == LowerChar(s[i])
  {
    seq(|s|, i requires 0 <= i < |s| => LowerChar(s[i]))
  }

  /** `part in s` for strings: `part` occurs somewhere in `s`. */
  predicate Contains(s: string, part: string)
  {
    part <= s || (s != [] && Contains(s[1..], part))
  }

  /** An occurrence at offset `i` is found by the recursive search. */
  lemma {:induction false} ContainsFrom(s: string, part: string, i: nat)
    requires i <= |s| && part <= s[i..]
    ensures Contains(s, part)
    decreases i
  {
    if i == 0 {
      assert s[0..] == s;
    } else {
      assert s[1..][i - 1..] == s[i..];
      ContainsFrom(s[1..], part, i - 1);
    }
  }

  /** Whatever the recursive search finds is an occurrence at some offset. */
  lemma {:induction false} ContainsWitness(s: string, part: string) returns (i: nat)
    requires Contains(s, part)
    ensures i <= |s| - |part| && part <= s[i..]
  {
    if part <= s {
      i := 0;
    } else {
      var j := ContainsWitness(s[1..], part);
      i := j + 1;
      assert s[1..][j..] == s[i..];
    }
  }

  /** The recursive search finds exactly the occurrences at some offset. */
  lemma ContainsAt(s: string, part: string)
    ensures Contains(s, part) <==> exists i :: 0 <= i <= |s| - |part| && part <= s[i..]
  {
    if Contains(s, part) {
      var i := ContainsWitness(s, part);
    }
    if exists i :: 0 <= i <= |s| - |part| && part <= s[i..] {
      var i :| 0 <= i <= |s| - |part| && part <= s[i..];
      ContainsFrom(s, part, i);
    }
  }

  /** `c.isalnum()` restricted to ASCII: a decimal digit or a Latin letter. */
  predicate IsAlnum(c: char)
  {
    ('0' <= c <= '9') || ('a' <= c <= 'z') || ('A' <= c <= 'Z')
  }

  /** The file-name-safe replacement of one character. */
  function SafeChar(c: char): char
  {
    if IsAlnum(c) then c else '_'
  }

  /**
   * `"".join(c if c.isalnum() else "_" for c in name)`: same length as the name,
   * alphanumeric characters kept in place, every other character becomes `_`.
   */
  function SafeName(name: string): (safe: string)
    ensures |safe| == |name|
    ensures forall i :: 0 <= i < |name| && IsAlnum(name[i]) ==> safe[i] == name[i]
    ensures forall i :: 0 <= i < |name| && !IsAlnum(name[i]) ==> safe[i] == '_'
  {
    if name == [] then [] else [SafeChar(name[0])] + SafeName(name[1..])
  }

  /** A name made only of alphanumerics and underscores. */
  predicate IsSafe(s: string)
  {
    forall i :: 0 <= i < |s| ==> IsAlnum(s[i]) || s[i] == '_'
  }

  /** A safe name is safe, and a name that is already safe is left as it is. */
  lemma SafeNameIsFixpoint(name: string)
    ensures IsSafe(SafeName(name))
    ensures SafeName(SafeName(name)) == SafeName(name)
    ensures IsSafe(name) <==> SafeName(name) == name
  {
    var s := SafeName(name);
    assert forall i :: 0 <= i < |s| ==> SafeName(s)[i] == s[i];
    if !IsSafe(name) {
      var i :| 0 <= i < |name| && !(IsAlnum(name[i]) || name[i] == '_');
      assert s[i] != name[i];
    }
  }

  /**
   * Two device names that differ only in non-alphanumeric characters get the
   * same safe name (e.g. "Line 1" and "Line-1").
   */
  lemma SafeNameMerges(a: string, b: string)
    requires |a| == |b|
    requires forall i :: 0 <= i < |a| ==> a[i] == b[i] || (!IsAlnum(a[i]) && !IsAlnum(b[i]))
    ensures SafeName(a) == SafeName(b)
  {
    assert forall i :: 0 <= i < |a| ==> SafeName(a)[i] == SafeName(b)[i];
  }
}

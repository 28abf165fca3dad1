/**
 * The few PHP built-ins and language rules that the plugin's decisions rest on:
 * `null`, truthiness of a string, `join`, `strpos` and `strtolower`.
 * Strings are Dafny strings (sequences of characters); PHP byte strings are
 * treated character by character.
 */
module Php {

  /** PHP `null` next to a present value. */
  datatype Option<+T> = None | Some(value: T)

  /** PHP truthiness of a string: everything except "" and "0" is true. */
  predicate Truthy(s: string) {
    s != "" && s != "0"
  }

  /** Truthiness of a string that may be `null`; `null` is falsy. */
  predicate TruthyOrNull(o: Option<string>) {
    o.Some? && Truthy(o.value)
  }

  /** PHP `join(sep, parts)`: the parts with `sep` between neighbours. */
  function Join(sep: string, parts: seq<string>): string
    decreases |parts|
  {
    if |parts| == 0 then ""
    else if |parts| == 1 then parts[0]
    else parts[0] + sep + Join(sep, parts[1..])
  }

  /**
   * Cuts `s` at every occurrence of `sep` (PHP `explode` on a one-character
   * delimiter). It is the inverse of `Join` for parts free of `sep`.
   */
  function Split(s: string, sep: char): (pieces: seq<string>)
    ensures |pieces| >= 1
    ensures forall i :: 0 <= i < |pieces| ==> sep !in pieces[i]
    decreases |s|
  {
    if |s| == 0 then [""]
    else if s[0] == sep then [""] + Split(s[1..], sep)
    else
      var rest := Split(s[1..], sep);
      [[s[0]] + rest[0]] + rest[1..]
  }

  lemma {:induction false} SplitWithoutSeparator(s: string, sep: char)
    requires sep !in s
    ensures Split(s, sep) == [s]
    decreases |s|
  {
    if |s| > 0 {
      SplitWithoutSeparator(s[1..], sep);
      assert [s[0]] + s[1..] == s;
    }
  }

  lemma {:induction false} SplitAfterPiece(piece: string, sep: char, rest: string)
    requires sep !in piece
    ensures Split(piece + [sep] + rest, sep) == [piece] + Split(rest, sep)
    decreases |piece|
  {
    var s := piece + [sep] + rest;
    if |piece| == 0 {
      assert s[1..] == rest;
    } else {
      assert s[0] == piece[0];
      assert s[1..] == piece[1..] + [sep] + rest;
      SplitAfterPiece(piece[1..], sep, rest);
      assert [piece[0]] + piece[1..] == piece;
    }
  }

  /** Splitting a joined name at the separator gives back its parts. */
  lemma {:induction false} SplitJoin(parts: seq<string>, sep: char)
    requires |parts| >= 1
    requires forall i :: 0 <= i < |parts| ==> sep !in parts[i]
    ensures Split(Join([sep], parts), sep) == parts
    decreases |parts|
  {
    if |parts| == 1 {
      SplitWithoutSeparator(parts[0], sep);
    } else {
      SplitAfterPiece(parts[0], sep, Join([sep], parts[1..]));
      SplitJoin(parts[1..], sep);
      assert [parts[0]] + parts[1..] == parts;
    }
  }

  /** `needle` occurs in `haystack` starting at offset `k`. */
  predicate OccursAt(haystack: string, needle: string, k: nat) {
    k + |needle| <= |haystack| && haystack[k..k + |needle|] == needle
  }

  lemma OccursAtShift(haystack: string, needle: string, k: nat)
    requires |haystack| > 0
    ensures OccursAt(haystack, needle, k + 1) <==> OccursAt(haystack[1..], needle, k)
  {
    if k + 1 + |needle| <= |haystack| {
      assert haystack[1..][k..k + |needle|] == haystack[k + 1..k + 1 + |needle|];
    }
  }

  /**
   * PHP `strpos(haystack, needle)`: the first offset at which `needle`
   * occurs, or `None` for PHP's `false`. An empty needle occurs at 0
   * (PHP 8 semantics).
   */
  function StrPos(haystack: string, needle: string): (r: Option<nat>)
    ensures r.Some? ==> OccursAt(haystack, needle, r.value)
    ensures r.Some? ==> forall k: nat :: k < r.value ==> !OccursAt(haystack, needle, k)
    ensures r.None? ==> forall k: nat :: !OccursAt(haystack, needle, k)
    decreases |haystack|
  {
    if needle <= haystack then
      Some(0)
    else if |haystack| == 0 then
      None
    else
      var rest := StrPos(haystack[1..], needle);
      assert forall k: nat :: 0 < k ==> (OccursAt(haystack, needle, k) <==> OccursAt(haystack[1..], needle, k - 1)) by {
        forall k: nat | 0 < k ensures OccursAt(haystack, needle, k) <==> OccursAt(haystack[1..], needle, k - 1) {
          OccursAtShift(haystack, needle, k - 1);
        }
      }
      assert !OccursAt(haystack, needle, 0);
      if rest.None? then None else Some(rest.value + 1)
  }

  /** PHP `strtolower` on one character: ASCII letters only. */
  function LowerChar(c: char): char {
    if 'A' <= c <= 'Z' then (c as int + 32) as char else c
  }

  /** PHP `strtolower`: folds ASCII upper-case letters, leaves the rest alone. */
  function ToLower(s: string): (r: string)
    ensures |r| == |s|
    ensures forall i :: 0 <= i < |s| ==> r[i] == LowerChar(s[i])
    ensures forall i :: 0 <= i < |r| ==> !('A' <= r[i] <= 'Z')
    decreases |s|
  {
    if |s| == 0 then "" else [LowerChar(s[0])] + ToLower(s[1..])
  }
}

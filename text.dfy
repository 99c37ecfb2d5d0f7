/** String helpers with the semantics of the PHP and JavaScript built-ins they stand for. */
module Text {

  predicate StartsWith(s: string, prefix: string) {
    |prefix| <= |s| && s[..|prefix|] == prefix
  }

  /** `implode(sep, parts)` / `parts.join(sep)`. */
  function Join(sep: string, parts: seq<string>): string {
    if parts == [] then ""
    else if |parts| == 1 then parts[0]
    else parts[0] + sep + Join(sep, parts[1..])
  }

  /** Splits `s` at every occurrence of the character `c` (`s.split(c)`). */
  function Split(s: string, c: char): (r: seq<string>)
    ensures |r| > 0
  {
    if c !in s then [s]
    else
      var i := IndexOf(s, c);
      [s[..i]] + Split(s[i + 1..], c)
  }

  function IndexOf(s: string, c: char): (i: nat)
    requires c in s
    ensures i < |s| && s[i] == c && c !in s[..i]
  {
    if s[0] == c then 0 else 1 + IndexOf(s[1..], c)
  }

  /** Splitting a join at the separator gives the parts back, when no part holds it. */
  lemma {:induction false} SplitJoin(parts: seq<string>, c: char)
    requires |parts| > 0
    requires forall p :: p in parts ==> c !in p
    ensures Split(Join([c], parts), c) == parts
  {
    var head := parts[0];
    if |parts| == 1 {
      assert Join([c], parts) == head;
    } else {
      var tail := parts[1..];
      var rest := Join([c], tail);
      var s := head + [c] + rest;
      assert Join([c], parts) == s;
      assert Split(s, c) == [head] + Split(rest, c) by {
        assert head in parts;
        IndexOfAfter(head, c, rest);
        assert s[..|head|] == head && s[|head| + 1..] == rest;
      }
      assert Split(rest, c) == tail by {
        assert forall p :: p in tail ==> p in parts;
        SplitJoin(tail, c);
      }
      assert parts == [head] + tail;
    }
  }

  /** The first `c` of `a + [c] + b` is the one after `a`, when `a` holds none. */
  lemma IndexOfAfter(a: string, c: char, b: string)
    requires c !in a
    ensures c in a + [c] + b && IndexOf(a + [c] + b, c) == |a|
  {
    var s := a + [c] + b;
    assert s[|a|] == c;
  }

  /**
   * PHP's `str_replace(search, repl, s)`: every non-overlapping occurrence of
   * `search`, scanning from the left, is replaced; an empty `search` leaves
   * `s` as it is.
   */
  function ReplaceAll(s: string, search: string, repl: string): string
    decreases |s|
  {
    if search == [] || |s| < |search| then s
    else if StartsWith(s, search) then repl + ReplaceAll(s[|search|..], search, repl)
    else [s[0]] + ReplaceAll(s[1..], search, repl)
  }

  /** Replacing a character by a string without it leaves none of that character. */
  lemma {:induction false} ReplaceCharRemovesIt(s: string, c: char, repl: string)
    requires c !in repl
    ensures c !in ReplaceAll(s, [c], repl)
  {
    if |s| >= 1 {
      ReplaceCharRemovesIt(s[1..], c, repl);
      if !StartsWith(s, [c]) {
        assert s[0] != c;
      }
    }
  }

  /** When `s` starts with `p`, str_replace removes that prefix and every later occurrence too. */
  lemma ReplaceAllAtPrefix(s: string, p: string)
    requires p != [] && StartsWith(s, p)
    ensures ReplaceAll(s, p, "") == ReplaceAll(s[|p|..], p, "")
  {
  }

  /** PHP's `strtolower` (ASCII only since PHP 8.2). */
  function AsciiLower(s: string): (r: string)
    ensures |r| == |s|
    ensures forall i :: 0 <= i < |s| ==> r[i] == LowerChar(s[i])
  {
    if s == [] then [] else [LowerChar(s[0])] + AsciiLower(s[1..])
  }

  function LowerChar(c: char): char {
    if 'A' <= c <= 'Z' then (c as int + 32) as char else c
  }

  function DigitChar(d: nat): char
    requires d < 10
  {
    "0123456789"[d]
  }

  /** The decimal representation of a natural number. */
  function NatToDecimal(n: nat): (r: string)
    ensures |r| > 0
    ensures forall i :: 0 <= i < |r| ==> '0' <= r[i] <= '9'
    decreases n
  {
    if n < 10 then [DigitChar(n)] else NatToDecimal(n / 10) + [DigitChar(n % 10)]
  }

  /** The decimal representation of an integer, with a leading '-' when negative. */
  function IntToDecimal(n: int): string {
    if n < 0 then "-" + NatToDecimal(-n) else NatToDecimal(n)
  }
}

/** String primitives of the JavaScript runtime that the pipeline relies on:
    `String.prototype.trim`, `toLowerCase`, `includes`, `split` on a one-character
    separator and `Array.prototype.join` with a one-character separator. */
module Text {

  /** The characters `trim` removes: ECMAScript WhiteSpace (tab, vertical tab, form feed,
      the byte-order mark and every character of Unicode category Zs) and
      LineTerminator (line feed, carriage return, line and paragraph separators). */
  predicate IsSpace(c: char) {
    c == '\t' || c == '\n' || c == '\U{000B}' || c == '\U{000C}' || c == '\r' || c == ' '
    || c == '\U{00A0}' || c == '\U{1680}' || ('\U{2000}' <= c <= '\U{200A}')
    || c == '\U{2028}' || c == '\U{2029}' || c == '\U{202F}' || c == '\U{205F}'
    || c == '\U{3000}' || c == '\U{FEFF}'
  }

  /** True when `s` neither starts nor ends with a space character. */
  predicate IsTrimmed(s: string) {
    s == [] || (!IsSpace(s[0]) && !IsSpace(s[|s| - 1]))
  }

  function TrimStart(s: string): (r: string)
    ensures |r| <= |s| && r == s[|s| - |r|..]
    ensures forall k :: 0 <= k < |s| - |r| ==> IsSpace(s[k])
    ensures r == [] || !IsSpace(r[0])
  {
    if |s| > 0 && IsSpace(s[0]) then TrimStart(s[1..]) else s
  }

  function TrimEnd(s: string): (r: string)
    ensures |r| <= |s| && r == s[..|r|]
    ensures forall k :: |r| <= k < |s| ==> IsSpace(s[k])
    ensures r == [] || !IsSpace(r[|r| - 1])
  {
    if |s| > 0 && IsSpace(s[|s| - 1]) then TrimEnd(s[..|s| - 1]) else s
  }

  /** `s.trim()`: the longest slice of `s` that neither starts nor ends with a space;
      everything cut off on either side is space. */
  function Trim(s: string): (r: string)
    ensures IsTrimmed(r)
    ensures IsTrimmed(s) ==> r == s
    ensures TrimOf(s, r)
  {
    var t := TrimStart(s);
    var r := TrimEnd(t);
    var a, b := |s| - |t|, |s| - |t| + |r|;
    TrimShape(s, t, r);
    assert TrimCut(s, a, b) && r == s[a..b];
    r
  }

  /** `r` is `s` with some space characters cut off on either side. */
  ghost predicate TrimOf(s: string, r: string) {
    exists a, b :: TrimCut(s, a, b) && r == s[a..b]
  }

  /** Cutting `s` to `s[a..b]` removes only space characters on either side. */
  predicate TrimCut(s: string, a: int, b: int) {
    && 0 <= a <= b <= |s|
    && (forall k :: 0 <= k < a ==> IsSpace(s[k]))
    && (forall k :: b <= k < |s| ==> IsSpace(s[k]))
  }

  /** What `TrimStart` then `TrimEnd` leave: a trimmed slice of `s` with only spaces cut
      off, and `s` itself when it was already trimmed. */
  lemma TrimShape(s: string, t: string, r: string)
    requires |t| <= |s| && t == s[|s| - |t|..] && forall k :: 0 <= k < |s| - |t| ==> IsSpace(s[k])
    requires t == [] || !IsSpace(t[0])
    requires |r| <= |t| && r == t[..|r|] && forall k :: |r| <= k < |t| ==> IsSpace(t[k])
    requires r == [] || !IsSpace(r[|r| - 1])
    ensures IsTrimmed(r)
    ensures IsTrimmed(s) ==> r == s
    ensures TrimCut(s, |s| - |t|, |s| - |t| + |r|) && r == s[|s| - |t|..|s| - |t| + |r|]
  {
    var a := |s| - |t|;
    assert r != [] ==> r[0] == t[0];
    forall k | a + |r| <= k < |s|
      ensures IsSpace(s[k])
    {
      assert s[k] == t[k - a];
    }
    if IsTrimmed(s) && s != [] {
      assert a == 0;
      assert t == s;
    }
  }

  /** A string of spaces trims to the empty string. */
  lemma TrimBlank(s: string)
    requires forall i :: 0 <= i < |s| ==> IsSpace(s[i])
    ensures Trim(s) == ""
  {
  }

  lemma TrimIdempotent(s: string)
    ensures Trim(Trim(s)) == Trim(s)
  {
  }

  /** The case mapping modelled for `toLowerCase`: ASCII capitals and the Latin-1
      capitals U+00C0..U+00DE except the multiplication sign. */
  function LowerChar(c: char): (d: char)
    ensures IsSpace(d) <==> IsSpace(c)
  {
    if 'A' <= c <= 'Z' || ('\U{00C0}' <= c <= '\U{00DE}' && c != '\U{00D7}')
    then (c as int + 32) as char
    else c
  }

  /** `s.toLowerCase()`. */
  function Lower(s: string): (r: string)
    ensures |r| == |s|
    ensures forall i :: 0 <= i < |s| ==> r[i] == LowerChar(s[i])
  {
    seq(|s|, i requires 0 <= i < |s| => LowerChar(s[i]))
  }

  lemma LowerIdempotent(s: string)
    ensures Lower(Lower(s)) == Lower(s)
  {
  }

  /** Lower-casing never creates nor removes a space, so it keeps a trimmed string trimmed. */
  lemma LowerKeepsTrimmed(s: string)
    requires IsTrimmed(s)
    ensures IsTrimmed(Lower(s))
  {
  }

  /** `sub` occurs in `s` starting at index `i`. */
  predicate OccursAt(s: string, sub: string, i: int) {
    0 <= i <= |s| - |sub| && s[i..i + |sub|] == sub
  }

  /** `s.includes(sub)`: some position of `s` starts an occurrence of `sub`. */
  function Contains(s: string, sub: string): (b: bool)
    ensures b <==> exists i :: OccursAt(s, sub, i)
  {
    if |s| < |sub| then false
    else if s[..|sub|] == sub then assert OccursAt(s, sub, 0); true
    else
      var b := Contains(s[1..], sub);
      assert b ==> exists i :: OccursAt(s, sub, i) by {
        if b {
          var i :| OccursAt(s[1..], sub, i);
          assert s[i + 1..i + 1 + |sub|] == s[1..][i..i + |sub|];
          assert OccursAt(s, sub, i + 1);
        }
      }
      assert (exists i :: OccursAt(s, sub, i)) ==> b by {
        if i :| OccursAt(s, sub, i) {
          assert i != 0;
          assert s[1..][i - 1..i - 1 + |sub|] == s[i..i + |sub|];
          assert OccursAt(s[1..], sub, i - 1);
        }
      }
      b
  }

  /** `s.split(sep)` for a one-character separator: the pieces between separators, in
      order, never fewer than one (the empty string splits into `[""]`). */
  function Split(s: string, sep: char): (parts: seq<string>)
    ensures |parts| >= 1
    ensures forall i :: 0 <= i < |parts| ==> sep !in parts[i]
  {
    if s == [] then [""]
    else
      var rest := Split(s[1..], sep);
      if s[0] == sep then [""] + rest
      else [[s[0]] + rest[0]] + rest[1..]
  }

  /** `parts.join(sep)`; the empty array joins to the empty string. */
  function Join(parts: seq<string>, sep: char): string
  {
    if |parts| == 0 then ""
    else if |parts| == 1 then parts[0]
    else parts[0] + [sep] + Join(parts[1..], sep)
  }

  /** Joining the pieces of a split gives the original text back. */
  lemma {:induction false} JoinSplit(s: string, sep: char)
    ensures Join(Split(s, sep), sep) == s
  {
    if s != [] {
      var rest := Split(s[1..], sep);
      JoinSplit(s[1..], sep);
      if s[0] == sep {
        assert Split(s, sep) == [""] + rest;
      } else {
        assert Split(s, sep) == [[s[0]] + rest[0]] + rest[1..];
        if |rest| > 1 {
          assert Join(rest, sep) == rest[0] + [sep] + Join(rest[1..], sep);
        }
      }
    }
  }

  /** A piece free of the separator, followed by the separator, splits off as one piece. */
  lemma {:induction false} SplitAfterPiece(x: string, sep: char, y: string)
    requires sep !in x
    ensures Split(x + [sep] + y, sep) == [x] + Split(y, sep)
  {
    if x == [] {
      assert x + [sep] + y == [sep] + y;
      assert ([sep] + y)[1..] == y;
    } else {
      assert (x + [sep] + y)[1..] == x[1..] + [sep] + y;
      SplitAfterPiece(x[1..], sep, y);
      assert [x[0]] + x[1..] == x;
    }
  }

  /** A piece free of the separator splits into itself. */
  lemma {:induction false} SplitPlain(x: string, sep: char)
    requires sep !in x
    ensures Split(x, sep) == [x]
  {
    if x != [] {
      SplitPlain(x[1..], sep);
      assert [x[0]] + x[1..] == x;
    }
  }

  /** Splitting a join of separator-free pieces gives the pieces back. */
  lemma {:induction false} SplitJoin(parts: seq<string>, sep: char)
    requires |parts| >= 1
    requires forall i :: 0 <= i < |parts| ==> sep !in parts[i]
    ensures Split(Join(parts, sep), sep) == parts
  {
    if |parts| == 1 {
      SplitPlain(parts[0], sep);
    } else {
      SplitJoin(parts[1..], sep);
      SplitAfterPiece(parts[0], sep, Join(parts[1..], sep));
      assert [parts[0]] + parts[1..] == parts;
    }
  }

  /** A join of pieces that avoid a character avoids it too when the separator differs. */
  lemma {:induction false} JoinAvoids(parts: seq<string>, sep: char, c: char)
    requires c != sep
    requires forall i :: 0 <= i < |parts| ==> c !in parts[i]
    ensures c !in Join(parts, sep)
  {
    if |parts| > 1 {
      JoinAvoids(parts[1..], sep, c);
    }
  }
}

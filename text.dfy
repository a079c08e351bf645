/**
 * The string library functions the pages call: `trim`, `toLowerCase`,
 * `toUpperCase`, `includes` and `split` with a one-character separator.
 * Strings are sequences of code points.
 */
module Text {

  /** ECMAScript WhiteSpace and LineTerminator code points: what `String.prototype.trim` removes. */
  predicate IsWhitespace(c: char)
  {
    c == '\t' || c == '\U{000B}' || c == '\U{000C}' || c == ' ' || c == '\U{00A0}' ||
    c == '\U{1680}' || ('\U{2000}' <= c <= '\U{200A}') || c == '\U{202F}' ||
    c == '\U{205F}' || c == '\U{3000}' || c == '\U{FEFF}' ||
    c == '\n' || c == '\r' || c == '\U{2028}' || c == '\U{2029}'
  }

  predicate AllWhitespace(s: string)
  {
    forall i :: 0 <= i < |s| ==> IsWhitespace(s[i])
  }

  /** Neither end of `s` is whitespace: what `trim` leaves behind. */
  predicate IsTrimmed(s: string)
  {
    s == [] || (!IsWhitespace(s[0]) && !IsWhitespace(s[|s| - 1]))
  }

  /** Where the leading whitespace of `s` ends, searching from `i`. */
  function LeadingEnd(s: string, i: nat): (n: nat)
    requires i <= |s|
    requires forall k :: 0 <= k < i ==> IsWhitespace(s[k])
    ensures i <= n <= |s|
    ensures forall k :: 0 <= k < n ==> IsWhitespace(s[k])
    ensures n < |s| ==> !IsWhitespace(s[n])
    decreases |s| - i
  {
    if i < |s| && IsWhitespace(s[i]) then LeadingEnd(s, i + 1) else i
  }

  /** Where the trailing whitespace of `s` starts, searching down from `j` but not below `n`. */
  function TrailingStart(s: string, n: nat, j: nat): (m: nat)
    requires n <= j <= |s|
    requires forall k :: j <= k < |s| ==> IsWhitespace(s[k])
    ensures n <= m <= j
    ensures forall k :: m <= k < |s| ==> IsWhitespace(s[k])
    ensures m > n ==> !IsWhitespace(s[m - 1])
    decreases j
  {
    if j > n && IsWhitespace(s[j - 1]) then TrailingStart(s, n, j - 1) else j
  }

  /**
   * `s.trim()`: `s` is leading whitespace, then the result, then trailing whitespace;
   * the result is empty exactly when `s` is all whitespace, and otherwise starts and
   * ends with a character that is not whitespace.
   */
  function Trim(s: string): (r: string)
    ensures IsTrimmed(r)
    ensures r == [] <==> AllWhitespace(s)
    ensures exists n, m ::
              0 <= n <= m <= |s| && r == s[n..m] &&
              (forall k :: 0 <= k < n ==> IsWhitespace(s[k])) &&
              (forall k :: m <= k < |s| ==> IsWhitespace(s[k]))
  {
    var n := LeadingEnd(s, 0);
    var m := TrailingStart(s, n, |s|);
    assert n < |s| ==> m > n;
    s[n..m]
  }

  /** A string that is already trimmed is its own trim. */
  lemma TrimOfTrimmed(s: string)
    requires IsTrimmed(s)
    ensures Trim(s) == s
  {
    if s != [] {
      assert LeadingEnd(s, 0) == 0;
      assert TrailingStart(s, 0, |s|) == |s|;
    }
  }

  /** Trimming twice is trimming once. */
  lemma TrimIdempotent(s: string)
    ensures Trim(Trim(s)) == Trim(s)
  {
    TrimOfTrimmed(Trim(s));
  }

  /** ASCII case mapping; every other character is left alone. */
  function LowerChar(c: char): (d: char)
  {
    if 'A' <= c <= 'Z' then (c as int - 'A' as int + 'a' as int) as char else c
  }

  function UpperChar(c: char): (d: char)
  {
    if 'a' <= c <= 'z' then (c as int - 'a' as int + 'A' as int) as char else c
  }

  /**
   * `s.toLowerCase()`: same length; each upper-case ASCII letter becomes its
   * lower-case partner (32 code points further on), every other character is kept.
   */
  function ToLower(s: string): (r: string)
    ensures |r| == |s|
    ensures forall i :: 0 <= i < |r| ==> !('A' <= r[i] <= 'Z')
    ensures forall i :: 0 <= i < |r| && 'A' <= s[i] <= 'Z' ==> r[i] as int == s[i] as int + 32
    ensures forall i :: 0 <= i < |r| && !('A' <= s[i] <= 'Z') ==> r[i] == s[i]
  {
    seq(|s|, i requires 0 <= i < |s| => LowerChar(s[i]))
  }

  /**
   * `s.toUpperCase()`: same length; each lower-case ASCII letter becomes its
   * upper-case partner (32 code points back), every other character is kept.
   */
  function ToUpper(s: string): (r: string)
    ensures |r| == |s|
    ensures forall i :: 0 <= i < |r| ==> !('a' <= r[i] <= 'z')
    ensures forall i :: 0 <= i < |r| && 'a' <= s[i] <= 'z' ==> r[i] as int == s[i] as int - 32
    ensures forall i :: 0 <= i < |r| && !('a' <= s[i] <= 'z') ==> r[i] == s[i]
  {
    seq(|s|, i requires 0 <= i < |s| => UpperChar(s[i]))
  }

  /** Lower-casing forgets case: an upper-cased string lower-cases to the same as the original. */
  lemma LowerOfUpper(s: string)
    ensures ToLower(ToUpper(s)) == ToLower(s)
  {
    var u := ToUpper(s);
    forall i | 0 <= i < |s| ensures ToLower(u)[i] == ToLower(s)[i] {
      if 'a' <= s[i] <= 'z' {
        assert 'A' <= u[i] <= 'Z';
      }
    }
  }

  /**
   * `s.includes(sub)`: `sub` occurs in `s` at some position; only a string at
   * least as long as `sub` can include it, and every string includes "".
   */
  function Includes(s: string, sub: string): (found: bool)
    ensures found ==> |sub| <= |s|
    ensures sub == [] ==> found
  {
    assert sub == [] ==> OccursAt(s, sub, 0);
    exists i :: 0 <= i <= |s| - |sub| && OccursAt(s, sub, i)
  }

  predicate OccursAt(s: string, sub: string, i: int)
    requires 0 <= i <= |s| - |sub|
  {
    s[i..i + |sub|] == sub
  }

  /**
   * Join `parts` with `sep` between neighbours: the inverse of `Split`.
   */
  function Join(parts: seq<string>, sep: char): (r: string)
    requires |parts| >= 1
    decreases |parts|
  {
    if |parts| == 1 then parts[0] else parts[0] + [sep] + Join(parts[1..], sep)
  }

  /**
   * A join starts with the first piece; it is longer than that piece exactly when
   * more pieces follow, and then the separator comes next.
   */
  lemma JoinShape(parts: seq<string>, sep: char)
    requires |parts| >= 1
    ensures |parts[0]| <= |Join(parts, sep)| && Join(parts, sep)[..|parts[0]|] == parts[0]
    ensures |parts| > 1 <==> |Join(parts, sep)| > |parts[0]|
    ensures |parts| > 1 ==> Join(parts, sep)[|parts[0]|] == sep
  {
  }

  /**
   * `s.split(sep)` for a one-character separator: the pieces between separators,
   * always at least one; no piece contains `sep`, and joining them back gives `s`.
   */
  function Split(s: string, sep: char): (parts: seq<string>)
    ensures |parts| >= 1
    ensures forall k :: 0 <= k < |parts| ==> sep !in parts[k]
    ensures Join(parts, sep) == s
    ensures |parts| == 1 <==> sep !in s
  {
    if s == [] then [[]]
    else if s[0] == sep then
      var rest := Split(s[1..], sep);
      assert s == [] + [sep] + s[1..];
      [[]] + rest
    else
      var rest := Split(s[1..], sep);
      var parts := [[s[0]] + rest[0]] + rest[1..];
      assert parts[1..] == rest[1..];
      assert s == [s[0]] + s[1..];
      assert Join(parts, sep) == s by {
        if |rest| == 1 {
        } else {
          assert rest == [rest[0]] + rest[1..];
          assert Join(rest, sep) == rest[0] + [sep] + Join(rest[1..], sep);
        }
      }
      parts
  }

  /** Splitting a join gives back the pieces, provided no piece contains the separator. */
  lemma {:induction false} SplitJoin(parts: seq<string>, sep: char)
    requires |parts| >= 1
    requires forall k :: 0 <= k < |parts| ==> sep !in parts[k]
    ensures Split(Join(parts, sep), sep) == parts
    decreases |parts|, |parts[0]|
  {
    var p := parts[0];
    if p == [] {
      if |parts| == 1 {
      } else {
        var s := Join(parts, sep);
        assert s == [sep] + Join(parts[1..], sep);
        assert s[1..] == Join(parts[1..], sep);
        SplitJoin(parts[1..], sep);
        assert parts == [[]] + parts[1..];
      }
    } else {
      var parts' := [p[1..]] + parts[1..];
      assert parts'[1..] == parts[1..];
      forall k | 0 <= k < |parts'| ensures sep !in parts'[k] {
        if k == 0 { assert forall c :: c in p[1..] ==> c in p; }
      }
      SplitJoin(parts', sep);
      var s := Join(parts, sep);
      assert s == [p[0]] + Join(parts', sep) by {
        assert p == [p[0]] + p[1..];
      }
      assert s[0] == p[0] && p[0] != sep;
      assert s[1..] == Join(parts', sep);
      assert p == [p[0]] + p[1..];
    }
  }

  /** A leading piece without the separator, then the separator, splits off as the first piece. */
  lemma {:induction false} SplitAfterFirst(head: string, sep: char, tail: string)
    requires sep !in head
    ensures Split(head + [sep] + tail, sep) == [head] + Split(tail, sep)
  {
    if head == [] {
      assert head + [sep] + tail == [sep] + tail;
      assert ([sep] + tail)[1..] == tail;
    } else {
      var s := head + [sep] + tail;
      assert s[0] == head[0];
      assert s[1..] == head[1..] + [sep] + tail;
      assert sep !in head[1..] by {
        assert forall c :: c in head[1..] ==> c in head;
      }
      SplitAfterFirst(head[1..], sep, tail);
      assert head == [head[0]] + head[1..];
    }
  }

  /** The first piece of `piece + rest` is `piece` when `rest` is empty or starts with the separator. */
  lemma {:induction false} SplitFirstPiece(piece: string, sep: char, rest: string)
    requires sep !in piece
    requires rest == [] || rest[0] == sep
    ensures Split(piece + rest, sep)[0] == piece
  {
    if piece == [] {
      assert piece + rest == rest;
    } else {
      var s := piece + rest;
      assert s[0] == piece[0];
      assert s[1..] == piece[1..] + rest;
      assert sep !in piece[1..] by {
        assert forall c :: c in piece[1..] ==> c in piece;
      }
      SplitFirstPiece(piece[1..], sep, rest);
      assert piece == [piece[0]] + piece[1..];
    }
  }
}

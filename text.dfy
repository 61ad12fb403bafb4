/** The JavaScript string operations the viewer relies on: `trim`, `includes`, `startsWith`,
    `split` with a one-character separator, `join`, and the ASCII part of `toLowerCase` and
    `toUpperCase`. */
module Text {
  import opened Common

  /** The characters `String.prototype.trim` strips: the white space of ECMAScript (tab,
      vertical tab, form feed, the BOM and every space separator of category Zs) and its line
      terminators. */
  predicate IsSpace(c: char) {
    c in {'\t', '\U{000B}', '\U{000C}', '\U{FEFF}', '\n', '\r', '\U{2028}', '\U{2029}'} ||
    c in {' ', '\U{00A0}', '\U{1680}', '\U{202F}', '\U{205F}', '\U{3000}'} ||
    '\U{2000}' <= c <= '\U{200A}'
  }

  predicate AllSpace(s: string) {
    forall k | 0 <= k < |s| :: IsSpace(s[k])
  }

  /** Drops leading white space: the result is the suffix of `s` that starts at its first
      non-space character. */
  function TrimStart(s: string): (r: string)
    ensures |r| <= |s| && r == s[|s| - |r|..]
    ensures forall k | 0 <= k < |s| - |r| :: IsSpace(s[k])
    ensures r == [] || !IsSpace(r[0])
  {
    if s != [] && IsSpace(s[0]) then TrimStart(s[1..]) else s
  }

  /** Drops trailing white space: the result is the prefix of `s` that ends at its last
      non-space character. */
  function TrimEnd(s: string): (r: string)
    ensures |r| <= |s| && r == s[..|r|]
    ensures forall k | |r| <= k < |s| :: IsSpace(s[k])
    ensures r == [] || !IsSpace(r[|r| - 1])
  {
    if s != [] && IsSpace(s[|s| - 1]) then TrimEnd(s[..|s| - 1]) else s
  }

  /** `s.trim()`: empty exactly when `s` is all white space, and otherwise starting and ending
      with a non-space character. `TrimPiece` states that it is a contiguous piece of `s`. */
  function Trim(s: string): (r: string)
    ensures |r| <= |s|
    ensures r == [] <==> AllSpace(s)
    ensures r != [] ==> !IsSpace(r[0]) && !IsSpace(r[|r| - 1])
  {
    var t := TrimStart(s);
    assert forall k | |s| - |t| <= k < |s| :: s[k] == t[k - (|s| - |t|)];
    TrimEnd(t)
  }

  /** Trimming cuts white space off both ends and nothing else: the result is the piece
      `s[i..j]` with only white space before `i` and after `j`. */
  lemma TrimPiece(s: string)
    ensures exists i, j | 0 <= i <= j <= |s| ::
      Trim(s) == s[i..j] && AllSpace(s[..i]) && AllSpace(s[j..])
  {
    var i, j := TrimBounds(s);
  }

  /** The bounds of the trimmed piece: where leading white space ends and trailing begins. */
  lemma TrimBounds(s: string) returns (i: nat, j: nat)
    ensures i <= j <= |s| && Trim(s) == s[i..j]
    ensures AllSpace(s[..i]) && AllSpace(s[j..])
  {
    var t := TrimStart(s);
    var r := TrimEnd(t);
    i := |s| - |t|;
    j := i + |r|;
    TrimStartDropsSpace(s);
    TrimEndDropsSpace(t);
    assert t == s[i..];
    assert r == t[..|r|] == s[i..j];
    assert s[j..] == t[|r|..];
  }

  /** What `TrimStart` drops is white space. */
  lemma TrimStartDropsSpace(s: string)
    ensures AllSpace(s[..|s| - |TrimStart(s)|])
  {
    var i := |s| - |TrimStart(s)|;
    forall k | 0 <= k < i ensures IsSpace(s[..i][k]) {
      assert s[..i][k] == s[k];
    }
  }

  /** What `TrimEnd` drops is white space. */
  lemma TrimEndDropsSpace(t: string)
    ensures AllSpace(t[|TrimEnd(t)|..])
  {
    var j := |TrimEnd(t)|;
    forall k | 0 <= k < |t| - j ensures IsSpace(t[j..][k]) {
      assert t[j..][k] == t[j + k];
    }
  }

  /** Text made only of Unicode space separators, such as the ideographic space, trims to
      nothing, as it does in JavaScript. */
  lemma TrimUnicodeSpaces()
    ensures Trim("\U{3000}") == []
    ensures Trim("\U{2003}\U{1680} \U{202F}") == []
  {
    assert AllSpace("\U{3000}");
    assert AllSpace("\U{2003}\U{1680} \U{202F}");
  }

  /** `s.includes(t)`. */
  predicate Contains(s: string, t: string)
    decreases |s|
  {
    t <= s || (s != [] && Contains(s[1..], t))
  }

  /** A text that contains `t` contains the first character of `t`. */
  lemma {:induction false} ContainsFirstChar(s: string, t: string)
    requires t != [] && Contains(s, t)
    ensures exists i | 0 <= i < |s| :: s[i] == t[0]
    decreases |s|
  {
    if t <= s {
      assert s[0] == t[0];
    } else {
      ContainsFirstChar(s[1..], t);
      var i :| 0 <= i < |s[1..]| && s[1..][i] == t[0];
      assert s[i + 1] == t[0];
    }
  }

  /** `s.startsWith(p)`. */
  predicate StartsWith(s: string, p: string) {
    p <= s
  }

  /** `s.split(sep)` for a one-character separator: the pieces between separators, in order,
      with an empty piece wherever two separators meet or the text starts or ends with one. */
  function Split(s: string, sep: char): (parts: seq<string>)
    ensures |parts| >= 1
    ensures forall k | 0 <= k < |parts| :: sep !in parts[k]
  {
    if s == [] then [[]]
    else
      var rest := Split(s[1..], sep);
      if s[0] == sep then [[]] + rest else [[s[0]] + rest[0]] + rest[1..]
  }

  /** There is one piece more than there are separators. */
  lemma {:induction false} SplitCount(s: string, sep: char)
    ensures |Split(s, sep)| == multiset(s)[sep] + 1
  {
    if s != [] {
      SplitCount(s[1..], sep);
      assert s == [s[0]] + s[1..];
    }
  }

  /** `parts.join(sep)`. */
  function Join(parts: seq<string>, sep: char): string
    requires |parts| >= 1
  {
    if |parts| == 1 then parts[0] else parts[0] + [sep] + Join(parts[1..], sep)
  }

  /** Joining the pieces of a split gives the text back. */
  lemma {:induction false} JoinSplit(s: string, sep: char)
    ensures Join(Split(s, sep), sep) == s
  {
    if s != [] {
      JoinSplit(s[1..], sep);
      var rest := Split(s[1..], sep);
      var parts := Split(s, sep);
      assert s == [s[0]] + s[1..];
      if s[0] == sep {
        assert parts == [[]] + rest && parts[1..] == rest;
        assert Join(parts, sep) == [] + [sep] + Join(rest, sep);
      } else if |rest| == 1 {
        assert parts == [[s[0]] + rest[0]];
      } else {
        assert parts == [[s[0]] + rest[0]] + rest[1..] && parts[1..] == rest[1..];
        assert Join(rest, sep) == rest[0] + [sep] + Join(rest[1..], sep);
        assert Join(parts, sep) == [s[0]] + rest[0] + [sep] + Join(rest[1..], sep);
      }
    }
  }

  lemma {:induction false} SplitSingle(a: string, sep: char)
    requires sep !in a
    ensures Split(a, sep) == [a]
  {
    if a != [] {
      SplitSingle(a[1..], sep);
      assert a[0] != sep && a == [a[0]] + a[1..];
    }
  }

  lemma {:induction false} SplitAfterPiece(a: string, r: string, sep: char)
    requires sep !in a
    ensures Split(a + [sep] + r, sep) == [a] + Split(r, sep)
  {
    if a == [] {
      assert a + [sep] + r == [sep] + r;
    } else {
      assert (a + [sep] + r)[1..] == a[1..] + [sep] + r;
      SplitAfterPiece(a[1..], r, sep);
      assert (a + [sep] + r)[0] == a[0] != sep && a == [a[0]] + a[1..];
    }
  }

  /** Splitting a join of separator-free pieces gives the pieces back. */
  lemma {:induction false} SplitJoin(parts: seq<string>, sep: char)
    requires |parts| >= 1
    requires forall k | 0 <= k < |parts| :: sep !in parts[k]
    ensures Split(Join(parts, sep), sep) == parts
  {
    if |parts| == 1 {
      SplitSingle(parts[0], sep);
    } else {
      SplitJoin(parts[1..], sep);
      SplitAfterPiece(parts[0], Join(parts[1..], sep), sep);
    }
  }

  /** The first piece of `s.split(sep)` is the text before the first `sep`, or all of `s`
      when it holds none. */
  lemma {:induction false} FirstPiece(s: string, sep: char)
    ensures Split(s, sep)[0] <= s
    ensures sep !in Split(s, sep)[0]
    ensures |Split(s, sep)[0]| == |s| || s[|Split(s, sep)[0]|] == sep
  {
    if s != [] {
      FirstPiece(s[1..], sep);
    }
  }

  /** A trailing separator adds one empty piece at the end. */
  lemma {:induction false} SplitTrailing(s: string, sep: char)
    ensures Split(s + [sep], sep) == Split(s, sep) + [[]]
    decreases |s|
  {
    if s == [] {
      assert [] + [sep] == [sep];
      assert [sep][1..] == [];
    } else {
      SplitTrailing(s[1..], sep);
      assert (s + [sep])[1..] == s[1..] + [sep];
      assert (s + [sep])[0] == s[0];
    }
  }

  /** Every piece is empty exactly when the text is nothing but separators. */
  lemma {:induction false} AllPiecesEmpty(s: string, sep: char)
    ensures (forall k | 0 <= k < |Split(s, sep)| :: Split(s, sep)[k] == [])
            <==> (forall i | 0 <= i < |s| :: s[i] == sep)
  {
    if s != [] {
      AllPiecesEmpty(s[1..], sep);
      var rest := Split(s[1..], sep);
      if s[0] == sep {
        var parts := Split(s, sep);
        assert parts == [[]] + rest;
        assert parts[0] == [];
        assert forall k | 1 <= k < |parts| :: parts[k] == rest[k - 1];
        assert forall k | 0 <= k < |rest| :: rest[k] == parts[k + 1];
        assert forall i | 1 <= i < |s| :: s[i] == s[1..][i - 1];
        assert (forall k | 0 <= k < |parts| :: parts[k] == []) <==> (forall k | 0 <= k < |rest| :: rest[k] == []);
        assert (forall i | 0 <= i < |s| :: s[i] == sep) <==> (forall i | 0 <= i < |s[1..]| :: s[1..][i] == sep);
      } else {
        assert Split(s, sep)[0] != [];
      }
    }
  }

  /** `parts.filter(part => part)`: the non-empty pieces, in order. */
  function NonEmptyParts(parts: seq<string>): (r: seq<string>)
    ensures forall x :: x in r <==> x in parts && x != []
  {
    if parts == [] then []
    else (if parts[0] != [] then [parts[0]] else []) + NonEmptyParts(parts[1..])
  }

  /** The filter keeps the order of the pieces: filtering two runs one after the other gives the
      non-empty pieces of the first run followed by those of the second. */
  lemma {:induction false} NonEmptyPartsAppend(a: seq<string>, b: seq<string>)
    ensures NonEmptyParts(a + b) == NonEmptyParts(a) + NonEmptyParts(b)
  {
    if a != [] {
      NonEmptyPartsAppend(a[1..], b);
      assert (a + b)[1..] == a[1..] + b;
    } else {
      assert a + b == b;
    }
  }

  /** `parts[parts.length - 1]` of the filtered pieces, `undefined` (None) when none is left. */
  function LastNonEmpty(parts: seq<string>): Option<string>
  {
    var ne := NonEmptyParts(parts);
    if ne == [] then None else Some(ne[|ne| - 1])
  }

  /** The last non-empty piece is a piece after which only empty pieces follow; there is none
      exactly when every piece is empty. */
  lemma {:induction false} LastNonEmptyIsLast(parts: seq<string>)
    ensures LastNonEmpty(parts).None? <==> forall k | 0 <= k < |parts| :: parts[k] == []
    ensures LastNonEmpty(parts).Some? ==>
      exists k | 0 <= k < |parts| ::
        parts[k] == LastNonEmpty(parts).value && parts[k] != [] &&
        forall j | k < j < |parts| :: parts[j] == []
  {
    if parts != [] {
      var rest := parts[1..];
      LastNonEmptyIsLast(rest);
      assert forall k | 1 <= k < |parts| :: parts[k] == rest[k - 1];
      if parts[0] == [] {
        assert NonEmptyParts(parts) == NonEmptyParts(rest);
        if LastNonEmpty(rest).Some? {
          var k' :| 0 <= k' < |rest| && rest[k'] == LastNonEmpty(rest).value && rest[k'] != [] &&
            forall j | k' < j < |rest| :: rest[j] == [];
          assert parts[k' + 1] == rest[k'];
        }
      } else {
        assert NonEmptyParts(parts) == [parts[0]] + NonEmptyParts(rest);
        if LastNonEmpty(rest).Some? {
          var k' :| 0 <= k' < |rest| && rest[k'] == LastNonEmpty(rest).value && rest[k'] != [] &&
            forall j | k' < j < |rest| :: rest[j] == [];
          assert parts[k' + 1] == rest[k'];
        } else {
          assert LastNonEmpty(parts).value == parts[0];
        }
      }
    }
  }

  /** ASCII `toLowerCase` of one character. */
  function LowerChar(c: char): char {
    if 'A' <= c <= 'Z' then (c as int + 32) as char else c
  }

  /** ASCII `toUpperCase` of one character. */
  function UpperChar(c: char): char {
    if 'a' <= c <= 'z' then (c as int - 32) as char else c
  }

  function Lower(s: string): (r: string)
    ensures |r| == |s| && forall i | 0 <= i < |s| :: r[i] == LowerChar(s[i])
  {
    seq(|s|, i requires 0 <= i < |s| => LowerChar(s[i]))
  }

  function Upper(s: string): (r: string)
    ensures |r| == |s| && forall i | 0 <= i < |s| :: r[i] == UpperChar(s[i])
  {
    seq(|s|, i requires 0 <= i < |s| => UpperChar(s[i]))
  }
}

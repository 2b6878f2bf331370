/**
 * The parts of Go's strings package the services rely on: Split with a one-character
 * separator, TrimSpace, HasPrefix/TrimPrefix and Contains.
 */
module GoStrings {

  /** unicode.IsSpace: the white-space characters TrimSpace removes. */
  predicate IsSpace(c: char) {
    c in SpaceChars || '\U{2000}' <= c <= '\U{200A}'
  }

  /** The white-space characters outside the range U+2000..U+200A. */
  const SpaceChars: set<char> := {
    '\t', '\n', '\U{000B}', '\U{000C}', '\r', ' ', '\U{0085}', '\U{00A0}', '\U{1680}',
    '\U{2028}', '\U{2029}', '\U{202F}', '\U{205F}', '\U{3000}'
  }

  /** strings.Split(s, sep) for a one-character sep: the text between consecutive separators. */
  function Split(s: string, sep: char): (r: seq<string>)
    ensures |r| >= 1
  {
    if s == [] then [""]
    else
      var rest := Split(s[1..], sep);
      if s[0] == sep then [""] + rest
      else [[s[0]] + rest[0]] + rest[1..]
  }

  /** strings.Join(parts, sep) for a one-character sep. */
  function Join(parts: seq<string>, sep: char): string
  {
    if |parts| == 0 then ""
    else if |parts| == 1 then parts[0]
    else parts[0] + [sep] + Join(parts[1..], sep)
  }

  /** The number of times c occurs in s. */
  function Count(s: string, c: char): nat
  {
    if s == [] then 0 else (if s[0] == c then 1 else 0) + Count(s[1..], c)
  }

  /** Joining the pieces of a split gives the original text back. */
  lemma {:induction false} JoinSplit(s: string, sep: char)
    ensures Join(Split(s, sep), sep) == s
  {
    if s != [] {
      JoinSplit(s[1..], sep);
      var rest := Split(s[1..], sep);
      if s[0] == sep {
        assert Split(s, sep) == [""] + rest;
        assert Join([""] + rest, sep) == "" + [sep] + Join(rest, sep) by {
          assert ([""] + rest)[1..] == rest;
        }
      } else {
        var head := [s[0]] + rest[0];
        assert Split(s, sep) == [head] + rest[1..];
        if |rest| == 1 {
          assert Join([head] + rest[1..], sep) == head;
        } else {
          assert ([head] + rest[1..])[1..] == rest[1..];
          assert Join(rest, sep) == rest[0] + [sep] + Join(rest[1..], sep);
        }
      }
    }
  }

  /** No piece of a split contains the separator, and there is one piece more than separators. */
  lemma {:induction false} SplitPieces(s: string, sep: char)
    ensures |Split(s, sep)| == Count(s, sep) + 1
    ensures forall k :: 0 <= k < |Split(s, sep)| ==> sep !in Split(s, sep)[k]
  {
    if s != [] {
      SplitPieces(s[1..], sep);
      var rest := Split(s[1..], sep);
      if s[0] != sep {
        var head := [s[0]] + rest[0];
        assert sep !in rest[0];
        assert sep !in head;
        assert Split(s, sep) == [head] + rest[1..];
      }
    }
  }

  /** Splitting a non-empty list of separator-free pieces, once joined, gives the pieces back. */
  lemma {:induction false} SplitJoin(parts: seq<string>, sep: char)
    requires |parts| >= 1
    requires forall k :: 0 <= k < |parts| ==> sep !in parts[k]
    ensures Split(Join(parts, sep), sep) == parts
  {
    if |parts| == 1 {
      SplitNoSep(parts[0], sep);
    } else {
      SplitJoin(parts[1..], sep);
      SplitPrefix(parts[0], Join(parts[1..], sep), sep);
    }
  }

  /** Text without a separator splits into itself. */
  lemma {:induction false} SplitNoSep(p: string, sep: char)
    requires sep !in p
    ensures Split(p, sep) == [p]
  {
    if p != [] {
      SplitNoSep(p[1..], sep);
      assert [p[0]] + p[1..] == p;
    }
  }

  /** Splitting "p sep rest" gives p followed by the pieces of rest. */
  lemma {:induction false} SplitPrefix(p: string, rest: string, sep: char)
    requires sep !in p
    ensures Split(p + [sep] + rest, sep) == [p] + Split(rest, sep)
  {
    if p == [] {
      assert p + [sep] + rest == [sep] + rest;
      assert ([sep] + rest)[1..] == rest;
    } else {
      SplitPrefix(p[1..], rest, sep);
      var whole := p + [sep] + rest;
      assert whole[0] == p[0] && whole[0] != sep;
      assert whole[1..] == p[1..] + [sep] + rest;
      var tail := Split(whole[1..], sep);
      assert tail == [p[1..]] + Split(rest, sep);
      assert Split(whole, sep) == [[p[0]] + tail[0]] + tail[1..];
      assert [p[0]] + p[1..] == p;
    }
  }

  /** The text after the leading white space. */
  function TrimLeft(s: string): (r: string)
    ensures |r| <= |s| && r == s[|s| - |r|..]
    ensures r != [] ==> !IsSpace(r[0])
    ensures forall k :: 0 <= k < |s| - |r| ==> IsSpace(s[k])
  {
    if s != [] && IsSpace(s[0]) then TrimLeft(s[1..]) else s
  }

  /** The text before the trailing white space. */
  function TrimRight(s: string): (r: string)
    ensures |r| <= |s| && r == s[..|r|]
    ensures r != [] ==> !IsSpace(r[|r| - 1])
    ensures forall k :: |r| <= k < |s| ==> IsSpace(s[k])
  {
    if s != [] && IsSpace(s[|s| - 1]) then TrimRight(s[..|s| - 1]) else s
  }

  /** The number of white-space characters at the start of s. */
  function Lead(s: string): nat
  {
    |s| - |TrimLeft(s)|
  }

  /**
   * strings.TrimSpace: s without its leading and trailing white space. The result is a
   * contiguous part of s and neither starts nor ends with white space.
   */
  function TrimSpace(s: string): (r: string)
    ensures Lead(s) + |r| <= |s| && r == s[Lead(s)..Lead(s) + |r|]
    ensures r != [] ==> !IsSpace(r[0]) && !IsSpace(r[|r| - 1])
  {
    TrimRight(TrimLeft(s))
  }

  /** Everything TrimSpace cuts off is white space; it yields "" exactly for all-white-space text. */
  lemma TrimSpaceCut(s: string)
    ensures forall k :: 0 <= k < Lead(s) ==> IsSpace(s[k])
    ensures forall k :: Lead(s) + |TrimSpace(s)| <= k < |s| ==> IsSpace(s[k])
    ensures TrimSpace(s) == [] <==> forall k :: 0 <= k < |s| ==> IsSpace(s[k])
  {
    var l := TrimLeft(s);
    var r := TrimSpace(s);
    var i := Lead(s);
    assert r == TrimRight(l);
    forall k | i + |r| <= k < |s| ensures IsSpace(s[k]) {
      assert s[k] == l[k - i];
    }
    if r != [] {
      assert s[i] == r[0];
    }
  }

  /** Trimming twice is trimming once. */
  lemma TrimSpaceIdempotent(s: string)
    ensures TrimSpace(TrimSpace(s)) == TrimSpace(s)
  {
    var t := TrimSpace(s);
    if t != [] {
      assert TrimLeft(t) == t;
      assert TrimRight(t) == t;
    }
  }

  /** strings.HasPrefix */
  predicate HasPrefix(s: string, prefix: string) {
    prefix <= s
  }

  /** strings.TrimPrefix: s without prefix when s starts with it, s itself otherwise. */
  function TrimPrefix(s: string, prefix: string): (r: string)
    ensures HasPrefix(s, prefix) ==> prefix + r == s
    ensures !HasPrefix(s, prefix) ==> r == s
  {
    if HasPrefix(s, prefix) then s[|prefix|..] else s
  }

  /** strings.Contains for a one-character needle. */
  predicate ContainsChar(s: string, c: char) {
    c in s
  }
}

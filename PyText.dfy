/**
 * The three Python string operations the message handler chains together:
 * `str.split(sep)`, `str.strip()` and `str.split()` with no argument.
 * Whitespace is the set of characters for which Python's `str.isspace()`
 * holds; `strip()` and argument-less `split()` use that same set.
 */
module PyText {

  /** Python's `str.isspace()` for one character. */
  predicate IsSpace(c: char) {
    var n := c as int;
    || 0x09 <= n <= 0x0D
    || 0x1C <= n <= 0x20
    || n == 0x85 || n == 0xA0 || n == 0x1680
    || 0x2000 <= n <= 0x200A
    || n == 0x2028 || n == 0x2029 || n == 0x202F || n == 0x205F || n == 0x3000
  }

  predicate AllSpace(s: string) {
    forall i :: 0 <= i < |s| ==> IsSpace(s[i])
  }

  predicate NoSpace(s: string) {
    forall i :: 0 <= i < |s| ==> !IsSpace(s[i])
  }

  // ---------------------------------------------------------------------------
  // str.split(sep)

  /** `s.split(sep)`: the pieces between occurrences of `sep`, never fewer than one. */
  function Split(s: string, sep: char): (parts: seq<string>)
    ensures |parts| >= 1
    decreases |s|
  {
    if s == [] then [[]]
    else
      var rest := Split(s[1..], sep);
      if s[0] == sep then [[]] + rest
      else [[s[0]] + rest[0]] + rest[1..]
  }

  /** `sep.join(parts)`, the inverse of `Split`. */
  function Join(parts: seq<string>, sep: char): string
    requires |parts| >= 1
    decreases |parts|
  {
    if |parts| == 1 then parts[0] else parts[0] + [sep] + Join(parts[1..], sep)
  }

  /** No piece of a split contains the separator. */
  lemma {:induction false} SplitPiecesFree(s: string, sep: char)
    ensures forall k :: 0 <= k < |Split(s, sep)| ==> sep !in Split(s, sep)[k]
    decreases |s|
  {
    if s != [] {
      SplitPiecesFree(s[1..], sep);
    }
  }

  /** `s.split(sep)` has a second piece exactly when `sep` occurs in `s`. */
  lemma {:induction false} SplitHasSecond(s: string, sep: char)
    ensures |Split(s, sep)| >= 2 <==> sep in s
    decreases |s|
  {
    if s != [] {
      SplitHasSecond(s[1..], sep);
      assert sep in s <==> s[0] == sep || sep in s[1..];
    }
  }

  /** Joining the pieces with the separator gives back the original text. */
  lemma {:induction false} JoinSplit(s: string, sep: char)
    ensures Join(Split(s, sep), sep) == s
    decreases |s|
  {
    if s != [] {
      var rest := Split(s[1..], sep);
      JoinSplit(s[1..], sep);
      if s[0] == sep {
        assert Split(s, sep) == [[]] + rest;
        assert s == [] + [sep] + s[1..];
      } else {
        var parts := Split(s, sep);
        assert parts == [[s[0]] + rest[0]] + rest[1..];
        if |rest| == 1 {
          assert parts == [[s[0]] + rest[0]];
        } else {
          assert parts[1..] == rest[1..];
          assert Join(rest, sep) == rest[0] + [sep] + Join(rest[1..], sep);
        }
      }
    }
  }

  /** A separator-free prefix glues onto the first piece of what follows it. */
  lemma {:induction false} SplitFreePrefix(p: string, r: string, sep: char)
    requires sep !in p
    ensures Split(p + r, sep) == [p + Split(r, sep)[0]] + Split(r, sep)[1..]
    decreases |p|
  {
    if p == [] {
      var tail := Split(r, sep);
      assert p + r == r && p + tail[0] == tail[0];
      assert tail == [tail[0]] + tail[1..];
    } else {
      var tail := Split(r, sep);
      assert (p + r)[0] == p[0] && p[0] != sep;
      assert (p + r)[1..] == p[1..] + r;
      SplitFreePrefix(p[1..], r, sep);
      var rest := Split(p[1..] + r, sep);
      assert rest[0] == p[1..] + tail[0];
      assert rest[1..] == tail[1..];
      assert Split(p + r, sep) == [[p[0]] + rest[0]] + rest[1..];
      assert [p[0]] + (p[1..] + tail[0]) == p + tail[0];
    }
  }

  /** Splitting a join of separator-free pieces gives back the pieces. */
  lemma {:induction false} SplitJoin(parts: seq<string>, sep: char)
    requires |parts| >= 1
    requires forall k :: 0 <= k < |parts| ==> sep !in parts[k]
    ensures Split(Join(parts, sep), sep) == parts
    decreases |parts|
  {
    if |parts| == 1 {
      SplitFreePrefix(parts[0], [], sep);
      assert parts[0] + [] == parts[0];
    } else {
      var tail := Join(parts[1..], sep);
      SplitJoin(parts[1..], sep);
      assert Join(parts, sep) == parts[0] + ([sep] + tail);
      SplitFreePrefix(parts[0], [sep] + tail, sep);
      assert ([sep] + tail)[1..] == tail;
      assert Split([sep] + tail, sep) == [[]] + parts[1..];
      assert parts[0] + [] == parts[0];
    }
  }

  /**
   * Piece 1 of `s.split(sep)` is exactly the text between the first and the
   * second separator (or the end): whatever follows the second separator
   * plays no part in it.
   */
  lemma SecondPiece(pre: string, seg: string, rest: string, sep: char)
    requires sep !in pre && sep !in seg
    requires rest == [] || rest[0] == sep
    ensures |Split(pre + [sep] + seg + rest, sep)| >= 2
    ensures Split(pre + [sep] + seg + rest, sep)[1] == seg
  {
    var x := [sep] + (seg + rest);
    assert pre + [sep] + seg + rest == pre + x;
    SplitFreePrefix(pre, x, sep);
    SplitAfterSeparator(seg + rest, sep);
    SplitFreePrefix(seg, rest, sep);
    var first := Split(rest, sep)[0];
    assert first == [] by {
      if rest != [] {
        assert rest == [sep] + rest[1..];
        SplitAfterSeparator(rest[1..], sep);
      }
    }
    assert Split(seg + rest, sep)[0] == seg + first;
    assert seg + first == seg;
  }

  /** A leading separator opens an empty first piece. */
  lemma SplitAfterSeparator(t: string, sep: char)
    ensures Split([sep] + t, sep) == [[]] + Split(t, sep)
  {
  }

  /** Every text holding the separator has the shape `SecondPiece` speaks of. */
  lemma SecondPieceShape(s: string, sep: char) returns (pre: string, seg: string, rest: string)
    requires sep in s
    ensures sep !in pre && sep !in seg && (rest == [] || rest[0] == sep)
    ensures s == pre + [sep] + seg + rest
  {
    var parts := Split(s, sep);
    SplitHasSecond(s, sep);
    JoinSplit(s, sep);
    SplitPiecesFree(s, sep);
    var tail := parts[1..];
    assert tail[0] == parts[1];
    assert s == parts[0] + [sep] + Join(tail, sep);
    if |tail| == 1 {
      rest := [];
    } else {
      rest := [sep] + Join(tail[1..], sep);
    }
    pre, seg := parts[0], parts[1];
  }

  // ---------------------------------------------------------------------------
  // str.strip()

  /** `s.lstrip()`. */
  function TrimLeft(s: string): string
    decreases |s|
  {
    if s != [] && IsSpace(s[0]) then TrimLeft(s[1..]) else s
  }

  /** `s.rstrip()`. */
  function TrimRight(s: string): string
    decreases |s|
  {
    if s != [] && IsSpace(s[|s| - 1]) then TrimRight(s[..|s| - 1]) else s
  }

  /** `s.strip()`. */
  function Strip(s: string): string
  {
    TrimRight(TrimLeft(s))
  }

  /** `lstrip()` drops exactly the leading run of whitespace. */
  lemma {:induction false} TrimLeftSpec(s: string)
    ensures var r := TrimLeft(s);
            && |r| <= |s| && r == s[|s| - |r|..]
            && AllSpace(s[..|s| - |r|])
            && (r == [] || !IsSpace(r[0]))
    decreases |s|
  {
    if s != [] && IsSpace(s[0]) {
      TrimLeftSpec(s[1..]);
      var r := TrimLeft(s[1..]);
      assert s[1..][|s| - 1 - |r|..] == s[|s| - |r|..];
      forall i | 0 <= i < |s| - |r| ensures IsSpace(s[i]) {
        if i > 0 { assert s[i] == s[1..][..|s| - 1 - |r|][i - 1]; }
      }
    }
  }

  /** `rstrip()` drops exactly the trailing run of whitespace. */
  lemma {:induction false} TrimRightSpec(s: string)
    ensures var r := TrimRight(s);
            && |r| <= |s| && r == s[..|r|]
            && AllSpace(s[|r|..])
            && (r == [] || !IsSpace(r[|r| - 1]))
    decreases |s|
  {
    if s != [] && IsSpace(s[|s| - 1]) {
      var s' := s[..|s| - 1];
      TrimRightSpec(s');
      var r := TrimRight(s');
      assert s'[..|r|] == s[..|r|];
      forall i | |r| <= i < |s| ensures IsSpace(s[i]) {
        if i < |s| - 1 { assert s[i] == s'[|r|..][i - |r|]; }
      }
    }
  }

  /**
   * `strip()` removes whitespace only: the text is the stripped text framed by
   * two runs of whitespace, and the stripped text starts and ends with a
   * non-whitespace character unless it is empty.
   */
  lemma StripFrames(s: string) returns (lead: string, trail: string)
    ensures AllSpace(lead) && AllSpace(trail) && s == lead + Strip(s) + trail
    ensures var r := Strip(s);
            r == [] || (!IsSpace(r[0]) && !IsSpace(r[|r| - 1]))
  {
    var t := TrimLeft(s);
    TrimLeftSpec(s);
    var r := TrimRight(t);
    TrimRightSpec(t);
    lead, trail := s[..|s| - |t|], t[|r|..];
    assert s == lead + t;
    assert t == r + trail;
    if r != [] {
      assert r[0] == t[0];
    }
  }

  /** `strip()` leaves nothing exactly when the text is all whitespace. */
  lemma StripBlank(s: string)
    ensures Strip(s) == [] <==> AllSpace(s)
  {
    var lead, trail := StripFrames(s);
    var r := Strip(s);
    if r == [] {
      var t := TrimLeft(s);
      TrimLeftSpec(s);
      TrimRightSpec(t);
      assert t[0..] == t;
      assert t == [];
      assert s[..|s|] == s;
    } else {
      assert s[|lead|] == r[0];
    }
  }

  // ---------------------------------------------------------------------------
  // str.split() with no argument

  /** The longest prefix of `s` without whitespace. */
  function TakeWord(s: string): string
    decreases |s|
  {
    if s == [] || IsSpace(s[0]) then [] else [s[0]] + TakeWord(s[1..])
  }

  /** `TakeWord` is the maximal whitespace-free prefix. */
  lemma {:induction false} TakeWordSpec(s: string)
    ensures var w := TakeWord(s);
            && |w| <= |s| && w == s[..|w|]
            && NoSpace(w)
            && (|w| == |s| || IsSpace(s[|w|]))
    decreases |s|
  {
    if s != [] && !IsSpace(s[0]) {
      TakeWordSpec(s[1..]);
      var w := TakeWord(s[1..]);
      assert [s[0]] + s[1..][..|w|] == s[..|w| + 1];
      assert forall i :: 1 <= i < |w| + 1 ==> ([s[0]] + w)[i] == w[i - 1];
    }
  }

  /** `s.split()`: the maximal runs of non-whitespace characters, in order. */
  function Words(s: string): seq<string>
    decreases |s|
  {
    var t := TrimLeft(s);
    if t == [] then []
    else
      var w := TakeWord(t);
      TrimLeftSpec(s);
      TakeWordSpec(t);
      [w] + Words(t[|w|..])
  }

  /** Every word is a non-empty run without whitespace, and there are none exactly for a blank text. */
  lemma {:induction false} WordsSpec(s: string)
    ensures forall k :: 0 <= k < |Words(s)| ==> Words(s)[k] != [] && NoSpace(Words(s)[k])
    ensures Words(s) == [] <==> AllSpace(s)
    decreases |s|
  {
    var t := TrimLeft(s);
    TrimLeftSpec(s);
    if t == [] {
      assert s[..|s|] == s;
    } else {
      assert s[|s| - |t|] == t[0] && !IsSpace(s[|s| - |t|]);
      var w := TakeWord(t);
      TakeWordSpec(t);
      WordsSpec(t[|w|..]);
      var more := Words(t[|w|..]);
      assert Words(s) == [w] + more;
      assert forall k :: 1 <= k < |Words(s)| ==> Words(s)[k] == more[k - 1];
    }
  }

  /** Cutting a text anywhere after its first word leaves that first word alone. */
  lemma {:induction false} TakeWordOfPrefix(t: string, m: nat)
    requires |TakeWord(t)| <= m <= |t|
    ensures TakeWord(t[..m]) == TakeWord(t)
    decreases |t|
  {
    if t != [] && !IsSpace(t[0]) {
      assert t[..m][1..] == t[1..][..m - 1];
      TakeWordOfPrefix(t[1..], m - 1);
    } else if m > 0 {
      assert t[..m][0] == t[0];
    }
  }

  /** `s.strip().split()` begins with the same word as `s.split()`. */
  lemma FirstWordOfStrip(s: string)
    requires !AllSpace(s)
    ensures Words(Strip(s)) != [] && Words(s) != []
    ensures Words(Strip(s))[0] == Words(s)[0] == TakeWord(TrimLeft(s))
  {
    StripBlank(s);
    var t := TrimLeft(s);
    TrimLeftSpec(s);
    var r := TrimRight(t);
    TrimRightSpec(t);
    assert r != [] && t != [];
    assert TrimLeft(r) == r;
    var w := TakeWord(t);
    TakeWordSpec(t);
    if |r| < |t| {
      assert t[|r|..][0] == t[|r|];
      assert IsSpace(t[|r|]);
      assert forall i :: 0 <= i < |w| ==> t[i] == w[i];
    }
    assert |w| <= |r|;
    TakeWordOfPrefix(t, |r|);
    assert r == t[..|r|];
  }

  /**
   * The first word of a text framed as `lead + w + tail`, with `lead` blank,
   * `w` a non-empty run without whitespace and `tail` empty or starting with
   * whitespace, is `w`.
   */
  lemma FirstWordIs(lead: string, w: string, tail: string)
    requires AllSpace(lead) && w != [] && NoSpace(w)
    requires tail == [] || IsSpace(tail[0])
    ensures Words(lead + w + tail) != []
    ensures Words(lead + w + tail)[0] == w
  {
    var s := lead + w + tail;
    assert s == lead + (w + tail);
    assert (w + tail)[0] == w[0];
    TrimLeftSkipsBlank(lead, w + tail);
    TakeWordFrame(w, tail);
  }

  /** `lstrip` skips exactly a blank prefix when the rest starts non-blank. */
  lemma {:induction false} TrimLeftSkipsBlank(lead: string, rest: string)
    requires AllSpace(lead)
    requires rest != [] && !IsSpace(rest[0])
    ensures TrimLeft(lead + rest) == rest
    decreases |lead|
  {
    if lead == [] {
      assert lead + rest == rest;
    } else {
      assert (lead + rest)[1..] == lead[1..] + rest;
      TrimLeftSkipsBlank(lead[1..], rest);
    }
  }

  /** A whitespace-free run followed by whitespace or nothing is the first word. */
  lemma {:induction false} TakeWordFrame(w: string, tail: string)
    requires NoSpace(w)
    requires tail == [] || IsSpace(tail[0])
    ensures TakeWord(w + tail) == w
    decreases |w|
  {
    if w == [] {
      assert w + tail == tail;
    } else {
      assert (w + tail)[1..] == w[1..] + tail;
      TakeWordFrame(w[1..], tail);
    }
  }
}

/** The parts of JavaScript's String.prototype that the application relies on:
    `split` on a one-character separator, `startsWith` and `trim`. */
module JsText {
  import opened JsValues

  /** `s.startsWith(c)` for a one-character prefix. */
  predicate StartsWith(s: string, c: char) {
    |s| > 0 && s[0] == c
  }

  // ----- split -----------------------------------------------------------

  /** `s.split(sep)`: the pieces between occurrences of `sep`; never empty
      (`"".split(sep)` is `[""]`). */
  function Split(s: string, sep: char): (pieces: seq<string>)
    ensures |pieces| >= 1
    decreases |s|
  {
    if s == [] then [""]
    else
      var rest := Split(s[1..], sep);
      if s[0] == sep then [""] + rest else [[s[0]] + rest[0]] + rest[1..]
  }

  /** `pieces.join(sep)`. */
  function Join(pieces: seq<string>, sep: char): string
    decreases |pieces|
  {
    if pieces == [] then ""
    else if |pieces| == 1 then pieces[0]
    else pieces[0] + [sep] + Join(pieces[1..], sep)
  }

  /** `s.split(sep)[i]`, `None` standing for `undefined` past the last piece. */
  function Piece(s: string, sep: char, i: nat): (r: Option<string>)
    ensures r.Some? <==> i < |Split(s, sep)|
    ensures r.Some? ==> r.value == Split(s, sep)[i]
  {
    var pieces := Split(s, sep);
    if i < |pieces| then Some(pieces[i]) else None
  }

  predicate NoSeparator(pieces: seq<string>, sep: char) {
    forall i :: 0 <= i < |pieces| ==> sep !in pieces[i]
  }

  /** No piece of a split contains the separator. */
  lemma {:induction false} SplitPiecesHaveNoSeparator(s: string, sep: char)
    ensures NoSeparator(Split(s, sep), sep)
    decreases |s|
  {
    if s != [] {
      SplitPiecesHaveNoSeparator(s[1..], sep);
      var rest := Split(s[1..], sep);
      if s[0] != sep {
        assert sep !in [s[0]] + rest[0];
      }
    }
  }

  /** Joining the pieces of a split with the same separator gives the string back. */
  lemma {:induction false} JoinSplit(s: string, sep: char)
    ensures Join(Split(s, sep), sep) == s
    decreases |s|
  {
    if s != [] {
      JoinSplit(s[1..], sep);
      var rest := Split(s[1..], sep);
      if s[0] == sep {
        assert Split(s, sep) == [""] + rest;
        assert Join(Split(s, sep), sep) == "" + [sep] + Join(rest, sep);
      } else {
        var pieces := Split(s, sep);
        assert pieces[1..] == rest[1..];
        if |rest| == 1 {
          assert Join(pieces, sep) == [s[0]] + rest[0];
        } else {
          assert Join(rest, sep) == rest[0] + [sep] + Join(rest[1..], sep);
          assert Join(pieces, sep) == [s[0]] + rest[0] + [sep] + Join(rest[1..], sep);
        }
      }
    }
  }

  /** Splitting a string that starts with a separator-free text `a`. */
  lemma {:induction false} SplitAfterPlainPrefix(a: string, t: string, sep: char)
    requires sep !in a
    ensures Split(a + t, sep) == [a + Split(t, sep)[0]] + Split(t, sep)[1..]
    decreases |a|
  {
    if a != [] {
      assert (a + t)[1..] == a[1..] + t;
      assert (a + t)[0] == a[0] && a[0] != sep;
      SplitAfterPlainPrefix(a[1..], t, sep);
      var rest := Split(a[1..] + t, sep);
      assert rest[0] == a[1..] + Split(t, sep)[0];
      assert rest[1..] == Split(t, sep)[1..];
      assert Split(a + t, sep) == [[a[0]] + rest[0]] + rest[1..];
      assert [a[0]] + (a[1..] + Split(t, sep)[0]) == a + Split(t, sep)[0];
    } else {
      var pieces := Split(t, sep);
      assert a + t == t && a + pieces[0] == pieces[0];
      assert pieces == [pieces[0]] + pieces[1..];
    }
  }

  /** Splitting a join of separator-free pieces gives the pieces back. */
  lemma {:induction false} SplitJoin(pieces: seq<string>, sep: char)
    requires |pieces| >= 1
    requires NoSeparator(pieces, sep)
    ensures Split(Join(pieces, sep), sep) == pieces
    decreases |pieces|
  {
    if |pieces| == 1 {
      SplitAfterPlainPrefix(pieces[0], "", sep);
      assert pieces[0] + "" == pieces[0];
    } else {
      var tail := Join(pieces[1..], sep);
      SplitJoin(pieces[1..], sep);
      var t := [sep] + tail;
      assert Split(t, sep) == [""] + pieces[1..];
      assert Join(pieces, sep) == pieces[0] + t;
      SplitAfterPlainPrefix(pieces[0], t, sep);
      assert pieces[0] + "" == pieces[0];
      assert pieces == [pieces[0]] + pieces[1..];
    }
  }

  /** The second piece of three separator-free texts joined by the separator,
      as in the compact serialisation of a JSON Web Token. */
  lemma SecondPieceOfThree(a: string, b: string, c: string, sep: char)
    requires sep !in a && sep !in b && sep !in c
    ensures Piece(a + [sep] + b + [sep] + c, sep, 1) == Some(b)
  {
    var parts := [a, b, c];
    assert NoSeparator(parts, sep);
    SplitJoin(parts, sep);
    assert parts[1..] == [b, c] && [b, c][1..] == [c];
    assert Join([b, c], sep) == b + [sep] + c;
    assert Join(parts, sep) == a + [sep] + (b + [sep] + c);
    assert a + [sep] + b + [sep] + c == Join(parts, sep);
  }

  // ----- trim ------------------------------------------------------------

  /** The WhiteSpace and LineTerminator code points of ECMAScript, which `trim` removes. */
  predicate IsSpace(c: char) {
    var n := c as int;
    || (9 <= n <= 13) || n == 0x20 || n == 0xA0 || n == 0x1680
    || (0x2000 <= n <= 0x200A) || n == 0x2028 || n == 0x2029
    || n == 0x202F || n == 0x205F || n == 0x3000 || n == 0xFEFF
  }

  predicate AllSpace(s: string) {
    forall i :: 0 <= i < |s| ==> IsSpace(s[i])
  }

  function TrimStart(s: string): string
    decreases |s|
  {
    if s != [] && IsSpace(s[0]) then TrimStart(s[1..]) else s
  }

  function TrimEnd(s: string): string
    decreases |s|
  {
    if s != [] && IsSpace(s[|s| - 1]) then TrimEnd(s[..|s| - 1]) else s
  }

  /** `s.trim()`, which Mongoose applies to paths declared with `trim: true`. */
  function Trim(s: string): string {
    TrimEnd(TrimStart(s))
  }

  /** TrimStart drops exactly a whitespace prefix. */
  lemma {:induction false} TrimStartShape(s: string)
    ensures |TrimStart(s)| <= |s|
    ensures TrimStart(s) == s[|s| - |TrimStart(s)|..]
    ensures AllSpace(s[..|s| - |TrimStart(s)|])
    ensures TrimStart(s) == [] || !IsSpace(TrimStart(s)[0])
    decreases |s|
  {
    if s != [] && IsSpace(s[0]) {
      TrimStartShape(s[1..]);
      var k := |s[1..]| - |TrimStart(s[1..])|;
      assert s[1..][k..] == s[k + 1..];
      assert s[..k + 1] == [s[0]] + s[1..][..k];
    }
  }

  /** TrimEnd drops exactly a whitespace suffix. */
  lemma {:induction false} TrimEndShape(s: string)
    ensures |TrimEnd(s)| <= |s|
    ensures TrimEnd(s) == s[..|TrimEnd(s)|]
    ensures AllSpace(s[|TrimEnd(s)|..])
    ensures TrimEnd(s) == [] || !IsSpace(TrimEnd(s)[|TrimEnd(s)| - 1])
    decreases |s|
  {
    if s != [] && IsSpace(s[|s| - 1]) {
      var u := s[..|s| - 1];
      TrimEndShape(u);
      var k := |TrimEnd(u)|;
      assert u[..k] == s[..k];
      assert s[k..] == u[k..] + [s[|s| - 1]];
    }
  }

  /** A whitespace-only string trims to nothing, and only such a string does. */
  lemma TrimEmptyIffAllSpace(s: string)
    ensures Trim(s) == "" <==> AllSpace(s)
  {
    var a := TrimStart(s);
    TrimStartShape(s);
    TrimEndShape(a);
    var i := |s| - |a|;
    if Trim(s) == "" {
      assert a[0..] == a;
      assert AllSpace(a);
      assert a == [];
      assert s[..i] == s;
    } else if a != [] {
      assert a[0] == s[i];
    }
  }

  /** `trim` keeps a contiguous part of the input, drops only whitespace
      around it, and leaves no whitespace at either end. */
  lemma TrimShape(s: string)
    ensures exists i, j :: 0 <= i <= j <= |s| && Trim(s) == s[i..j] && AllSpace(s[..i]) && AllSpace(s[j..])
    ensures Trim(s) == [] || (!IsSpace(Trim(s)[0]) && !IsSpace(Trim(s)[|Trim(s)| - 1]))
  {
    var a := TrimStart(s);
    TrimStartShape(s);
    TrimEndShape(a);
    var i := |s| - |a|;
    var j := i + |Trim(s)|;
    assert a == s[i..];
    assert Trim(s) == a[..|Trim(s)|] == s[i..j];
    assert AllSpace(a[|Trim(s)|..]);
    assert s[j..] == a[|Trim(s)|..];
    if Trim(s) != [] {
      assert Trim(s)[0] == a[0];
    }
  }

  /** Trimming twice is trimming once. */
  lemma TrimIdempotent(s: string)
    ensures Trim(Trim(s)) == Trim(s)
  {
    TrimShape(s);
    var t := Trim(s);
    if t != [] {
      assert !IsSpace(t[0]) && !IsSpace(t[|t| - 1]);
      assert TrimStart(t) == t;
      assert TrimEnd(t) == t;
    }
  }
}

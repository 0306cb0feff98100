/**
 * The blank-name test of the "add list" handler: `value.trim() === ''`.
 *
 * JavaScript's `String.prototype.trim` removes, from both ends, every code
 * point of the ECMAScript WhiteSpace and LineTerminator productions. Dafny's
 * `char` is a Unicode scalar value; every code point of those productions lies
 * in the Basic Multilingual Plane, so one `char` stands for one UTF-16 unit.
 */
module ListText {

  /** The WhiteSpace and LineTerminator code points of the ECMAScript language specification. */
  predicate IsJsWhitespace(c: char)
    ensures IsJsWhitespace(c) ==> c as int < 0x1_0000
    // NEXT LINE (U+0085), MONGOLIAN VOWEL SEPARATOR and ZERO WIDTH SPACE are not trimmed
    ensures IsJsWhitespace(c) ==> c as int != 0x85 && c as int != 0x180E && c as int != 0x200B
  {
    var n := c as int;
    // WhiteSpace: TAB, VT, FF, ZWNBSP and the Unicode "Zs" space separators
    || n == 0x09 || n == 0x0B || n == 0x0C || n == 0xFEFF
    || n == 0x20 || n == 0xA0 || n == 0x1680 || 0x2000 <= n <= 0x200A
    || n == 0x202F || n == 0x205F || n == 0x3000
    // LineTerminator: LF, CR, LINE SEPARATOR, PARAGRAPH SEPARATOR
    || n == 0x0A || n == 0x0D || n == 0x2028 || n == 0x2029
  }

  predicate AllWhitespace(s: string) {
    forall i :: 0 <= i < |s| ==> IsJsWhitespace(s[i])
  }

  /** Drops the leading white space. */
  function TrimStart(s: string): (r: string)
    ensures |r| <= |s| && r == s[|s| - |r|..]
    ensures AllWhitespace(s[..|s| - |r|])
    ensures r == [] || !IsJsWhitespace(r[0])
  {
    if s != [] && IsJsWhitespace(s[0]) then TrimStart(s[1..]) else s
  }

  /** Drops the trailing white space. */
  function TrimEnd(s: string): (r: string)
    ensures |r| <= |s| && r == s[..|r|]
    ensures AllWhitespace(s[|r|..])
    ensures r == [] || !IsJsWhitespace(r[|r| - 1])
  {
    if s != [] && IsJsWhitespace(s[|s| - 1]) then TrimEnd(s[..|s| - 1]) else s
  }

  /** `s.trim()`: the longest middle slice of `s` that neither starts nor ends with white space. */
  function Trim(s: string): (r: string)
    ensures |r| <= |s|
    ensures r == [] || (!IsJsWhitespace(r[0]) && !IsJsWhitespace(r[|r| - 1]))
  {
    var t := TrimStart(s);
    var r := TrimEnd(t);
    assert r != [] ==> r[0] == t[0];
    r
  }

  /** The guard of the add handler: the typed name trims to the empty string. */
  predicate IsBlank(s: string)
    ensures IsBlank(s) <==> AllWhitespace(s)
  {
    BlankIffAllWhitespace(s);
    Trim(s) == ""
  }

  /** A name is blank exactly when every one of its characters is white space (the empty name included). */
  lemma {:induction false} BlankIffAllWhitespace(s: string)
    ensures Trim(s) == "" <==> AllWhitespace(s)
  {
    var t := TrimStart(s);
    if t == [] {
      assert s[..|s| - |t|] == s;
    } else {
      assert !IsJsWhitespace(t[0]);
      assert TrimEnd(t) != [];
      assert s[|s| - |t|] == t[0];
    }
  }

  /** Trimming is a slice of the input framed by white space on both sides, and it cannot be trimmed further. */
  lemma TrimIsFramedSlice(s: string)
    ensures exists i, j :: 0 <= i <= j <= |s| && Trim(s) == s[i..j]
                           && AllWhitespace(s[..i]) && AllWhitespace(s[j..])
    ensures Trim(Trim(s)) == Trim(s)
  {
    var t := TrimStart(s);
    var i := |s| - |t|;
    var r := TrimEnd(t);
    var j := i + |r|;
    assert r == s[i..j];
    assert s[j..] == t[|r|..];
    assert Trim(s) == s[i..j] && AllWhitespace(s[..i]) && AllWhitespace(s[j..]);
    if r != [] {
      assert !IsJsWhitespace(r[0]) by {
        assert r[0] == t[0];
      }
      assert TrimStart(r) == r;
      assert TrimEnd(r) == r;
    }
  }
}

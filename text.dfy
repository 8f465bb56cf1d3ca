/** The string operations the catalog relies on, restricted to ASCII:
    Python's `str.strip()`, `str.title()`, the case-insensitive comparison
    behind `prod_name__iexact`, and the code-point order `list.sort` uses
    on names. */
module Text {

  /** ASCII characters that `str.isspace()` accepts: space, \t \n \v \f \r
      and the four separators 0x1C-0x1F. */
  predicate IsSpace(c: char) {
    c == ' ' || 9 <= c as int <= 13 || 28 <= c as int <= 31
  }

  predicate IsLetter(c: char) {
    'a' <= c <= 'z' || 'A' <= c <= 'Z'
  }

  function ToUpper(c: char): (u: char)
    ensures IsLetter(u) == IsLetter(c) && IsSpace(u) == IsSpace(c)
    ensures !IsLetter(c) ==> u == c
    ensures !('a' <= u <= 'z')
  {
    if 'a' <= c <= 'z' then (c as int - 32) as char else c
  }

  function ToLower(c: char): (l: char)
    ensures IsLetter(l) == IsLetter(c) && IsSpace(l) == IsSpace(c)
    ensures !IsLetter(c) ==> l == c
    ensures !('A' <= l <= 'Z')
  {
    if 'A' <= c <= 'Z' then (c as int + 32) as char else c
  }

  /** `str.lstrip()`: the longest suffix that does not start with whitespace,
      everything dropped in front of it being whitespace. */
  function StripLeft(s: string): (r: string)
    ensures |r| <= |s| && r == s[|s| - |r|..]
    ensures forall k :: 0 <= k < |s| - |r| ==> IsSpace(s[k])
    ensures r == [] || !IsSpace(r[0])
  {
    if s != [] && IsSpace(s[0]) then StripLeft(s[1..]) else s
  }

  /** `str.rstrip()`: the longest prefix that does not end with whitespace,
      everything dropped behind it being whitespace. */
  function StripRight(s: string): (r: string)
    ensures |r| <= |s| && r == s[..|r|]
    ensures forall k :: |r| <= k < |s| ==> IsSpace(s[k])
    ensures r == [] || !IsSpace(r[|r| - 1])
  {
    if s != [] && IsSpace(s[|s| - 1]) then StripRight(s[..|s| - 1]) else s
  }

  /** A string with no whitespace at either end. */
  predicate Stripped(s: string) {
    s == [] || (!IsSpace(s[0]) && !IsSpace(s[|s| - 1]))
  }

  /** `str.strip()`: the slice of `s` left once the whitespace at both ends
      is dropped, whitespace and nothing else. */
  function Strip(s: string): (r: string)
    ensures Stripped(r) && |r| <= |s|
    ensures exists i, j ::
              && 0 <= i <= j <= |s| && r == s[i..j]
              && (forall k :: 0 <= k < i ==> IsSpace(s[k]))
              && (forall k :: j <= k < |s| ==> IsSpace(s[k]))
  {
    var t := StripLeft(s);
    var r := StripRight(t);
    StripSlice(s, t, r);
    r
  }

  /** Where the two halves of `Strip` cut `s`. */
  lemma StripSlice(s: string, t: string, r: string)
    requires |t| <= |s| && t == s[|s| - |t|..]
    requires forall k :: 0 <= k < |s| - |t| ==> IsSpace(s[k])
    requires t == [] || !IsSpace(t[0])
    requires |r| <= |t| && r == t[..|r|]
    requires forall k :: |r| <= k < |t| ==> IsSpace(t[k])
    requires r == [] || !IsSpace(r[|r| - 1])
    ensures Stripped(r) && |r| <= |s|
    ensures exists i, j ::
              && 0 <= i <= j <= |s| && r == s[i..j]
              && (forall k :: 0 <= k < i ==> IsSpace(s[k]))
              && (forall k :: j <= k < |s| ==> IsSpace(s[k]))
  {
    var i := |s| - |t|;
    var j := i + |r|;
    assert r != [] ==> r[0] == t[0];
    assert forall k :: 0 <= k < |r| ==> r[k] == t[k] == s[i + k];
    assert r == s[i..j];
    forall k | j <= k < |s| ensures IsSpace(s[k]) {
      assert s[k] == t[k - i];
    }
  }

  lemma StripKeepsStripped(s: string)
    requires Stripped(s)
    ensures Strip(s) == s
  {
  }

  /** Stripping twice is stripping once. */
  lemma StripIdempotent(s: string)
    ensures Strip(Strip(s)) == Strip(s)
  {
    StripKeepsStripped(Strip(s));
  }

  /** The title-casing of `s` when the character before it was (`afterLetter`)
      or was not a letter: a letter is upper-cased exactly when the character
      before it is not a letter, and lower-cased otherwise; other characters
      are kept. */
  function TitleFrom(s: string, afterLetter: bool): (r: string)
    ensures |r| == |s|
    ensures forall k :: 0 <= k < |s| ==>
      r[k] == if (if k == 0 then afterLetter else IsLetter(s[k - 1])) then ToLower(s[k]) else ToUpper(s[k])
  {
    if s == [] then []
    else
      var rest := TitleFrom(s[1..], IsLetter(s[0]));
      var r := [if afterLetter then ToLower(s[0]) else ToUpper(s[0])] + rest;
      assert forall k :: 1 <= k < |s| ==> r[k] == rest[k - 1] && s[1..][k - 1] == s[k];
      r
  }

  /** `str.title()` on ASCII text. */
  function Title(s: string): (r: string)
    ensures |r| == |s|
    ensures forall k :: 0 <= k < |s| ==>
      r[k] == if k == 0 || !IsLetter(s[k - 1]) then ToUpper(s[k]) else ToLower(s[k])
  {
    TitleFrom(s, false)
  }

  /** Title-casing an already title-cased string changes nothing. */
  lemma TitleIdempotent(s: string)
    ensures Title(Title(s)) == Title(s)
  {
    var t := Title(s);
    var tt := Title(t);
    forall k | 0 <= k < |s|
      ensures tt[k] == t[k]
    {
      if k > 0 {
        var j := k - 1;
        assert t[j] == if j == 0 || !IsLetter(s[j - 1]) then ToUpper(s[j]) else ToLower(s[j]);
        assert IsLetter(t[j]) == IsLetter(s[j]);
      }
    }
  }

  /** Title-casing keeps whitespace where it was and never creates any. */
  lemma TitleKeepsStripped(s: string)
    requires Stripped(s)
    ensures Stripped(Title(s))
  {
    if s != [] {
      var t := Title(s);
      assert t[0] == ToUpper(s[0]);
      var k := |s| - 1;
      assert t[k] == if k == 0 || !IsLetter(s[k - 1]) then ToUpper(s[k]) else ToLower(s[k]);
    }
  }

  /** The name normalisation of the product form and the product model:
      strip, then title-case. */
  function Normalize(s: string): (r: string)
    ensures |r| == |Strip(s)| && Stripped(r)
  {
    TitleKeepsStripped(Strip(s));
    Title(Strip(s))
  }

  /** Normalising a normalised name returns it unchanged. */
  lemma NormalizeIdempotent(s: string)
    ensures Normalize(Normalize(s)) == Normalize(s)
  {
    var n := Normalize(s);
    StripKeepsStripped(n);
    TitleIdempotent(Strip(s));
  }

  /** ASCII case folding, the comparison behind a case-insensitive match. */
  function Fold(s: string): (r: string)
    ensures |r| == |s|
    ensures forall k :: 0 <= k < |s| ==> r[k] == ToLower(s[k])
  {
    seq(|s|, k requires 0 <= k < |s| => ToLower(s[k]))
  }

  predicate SameIgnoringCase(a: string, b: string) {
    Fold(a) == Fold(b)
  }

  /** Lower-casing forgets any earlier change of case. */
  lemma LowerAbsorbsCase(c: char)
    ensures ToLower(ToUpper(c)) == ToLower(c) && ToLower(ToLower(c)) == ToLower(c)
  {
  }

  /** Title-casing only changes the case of letters, so a title-cased name
      matches its input ignoring case. */
  lemma TitleSameIgnoringCase(s: string)
    ensures SameIgnoringCase(Title(s), s)
  {
    var t := Title(s);
    forall k | 0 <= k < |s| ensures ToLower(t[k]) == ToLower(s[k]) {
      assert t[k] == if k == 0 || !IsLetter(s[k - 1]) then ToUpper(s[k]) else ToLower(s[k]);
      LowerAbsorbsCase(s[k]);
    }
    assert Fold(t) == Fold(s);
  }

  /** The normal form of a name matches its stripped form ignoring case. */
  lemma NormalizeSameIgnoringCase(s: string)
    ensures SameIgnoringCase(Normalize(s), Strip(s))
  {
    TitleSameIgnoringCase(Strip(s));
  }

  /** Code-point lexicographic order on strings, the order Python uses for
      `<` on `str`; `NameLe(a, b)` is `a <= b`. */
  predicate NameLe(a: string, b: string) {
    a == [] || (b != [] && (a[0] < b[0] || (a[0] == b[0] && NameLe(a[1..], b[1..]))))
  }

  lemma {:induction false} NameLeTotal(a: string, b: string)
    ensures NameLe(a, b) || NameLe(b, a)
  {
    if a != [] && b != [] && a[0] == b[0] {
      NameLeTotal(a[1..], b[1..]);
    }
  }

  lemma {:induction false} NameLeTransitive(a: string, b: string, c: string)
    requires NameLe(a, b) && NameLe(b, c)
    ensures NameLe(a, c)
  {
    if a != [] && b != [] && c != [] && a[0] == b[0] && b[0] == c[0] {
      NameLeTransitive(a[1..], b[1..], c[1..]);
    }
  }
}

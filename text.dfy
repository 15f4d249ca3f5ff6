/**
 * The three Python string methods both scripts rely on, restricted to ASCII:
 * `str.strip()` (no argument), `str.lower()` and `str.title()`.
 * Characters outside ASCII are never whitespace, never letters and are left
 * unchanged by every case mapping.
 */
module Text {

  /** Python's `str.isspace` on ASCII: space, \t \n \v \f \r and the separators 0x1C-0x1F. */
  predicate IsSpace(c: char) {
    var n := c as int;
    n == 32 || 9 <= n <= 13 || 28 <= n <= 31
  }

  predicate AllSpace(s: string) {
    forall i :: 0 <= i < |s| ==> IsSpace(s[i])
  }

  /** The string neither starts nor ends with whitespace. */
  predicate NoEdgeSpace(s: string) {
    s == [] || (!IsSpace(s[0]) && !IsSpace(s[|s| - 1]))
  }

  predicate IsUpper(c: char) { 'A' <= c <= 'Z' }
  predicate IsLower(c: char) { 'a' <= c <= 'z' }
  /** A cased character in the sense of `str.title`; over ASCII these are the letters. */
  predicate IsLetter(c: char) { IsUpper(c) || IsLower(c) }

  function LowerChar(c: char): char {
    if IsUpper(c) then (c as int + 32) as char else c
  }

  function UpperChar(c: char): char {
    if IsLower(c) then (c as int - 32) as char else c
  }

  /** Drops leading whitespace. */
  function TrimStart(s: string): string {
    if |s| > 0 && IsSpace(s[0]) then TrimStart(s[1..]) else s
  }

  /** Drops trailing whitespace. */
  function TrimEnd(s: string): string {
    if |s| > 0 && IsSpace(s[|s| - 1]) then TrimEnd(s[..|s| - 1]) else s
  }

  /** `s.strip()`: never longer than `s`, and never starting or ending with whitespace. */
  function Strip(s: string): (r: string)
    ensures |r| <= |s|
    ensures NoEdgeSpace(r)
  {
    TrimStartSpec(s);
    TrimEndSpec(TrimStart(s));
    TrimEnd(TrimStart(s))
  }

  lemma {:induction false} TrimStartSpec(s: string)
    ensures var r := TrimStart(s);
            && |r| <= |s| && r == s[|s| - |r|..]
            && AllSpace(s[..|s| - |r|])
            && (r == [] || !IsSpace(r[0]))
  {
    if |s| > 0 && IsSpace(s[0]) {
      TrimStartSpec(s[1..]);
      var r := TrimStart(s[1..]);
      assert s[1..][..|s| - 1 - |r|] == s[1..|s| - |r|];
    }
  }

  lemma {:induction false} TrimEndSpec(s: string)
    ensures var r := TrimEnd(s);
            && |r| <= |s| && r == s[..|r|]
            && AllSpace(s[|r|..])
            && (r == [] || !IsSpace(r[|r| - 1]))
  {
    if |s| > 0 && IsSpace(s[|s| - 1]) {
      TrimEndSpec(s[..|s| - 1]);
      var r := TrimEnd(s[..|s| - 1]);
      assert s[..|s| - 1][|r|..] + [s[|s| - 1]] == s[|r|..];
    }
  }

  /**
   * What `s.strip()` returns: the middle of `s` once the whitespace on
   * either side is cut away, with no whitespace left at either edge.
   */
  lemma StripSpec(s: string)
    ensures NoEdgeSpace(Strip(s))
    ensures var r := Strip(s);
            exists i :: 0 <= i <= |s| - |r| && r == s[i..i + |r|]
                        && AllSpace(s[..i]) && AllSpace(s[i + |r|..])
  {
    var t := TrimStart(s);
    TrimStartSpec(s);
    TrimEndSpec(t);
    var r := TrimEnd(t);
    var i := |s| - |t|;
    assert r == s[i..i + |r|];
    assert s[i + |r|..] == t[|r|..];
  }

  /** `s.lower()`: the same length. */
  function Lower(s: string): (r: string)
    ensures |r| == |s|
  {
    seq(|s|, i requires 0 <= i < |s| => LowerChar(s[i]))
  }

  /** Lower-casing leaves no upper-case letter, so doing it twice is doing it once. */
  lemma LowerIdempotent(s: string)
    ensures forall i :: 0 <= i < |s| ==> !IsUpper(Lower(s)[i])
    ensures Lower(Lower(s)) == Lower(s)
  {
    forall i | 0 <= i < |s| ensures Lower(Lower(s))[i] == Lower(s)[i] {
      CaseMapping(s[i]);
    }
  }

  /** The character `str.title` writes for `c`, given whether the previous character was cased. */
  function TitleChar(c: char, afterLetter: bool): char {
    if afterLetter then LowerChar(c) else UpperChar(c)
  }

  /**
   * CPython's title-casing scan: walk the string once, remembering whether
   * the previous character was cased.
   */
  function TitleFrom(s: string, afterLetter: bool): (r: string)
    ensures |r| == |s|
    ensures forall i :: 0 <= i < |s| ==>
              r[i] == TitleChar(s[i], if i == 0 then afterLetter else IsLetter(s[i - 1]))
  {
    if s == [] then []
    else [TitleChar(s[0], afterLetter)] + TitleFrom(s[1..], IsLetter(s[0]))
  }

  /** `s.title()`: the same length, with a string's first character upper-cased. */
  function Title(s: string): (r: string)
    ensures |r| == |s|
    ensures s != [] ==> r[0] == UpperChar(s[0])
  {
    TitleFrom(s, false)
  }

  /**
   * What `str.title` promises of its result, stated position by position:
   * a letter that does not follow a letter is upper case, every other letter
   * is lower case.
   */
  predicate IsTitled(s: string) {
    forall i :: 0 <= i < |s| ==> TitledAt(s, i)
  }

  predicate TitledAt(s: string, i: nat)
    requires i < |s|
  {
    IsLetter(s[i]) ==> if i > 0 && IsLetter(s[i - 1]) then IsLower(s[i]) else IsUpper(s[i])
  }

  /** The case mappings change letters only, and only their case. */
  lemma CaseMapping(c: char)
    ensures !IsLetter(c) ==> LowerChar(c) == c && UpperChar(c) == c
    ensures IsLetter(c) ==> IsLower(LowerChar(c)) && IsUpper(UpperChar(c))
    ensures LowerChar(UpperChar(c)) == LowerChar(c) && LowerChar(LowerChar(c)) == LowerChar(c)
    ensures IsLower(c) ==> LowerChar(c) == c
    ensures IsUpper(c) ==> UpperChar(c) == c
    ensures IsLetter(LowerChar(c)) == IsLetter(c) && IsLetter(UpperChar(c)) == IsLetter(c)
    ensures IsLetter(c) ==> !IsSpace(c)
    ensures IsSpace(LowerChar(c)) == IsSpace(c) && IsSpace(UpperChar(c)) == IsSpace(c)
  {
  }

  /** The scan agrees with the position-by-position description. */
  lemma TitleAt(s: string, i: nat)
    requires i < |s|
    ensures |Title(s)| == |s|
    ensures IsLetter(Title(s)[i]) == IsLetter(s[i])
    ensures IsSpace(Title(s)[i]) == IsSpace(s[i])
    ensures LowerChar(Title(s)[i]) == LowerChar(s[i])
    ensures Title(s)[i] == if !IsLetter(s[i]) then s[i]
                           else if i > 0 && IsLetter(s[i - 1]) then LowerChar(s[i])
                           else UpperChar(s[i])
  {
    CaseMapping(s[i]);
    assert Title(s)[i] == TitleChar(s[i], i > 0 && IsLetter(s[i - 1]));
  }

  /** Title-casing yields a titled string. */
  lemma TitleIsTitled(s: string)
    ensures IsTitled(Title(s))
  {
    var t := Title(s);
    forall i | 0 <= i < |t| ensures TitledAt(t, i) {
      TitleAt(s, i);
      if i > 0 { TitleAt(s, i - 1); }
    }
  }

  /** A titled string is a fixed point of title-casing. */
  lemma TitledIsFixed(s: string)
    requires IsTitled(s)
    ensures Title(s) == s
  {
    forall i | 0 <= i < |s| ensures Title(s)[i] == s[i] {
      TitleAt(s, i);
      CaseMapping(s[i]);
      assert TitledAt(s, i);
    }
  }

  /** Title-casing is idempotent. */
  lemma TitleIdempotent(s: string)
    ensures Title(Title(s)) == Title(s)
  {
    TitleIsTitled(s);
    TitledIsFixed(Title(s));
  }

  /** Title-casing changes letters only, so it keeps a stripped string stripped. */
  lemma TitleKeepsNoEdgeSpace(s: string)
    requires NoEdgeSpace(s)
    ensures NoEdgeSpace(Title(s))
  {
    if s != [] {
      TitleAt(s, 0);
      TitleAt(s, |s| - 1);
    }
  }

  /** Stripping a string that has no whitespace at its edges gives it back. */
  lemma StripNoEdgeSpace(s: string)
    requires NoEdgeSpace(s)
    ensures Strip(s) == s
  {
    var r := Strip(s);
    StripSpec(s);
    var i :| 0 <= i <= |s| - |r| && r == s[i..i + |r|] && AllSpace(s[..i]) && AllSpace(s[i + |r|..]);
  }

  /** Stripping is idempotent. */
  lemma StripIdempotent(s: string)
    ensures Strip(Strip(s)) == Strip(s)
  {
    StripSpec(s);
    StripNoEdgeSpace(Strip(s));
  }

  /**
   * Two strings title-case alike exactly when they agree ignoring case:
   * `str.title` forgets the case of the input and nothing else.
   */
  lemma TitleEqualIffLowerEqual(s: string, t: string)
    ensures Title(s) == Title(t) <==> Lower(s) == Lower(t)
  {
    if Lower(s) == Lower(t) {
      assert |s| == |t|;
      forall i | 0 <= i < |s| ensures Title(s)[i] == Title(t)[i] {
        assert Lower(s)[i] == Lower(t)[i];
        LetterwiseCase(s[i], t[i]);
        TitleAt(s, i);
        TitleAt(t, i);
        if i > 0 {
          assert Lower(s)[i - 1] == Lower(t)[i - 1];
          LetterwiseCase(s[i - 1], t[i - 1]);
        }
      }
    }
    if Title(s) == Title(t) {
      assert |Title(s)| == |s| && |Title(t)| == |t|;
      forall i | 0 <= i < |s| ensures Lower(s)[i] == Lower(t)[i] {
        TitleAt(s, i);
        TitleAt(t, i);
      }
    }
  }

  /** Characters that agree ignoring case agree on letterness and on both case mappings. */
  lemma LetterwiseCase(c: char, d: char)
    requires LowerChar(c) == LowerChar(d)
    ensures IsLetter(c) == IsLetter(d)
    ensures UpperChar(c) == UpperChar(d)
    ensures !IsLetter(c) ==> c == d
  {
  }

  /** `s.lower() == "q"` holds for exactly the two spellings "q" and "Q". */
  lemma LowerIsSingle(s: string, c: char)
    requires IsLower(c)
    ensures Lower(s) == [c] <==> s == [c] || s == [UpperChar(c)]
  {
    if Lower(s) == [c] {
      assert Lower(s)[0] == LowerChar(s[0]);
    }
  }

  /** A character that is not a letter lower-cases only from itself. */
  lemma LowerIsSingleCaseless(s: string, c: char)
    requires !IsLetter(c)
    ensures Lower(s) == [c] <==> s == [c]
  {
    if Lower(s) == [c] {
      assert Lower(s)[0] == LowerChar(s[0]);
    }
  }
}

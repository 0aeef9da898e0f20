/** String and number helpers of the .NET base library that the viewer relies on:
    decimal rendering and parsing, trimming, splitting, ordinal replacement and
    the `System.IO.Path` name functions. Each is written out so that the
    viewer's own logic can be stated on top of it. */
module Text {
  import opened Wrappers

  // ---------------------------------------------------------------- digits

  predicate IsDigit(c: char) { '0' <= c <= '9' }

  /** Every character is an ASCII digit (true of the empty string). */
  predicate AllDigits(s: string) { forall i :: 0 <= i < |s| ==> IsDigit(s[i]) }

  /** No character is an ASCII digit. */
  predicate NoDigits(s: string) { forall i :: 0 <= i < |s| ==> !IsDigit(s[i]) }

  function DigitValue(c: char): (d: nat)
    requires IsDigit(c)
    ensures d < 10
  {
    (c as int) - ('0' as int)
  }

  function DigitChar(d: nat): (c: char)
    requires d < 10
    ensures IsDigit(c) && DigitValue(c) == d
  {
    (('0' as int) + d) as char
  }

  /** The number a run of decimal digits denotes, most significant first. */
  function DigitsValue(s: string): nat
    requires AllDigits(s)
  {
    if s == [] then 0 else DigitsValue(s[..|s| - 1]) * 10 + DigitValue(s[|s| - 1])
  }

  /** `UInt32.ToString()` / `Int32.ToString()` of a non-negative value. */
  function NatToString(n: nat): (s: string)
    ensures |s| > 0 && AllDigits(s)
  {
    if n < 10 then [DigitChar(n)] else NatToString(n / 10) + [DigitChar(n % 10)]
  }

  /** `Int32.ToString()` with the invariant culture: a minus sign, then digits. */
  function IntToString(i: int): string
  {
    if i < 0 then "-" + NatToString(-i) else NatToString(i)
  }

  lemma {:induction false} NatToStringValue(n: nat)
    ensures DigitsValue(NatToString(n)) == n
  {
    if n >= 10 {
      var s := NatToString(n);
      assert s[..|s| - 1] == NatToString(n / 10);
      NatToStringValue(n / 10);
    }
  }

  // ------------------------------------------------------------ white space

  /** The white space that `NumberStyles.Integer` skips around a number. */
  predicate IsNumberWhite(c: char) { c == ' ' || '\t' <= c <= '\r' }

  /** `Char.IsWhiteSpace`, the set that `String.Trim()` removes. */
  predicate IsWhiteSpace(c: char)
  {
    c == ' ' || '\t' <= c <= '\r' || c == '\U{85}' || c == '\U{A0}' || c == '\U{1680}'
    || '\U{2000}' <= c <= '\U{200A}' || c == '\U{2028}' || c == '\U{2029}' || c == '\U{202F}'
    || c == '\U{205F}' || c == '\U{3000}'
  }

  /** The white space removed by `String.Trim()` (`numeric` false) or skipped
      around a number (`numeric` true). */
  predicate White(c: char, numeric: bool)
  {
    if numeric then IsNumberWhite(c) else IsWhiteSpace(c)
  }

  function TrimStart(s: string, numeric: bool): string
  {
    if s != [] && White(s[0], numeric) then TrimStart(s[1..], numeric) else s
  }

  function TrimEnd(s: string, numeric: bool): string
  {
    if s != [] && White(s[|s| - 1], numeric) then TrimEnd(s[..|s| - 1], numeric) else s
  }

  /** `TrimStart` removes a run of white space from the front and stops at
      the first character that is not white space. */
  lemma {:induction false} TrimStartSuffix(s: string, numeric: bool)
    ensures var r := TrimStart(s, numeric);
            && |r| <= |s| && (forall i :: 0 <= i < |r| ==> r[i] == s[|s| - |r| + i])
            && (r == [] || !White(r[0], numeric))
            && (forall i :: 0 <= i < |s| - |r| ==> White(s[i], numeric))
  {
    if s != [] && White(s[0], numeric) {
      TrimStartSuffix(s[1..], numeric);
    }
  }

  /** `TrimEnd` removes a run of white space from the back and stops at the
      last character that is not white space. */
  lemma {:induction false} TrimEndPrefix(s: string, numeric: bool)
    ensures var r := TrimEnd(s, numeric);
            && |r| <= |s| && (forall i :: 0 <= i < |r| ==> r[i] == s[i])
            && (r == [] || !White(r[|r| - 1], numeric))
            && (forall i :: |r| <= i < |s| ==> White(s[i], numeric))
  {
    if s != [] && White(s[|s| - 1], numeric) {
      TrimEndPrefix(s[..|s| - 1], numeric);
    }
  }

  /** `String.Trim()`. */
  function Trim(s: string): string
  {
    TrimEnd(TrimStart(s, false), false)
  }

  // ---------------------------------------------------------------- parsing

  /** The white space `NumberStyles.Integer` allows, removed at both ends. */
  function TrimNumber(s: string): string
  {
    TrimEnd(TrimStart(s, true), true)
  }

  lemma TrimNumberKeepsNoDigits(s: string)
    requires NoDigits(s)
    ensures NoDigits(TrimNumber(s))
  {
    TrimStartKeepsNoDigits(s);
    TrimEndKeepsNoDigits(TrimStart(s, true));
  }

  lemma TrimStartKeepsNoDigits(s: string)
    requires NoDigits(s)
    ensures NoDigits(TrimStart(s, true))
  {
    var u := TrimStart(s, true);
    TrimStartSuffix(s, true);
    forall i | 0 <= i < |u| ensures !IsDigit(u[i]) {
      assert u[i] == s[|s| - |u| + i];
    }
  }

  lemma TrimEndKeepsNoDigits(u: string)
    requires NoDigits(u)
    ensures NoDigits(TrimEnd(u, true))
  {
    var t := TrimEnd(u, true);
    TrimEndPrefix(u, true);
    forall i | 0 <= i < |t| ensures !IsDigit(t[i]) {
      assert t[i] == u[i];
    }
  }

  /** An optional sign followed by at least one digit: the core of
      `NumberStyles.Integer` once the surrounding white space is gone. The
      result is (negative, magnitude). */
  function SignedDigits(t: string): Option<(bool, nat)>
  {
    if t != [] && (t[0] == '-' || t[0] == '+') then
      var ds := t[1..];
      if ds != [] && AllDigits(ds) then Some((t[0] == '-', DigitsValue(ds))) else None
    else if t != [] && AllDigits(t) then Some((false, DigitsValue(t)))
    else None
  }

  /** `Convert.ToInt32(string)`: white space and sign allowed, FormatException on
      anything else, OverflowException outside the 32-bit range. */
  function ParseInt32(s: string): (r: Result<int>)
    ensures r.Success? ==> -0x8000_0000 <= r.value < 0x8000_0000
    ensures r.Failure? ==> r.error == Format || r.error == Overflow
  {
    match SignedDigits(TrimNumber(s))
    case None => Failure(Format)
    case Some((negative, magnitude)) =>
      var v: int := if negative then -(magnitude as int) else magnitude;
      if -0x8000_0000 <= v < 0x8000_0000 then Success(v) else Failure(Overflow)
  }

  /** `UInt64.TryParse(string, out ulong)`: `None` is a false return. */
  function TryParseULong(s: string): (r: Option<nat>)
    ensures r.Some? ==> r.value < 0x1_0000_0000_0000_0000
  {
    match SignedDigits(TrimNumber(s))
    case None => None
    case Some((negative, magnitude)) =>
      if negative && magnitude != 0 then None
      else if magnitude < 0x1_0000_0000_0000_0000 then Some(magnitude)
      else None
  }

  /** Rendering a 32-bit value and parsing it back gives the value again: the
      `Id` field survives the settings file. */
  lemma IntToStringParses(i: int)
    requires -0x8000_0000 <= i < 0x8000_0000
    ensures ParseInt32(IntToString(i)) == Success(i)
  {
    var s := IntToString(i);
    var m: nat := if i < 0 then -i else i;
    NatToStringValue(m);
    assert TrimStart(s, true) == s by {
      assert s[0] == '-' || IsDigit(s[0]);
    }
    assert TrimEnd(s, true) == s by {
      assert IsDigit(s[|s| - 1]);
    }
    if i < 0 {
      assert s[1..] == NatToString(m);
    }
  }

  /** A non-empty run of digits is read by `UInt64.TryParse` exactly when its
      value fits in 64 bits. */
  lemma TryParseULongOfDigits(s: string)
    requires s != [] && AllDigits(s)
    ensures TryParseULong(s) == if DigitsValue(s) < 0x1_0000_0000_0000_0000 then Some(DigitsValue(s)) else None
  {
    assert !IsNumberWhite(s[0]) && !IsNumberWhite(s[|s| - 1]);
    assert TrimStart(s, true) == s;
  }

  /** A run without digits is never read by `UInt64.TryParse`. */
  lemma TryParseULongOfNonDigits(s: string)
    requires NoDigits(s)
    ensures TryParseULong(s) == None
  {
    var t := TrimNumber(s);
    TrimNumberKeepsNoDigits(s);
    if t != [] && (t[0] == '-' || t[0] == '+') && t[1..] != [] {
      assert !IsDigit(t[1..][0]);
    } else if t != [] {
      assert !IsDigit(t[0]);
    }
  }

  // -------------------------------------------------------------- splitting

  /** `String.Split(char)` with no options: empty pieces are kept, so there
      is always one more piece than there are separators. */
  function Split(s: string, sep: char): (r: seq<string>)
    ensures |r| >= 1
  {
    if s == [] then [""]
    else
      var rest := Split(s[1..], sep);
      if s[0] == sep then [""] + rest else [[s[0]] + rest[0]] + rest[1..]
  }

  function Join(pieces: seq<string>, sep: char): string
    requires |pieces| >= 1
  {
    if |pieces| == 1 then pieces[0] else pieces[0] + [sep] + Join(pieces[1..], sep)
  }

  /** Splitting loses nothing: the pieces joined by the separator give the
      string back. */
  lemma {:induction false} SplitJoin(s: string, sep: char)
    ensures Join(Split(s, sep), sep) == s
  {
    if s != [] {
      SplitJoin(s[1..], sep);
      var rest := Split(s[1..], sep);
      if s[0] != sep && |rest| > 1 {
        calc {
          Join(Split(s, sep), sep);
          ([s[0]] + rest[0]) + [sep] + Join(rest[1..], sep);
          [s[0]] + (rest[0] + [sep] + Join(rest[1..], sep));
          [s[0]] + Join(rest, sep);
        }
      }
    }
  }

  /** A string without the separator splits into itself alone. */
  lemma {:induction false} SplitWithoutSeparator(s: string, sep: char)
    requires sep !in s
    ensures Split(s, sep) == [s]
  {
    if s != [] {
      assert sep !in s[1..] by {
        assert forall k :: 0 <= k < |s[1..]| ==> s[1..][k] == s[k + 1];
      }
      SplitWithoutSeparator(s[1..], sep);
      assert [s[0]] + s[1..] == s;
    }
  }

  /** No piece of a split holds the separator. */
  lemma {:induction false} SplitPiecesFree(s: string, sep: char)
    ensures forall k :: 0 <= k < |Split(s, sep)| ==> sep !in Split(s, sep)[k]
  {
    if s != [] {
      SplitPiecesFree(s[1..], sep);
      var rest := Split(s[1..], sep);
      var r := Split(s, sep);
      if s[0] != sep {
        assert r[0] == [s[0]] + rest[0];
        assert forall k :: 1 <= k < |r| ==> r[k] == rest[k];
      } else {
        assert forall k :: 1 <= k < |r| ==> r[k] == rest[k - 1];
      }
    }
  }

  // ------------------------------------------------------------ replacement

  /** `s.Replace(pat, "")`: ordinal, left to right, non-overlapping. */
  function RemoveAll(s: string, pat: string): string
    requires pat != []
    decreases |s|
  {
    if |s| < |pat| then s
    else if s[..|pat|] == pat then RemoveAll(s[|pat|..], pat)
    else [s[0]] + RemoveAll(s[1..], pat)
  }

  /** `pat` starts at position `i` of `s`. */
  predicate MatchAt(s: string, pat: string, i: nat)
  {
    i + |pat| <= |s| && s[i..i + |pat|] == pat
  }

  /** Removing `pat` from a text that ends with it, and holds no earlier
      match, gives back the text before it: this is how a context-menu
      caption `Name + suffix` leads back to `Name`. */
  lemma {:induction false} RemoveAllSuffix(a: string, pat: string)
    requires pat != []
    requires forall i: nat :: i < |a| ==> !MatchAt(a + pat, pat, i)
    ensures RemoveAll(a + pat, pat) == a
  {
    var s := a + pat;
    if a == [] {
      assert s[..|pat|] == pat;
      assert s[|pat|..] == [];
    } else {
      assert !MatchAt(s, pat, 0);
      assert s[..|pat|] != pat;
      assert s[1..] == a[1..] + pat;
      forall i: nat | i < |a[1..]| ensures !MatchAt(a[1..] + pat, pat, i) {
        assert !MatchAt(s, pat, i + 1);
        assert (a[1..] + pat)[i..i + |pat|] == s[i + 1..i + 1 + |pat|];
      }
      RemoveAllSuffix(a[1..], pat);
    }
  }

  // ------------------------------------------------------------------ paths

  /** The characters `System.IO.Path` treats as ending a path component. */
  predicate IsSeparator(c: char) { c == '\\' || c == '/' || c == ':' }

  /** `Path.GetFileName`: the text after the last separator. */
  function GetFileName(p: string): (r: string)
    ensures |r| <= |p|
  {
    if p == [] then []
    else if IsSeparator(p[|p| - 1]) then []
    else GetFileName(p[..|p| - 1]) + [p[|p| - 1]]
  }

  /** The file name is the longest tail of the path without a separator:
      it ends the path, holds no separator, and a separator precedes it
      unless it is the whole path. */
  lemma {:induction false} GetFileNameSuffix(p: string)
    ensures var r := GetFileName(p);
            && (forall i :: 0 <= i < |r| ==> r[i] == p[|p| - |r| + i])
            && (forall i :: 0 <= i < |r| ==> !IsSeparator(r[i]))
            && (|r| < |p| ==> IsSeparator(p[|p| - |r| - 1]))
  {
    if p != [] && !IsSeparator(p[|p| - 1]) {
      var q := p[..|p| - 1];
      GetFileNameSuffix(q);
      var r := GetFileName(p);
      assert r == GetFileName(q) + [p[|p| - 1]];
      forall i | 0 <= i < |r|
        ensures r[i] == p[|p| - |r| + i] && !IsSeparator(r[i])
      {
        if i < |r| - 1 {
          assert r[i] == GetFileName(q)[i] && q[|q| - |GetFileName(q)| + i] == p[|p| - |r| + i];
        }
      }
      if |r| < |p| {
        assert q[|q| - |GetFileName(q)| - 1] == p[|p| - |r| - 1];
      }
    }
  }

  /** A non-empty extension is a dot followed by at least one character that
      ends the path and holds no further dot or separator. */
  predicate IsExtensionOf(e: string, p: string)
  {
    e == "" || (2 <= |e| <= |p| && e[0] == '.' && e == p[|p| - |e|..]
                && forall k :: 1 <= k < |e| ==> e[k] != '.' && !IsSeparator(e[k]))
  }

  function ExtensionScan(p: string, i: int): (e: string)
    requires -1 <= i < |p|
    requires forall k :: i < k < |p| ==> p[k] != '.' && !IsSeparator(p[k])
    ensures IsExtensionOf(e, p)
    decreases i + 1
  {
    if i < 0 then ""
    else if p[i] == '.' then (if i != |p| - 1 then p[i..] else "")
    else if IsSeparator(p[i]) then ""
    else ExtensionScan(p, i - 1)
  }

  /** `Path.GetExtension`: from the last '.' of the last component, or ""
      when there is none or the '.' ends the path. */
  function GetExtension(p: string): (e: string)
    ensures IsExtensionOf(e, p)
  {
    ExtensionScan(p, |p| - 1)
  }

  /** The index of the last '.' at or before `i`, or -1. */
  function LastDotScan(s: string, i: int): (d: int)
    requires -1 <= i < |s|
    requires forall k :: i < k < |s| ==> s[k] != '.'
    ensures -1 <= d <= i
    ensures d >= 0 ==> s[d] == '.'
    ensures forall k :: d < k < |s| ==> s[k] != '.'
    decreases i + 1
  {
    if i < 0 || s[i] == '.' then i else LastDotScan(s, i - 1)
  }

  /** `Path.GetFileNameWithoutExtension`: the file name cut at its last '.',
      so a trailing '.' is dropped although `GetExtension` sees no
      extension there. */
  function GetFileNameWithoutExtension(p: string): (r: string)
    ensures r <= GetFileName(p)
    ensures '.' !in GetFileName(p) <==> r == GetFileName(p)
    ensures |r| < |GetFileName(p)| ==>
              GetFileName(p)[|r|] == '.' && forall k :: |r| < k < |GetFileName(p)| ==> GetFileName(p)[k] != '.'
    ensures GetExtension(GetFileName(p)) != "" ==> r + GetExtension(GetFileName(p)) == GetFileName(p)
  {
    var name := GetFileName(p);
    var d := LastDotScan(name, |name| - 1);
    var r := if d < 0 then name else name[..d];
    assert '.' in name ==> d >= 0 by {
      if '.' in name {
        var k :| 0 <= k < |name| && name[k] == '.';
      }
    }
    var ext := GetExtension(name);
    if ext != "" then
      var start := |name| - |ext|;
      assert name[start] == ext[0];
      assert d == start;
      assert r + ext == name;
      r
    else r
  }

  /** A trailing '.' is cut although it is no extension, and only the last
      of several dots is cut. */
  lemma GetFileNameWithoutExtensionExamples()
    ensures GetExtension("foo.") == "" && GetFileNameWithoutExtension("foo.") == "foo"
    ensures GetExtension("a.tar.gz") == ".gz" && GetFileNameWithoutExtension("a.tar.gz") == "a.tar"
  {
    GetFileNameWithoutSeparator("foo.");
    GetFileNameWithoutSeparator("a.tar.gz");
    var g := "a.tar.gz";
    assert g[5..] == ".gz";
    assert ExtensionScan(g, 5) == ".gz";
    assert ExtensionScan(g, 7) == ExtensionScan(g, 6) == ExtensionScan(g, 5);
    assert g[..5] + ".gz" == g;
    var r := GetFileNameWithoutExtension("foo.");
    assert "foo."[3] == '.';
    assert |r| == 3;
  }

  /** A path with no separator is its own file name. */
  lemma {:induction false} GetFileNameWithoutSeparator(p: string)
    requires forall i :: 0 <= i < |p| ==> !IsSeparator(p[i])
    ensures GetFileName(p) == p
  {
    if p != [] {
      GetFileNameWithoutSeparator(p[..|p| - 1]);
      assert p[..|p| - 1] + [p[|p| - 1]] == p;
    }
  }

  /** `Char.ToLower` on the ASCII letters. */
  function LowerChar(c: char): (r: char)
    ensures 'A' <= c <= 'Z' ==> r as int == c as int + 32
    ensures !('A' <= c <= 'Z') ==> r == c
  {
    if 'A' <= c <= 'Z' then (c as int + 32) as char else c
  }

  /** `String.ToLower()` on the ASCII letters; `ToLowerChars` states it
      character by character. */
  function ToLower(s: string): (r: string)
    ensures |r| == |s|
  {
    if s == [] then [] else [LowerChar(s[0])] + ToLower(s[1..])
  }

  lemma {:induction false} ToLowerChars(s: string)
    ensures forall i :: 0 <= i < |s| ==> ToLower(s)[i] == LowerChar(s[i])
  {
    if s != [] {
      ToLowerChars(s[1..]);
      assert forall i :: 1 <= i < |s| ==> ToLower(s)[i] == ToLower(s[1..])[i - 1];
    }
  }
}

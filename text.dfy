/** The Foundation string and array operations the converter, the path
    transformer and the template generator rely on, restricted to what they
    use: `components(separatedBy:)` with a one-character separator,
    `joined(separator:)`, `hasPrefix`, `hasSuffix`, `contains`,
    `replacingOccurrences(of:with:)`, `firstIndex(of:)` and ASCII case
    mapping. */
module Text {
  import opened Wrappers

  // ---------------------------------------------------------------------
  // Prefixes, suffixes and substrings
  // ---------------------------------------------------------------------

  predicate HasPrefix(s: string, p: string) {
    |p| <= |s| && s[..|p|] == p
  }

  predicate HasSuffix(s: string, p: string) {
    |p| <= |s| && s[|s| - |p|..] == p
  }

  /** `sub` occurs in `s` starting at index `i`. */
  ghost predicate OccursAt(s: string, sub: string, i: int) {
    0 <= i && i + |sub| <= |s| && s[i..i + |sub|] == sub
  }

  /** `s.contains(sub)`: some suffix of `s` starts with `sub`. */
  predicate Contains(s: string, sub: string)
    decreases |s|
  {
    HasPrefix(s, sub) || (|s| > 0 && Contains(s[1..], sub))
  }

  lemma {:induction false} ContainsIff(s: string, sub: string)
    ensures Contains(s, sub) <==> exists i :: OccursAt(s, sub, i)
    decreases |s|
  {
    if HasPrefix(s, sub) {
      assert OccursAt(s, sub, 0);
    } else if |s| > 0 {
      ContainsIff(s[1..], sub);
      if Contains(s[1..], sub) {
        var i :| OccursAt(s[1..], sub, i);
        assert s[1..][i..i + |sub|] == s[i + 1..i + 1 + |sub|];
        assert OccursAt(s, sub, i + 1);
      } else {
        forall i | OccursAt(s, sub, i) ensures false {
          if i != 0 {
            assert s[1..][i - 1..i - 1 + |sub|] == s[i..i + |sub|];
            assert OccursAt(s[1..], sub, i - 1);
          }
        }
      }
    }
  }

  // ---------------------------------------------------------------------
  // replacingOccurrences(of:with:)
  // ---------------------------------------------------------------------

  /** Every character of a contained string occurs in the string. */
  lemma {:induction false} ContainsHasChar(s: string, sub: string, k: nat)
    requires Contains(s, sub) && k < |sub|
    ensures sub[k] in s
    decreases |s|
  {
    if HasPrefix(s, sub) {
      assert s[k] == sub[k];
    } else {
      ContainsHasChar(s[1..], sub, k);
    }
  }

  /** Every occurrence of `pat`, found left to right without overlap, is
      replaced by `rep`.
      An empty `pat` leaves `s` as it is. */
  function ReplaceAll(s: string, pat: string, rep: string): (r: string)
    ensures !Contains(s, pat) ==> r == s
    decreases |s|
  {
    if |pat| == 0 || |s| < |pat| then s
    else if s[..|pat|] == pat then rep + ReplaceAll(s[|pat|..], pat, rep)
    else [s[0]] + ReplaceAll(s[1..], pat, rep)
  }

  /** A prefix in which no occurrence of `pat` starts passes through
      unchanged. */
  lemma {:induction false} ReplaceAllSkip(a: string, t: string, pat: string, rep: string)
    requires |pat| > 0
    requires forall i :: 0 <= i < |a| ==> !OccursAt(a + t, pat, i)
    ensures ReplaceAll(a + t, pat, rep) == a + ReplaceAll(t, pat, rep)
    decreases |a|
  {
    if |a| == 0 {
      assert a + t == t;
    } else {
      var s := a + t;
      if |s| < |pat| {
        assert ReplaceAll(t, pat, rep) == t;
      } else {
        assert !OccursAt(s, pat, 0);
        assert s[..|pat|] != pat;
        assert s[1..] == a[1..] + t;
        forall i | 0 <= i < |a| - 1 ensures !OccursAt(a[1..] + t, pat, i) {
          if OccursAt(a[1..] + t, pat, i) {
            assert (a[1..] + t)[i..i + |pat|] == s[i + 1..i + 1 + |pat|];
            assert OccursAt(s, pat, i + 1);
          }
        }
        ReplaceAllSkip(a[1..], t, pat, rep);
        assert ReplaceAll(s, pat, rep) == [s[0]] + ReplaceAll(s[1..], pat, rep);
        assert [s[0]] + a[1..] == a;
      }
    }
  }

  /** No occurrence of `pat` starts inside `a` when the character `pat`
      has at offset `d` occurs neither in `a` nor in the next `d` characters. */
  lemma NoMatchBefore(a: string, u: string, v: string, pat: string, d: nat)
    requires d < |pat| && d <= |u|
    requires pat[d] !in a + u
    ensures forall i :: 0 <= i < |a| ==> !OccursAt(a + (u + v), pat, i)
  {
    var s := a + (u + v);
    forall i | 0 <= i < |a| ensures !OccursAt(s, pat, i) {
      assert s[i + d] == (a + u)[i + d];
    }
  }

  // ---------------------------------------------------------------------
  // components(separatedBy:) and joined(separator:)
  // ---------------------------------------------------------------------

  /** Splitting keeps empty pieces: "" gives [""], "a//b" gives ["a", "", "b"]. */
  function Split(s: string, sep: char): (parts: seq<string>)
    ensures |parts| >= 1
    ensures forall i :: 0 <= i < |parts| ==> sep !in parts[i]
    decreases |s|
  {
    if |s| == 0 then [""]
    else
      var rest := Split(s[1..], sep);
      if s[0] == sep then [""] + rest
      else [[s[0]] + rest[0]] + rest[1..]
  }

  lemma SplitSeparatorStep(s: string, sep: char)
    requires |s| > 0 && s[0] == sep
    ensures Split(s, sep) == [""] + Split(s[1..], sep)
  {
  }

  lemma SplitLetterStep(s: string, sep: char)
    requires |s| > 0 && s[0] != sep
    ensures Split(s, sep) == [[s[0]] + Split(s[1..], sep)[0]] + Split(s[1..], sep)[1..]
  {
  }

  function Join(parts: seq<string>, sep: string): string
    decreases |parts|
  {
    if |parts| == 0 then ""
    else if |parts| == 1 then parts[0]
    else parts[0] + sep + Join(parts[1..], sep)
  }

  lemma {:induction false} SplitNoSeparator(s: string, sep: char)
    requires sep !in s
    ensures Split(s, sep) == [s]
    decreases |s|
  {
    if |s| > 0 {
      SplitNoSeparator(s[1..], sep);
      assert [s[0]] + s[1..] == s;
    }
  }

  /** Splitting distributes over a separator. */
  lemma {:induction false} SplitConcat(a: string, b: string, sep: char)
    ensures Split(a + [sep] + b, sep) == Split(a, sep) + Split(b, sep)
    decreases |a|
  {
    var s := a + [sep] + b;
    if |a| == 0 {
      assert s[1..] == b;
    } else {
      assert s[1..] == a[1..] + [sep] + b;
      SplitConcat(a[1..], b, sep);
    }
  }

  lemma {:induction false} JoinSplit(s: string, sep: char)
    ensures Join(Split(s, sep), [sep]) == s
    decreases |s|
  {
    if |s| > 0 {
      var rest := Split(s[1..], sep);
      JoinSplit(s[1..], sep);
      if s[0] == sep {
        assert Split(s, sep) == [""] + rest;
      } else {
        var parts := Split(s, sep);
        assert parts[0] == [s[0]] + rest[0] && parts[1..] == rest[1..];
        if |rest| == 1 {
          assert Join(parts, [sep]) == [s[0]] + rest[0];
        } else {
          assert Join(parts, [sep]) == [s[0]] + rest[0] + [sep] + Join(rest[1..], [sep]);
        }
      }
    }
  }

  lemma {:induction false} SplitJoin(parts: seq<string>, sep: char)
    requires |parts| >= 1
    requires forall i :: 0 <= i < |parts| ==> sep !in parts[i]
    ensures Split(Join(parts, [sep]), sep) == parts
    decreases |parts|
  {
    SplitNoSeparator(parts[0], sep);
    if |parts| > 1 {
      SplitJoin(parts[1..], sep);
      SplitConcat(parts[0], Join(parts[1..], [sep]), sep);
    }
  }

  /** A character absent from every part and from the separator is absent
      from the joined string. */
  lemma {:induction false} JoinExcludes(parts: seq<string>, sep: string, ch: char)
    requires ch !in sep
    requires forall i :: 0 <= i < |parts| ==> ch !in parts[i]
    ensures ch !in Join(parts, sep)
    decreases |parts|
  {
    if |parts| > 1 {
      JoinExcludes(parts[1..], sep, ch);
    }
  }

  /** Concatenation (joining with the empty separator) distributes over
      appending part lists. */
  lemma {:induction false} ConcatAppend(xs: seq<string>, ys: seq<string>)
    ensures Join(xs + ys, "") == Join(xs, "") + Join(ys, "")
    decreases |xs|
  {
    if |xs| == 0 {
      assert xs + ys == ys;
    } else if |xs| == 1 {
      if |ys| == 0 {
        assert xs + ys == xs;
      } else {
        assert (xs + ys)[1..] == ys;
      }
    } else {
      assert (xs + ys)[1..] == xs[1..] + ys;
      ConcatAppend(xs[1..], ys);
    }
  }

  // ---------------------------------------------------------------------
  // File names: the text before the first '.', and the rest
  // ---------------------------------------------------------------------

  /** `components(separatedBy: ".")[0]` */
  function Stem(fileName: string): string {
    Split(fileName, '.')[0]
  }

  /** `components(separatedBy: ".").dropFirst().joined(separator: ".")` */
  function Ext(fileName: string): string {
    Join(Split(fileName, '.')[1..], ".")
  }

  lemma StemExt(f: string)
    requires '.' in f
    ensures |Split(f, '.')| > 1
    ensures f == Stem(f) + "." + Ext(f)
    ensures '.' !in Stem(f)
  {
    var parts := Split(f, '.');
    JoinSplit(f, '.');
    assert |parts| != 1;
  }

  lemma StemOfDotted(stem: string, ext: string)
    requires '.' !in stem
    ensures Stem(stem + "." + ext) == stem
    ensures Ext(stem + "." + ext) == ext
  {
    SplitConcat(stem, ext, '.');
    SplitNoSeparator(stem, '.');
    JoinSplit(ext, '.');
    assert Split(stem + "." + ext, '.')[1..] == Split(ext, '.');
  }

  // ---------------------------------------------------------------------
  // firstIndex(of:) and firstIndex(where:)
  // ---------------------------------------------------------------------

  function FirstIndexOf(c: seq<string>, x: string): (r: Option<nat>)
    ensures r.None? <==> x !in c
    ensures r.Some? ==> r.value < |c| && c[r.value] == x && x !in c[..r.value]
    decreases |c|
  {
    if |c| == 0 then None
    else if c[0] == x then Some(0)
    else
      match FirstIndexOf(c[1..], x)
      case None => None
      case Some(i) =>
        assert c[..i + 1] == [c[0]] + c[1..][..i];
        Some(i + 1)
  }

  /** The first occurrence is the one with none before it. */
  lemma FirstIndexOfIs(c: seq<string>, x: string, i: nat)
    requires i < |c| && c[i] == x && x !in c[..i]
    ensures FirstIndexOf(c, x) == Some(i)
  {
    var k := FirstIndexOf(c, x).value;
    assert forall j :: 0 <= j < i ==> c[..i][j] == c[j];
    assert forall j :: 0 <= j < k ==> c[..k][j] == c[j];
  }

  /** Index of the first segment ending in "_web". */
  function FirstWebIndex(c: seq<string>): (r: Option<nat>)
    ensures r.None? <==> forall j :: 0 <= j < |c| ==> !HasSuffix(c[j], "_web")
    ensures r.Some? ==> r.value < |c| && HasSuffix(c[r.value], "_web")
    ensures r.Some? ==> forall j :: 0 <= j < r.value ==> !HasSuffix(c[j], "_web")
    decreases |c|
  {
    if |c| == 0 then None
    else if HasSuffix(c[0], "_web") then Some(0)
    else
      match FirstWebIndex(c[1..])
      case None => None
      case Some(i) => Some(i + 1)
  }

  /** Index of the first segment that is "lib" or "test". */
  function FirstRootIndex(c: seq<string>): (r: Option<nat>)
    ensures r.None? <==> "lib" !in c && "test" !in c
    ensures r.Some? ==> r.value < |c| && (c[r.value] == "lib" || c[r.value] == "test")
    ensures r.Some? ==> "lib" !in c[..r.value] && "test" !in c[..r.value]
    decreases |c|
  {
    if |c| == 0 then None
    else if c[0] == "lib" || c[0] == "test" then Some(0)
    else
      match FirstRootIndex(c[1..])
      case None => None
      case Some(i) =>
        assert c[..i + 1] == [c[0]] + c[1..][..i];
        Some(i + 1)
  }

  // ---------------------------------------------------------------------
  // ASCII case mapping (`lowercased()` / `uppercased()` on ASCII text)
  // ---------------------------------------------------------------------

  predicate IsUpper(ch: char) { 'A' <= ch <= 'Z' }

  predicate IsLower(ch: char) { 'a' <= ch <= 'z' }

  predicate IsDigit(ch: char) { '0' <= ch <= '9' }

  function LowerChar(ch: char): (r: char)
    ensures !IsUpper(r)
    ensures !IsUpper(ch) ==> r == ch
  {
    if IsUpper(ch) then (ch as int + 32) as char else ch
  }

  function UpperChar(ch: char): (r: char)
    ensures !IsLower(r)
    ensures !IsLower(ch) ==> r == ch
  {
    if IsLower(ch) then (ch as int - 32) as char else ch
  }

  function Lower(s: string): (r: string)
    ensures |r| == |s|
    ensures forall i :: 0 <= i < |s| ==> r[i] == LowerChar(s[i])
    decreases |s|
  {
    if |s| == 0 then "" else [LowerChar(s[0])] + Lower(s[1..])
  }

  predicate NoUpper(s: string) {
    forall i :: 0 <= i < |s| ==> !IsUpper(s[i])
  }

  lemma LowerHasNoUpper(s: string)
    ensures NoUpper(Lower(s))
  {
  }

  lemma LowerOfNoUpper(s: string)
    requires NoUpper(s)
    ensures Lower(s) == s
  {
  }

  lemma LowerAppend(a: string, b: string)
    ensures Lower(a + b) == Lower(a) + Lower(b)
  {
  }
}

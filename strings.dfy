/** The three Python `str` methods the core relies on: `strip()`, `lower()`
    and `replace(old, new)`. */
module Strings {

  /** The characters for which Python's `str.isspace()` holds. */
  predicate IsSpace(c: char) {
    || c == ' '
    || ('\t' <= c <= '\r')
    || ('\U{1C}' <= c <= '\U{1F}')
    || c == '\U{85}' || c == '\U{A0}' || c == '\U{1680}'
    || ('\U{2000}' <= c <= '\U{200A}')
    || c == '\U{2028}' || c == '\U{2029}' || c == '\U{202F}' || c == '\U{205F}'
    || c == '\U{3000}'
  }

  predicate AllSpace(s: string) {
    forall i :: 0 <= i < |s| ==> IsSpace(s[i])
  }

  /** `s.lstrip()` */
  function TrimLeft(s: string): string {
    if s != [] && IsSpace(s[0]) then TrimLeft(s[1..]) else s
  }

  /** `s.rstrip()` */
  function TrimRight(s: string): string {
    if s != [] && IsSpace(s[|s| - 1]) then TrimRight(s[..|s| - 1]) else s
  }

  /** `s.strip()` */
  function Strip(s: string): string {
    TrimRight(TrimLeft(s))
  }

  /** What `lstrip` leaves is a suffix, after whitespace only, and does not
      start with whitespace. */
  lemma {:induction false} TrimLeftShape(s: string)
    ensures var r := TrimLeft(s);
      && |r| <= |s| && r == s[|s| - |r|..]
      && AllSpace(s[..|s| - |r|])
      && (r != [] ==> !IsSpace(r[0]))
  {
    if s != [] && IsSpace(s[0]) {
      TrimLeftShape(s[1..]);
      var r := TrimLeft(s);
      assert s[1..][..|s| - 1 - |r|] == s[1..|s| - |r|];
      assert s[..|s| - |r|] == [s[0]] + s[1..|s| - |r|];
    }
  }

  /** What `rstrip` leaves is a prefix, before whitespace only, and does not
      end with whitespace. */
  lemma {:induction false} TrimRightShape(s: string)
    ensures var r := TrimRight(s);
      && |r| <= |s| && r == s[..|r|]
      && AllSpace(s[|r|..])
      && (r != [] ==> !IsSpace(r[|r| - 1]))
  {
    if s != [] && IsSpace(s[|s| - 1]) {
      var front := s[..|s| - 1];
      TrimRightShape(front);
      var r := TrimRight(s);
      assert front[..|r|] == s[..|r|];
      assert s[|r|..] == front[|r|..] + [s[|s| - 1]];
    }
  }

  /** Stripping leaves nothing exactly when the text is all whitespace, and
      a non-empty result neither starts nor ends with whitespace. */
  lemma StripShape(s: string)
    ensures |Strip(s)| <= |s|
    ensures Strip(s) == [] <==> AllSpace(s)
    ensures Strip(s) != [] ==> !IsSpace(Strip(s)[0]) && !IsSpace(Strip(s)[|Strip(s)| - 1])
  {
    var left := TrimLeft(s);
    TrimLeftShape(s);
    TrimRightShape(left);
    var i := |s| - |left|;
    if left == [] {
      assert s[..i] == s;
    } else {
      assert s[i] == left[0];
    }
  }

  /** `s` is the stripped text with whitespace only on either side of it. */
  lemma StripInfix(s: string)
    ensures |TrimLeft(s)| <= |s|
    ensures var i := |s| - |TrimLeft(s)|;
      && i + |Strip(s)| <= |s|
      && Strip(s) == s[i..i + |Strip(s)|]
      && AllSpace(s[..i])
      && AllSpace(s[i + |Strip(s)|..])
  {
    var left := TrimLeft(s);
    TrimLeftShape(s);
    TrimRightShape(left);
    var r := TrimRight(left);
    assert Strip(s) == r;
    var i := |s| - |left|;
    var front, back := s[i..i + |r|], s[i + |r|..];
    assert left[..|r|] == front by {
      assert left == s[i..];
    }
    assert left[|r|..] == back by {
      assert left == s[i..];
    }
  }

  lemma StripIdempotent(s: string)
    ensures Strip(Strip(s)) == Strip(s)
  {
    var r := Strip(s);
    StripShape(s);
    if r != [] {
      assert TrimLeft(r) == r;
      assert TrimRight(r) == r;
    }
  }

  predicate IsUpper(c: char) { 'A' <= c <= 'Z' }

  /** Python's `lower()` on one character, for the ASCII letters. */
  function LowerChar(c: char): (d: char)
    ensures !IsUpper(d)
    ensures IsUpper(c) ==> d as int == c as int + 32
    ensures !IsUpper(c) ==> d == c
  {
    if IsUpper(c) then (c as int + 32) as char else c
  }

  /** `s.lower()`, for the ASCII letters */
  function Lower(s: string): string {
    if s == [] then [] else [LowerChar(s[0])] + Lower(s[1..])
  }

  /** Lowering keeps the length and lowers each character in place. */
  lemma {:induction false} LowerAt(s: string)
    ensures |Lower(s)| == |s|
    ensures forall i :: 0 <= i < |s| ==> Lower(s)[i] == LowerChar(s[i])
  {
    if s != [] {
      LowerAt(s[1..]);
      assert forall i :: 1 <= i < |s| ==> Lower(s)[i] == Lower(s[1..])[i - 1];
    }
  }

  lemma {:induction false} LowerIdempotent(s: string)
    ensures Lower(Lower(s)) == Lower(s)
  {
    if s != [] {
      LowerIdempotent(s[1..]);
    }
  }

  predicate NoUpper(s: string) {
    forall i :: 0 <= i < |s| ==> !IsUpper(s[i])
  }

  /** `pat` starts at position `i` of `t`. */
  predicate OccursAt(t: string, pat: string, i: nat) {
    i + |pat| <= |t| && t[i..i + |pat|] == pat
  }

  predicate Contains(t: string, pat: string) {
    exists i: nat | i <= |t| :: OccursAt(t, pat, i)
  }

  /** `s.replace(pat, rep)` for a non-empty `pat`: scanning from the left,
      every occurrence of `pat` that does not overlap an earlier replaced one
      is replaced by `rep`. */
  function ReplaceAll(s: string, pat: string, rep: string): string
    requires pat != []
    decreases |s|
  {
    if OccursAt(s, pat, 0) then rep + ReplaceAll(s[|pat|..], pat, rep)
    else if s == [] then []
    else [s[0]] + ReplaceAll(s[1..], pat, rep)
  }

  /** Text without an occurrence of `pat` is left as it is. */
  lemma {:induction false} ReplaceWithoutOccurrence(s: string, pat: string, rep: string)
    requires pat != []
    requires !Contains(s, pat)
    ensures ReplaceAll(s, pat, rep) == s
    decreases |s|
  {
    assert !OccursAt(s, pat, 0);
    if s != [] {
      var tail := s[1..];
      forall i: nat ensures !OccursAt(tail, pat, i) {
        assert OccursAt(tail, pat, i) ==> OccursAt(s, pat, i + 1) by {
          if i + |pat| <= |tail| {
            var inS, inTail := s[i + 1..i + 1 + |pat|], tail[i..i + |pat|];
            forall j | 0 <= j < |pat| ensures inS[j] == inTail[j] {
              assert s[i + 1 + j] == tail[i + j];
            }
            assert inS == inTail;
          }
        }
      }
      ReplaceWithoutOccurrence(tail, pat, rep);
    }
  }

  /** Every character of the output comes from the input or from `rep`. */
  lemma {:induction false} ReplaceCharacters(s: string, pat: string, rep: string)
    requires pat != []
    ensures forall k :: 0 <= k < |ReplaceAll(s, pat, rep)| ==> ReplaceAll(s, pat, rep)[k] in s || ReplaceAll(s, pat, rep)[k] in rep
    decreases |s|
  {
    var r := ReplaceAll(s, pat, rep);
    if OccursAt(s, pat, 0) {
      var tail := ReplaceAll(s[|pat|..], pat, rep);
      ReplaceCharacters(s[|pat|..], pat, rep);
      forall k | |rep| <= k < |r| ensures r[k] in s || r[k] in rep {
        assert r[k] == tail[k - |rep|];
        assert tail[k - |rep|] in s[|pat|..] || tail[k - |rep|] in rep;
      }
    } else if s != [] {
      var tail := ReplaceAll(s[1..], pat, rep);
      ReplaceCharacters(s[1..], pat, rep);
      forall k | 1 <= k < |r| ensures r[k] in s || r[k] in rep {
        assert r[k] == tail[k - 1];
        assert tail[k - 1] in s[1..] || tail[k - 1] in rep;
      }
    }
  }

  /** When no character of `rep` occurs in `pat`, a prefix of the output made
      of characters outside `rep` was copied unchanged from the input. */
  lemma {:induction false} ReplacePrefixCopied(s: string, pat: string, rep: string, k: nat)
    requires pat != [] && rep != []
    requires k <= |ReplaceAll(s, pat, rep)|
    requires forall j :: 0 <= j < k ==> ReplaceAll(s, pat, rep)[j] !in rep
    ensures k <= |s| && ReplaceAll(s, pat, rep)[..k] == s[..k]
    decreases |s|
  {
    var r := ReplaceAll(s, pat, rep);
    if k > 0 {
      assert r[0] !in rep;
      assert !OccursAt(s, pat, 0);
      var tail := ReplaceAll(s[1..], pat, rep);
      assert r == [s[0]] + tail;
      forall j | 0 <= j < k - 1 ensures tail[j] !in rep {
        assert tail[j] == r[j + 1];
      }
      ReplacePrefixCopied(s[1..], pat, rep, k - 1);
      assert r[..k] == [s[0]] + tail[..k - 1];
      assert s[..k] == [s[0]] + s[1..][..k - 1];
    }
  }

  /** When `pat` and `rep` share no character, the output starts with `pat`
      only if the input does. */
  lemma ReplaceStartOccurrence(s: string, pat: string, rep: string)
    requires pat != [] && rep != []
    requires forall j :: 0 <= j < |pat| ==> pat[j] !in rep
    ensures OccursAt(ReplaceAll(s, pat, rep), pat, 0) ==> OccursAt(s, pat, 0)
  {
    var r := ReplaceAll(s, pat, rep);
    if OccursAt(r, pat, 0) {
      forall j | 0 <= j < |pat| ensures r[j] !in rep {
        assert r[j] == r[0..|pat|][j];
      }
      ReplacePrefixCopied(s, pat, rep, |pat|);
      assert s[0..|pat|] == s[..|pat|];
    }
  }

  /** When `pat` and `rep` share no character, no occurrence of `pat` is left
      after the replacement. */
  lemma {:induction false} ReplaceLeavesNoOccurrence(s: string, pat: string, rep: string)
    requires pat != [] && rep != []
    requires forall j :: 0 <= j < |pat| ==> pat[j] !in rep
    ensures !Contains(ReplaceAll(s, pat, rep), pat)
    decreases |s|
  {
    var r := ReplaceAll(s, pat, rep);
    if s == [] {
      assert r == [];
    } else if OccursAt(s, pat, 0) {
      var tail := ReplaceAll(s[|pat|..], pat, rep);
      assert r == rep + tail;
      ReplaceLeavesNoOccurrence(s[|pat|..], pat, rep);
      forall i: nat ensures !OccursAt(r, pat, i) {
        if i < |rep| {
          assert r[i] == rep[i];
          assert pat[0] !in rep;
          assert !OccursAt(r, pat, i);
        } else {
          assert OccursAt(r, pat, i) ==> OccursAt(tail, pat, i - |rep|) by {
            if i + |pat| <= |r| {
              assert r[i..i + |pat|] == tail[i - |rep|..i - |rep| + |pat|];
            }
          }
        }
      }
    } else {
      var tail := ReplaceAll(s[1..], pat, rep);
      assert r == [s[0]] + tail;
      ReplaceLeavesNoOccurrence(s[1..], pat, rep);
      ReplaceStartOccurrence(s, pat, rep);
      forall i: nat ensures !OccursAt(r, pat, i) {
        if i > 0 {
          assert OccursAt(r, pat, i) ==> OccursAt(tail, pat, i - 1) by {
            if i + |pat| <= |r| {
              assert r[i..i + |pat|] == tail[i - 1..i - 1 + |pat|];
            }
          }
        }
      }
    }
  }
}

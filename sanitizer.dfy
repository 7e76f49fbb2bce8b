/** The file-name sanitizer of the bucket manager: PHP's
    `str_replace(['/', '\\', '..'], '', $name)`, which applies the three search
    strings one after another, each as a left-to-right, non-overlapping removal
    over the result of the previous one.
 */
module Sanitizer {

  /** `pat` occurs in `s` starting at index `i`. */
  predicate OccursAt(s: string, pat: string, i: int)
  {
    0 <= i && i + |pat| <= |s| && s[i..i + |pat|] == pat
  }

  /** `pat` is a contiguous substring of `s`. */
  ghost predicate Contains(s: string, pat: string)
  {
    exists i :: OccursAt(s, pat, i)
  }

  /** A key that cannot express a path: no `/`, no `\` and no `..`. */
  ghost predicate IsSafeKey(key: string)
  {
    !Contains(key, "/") && !Contains(key, "\\") && !Contains(key, "..")
  }

  /** `a` is obtained from `b` by deleting some of its characters. */
  ghost predicate IsSubsequence(a: string, b: string)
    decreases |b|
  {
    a == [] || (|b| > 0 && (IsSubsequence(a, b[1..]) || (a[0] == b[0] && IsSubsequence(a[1..], b[1..]))))
  }

  /** `str_replace($pat, '', $s)` for one search string: scan `s` from the left,
      drop each occurrence of `pat` and resume right after it. An empty search
      string is skipped, as PHP does. */
  function RemoveAll(s: string, pat: string): string
    decreases |s|
  {
    if |pat| == 0 || |s| < |pat| then s
    else if s[..|pat|] == pat then RemoveAll(s[|pat|..], pat)
    else [s[0]] + RemoveAll(s[1..], pat)
  }

  /** `sanitizeFileName`: delete every `/`, then every `\`, then every `..`. */
  function SanitizeFileName(fileName: string): (r: string)
    ensures IsSafeKey(r)
  {
    var noSlash := RemoveAll(fileName, "/");
    var noBackslash := RemoveAll(noSlash, "\\");
    var r := RemoveAll(noBackslash, "..");
    RemoveAllCharAbsent(fileName, '/');
    RemoveAllKeepsAbsent(noSlash, "\\", '/');
    RemoveAllKeepsAbsent(noBackslash, "..", '/');
    RemoveAllCharAbsent(noSlash, '\\');
    RemoveAllKeepsAbsent(noBackslash, "..", '\\');
    ContainsChar(r, '/');
    ContainsChar(r, '\\');
    RemoveDoubleDots(noBackslash);
    r
  }

  /** A run of `k` dots. */
  function Dots(k: nat): string
  {
    seq(k, _ => '.')
  }

  // ---------------------------------------------------------------------------
  // Substrings of one character

  lemma ContainsChar(s: string, c: char)
    ensures Contains(s, [c]) <==> c in s
  {
    if c in s {
      var i :| 0 <= i < |s| && s[i] == c;
      assert s[i..i + 1] == [c];
      assert OccursAt(s, [c], i);
    }
    if Contains(s, [c]) {
      var i :| OccursAt(s, [c], i);
      assert s[i] == s[i..i + 1][0];
    }
  }

  // ---------------------------------------------------------------------------
  // Subsequences

  lemma {:induction false} SubsequenceMultiset(a: string, b: string)
    requires IsSubsequence(a, b)
    ensures multiset(a) <= multiset(b)
    ensures |a| <= |b|
    decreases |b|
  {
    if a == [] {
    } else if IsSubsequence(a, b[1..]) {
      SubsequenceMultiset(a, b[1..]);
      assert b == [b[0]] + b[1..];
    } else {
      SubsequenceMultiset(a[1..], b[1..]);
      assert a == [a[0]] + a[1..];
      assert b == [b[0]] + b[1..];
    }
  }

  lemma {:induction false} SubsequenceTransitive(a: string, b: string, c: string)
    requires IsSubsequence(a, b) && IsSubsequence(b, c)
    ensures IsSubsequence(a, c)
    decreases |c|
  {
    if a == [] {
    } else if IsSubsequence(b, c[1..]) {
      SubsequenceTransitive(a, b, c[1..]);
    } else if IsSubsequence(a, b[1..]) {
      SubsequenceTransitive(a, b[1..], c[1..]);
    } else {
      SubsequenceTransitive(a[1..], b[1..], c[1..]);
    }
  }

  lemma {:induction false} SubsequenceDrop(a: string, b: string, k: nat)
    requires k <= |b| && IsSubsequence(a, b[k..])
    ensures IsSubsequence(a, b)
    decreases k
  {
    if k > 0 {
      assert b[1..][k - 1..] == b[k..];
      SubsequenceDrop(a, b[1..], k - 1);
    }
  }

  // ---------------------------------------------------------------------------
  // One pass of removal

  /** Every pass only deletes characters, keeping the rest in order. */
  lemma {:induction false} RemoveAllSubsequence(s: string, pat: string)
    ensures IsSubsequence(RemoveAll(s, pat), s)
    decreases |s|
  {
    if |pat| == 0 || |s| < |pat| {
      SubsequenceReflexive(s);
    } else if s[..|pat|] == pat {
      RemoveAllSubsequence(s[|pat|..], pat);
      SubsequenceDrop(RemoveAll(s, pat), s, |pat|);
    } else {
      RemoveAllSubsequence(s[1..], pat);
      var r := RemoveAll(s, pat);
      assert r[0] == s[0] && r[1..] == RemoveAll(s[1..], pat);
    }
  }

  lemma {:induction false} SubsequenceReflexive(s: string)
    ensures IsSubsequence(s, s)
    decreases |s|
  {
    if s != [] {
      SubsequenceReflexive(s[1..]);
    }
  }

  /** A pass leaves a string without the pattern unchanged. */
  lemma {:induction false} RemoveAllAbsent(s: string, pat: string)
    requires !Contains(s, pat)
    ensures RemoveAll(s, pat) == s
    decreases |s|
  {
    if |pat| == 0 || |s| < |pat| {
    } else {
      assert !OccursAt(s, pat, 0);
      assert s[0..|pat|] == s[..|pat|];
      forall i ensures !OccursAt(s[1..], pat, i) {
        if 0 <= i && i + |pat| <= |s[1..]| {
          assert s[1..][i..i + |pat|] == s[i + 1..i + 1 + |pat|];
          assert !OccursAt(s, pat, i + 1);
        }
      }
      RemoveAllAbsent(s[1..], pat);
      assert [s[0]] + s[1..] == s;
    }
  }

  /** Removing one character leaves none of it behind. */
  lemma {:induction false} RemoveAllCharAbsent(s: string, c: char)
    ensures c !in RemoveAll(s, [c])
    decreases |s|
  {
    if |s| > 0 {
      RemoveAllCharAbsent(s[1..], c);
      assert s[..1] == [s[0]];
    }
  }

  /** A pass introduces no character that was not there. */
  lemma {:induction false} RemoveAllKeepsAbsent(s: string, pat: string, c: char)
    requires c !in s
    ensures c !in RemoveAll(s, pat)
    decreases |s|
  {
    if |pat| == 0 || |s| < |pat| {
    } else if s[..|pat|] == pat {
      RemoveAllKeepsAbsent(s[|pat|..], pat, c);
    } else {
      RemoveAllKeepsAbsent(s[1..], pat, c);
    }
  }

  /** Removing one character keeps every other character, as often as it occurs. */
  lemma {:induction false} RemoveAllCharCounts(s: string, c: char)
    ensures forall x :: x != c ==> multiset(RemoveAll(s, [c]))[x] == multiset(s)[x]
    decreases |s|
  {
    if |s| > 0 {
      RemoveAllCharCounts(s[1..], c);
      assert s == [s[0]] + s[1..];
      assert s[..1] == [s[0]];
      if s[0] != c {
        assert RemoveAll(s, [c]) == [s[0]] + RemoveAll(s[1..], [c]);
      }
    }
  }

  /** Removing `..` leaves no `..` behind, and a string that does not start with
      a dot keeps its first character. */
  lemma {:induction false} RemoveDoubleDots(s: string)
    ensures !Contains(RemoveAll(s, ".."), "..")
    ensures |s| > 0 && s[0] != '.' ==> |RemoveAll(s, "..")| > 0 && RemoveAll(s, "..")[0] == s[0]
    decreases |s|
  {
    var r := RemoveAll(s, "..");
    if |s| < 2 {
      assert r == s;
      forall i ensures !OccursAt(r, "..", i) {
      }
    } else if s[..2] == ".." {
      RemoveDoubleDots(s[2..]);
    } else {
      var r' := RemoveAll(s[1..], "..");
      RemoveDoubleDots(s[1..]);
      assert r == [s[0]] + r';
      assert s[..2] == [s[0], s[1]];
      forall i ensures !OccursAt(r, "..", i) {
        if 0 <= i && i + 2 <= |r| {
          if i == 0 {
            if s[0] == '.' {
              assert s[1] != '.';
              assert s[1..][0] == s[1];
              assert r[1] == r'[0];
              assert r[..2] != "..";
            } else {
              assert r[0..2][0] == s[0];
            }
          } else {
            assert r[i..i + 2] == r'[i - 1..i + 1];
            assert !OccursAt(r', "..", i - 1);
          }
        }
      }
    }
  }

  /** Removing `..` keeps every character other than a dot. */
  lemma {:induction false} RemoveDoubleDotsOthers(s: string)
    ensures forall x :: x != '.' ==> multiset(RemoveAll(s, ".."))[x] == multiset(s)[x]
    decreases |s|
  {
    var r := RemoveAll(s, "..");
    if |s| < 2 {
    } else if s[..2] == ".." {
      var t := s[2..];
      RemoveDoubleDotsOthers(t);
      assert s == ".." + t;
      assert multiset(s) == multiset("..") + multiset(t);
      forall x | x != '.' ensures multiset(r)[x] == multiset(s)[x] {
        assert multiset("..")[x] == 0;
      }
    } else {
      var t := s[1..];
      RemoveDoubleDotsOthers(t);
      assert s == [s[0]] + t;
      assert r == [s[0]] + RemoveAll(t, "..");
    }
  }

  /** How many `..` pairs one left-to-right pass drops from `s`. */
  ghost function DroppedPairs(s: string): nat
    decreases |s|
  {
    if |s| < 2 then 0
    else if s[..2] == ".." then 1 + DroppedPairs(s[2..])
    else DroppedPairs(s[1..])
  }

  /** Removing `..` deletes dots two at a time: as many pairs as it drops. */
  lemma {:induction false} RemoveDoubleDotsPairs(s: string)
    ensures multiset(s)['.'] == multiset(RemoveAll(s, ".."))['.'] + 2 * DroppedPairs(s)
    decreases |s|
  {
    if |s| < 2 {
    } else if s[..2] == ".." {
      var t := s[2..];
      RemoveDoubleDotsPairs(t);
      assert RemoveAll(s, "..") == RemoveAll(t, "..");
      assert s == ".." + t;
      DotCount("..", t);
    } else {
      var t := s[1..];
      RemoveDoubleDotsPairs(t);
      assert s == [s[0]] + t;
      assert RemoveAll(s, "..") == [s[0]] + RemoveAll(t, "..");
      DotCount([s[0]], t);
      DotCount([s[0]], RemoveAll(t, ".."));
    }
  }

  lemma DotCount(a: string, b: string)
    ensures multiset(a + b)['.'] == multiset(a)['.'] + multiset(b)['.']
  {
    assert multiset(a + b) == multiset(a) + multiset(b);
  }

  /** A maximal run of `k` dots comes out as `k % 2` dots. */
  lemma {:induction false} DotRunHalves(k: nat, rest: string)
    requires rest == [] || rest[0] != '.'
    ensures RemoveAll(Dots(k) + rest, "..") == Dots(k % 2) + RemoveAll(rest, "..")
    decreases k
  {
    var s := Dots(k) + rest;
    if k >= 2 {
      assert Dots(k) == ".." + Dots(k - 2);
      assert s == ".." + (Dots(k - 2) + rest);
      assert s[..2] == "..";
      assert s[2..] == Dots(k - 2) + rest;
      DotRunHalves(k - 2, rest);
      assert (k - 2) % 2 == k % 2;
      assert RemoveAll(s, "..") == RemoveAll(s[2..], "..");
    } else if k == 1 {
      assert Dots(k % 2) == ['.'] && Dots(k) == ['.'];
      assert s == ['.'] + rest;
      if rest != [] {
        assert s[..2] == ['.', rest[0]];
        assert s[1..] == rest;
      }
    } else {
      assert Dots(k % 2) == [];
      assert s == rest;
    }
  }

  // ---------------------------------------------------------------------------
  // The sanitizer

  /** Sanitizing is the identity exactly on safe keys. */
  lemma SanitizeFixedPoint(fileName: string)
    ensures SanitizeFileName(fileName) == fileName <==> IsSafeKey(fileName)
  {
    if IsSafeKey(fileName) {
      RemoveAllAbsent(fileName, "/");
      RemoveAllAbsent(fileName, "\\");
      RemoveAllAbsent(fileName, "..");
    }
  }

  lemma SanitizeIdempotent(fileName: string)
    ensures SanitizeFileName(SanitizeFileName(fileName)) == SanitizeFileName(fileName)
  {
    SanitizeFixedPoint(SanitizeFileName(fileName));
  }

  /** The sanitized name is the original with some characters deleted. */
  lemma SanitizeSubsequence(fileName: string)
    ensures IsSubsequence(SanitizeFileName(fileName), fileName)
    ensures |SanitizeFileName(fileName)| <= |fileName|
  {
    var noSlash := RemoveAll(fileName, "/");
    var noBackslash := RemoveAll(noSlash, "\\");
    RemoveAllSubsequence(fileName, "/");
    RemoveAllSubsequence(noSlash, "\\");
    RemoveAllSubsequence(noBackslash, "..");
    SubsequenceTransitive(noBackslash, noSlash, fileName);
    SubsequenceTransitive(SanitizeFileName(fileName), noBackslash, fileName);
    SubsequenceMultiset(SanitizeFileName(fileName), fileName);
  }

  /** Only separators and dots are deleted, and dots only in pairs. */
  lemma SanitizeDeletes(fileName: string)
    ensures forall x :: x != '/' && x != '\\' && x != '.' ==>
      multiset(SanitizeFileName(fileName))[x] == multiset(fileName)[x]
    ensures multiset(fileName)['.'] == multiset(SanitizeFileName(fileName))['.'] + 2 * DroppedPairs(RemoveAll(RemoveAll(fileName, "/"), "\\"))
    ensures multiset(fileName)['.'] % 2 == multiset(SanitizeFileName(fileName))['.'] % 2
  {
    var noSlash := RemoveAll(fileName, "/");
    RemoveAllCharCounts(fileName, '/');
    RemoveAllCharCounts(noSlash, '\\');
    RemoveDoubleDotsOthers(RemoveAll(noSlash, "\\"));
    RemoveDoubleDotsPairs(RemoveAll(noSlash, "\\"));
    var before, after := multiset(fileName)['.'], multiset(SanitizeFileName(fileName))['.'];
    SameParity(before, after, DroppedPairs(RemoveAll(noSlash, "\\")));
  }

  lemma SameParity(a: nat, b: nat, d: nat)
    requires a == b + 2 * d
    ensures a % 2 == b % 2
  {
  }

  /** Literal removal, not path resolution: `a..b` and `a/../b` both become `ab`,
      so distinct names share one key. */
  lemma SanitizeTraversal()
    ensures SanitizeFileName("a..b") == "ab"
    ensures SanitizeFileName("a/../b") == "ab"
  {
    assert RemoveAll("a..b", "..") == "ab";
    assert RemoveAll("a..b", "\\") == "a..b";
    assert RemoveAll("a..b", "/") == "a..b";
    assert RemoveAll("b", "/") == "b";
    assert RemoveAll("/b", "/") == "b";
    assert RemoveAll("./b", "/") == ".b";
    assert RemoveAll("../b", "/") == "..b";
    assert RemoveAll("/../b", "/") == "..b";
    assert RemoveAll("a/../b", "/") == "a..b";
  }

  /** Separators vanish, and `...` keeps one dot. */
  lemma SanitizeSeparatorsAndRuns()
    ensures SanitizeFileName("a/b") == "ab"
    ensures SanitizeFileName("a\\b") == "ab"
    ensures SanitizeFileName("...") == "."
  {
    assert RemoveAll("ab", "..") == "ab";
    assert RemoveAll("ab", "\\") == "ab";
    assert RemoveAll("a/b", "/") == "ab";
    assert RemoveAll("a\\b", "\\") == "ab";
    assert RemoveAll("a\\b", "/") == "a\\b";
    DotRunHalves(3, []);
    assert Dots(3) + [] == "...";
    assert RemoveAll("...", "\\") == "...";
    assert RemoveAll("...", "/") == "...";
  }

  /** A name with no separator and no two adjacent dots passes through unchanged. */
  lemma SanitizeKeepsPlainName(fileName: string)
    requires '/' !in fileName && '\\' !in fileName
    requires forall i :: 0 <= i < |fileName| - 1 ==> fileName[i] != '.' || fileName[i + 1] != '.'
    ensures SanitizeFileName(fileName) == fileName
  {
    ContainsChar(fileName, '/');
    ContainsChar(fileName, '\\');
    forall i ensures !OccursAt(fileName, "..", i) {
      if 0 <= i && i + 2 <= |fileName| {
        assert fileName[i..i + 2] == [fileName[i], fileName[i + 1]];
      }
    }
    SanitizeFixedPoint(fileName);
  }

  /** The order of the passes matters: removing `..` first would let `./.`
      through as `..`; the order the sanitizer uses removes it entirely. */
  lemma SanitizeOrderMatters()
    ensures RemoveAll(RemoveAll(RemoveAll("./.", ".."), "/"), "\\") == ".."
    ensures SanitizeFileName("./.") == ""
  {
    var s := "./.";
    assert s[..2] == ['.', '/'] && s[1..] == "/.";
    assert "/."[..2] == ['/', '.'] && "/."[1..] == ".";
    assert RemoveAll(".", "..") == ".";
    assert RemoveAll("/.", "..") == "/.";
    assert RemoveAll(s, "..") == s;
    assert s[..1] == "." && "/."[..1] == "/" && "."[..1] == ".";
    assert RemoveAll(".", "/") == "." + RemoveAll([], "/");
    assert RemoveAll("/.", "/") == RemoveAll(".", "/");
    assert RemoveAll(s, "/") == "..";
    assert ".."[..1] == "." && ".."[1..] == ".";
    assert RemoveAll(".", "\\") == ".";
    assert RemoveAll("..", "\\") == "..";
    assert RemoveAll("..", "..") == [];
  }
}

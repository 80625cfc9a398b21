/** The three JavaScript string built-ins the renderer relies on:
    `String.prototype.includes`, `split` on a one-character separator and `trim`. */
module JsStrings {

  predicate IsPrefix(p: string, s: string) {
    |p| <= |s| && s[..|p|] == p
  }

  /** `s.includes(p)`: `p` occurs somewhere in `s`. */
  predicate Includes(s: string, p: string): (r: bool)
    ensures p == [] ==> r
    ensures r ==> |p| <= |s|
    decreases |s|
  {
    IsPrefix(p, s) || (|s| > 0 && Includes(s[1..], p))
  }

  /** `p` occurs in `s` starting at index `i`. */
  predicate OccursAt(s: string, p: string, i: int) {
    0 <= i && i + |p| <= |s| && s[i..i + |p|] == p
  }

  /** `Includes` agrees with the positional definition of a substring. */
  lemma {:induction false} IncludesIff(s: string, p: string)
    ensures Includes(s, p) <==> exists i :: OccursAt(s, p, i)
    decreases |s|
  {
    if IsPrefix(p, s) {
      assert OccursAt(s, p, 0);
    } else if |s| == 0 {
      assert |p| > 0;
    } else {
      IncludesIff(s[1..], p);
      if exists i :: OccursAt(s, p, i) {
        var i :| OccursAt(s, p, i);
        assert i != 0;
        assert s[1..][i - 1..i - 1 + |p|] == s[i..i + |p|];
        assert OccursAt(s[1..], p, i - 1);
      }
      if exists i :: OccursAt(s[1..], p, i) {
        var i :| OccursAt(s[1..], p, i);
        assert s[i + 1..i + 1 + |p|] == s[1..][i..i + |p|];
        assert OccursAt(s, p, i + 1);
      }
    }
  }

  /** An occurrence at a known position makes `includes` true. */
  lemma IncludesAt(s: string, p: string, i: nat)
    requires OccursAt(s, p, i)
    ensures Includes(s, p)
  {
    IncludesIff(s, p);
  }

  /** A non-empty pattern whose first character never occurs in `s` is not included. */
  lemma {:induction false} NotIncludedWithoutFirstChar(s: string, p: string)
    requires |p| > 0 && p[0] !in s
    ensures !Includes(s, p)
    decreases |s|
  {
    if |s| > 0 {
      assert !IsPrefix(p, s) by { if |p| <= |s| { assert s[0] != p[0]; } }
      NotIncludedWithoutFirstChar(s[1..], p);
    }
  }

  // ---------------------------------------------------------------- split

  /** `s.split(sep)` for a one-character separator: the maximal separator-free
      pieces, in order; always at least one piece ("" splits into [""]). */
  function Split(s: string, sep: char): (parts: seq<string>)
    ensures |parts| >= 1
    ensures forall i :: 0 <= i < |parts| ==> sep !in parts[i]
    decreases |s|
  {
    if |s| == 0 then [""]
    else
      var rest := Split(s[1..], sep);
      if s[0] == sep then [""] + rest
      else [[s[0]] + rest[0]] + rest[1..]
  }

  /** `parts.join(sep)`. */
  function Join(parts: seq<string>, sep: char): string
    requires |parts| >= 1
    decreases |parts|
  {
    if |parts| == 1 then parts[0] else parts[0] + [sep] + Join(parts[1..], sep)
  }

  /** Joining the pieces with the separator gives back the input. */
  lemma {:induction false} JoinSplit(s: string, sep: char)
    ensures Join(Split(s, sep), sep) == s
    decreases |s|
  {
    if |s| > 0 {
      var rest := Split(s[1..], sep);
      JoinSplit(s[1..], sep);
      if s[0] == sep {
        assert Split(s, sep)[1..] == rest;
      } else {
        var parts := Split(s, sep);
        if |rest| == 1 {
          assert parts == [[s[0]] + rest[0]];
        } else {
          assert parts[1..] == rest[1..];
          assert Join(rest, sep) == rest[0] + [sep] + Join(rest[1..], sep);
        }
      }
    }
  }

  /** Splitting a join of separator-free pieces gives back the pieces. */
  lemma {:induction false} SplitJoin(parts: seq<string>, sep: char)
    requires |parts| >= 1
    requires forall i :: 0 <= i < |parts| ==> sep !in parts[i]
    ensures Split(Join(parts, sep), sep) == parts
    decreases |parts|
  {
    if |parts| == 1 {
      SplitFree(parts[0], sep);
    } else {
      SplitJoin(parts[1..], sep);
      SplitAfter(parts[0], sep, Join(parts[1..], sep));
      assert Join(parts, sep) == parts[0] + ([sep] + Join(parts[1..], sep));
      assert [parts[0]] + parts[1..] == parts;
    }
  }

  /** A separator-free string is one piece. */
  lemma {:induction false} SplitFree(s: string, sep: char)
    requires sep !in s
    ensures Split(s, sep) == [s]
    decreases |s|
  {
    if |s| > 0 {
      assert sep !in s[1..] by { forall c | c in s[1..] ensures c in s { } }
      SplitFree(s[1..], sep);
      assert [s[0]] + s[1..] == s;
    }
  }

  /** The separator-free prefix `a` becomes the first piece; the rest splits as before. */
  lemma {:induction false} SplitAfter(a: string, sep: char, b: string)
    requires sep !in a
    ensures Split(a + [sep] + b, sep) == [a] + Split(b, sep)
    decreases |a|
  {
    if |a| == 0 {
      assert a + [sep] + b == [sep] + b;
      assert ([sep] + b)[1..] == b;
    } else {
      assert (a + [sep] + b)[1..] == a[1..] + [sep] + b;
      assert sep !in a[1..] by { forall c | c in a[1..] ensures c in a { } }
      SplitAfter(a[1..], sep, b);
      assert [a[0]] + a[1..] == a;
    }
  }

  /** Splitting at a separator: the pieces of both sides, concatenated. */
  lemma {:induction false} SplitConcat(a: string, sep: char, b: string)
    ensures Split(a + [sep] + b, sep) == Split(a, sep) + Split(b, sep)
    decreases |a|
  {
    if |a| == 0 {
      assert a + [sep] + b == [sep] + b;
      assert ([sep] + b)[1..] == b;
    } else {
      var s := a + [sep] + b;
      assert s[0] == a[0];
      assert s[1..] == a[1..] + [sep] + b;
      SplitConcat(a[1..], sep, b);
      var ra, sb := Split(a[1..], sep), Split(b, sep);
      var rest := Split(s[1..], sep);
      assert rest == ra + sb;
      if a[0] == sep {
        assert Split(s, sep) == [""] + rest;
        assert Split(a, sep) == [""] + ra;
        assert [""] + (ra + sb) == ([""] + ra) + sb;
      } else {
        assert rest[0] == ra[0];
        assert rest[1..] == ra[1..] + sb;
        assert Split(s, sep) == [[a[0]] + rest[0]] + rest[1..];
        assert Split(a, sep) == [[a[0]] + ra[0]] + ra[1..];
      }
    }
  }

  // ---------------------------------------------------------------- trim

  /** The characters `trim` removes: ECMAScript WhiteSpace and LineTerminator
      (tab, LF, VT, FF, CR, space, NBSP, BOM, the Zs category, LS and PS). */
  predicate IsSpace(c: char) {
    || c as int in {0x09, 0x0A, 0x0B, 0x0C, 0x0D, 0x20, 0xA0, 0x1680, 0x2028, 0x2029, 0x202F, 0x205F, 0x3000, 0xFEFF}
    || 0x2000 <= c as int <= 0x200A
  }

  /** No white space at either end. */
  predicate IsTrimmed(s: string) {
    |s| == 0 || (!IsSpace(s[0]) && !IsSpace(s[|s| - 1]))
  }

  /** The number of white-space characters `trimStart` removes. */
  function LeadingSpaces(s: string): (n: nat)
    ensures n <= |s|
    ensures forall i :: 0 <= i < n ==> IsSpace(s[i])
    ensures n == |s| || !IsSpace(s[n])
    decreases |s|
  {
    if |s| > 0 && IsSpace(s[0]) then 1 + LeadingSpaces(s[1..]) else 0
  }

  /** The number of white-space characters `trimEnd` removes. */
  function TrailingSpaces(s: string): (n: nat)
    ensures n <= |s|
    ensures forall i :: |s| - n <= i < |s| ==> IsSpace(s[i])
    ensures n == |s| || !IsSpace(s[|s| - n - 1])
    decreases |s|
  {
    if |s| > 0 && IsSpace(s[|s| - 1]) then 1 + TrailingSpaces(s[..|s| - 1]) else 0
  }

  /** `r` is `s` with only white space removed before index `i` and after `r`. */
  predicate TrimmedFrom(s: string, r: string, i: int) {
    && 0 <= i && i + |r| <= |s| && r == s[i..i + |r|]
    && (forall k :: 0 <= k < i ==> IsSpace(s[k]))
    && (forall k :: i + |r| <= k < |s| ==> IsSpace(s[k]))
  }

  /** `s.trim()`: the middle part of `s` left once the white space at both ends
      is removed. */
  function Trim(s: string): (r: string)
    ensures IsTrimmed(r)
    ensures exists i :: TrimmedFrom(s, r, i)
  {
    var i := LeadingSpaces(s);
    var t := s[i..];
    var j := TrailingSpaces(t);
    var r := t[..|t| - j];
    assert r == s[i..i + |r|];
    assert forall k :: i + |r| <= k < |s| ==> s[k] == t[k - i];
    assert TrimmedFrom(s, r, i);
    r
  }

  /** Trimming a trimmed string changes nothing, so `trim` is idempotent. */
  lemma TrimmedIsFixed(s: string)
    requires IsTrimmed(s)
    ensures Trim(s) == s
  {
    assert LeadingSpaces(s) == 0;
    assert TrailingSpaces(s) == 0;
  }

  lemma TrimIdempotent(s: string)
    ensures Trim(Trim(s)) == Trim(s)
  {
    TrimmedIsFixed(Trim(s));
  }
}

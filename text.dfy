/**
 * The pieces of Go's `strings` and `fmt` packages that the bot relies on,
 * restricted to ASCII: TrimSpace, ToUpper, HasPrefix, Replace (one
 * occurrence, empty replacement), Split on one separator, Join, and the
 * `%d` rendering of an unsigned number.
 */
module Text {
  import opened Wrappers

  // ---------------------------------------------------------------------
  // Characters
  // ---------------------------------------------------------------------

  /** The ASCII characters Go's unicode.IsSpace accepts: \t \n \v \f \r and space. */
  predicate IsSpace(c: char) {
    c == ' ' || c == '\t' || c == '\n' || c == '\U{000B}' || c == '\U{000C}' || c == '\r'
  }

  predicate IsDigit(c: char) {
    '0' <= c <= '9'
  }

  function DigitValue(c: char): (d: nat)
    requires IsDigit(c)
    ensures d < 10
  {
    c as int - '0' as int
  }

  function DigitChar(d: nat): (c: char)
    requires d < 10
    ensures IsDigit(c) && DigitValue(c) == d
  {
    ('0' as int + d) as char
  }

  /** unicode.ToUpper on ASCII: only 'a'..'z' change. */
  function UpperChar(c: char): (u: char)
    ensures IsSpace(u) <==> IsSpace(c)
    ensures 'a' <= c <= 'z' ==> u as int == c as int - 32
    ensures !('a' <= c <= 'z') ==> u == c
    ensures !('a' <= u <= 'z')
  {
    if 'a' <= c <= 'z' then (c as int - 32) as char else c
  }

  predicate AllSpace(s: string) {
    forall i :: 0 <= i < |s| ==> IsSpace(s[i])
  }

  /** Neither end of s is whitespace (what TrimSpace leaves behind). */
  predicate Trimmed(s: string) {
    s == [] || (!IsSpace(s[0]) && !IsSpace(s[|s| - 1]))
  }

  // ---------------------------------------------------------------------
  // strings.TrimSpace
  // ---------------------------------------------------------------------

  function TrimLeft(s: string): (r: string)
    ensures |r| <= |s| && r == s[|s| - |r|..]
    ensures AllSpace(s[..|s| - |r|])
    ensures r == [] || !IsSpace(r[0])
    decreases |s|
  {
    if s != [] && IsSpace(s[0]) then TrimLeft(s[1..]) else s
  }

  function TrimRight(s: string): (r: string)
    ensures |r| <= |s| && r == s[..|r|]
    ensures AllSpace(s[|r|..])
    ensures r == [] || !IsSpace(r[|r| - 1])
    decreases |s|
  {
    if s != [] && IsSpace(s[|s| - 1]) then TrimRight(s[..|s| - 1]) else s
  }

  /** strings.TrimSpace: the slice of s left after dropping whitespace at both ends. */
  function TrimSpace(s: string): (r: string)
  {
    TrimRight(TrimLeft(s))
  }

  /** TrimSpace removes whitespace only: the result is a slice of s between two all-space margins, and no end of it is whitespace. */
  lemma TrimSpaceIsSlice(s: string)
    ensures Trimmed(TrimSpace(s))
    ensures exists i, j :: 0 <= i <= j <= |s| && TrimSpace(s) == s[i..j] && AllSpace(s[..i]) && AllSpace(s[j..])
  {
    var l := TrimLeft(s);
    var r := TrimRight(l);
    var i := |s| - |l|;
    var j := i + |r|;
    assert l == s[i..];
    assert r == s[i..j];
    assert s[j..] == l[|r|..];
    if r != [] {
      assert r[0] == l[0];
    }
  }

  lemma {:induction false} TrimLeftSpaces(w: string, u: string)
    requires AllSpace(w)
    ensures TrimLeft(w + u) == TrimLeft(u)
    decreases |w|
  {
    if w != [] {
      assert (w + u)[1..] == w[1..] + u;
      TrimLeftSpaces(w[1..], u);
    } else {
      assert w + u == u;
    }
  }

  lemma {:induction false} TrimRightSpaces(u: string, w: string)
    requires AllSpace(w)
    ensures TrimRight(u + w) == TrimRight(u)
    decreases |w|
  {
    if w != [] {
      assert (u + w)[..|u + w| - 1] == u + w[..|w| - 1];
      TrimRightSpaces(u, w[..|w| - 1]);
    } else {
      assert u + w == u;
    }
  }

  /** Whitespace margins around an already trimmed string are exactly what TrimSpace removes. */
  lemma TrimSpaceAround(w: string, t: string, w': string)
    requires AllSpace(w) && AllSpace(w') && Trimmed(t)
    ensures TrimSpace(w + t + w') == t
  {
    assert w + t + w' == w + (t + w');
    TrimLeftSpaces(w, t + w');
    if t == [] {
      assert t + w' == w';
      TrimLeftSpaces(w', []);
      assert w' + [] == w';
    } else {
      assert (t + w')[0] == t[0];
    }
    TrimRightSpaces(t, w');
  }

  lemma TrimSpaceOfTrimmed(t: string)
    requires Trimmed(t)
    ensures TrimSpace(t) == t
  {
    TrimSpaceAround([], t, []);
    assert [] + t + [] == t;
  }

  // ---------------------------------------------------------------------
  // strings.ToUpper
  // ---------------------------------------------------------------------

  function ToUpper(s: string): (r: string)
  {
    seq(|s|, i requires 0 <= i < |s| => UpperChar(s[i]))
  }

  /** ToUpper maps character by character, keeps length and leaves no lower-case ASCII letter. */
  lemma ToUpperShape(s: string)
    ensures |ToUpper(s)| == |s|
    ensures forall i :: 0 <= i < |s| ==> ToUpper(s)[i] == UpperChar(s[i])
    ensures forall i :: 0 <= i < |s| ==> !('a' <= ToUpper(s)[i] <= 'z')
  {
  }

  lemma ToUpperIdempotent(s: string)
    ensures ToUpper(ToUpper(s)) == ToUpper(s)
  {
  }

  lemma ToUpperKeepsTrimmed(s: string)
    requires Trimmed(s)
    ensures Trimmed(ToUpper(s))
  {
  }

  // ---------------------------------------------------------------------
  // strings.HasPrefix, strings.Index, strings.Replace(s, old, "", 1)
  // ---------------------------------------------------------------------

  predicate HasPrefix(s: string, p: string) {
    |p| <= |s| && s[..|p|] == p
  }

  predicate OccursAt(s: string, p: string, k: nat) {
    k + |p| <= |s| && s[k..k + |p|] == p
  }

  /** An occurrence one position further into s is an occurrence in the tail of s. */
  lemma OccursInTail(s: string, p: string, k: nat)
    requires s != []
    ensures OccursAt(s, p, k + 1) <==> OccursAt(s[1..], p, k)
  {
    if k + 1 + |p| <= |s| {
      assert s[1..][k..k + |p|] == s[k + 1..k + 1 + |p|];
    }
  }

  /** strings.Index: the first position where p occurs in s. */
  function IndexOf(s: string, p: string): (r: Option<nat>)
    ensures r.Some? ==> OccursAt(s, p, r.value)
    ensures r.Some? ==> forall k :: 0 <= k < r.value ==> !OccursAt(s, p, k)
    ensures r.None? ==> forall k :: 0 <= k <= |s| ==> !OccursAt(s, p, k)
    decreases |s|
  {
    if HasPrefix(s, p) then
      assert OccursAt(s, p, 0);
      Some(0)
    else if s == [] then
      None
    else
      var tail := IndexOf(s[1..], p);
      assert !OccursAt(s, p, 0);
      if tail.None? then
        assert forall k :: 1 <= k <= |s| ==> !OccursAt(s, p, k) by {
          forall k | 1 <= k <= |s| ensures !OccursAt(s, p, k) {
            OccursInTail(s, p, k - 1);
          }
        }
        None
      else
        OccursInTail(s, p, tail.value);
        assert forall k :: 1 <= k < tail.value + 1 ==> !OccursAt(s, p, k) by {
          forall k | 1 <= k < tail.value + 1 ensures !OccursAt(s, p, k) {
            OccursInTail(s, p, k - 1);
          }
        }
        Some(tail.value + 1)
  }

  /** strings.Replace(s, old, "", 1): drop the first occurrence of old; s itself when old is empty (old equals the replacement) or absent. */
  function ReplaceFirst(s: string, pat: string): (r: string)
    ensures pat != [] && HasPrefix(s, pat) ==> r == s[|pat|..]
  {
    if pat == [] then
      s
    else
      match IndexOf(s, pat)
      case None => s
      case Some(i) => s[..i] + s[i + |pat|..]
  }

  /** ReplaceFirst cuts out the first occurrence of pat, wherever it is, and leaves s alone when there is none. */
  lemma ReplaceFirstOccurrence(s: string, pat: string, i: nat)
    ensures pat == [] || (forall k :: 0 <= k <= |s| ==> !OccursAt(s, pat, k)) ==> ReplaceFirst(s, pat) == s
    ensures pat != [] && OccursAt(s, pat, i) && (forall k :: 0 <= k < i ==> !OccursAt(s, pat, k)) ==>
      ReplaceFirst(s, pat) == s[..i] + s[i + |pat|..]
  {
    if pat != [] && OccursAt(s, pat, i) && (forall k :: 0 <= k < i ==> !OccursAt(s, pat, k)) {
      var found := IndexOf(s, pat);
      assert found.Some? && found.value <= i;
    }
  }

  // ---------------------------------------------------------------------
  // strings.Split on a one-character separator, strings.Join
  // ---------------------------------------------------------------------

  function Count(s: string, c: char): nat
    decreases |s|
  {
    if s == [] then 0 else (if s[0] == c then 1 else 0) + Count(s[1..], c)
  }

  /**
   * strings.Split(s, sep): the pieces between the separators, one more
   * than there are separators ("" gives one empty piece).
   */
  function Split(s: string, sep: char): (r: seq<string>)
    ensures |r| == Count(s, sep) + 1
    ensures forall i :: 0 <= i < |r| ==> sep !in r[i]
    decreases |s|
  {
    if s == [] then
      [[]]
    else
      var rest := Split(s[1..], sep);
      if s[0] == sep then [[]] + rest else [[s[0]] + rest[0]] + rest[1..]
  }

  /** strings.Join. */
  function Join(parts: seq<string>, sep: string): string
    decreases |parts|
  {
    if |parts| == 0 then [] else if |parts| == 1 then parts[0] else parts[0] + sep + Join(parts[1..], sep)
  }

  /** Join of a list with at least two pieces: the first piece, the separator, then the rest joined. */
  lemma JoinCons(a: string, rest: seq<string>, sep: string)
    requires |rest| >= 1
    ensures Join([a] + rest, sep) == a + sep + Join(rest, sep)
  {
    assert ([a] + rest)[1..] == rest;
  }

  /** Extending the first piece by one character extends the joined string by that character. */
  lemma JoinExtendFirst(c: char, rest: seq<string>, sep: string)
    requires |rest| >= 1
    ensures Join([[c] + rest[0]] + rest[1..], sep) == [c] + Join(rest, sep)
  {
    if |rest| > 1 {
      JoinCons([c] + rest[0], rest[1..], sep);
      JoinCons(rest[0], rest[1..], sep);
      assert [rest[0]] + rest[1..] == rest;
    }
  }

  /** Joining the pieces of Split with the separator gives back the original string. */
  lemma {:induction false} JoinSplit(s: string, sep: char)
    ensures Join(Split(s, sep), [sep]) == s
    decreases |s|
  {
    if s != [] {
      var rest := Split(s[1..], sep);
      JoinSplit(s[1..], sep);
      if s[0] == sep {
        JoinCons([], rest, [sep]);
      } else {
        JoinExtendFirst(s[0], rest, [sep]);
      }
      assert s == [s[0]] + s[1..];
    }
  }

  /** A string without the separator is a single piece. */
  lemma {:induction false} SplitWithout(a: string, sep: char)
    requires sep !in a
    ensures Split(a, sep) == [a]
    decreases |a|
  {
    if a != [] {
      SplitWithout(a[1..], sep);
      assert [a[0]] + a[1..] == a;
    }
  }

  /** A separator-free first piece is split off exactly at the first separator. */
  lemma {:induction false} SplitFirst(a: string, b: string, sep: char)
    requires sep !in a
    ensures Split(a + [sep] + b, sep) == [a] + Split(b, sep)
    decreases |a|
  {
    var s := a + [sep] + b;
    if a == [] {
      assert s[1..] == b;
    } else {
      assert s[1..] == a[1..] + [sep] + b;
      SplitFirst(a[1..], b, sep);
      assert [a[0]] + a[1..] == a;
    }
  }

  /** Splitting a join of separator-free pieces gives back the pieces. */
  lemma {:induction false} SplitJoin(parts: seq<string>, sep: char)
    requires |parts| >= 1
    requires forall i :: 0 <= i < |parts| ==> sep !in parts[i]
    ensures Split(Join(parts, [sep]), sep) == parts
    decreases |parts|
  {
    if |parts| == 1 {
      SplitWithout(parts[0], sep);
    } else {
      SplitJoin(parts[1..], sep);
      assert Join(parts, [sep]) == parts[0] + [sep] + Join(parts[1..], [sep]);
      SplitFirst(parts[0], Join(parts[1..], [sep]), sep);
      assert [parts[0]] + parts[1..] == parts;
    }
  }

  // ---------------------------------------------------------------------
  // fmt's %d for an unsigned number
  // ---------------------------------------------------------------------

  /** The decimal rendering of n: at least one digit, digits only. */
  function Decimal(n: nat): (r: string)
    ensures r != [] && forall i :: 0 <= i < |r| ==> IsDigit(r[i])
    decreases n
  {
    if n < 10 then [DigitChar(n)] else Decimal(n / 10) + [DigitChar(n % 10)]
  }
}

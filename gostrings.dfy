/** The parts of Go's `strings`, `path/filepath` and `fmt` packages that the
    core relies on, over `string` (a sequence of Unicode scalar values). */
module GoStrings {

  // ---------------------------------------------------------------------------
  // strings.ReplaceAll(s, ".", "")

  /** `s` with every '.' deleted: how the providers turn "8.2" into "82". */
  function RemoveDots(s: string): (r: string)
    ensures '.' !in r
    ensures |r| <= |s|
    decreases |s|
  {
    if s == [] then [] else (if s[0] == '.' then [] else [s[0]]) + RemoveDots(s[1..])
  }

  lemma {:induction false} RemoveDotsAppend(a: string, b: string)
    ensures RemoveDots(a + b) == RemoveDots(a) + RemoveDots(b)
    decreases |a|
  {
    if a == [] {
      assert a + b == b;
    } else {
      var h := if a[0] == '.' then [] else [a[0]];
      assert (a + b)[0] == a[0];
      assert (a + b)[1..] == a[1..] + b;
      assert RemoveDots(a + b) == h + RemoveDots(a[1..] + b);
      RemoveDotsAppend(a[1..], b);
      assert RemoveDots(a) == h + RemoveDots(a[1..]);
      assert h + (RemoveDots(a[1..]) + RemoveDots(b)) == (h + RemoveDots(a[1..])) + RemoveDots(b);
    }
  }

  /** A string without dots is left as it is. */
  lemma {:induction false} RemoveDotsIdentity(s: string)
    requires '.' !in s
    ensures RemoveDots(s) == s
    decreases |s|
  {
    if s != [] {
      assert s[0] in s;
      assert forall c :: c in s[1..] ==> c in s;
      RemoveDotsIdentity(s[1..]);
      assert s == [s[0]] + s[1..];
    }
  }

  // ---------------------------------------------------------------------------
  // strings.Split with a one-character separator, and its inverse strings.Join

  /** The pieces of `s` between the occurrences of `sep`; like Go, the empty
      string splits into one empty piece. */
  function Split(s: string, sep: char): (parts: seq<string>)
    ensures |parts| >= 1
    ensures forall i :: 0 <= i < |parts| ==> sep !in parts[i]
    decreases |s|
  {
    if s == [] then [[]]
    else
      var rest := Split(s[1..], sep);
      if s[0] == sep then [[]] + rest else [[s[0]] + rest[0]] + rest[1..]
  }

  /** The pieces joined with `sep` between neighbours. */
  function JoinWith(parts: seq<string>, sep: char): (s: string)
    decreases |parts|
  {
    if parts == [] then []
    else if |parts| == 1 then parts[0]
    else parts[0] + [sep] + JoinWith(parts[1..], sep)
  }

  /** Splitting loses nothing: joining the pieces gives the string back. */
  lemma {:induction false} JoinSplit(s: string, sep: char)
    ensures JoinWith(Split(s, sep), sep) == s
    decreases |s|
  {
    if s != [] {
      var rest := Split(s[1..], sep);
      JoinSplit(s[1..], sep);
      if s[0] == sep {
        assert ([[]] + rest)[1..] == rest;
      } else {
        var parts := [[s[0]] + rest[0]] + rest[1..];
        assert Split(s, sep) == parts;
        assert parts[1..] == rest[1..];
        if |rest| == 1 {
          assert JoinWith(parts, sep) == [s[0]] + rest[0];
        } else {
          assert JoinWith(rest, sep) == rest[0] + [sep] + JoinWith(rest[1..], sep);
          assert JoinWith(parts, sep) == [s[0]] + rest[0] + [sep] + JoinWith(rest[1..], sep);
        }
        assert s == [s[0]] + s[1..];
      }
    }
  }

  /** A leading stretch without separator extends the first piece. */
  lemma {:induction false} SplitPrefix(a: string, b: string, sep: char)
    requires sep !in a
    ensures Split(a + b, sep) == [a + Split(b, sep)[0]] + Split(b, sep)[1..]
    decreases |a|
  {
    if a == [] {
      assert a + b == b;
      var r := Split(b, sep);
      assert a + r[0] == r[0];
      assert r == [r[0]] + r[1..];
    } else {
      assert (a + b)[0] == a[0];
      assert (a + b)[1..] == a[1..] + b;
      assert sep !in a[1..] by {
        assert forall c :: c in a[1..] ==> c in a;
      }
      assert a[0] in a;
      SplitPrefix(a[1..], b, sep);
      var r := Split(a[1..] + b, sep);
      assert Split(a + b, sep) == [[a[0]] + r[0]] + r[1..];
      assert [a[0]] + (a[1..] + Split(b, sep)[0]) == a + Split(b, sep)[0];
    }
  }

  /** The first piece of `a + [sep] + b` is `a` when `a` has no separator. */
  lemma SplitAtFirstSep(a: string, b: string, sep: char)
    requires sep !in a
    ensures Split(a + [sep] + b, sep) == [a] + Split(b, sep)
  {
    assert a + [sep] + b == a + ([sep] + b);
    SplitPrefix(a, [sep] + b, sep);
    assert ([sep] + b)[1..] == b;
    assert Split([sep] + b, sep) == [[]] + Split(b, sep);
    assert ([[]] + Split(b, sep))[1..] == Split(b, sep);
    assert a + [] == a;
  }

  /** A string without the separator is its own single piece. */
  lemma SplitNoSep(s: string, sep: char)
    requires sep !in s
    ensures Split(s, sep) == [s]
  {
    SplitPrefix(s, [], sep);
    assert s + [] == s;
  }

  /** Splitting undoes joining when no piece holds the separator. */
  lemma {:induction false} SplitJoin(parts: seq<string>, sep: char)
    requires |parts| >= 1
    requires forall i :: 0 <= i < |parts| ==> sep !in parts[i]
    ensures Split(JoinWith(parts, sep), sep) == parts
    decreases |parts|
  {
    if |parts| == 1 {
      SplitPrefix(parts[0], [], sep);
      assert parts[0] + [] == parts[0];
    } else {
      SplitJoin(parts[1..], sep);
      SplitAtFirstSep(parts[0], JoinWith(parts[1..], sep), sep);
      assert parts == [parts[0]] + parts[1..];
    }
  }

  // ---------------------------------------------------------------------------
  // strings.HasPrefix, strings.TrimPrefix, strings.Index, strings.Contains

  predicate HasPrefix(s: string, prefix: string) {
    prefix <= s
  }

  function TrimPrefix(s: string, prefix: string): (r: string)
    ensures HasPrefix(s, prefix) ==> prefix + r == s
    ensures !HasPrefix(s, prefix) ==> r == s
  {
    if prefix <= s then s[|prefix|..] else s
  }

  /** `sub` starts at position `i` of `s`. */
  predicate OccursAt(s: string, sub: string, i: int) {
    0 <= i <= |s| && sub <= s[i..]
  }

  lemma OccursShift(s: string, sub: string)
    requires s != []
    ensures forall i :: 1 <= i <= |s| ==> (OccursAt(s, sub, i) <==> OccursAt(s[1..], sub, i - 1))
  {
    forall i | 1 <= i <= |s|
      ensures OccursAt(s, sub, i) <==> OccursAt(s[1..], sub, i - 1)
    {
      assert s[1..][i - 1..] == s[i..];
    }
  }

  /** strings.Index: the first position at which `sub` occurs in `s`, or -1. */
  function IndexOf(s: string, sub: string): (r: int)
    ensures r == -1 || OccursAt(s, sub, r)
    ensures r == -1 ==> forall i :: 0 <= i <= |s| ==> !OccursAt(s, sub, i)
    ensures r >= 0 ==> forall i :: 0 <= i < r ==> !OccursAt(s, sub, i)
    decreases |s|
  {
    if sub <= s then 0
    else if s == [] then -1
    else
      var k := IndexOf(s[1..], sub);
      OccursShift(s, sub);
      if k == -1 then -1 else k + 1
  }

  /** strings.Contains. */
  predicate Contains(s: string, sub: string) {
    IndexOf(s, sub) >= 0
  }

  lemma ContainsAt(s: string, sub: string, i: int)
    requires OccursAt(s, sub, i)
    ensures Contains(s, sub)
  {
  }

  /** `sub` occurs in any string that has it in the middle. */
  lemma ContainsMiddle(a: string, sub: string, b: string)
    ensures Contains(a + sub + b, sub)
  {
    assert (a + sub + b)[|a|..] == sub + b;
    ContainsAt(a + sub + b, sub, |a|);
  }

  /** When the first character of `sub` does not occur in `a`, the first
      occurrence of `sub` in `a + b` is where `b` starts with it. */
  lemma IndexAfter(a: string, b: string, sub: string)
    requires sub != [] && sub[0] !in a && sub <= b
    ensures IndexOf(a + b, sub) == |a|
  {
    var s := a + b;
    assert s[|a|..] == b;
    assert OccursAt(s, sub, |a|);
    forall i | 0 <= i < |a|
      ensures !OccursAt(s, sub, i)
    {
      assert s[i] == a[i];
      assert sub[0] != a[i] by { assert a[i] in a; }
      assert s[i..][0] == s[i];
    }
  }

  /** A string without the first character of `sub` does not contain `sub`. */
  lemma NotContains(s: string, sub: string)
    requires sub != [] && sub[0] !in s
    ensures !Contains(s, sub)
  {
    forall i | 0 <= i <= |s|
      ensures !OccursAt(s, sub, i)
    {
      if i < |s| {
        assert s[i] in s;
        assert s[i..][0] == s[i];
      }
    }
  }

  // ---------------------------------------------------------------------------
  // unicode.IsSpace, strings.TrimSpace, strings.Fields

  /** unicode.IsSpace: the Latin-1 spaces and Unicode's White_Space characters. */
  predicate IsSpace(c: char) {
    || c == ' ' || c == '\t' || c == '\n' || c == '\r' || c == '\U{000B}' || c == '\U{000C}'
    || c == '\U{0085}' || c == '\U{00A0}' || c == '\U{1680}'
    || ('\U{2000}' <= c <= '\U{200A}')
    || c == '\U{2028}' || c == '\U{2029}' || c == '\U{202F}' || c == '\U{205F}' || c == '\U{3000}'
  }

  predicate NoSpace(s: string) {
    forall i :: 0 <= i < |s| ==> !IsSpace(s[i])
  }

  function TrimLeftSpace(s: string): (r: string)
    ensures |r| <= |s| && r == s[|s| - |r|..]
    ensures r == [] || !IsSpace(r[0])
    decreases |s|
  {
    if s != [] && IsSpace(s[0]) then TrimLeftSpace(s[1..]) else s
  }

  function TrimRightSpace(s: string): (r: string)
    ensures r <= s
    ensures r == [] || !IsSpace(r[|r| - 1])
    decreases |s|
  {
    if s != [] && IsSpace(s[|s| - 1]) then TrimRightSpace(s[..|s| - 1]) else s
  }

  /** strings.TrimSpace: `s` without leading and trailing white space. */
  function TrimSpace(s: string): (r: string)
    ensures r == [] || (!IsSpace(r[0]) && !IsSpace(r[|r| - 1]))
  {
    TrimRightSpace(TrimLeftSpace(s))
  }

  /** A string that neither starts nor ends with white space is its own trim. */
  lemma TrimSpaceIdentity(s: string)
    requires s == [] || (!IsSpace(s[0]) && !IsSpace(s[|s| - 1]))
    ensures TrimSpace(s) == s
  {
  }

  /** The length of the run of non-space characters that starts `s`. */
  function TokenLength(s: string): (n: nat)
    ensures n <= |s|
    ensures forall i :: 0 <= i < n ==> !IsSpace(s[i])
    ensures n == |s| || IsSpace(s[n])
    decreases |s|
  {
    if s == [] || IsSpace(s[0]) then 0 else 1 + TokenLength(s[1..])
  }

  /** strings.Fields: the maximal runs of non-space characters of `s`, in order. */
  function Fields(s: string): (r: seq<string>)
    ensures forall i :: 0 <= i < |r| ==> r[i] != [] && NoSpace(r[i])
    decreases |s|
  {
    var t := TrimLeftSpace(s);
    if t == [] then []
    else
      var n := TokenLength(t);
      TokenNoSpace(t, n);
      var rest := Fields(t[n..]);
      WordsCons(t[..n], rest);
      [t[..n]] + rest
  }

  lemma WordsCons(w: string, rest: seq<string>)
    requires w != [] && NoSpace(w)
    requires forall i :: 0 <= i < |rest| ==> rest[i] != [] && NoSpace(rest[i])
    ensures forall i :: 0 <= i < |[w] + rest| ==> ([w] + rest)[i] != [] && NoSpace(([w] + rest)[i])
  {
    forall i | 0 <= i < |[w] + rest|
      ensures ([w] + rest)[i] != [] && NoSpace(([w] + rest)[i])
    {
      if i > 0 {
        assert ([w] + rest)[i] == rest[i - 1];
      }
    }
  }

  /** The first token of a string that starts with a non-space is a
      non-empty word. */
  lemma TokenNoSpace(t: string, n: nat)
    requires t != [] && !IsSpace(t[0]) && n == TokenLength(t)
    ensures 0 < n <= |t| && t[..n] != [] && NoSpace(t[..n])
  {
    forall i | 0 <= i < n
      ensures !IsSpace(t[..n][i])
    {
      assert t[..n][i] == t[i];
    }
  }

  /** A word followed by white space (or nothing) is the first field. */
  lemma FieldsHead(a: string, b: string)
    requires a != [] && NoSpace(a)
    requires b == [] || IsSpace(b[0])
    ensures Fields(a + b) == [a] + Fields(b)
  {
    var s := a + b;
    assert s[0] == a[0];
    assert TrimLeftSpace(s) == s;
    var n := TokenLength(s);
    assert forall i :: 0 <= i < |a| ==> s[i] == a[i];
    assert b != [] ==> s[|a|] == b[0];
    assert n == |a|;
    assert s[..n] == a;
    assert s[n..] == b;
  }

  /** Leading white space does not change the fields. */
  lemma FieldsSkipSpace(x: char, b: string)
    requires IsSpace(x)
    ensures Fields([x] + b) == Fields(b)
  {
    assert ([x] + b)[1..] == b;
  }

  /** A run of white space before `b` does not change the fields. */
  lemma {:induction false} FieldsSkipSpaces(gap: string, b: string)
    requires forall i :: 0 <= i < |gap| ==> IsSpace(gap[i])
    ensures Fields(gap + b) == Fields(b)
    decreases |gap|
  {
    if gap == [] {
      assert gap + b == b;
    } else {
      var t := gap[1..] + b;
      assert gap + b == [gap[0]] + t;
      FieldsSkipSpace(gap[0], t);
      FieldsSkipSpaces(gap[1..], b);
    }
  }

  // ---------------------------------------------------------------------------
  // strings.ToLower (ASCII letters)

  function ToLowerChar(c: char): (d: char)
    ensures 'A' <= c <= 'Z' ==> 'a' <= d <= 'z'
    ensures !('A' <= c <= 'Z') ==> d == c
  {
    if 'A' <= c <= 'Z' then (c as int + 32) as char else c
  }

  function ToLower(s: string): (r: string)
    ensures |r| == |s|
    ensures forall i :: 0 <= i < |s| ==> r[i] == ToLowerChar(s[i])
  {
    seq(|s|, i requires 0 <= i < |s| => ToLowerChar(s[i]))
  }

  /** Lower-casing never turns a space into a non-space or back. */
  lemma SpaceLower(c: char)
    ensures IsSpace(ToLowerChar(c)) == IsSpace(c)
  {
  }

  /** Lower-casing keeps a string free of white space at its ends. */
  lemma LowerKeepsEnds(t: string)
    requires t == [] || (!IsSpace(t[0]) && !IsSpace(t[|t| - 1]))
    ensures var l := ToLower(t); l == [] || (!IsSpace(l[0]) && !IsSpace(l[|l| - 1]))
  {
    if t != [] {
      SpaceLower(t[0]);
      SpaceLower(t[|t| - 1]);
    }
  }

  /** A string that does not contain " " holds no blank. */
  lemma NoBlank(s: string)
    requires !Contains(s, " ")
    ensures ' ' !in s
  {
    if ' ' in s {
      var i :| 0 <= i < |s| && s[i] == ' ';
      assert OccursAt(s, " ", i) by { assert s[i..][0] == ' '; }
      ContainsAt(s, " ", i);
    }
  }

  lemma ToLowerIdempotent(s: string)
    ensures ToLower(ToLower(s)) == ToLower(s)
  {
  }

  /** Lower-casing keeps white space where it is, so it commutes with trimming. */
  lemma {:induction false} TrimLeftLower(s: string)
    ensures TrimLeftSpace(ToLower(s)) == ToLower(TrimLeftSpace(s))
    decreases |s|
  {
    if s != [] {
      assert ToLower(s)[0] == ToLowerChar(s[0]);
      SpaceLower(s[0]);
      assert ToLower(s)[1..] == ToLower(s[1..]);
      TrimLeftLower(s[1..]);
    }
  }

  lemma {:induction false} TrimRightLower(s: string)
    ensures TrimRightSpace(ToLower(s)) == ToLower(TrimRightSpace(s))
    decreases |s|
  {
    if s != [] {
      assert ToLower(s)[|s| - 1] == ToLowerChar(s[|s| - 1]);
      SpaceLower(s[|s| - 1]);
      assert ToLower(s)[..|s| - 1] == ToLower(s[..|s| - 1]);
      TrimRightLower(s[..|s| - 1]);
    }
  }

  lemma TrimSpaceLower(s: string)
    ensures TrimSpace(ToLower(s)) == ToLower(TrimSpace(s))
  {
    TrimLeftLower(s);
    TrimRightLower(TrimLeftSpace(s));
  }

  // ---------------------------------------------------------------------------
  // Go's < on strings

  /** Go's `<` on strings compares bytes lexicographically; on UTF-8 this is the
      lexicographic order of code points, so it is stated here on characters. */
  predicate LexLess(a: string, b: string)
    decreases |a|
  {
    if b == [] then false
    else if a == [] then true
    else a[0] < b[0] || (a[0] == b[0] && LexLess(a[1..], b[1..]))
  }

  lemma {:induction false} LexLessIrreflexive(a: string)
    ensures !LexLess(a, a)
    decreases |a|
  {
    if a != [] {
      LexLessIrreflexive(a[1..]);
    }
  }

  lemma {:induction false} LexLessTotal(a: string, b: string)
    ensures a == b || LexLess(a, b) || LexLess(b, a)
    decreases |a|
  {
    if a != [] && b != [] && a[0] == b[0] {
      LexLessTotal(a[1..], b[1..]);
      if a[1..] == b[1..] {
        assert a == [a[0]] + a[1..] && b == [b[0]] + b[1..];
      }
    }
  }

  lemma {:induction false} LexLessAsymmetric(a: string, b: string)
    ensures LexLess(a, b) ==> !LexLess(b, a)
    decreases |a|
  {
    if a != [] && b != [] && a[0] == b[0] {
      LexLessAsymmetric(a[1..], b[1..]);
    }
  }

  lemma {:induction false} LexLessTransitive(a: string, b: string, c: string)
    ensures LexLess(a, b) && LexLess(b, c) ==> LexLess(a, c)
    decreases |a|
  {
    if a != [] && b != [] && c != [] {
      LexLessTransitive(a[1..], b[1..], c[1..]);
    }
  }

  /** Against a one-character bound, only the first character counts: `x < "7"`
      holds exactly for the empty string and strings starting below '7'. */
  lemma LexLessSingle(x: string, c: char)
    ensures LexLess(x, [c]) <==> (x == [] || x[0] < c)
  {
    if x != [] && x[0] == c {
      assert !LexLess(x[1..], []);
    }
  }

  // ---------------------------------------------------------------------------
  // filepath.Join and filepath.Dir ('/' separator; Clean is not applied)

  function NonEmpty(elems: seq<string>): (r: seq<string>)
    ensures forall i :: 0 <= i < |r| ==> r[i] != []
    decreases |elems|
  {
    if elems == [] then []
    else (if elems[0] == [] then [] else [elems[0]]) + NonEmpty(elems[1..])
  }

  /** filepath.Join: the non-empty elements joined with '/'. */
  function PathJoin(elems: seq<string>): string {
    JoinWith(NonEmpty(elems), '/')
  }

  lemma {:induction false} NonEmptySnoc(elems: seq<string>, last: string)
    requires last != []
    ensures NonEmpty(elems + [last]) == NonEmpty(elems) + [last]
    decreases |elems|
  {
    if elems == [] {
      assert elems + [last] == [last];
    } else {
      assert (elems + [last])[0] == elems[0];
      assert (elems + [last])[1..] == elems[1..] + [last];
      NonEmptySnoc(elems[1..], last);
    }
  }

  lemma {:induction false} JoinWithSnoc(parts: seq<string>, last: string, sep: char)
    requires parts != []
    ensures JoinWith(parts + [last], sep) == JoinWith(parts, sep) + [sep] + last
    decreases |parts|
  {
    if |parts| == 1 {
      assert (parts + [last])[1..] == [last];
    } else {
      assert (parts + [last])[1..] == parts[1..] + [last];
      JoinWithSnoc(parts[1..], last, sep);
    }
  }

  /** Appending a non-empty last element after a non-empty first one adds
      "/" + that element: the shape of every provider path built with Join. */
  lemma PathJoinLast(elems: seq<string>, last: string)
    requires elems != [] && elems[0] != [] && last != []
    ensures PathJoin(elems + [last]) == PathJoin(elems) + "/" + last
  {
    NonEmptySnoc(elems, last);
    assert NonEmpty(elems) != [] by {
      assert NonEmpty(elems) == [elems[0]] + NonEmpty(elems[1..]);
    }
    JoinWithSnoc(NonEmpty(elems), last, '/');
  }

  lemma PathJoinSingle(a: string)
    requires a != []
    ensures PathJoin([a]) == a
  {
    assert NonEmpty([a]) == [a] by {
      assert [a][1..] == [];
    }
  }

  /** Join of three non-empty elements. */
  lemma PathJoin3(a: string, b: string, c: string)
    requires a != [] && b != [] && c != []
    ensures PathJoin([a, b, c]) == a + "/" + b + "/" + c
  {
    PathJoinSingle(a);
    PathJoinLast([a], b);
    assert [a] + [b] == [a, b];
    PathJoinLast([a, b], c);
    assert [a, b] + [c] == [a, b, c];
  }

  /** Join of four non-empty elements. */
  lemma PathJoin4(a: string, b: string, c: string, d: string)
    requires a != [] && b != [] && c != [] && d != []
    ensures PathJoin([a, b, c, d]) == a + "/" + b + "/" + c + "/" + d
  {
    PathJoin3(a, b, c);
    PathJoinLast([a, b, c], d);
    assert [a, b, c] + [d] == [a, b, c, d];
  }

  /** An empty middle element is dropped by Join. */
  lemma PathJoinSkipsEmpty(a: string, c: string, d: string)
    requires a != [] && c != [] && d != []
    ensures PathJoin([a, [], c, d]) == a + "/" + c + "/" + d
  {
    assert NonEmpty([a, [], c, d]) == [a] + NonEmpty([[], c, d]) by {
      assert [a, [], c, d][1..] == [[], c, d];
    }
    assert NonEmpty([[], c, d]) == NonEmpty([c, d]) by {
      assert [[], c, d][1..] == [c, d];
    }
    assert NonEmpty([a, [], c, d]) == NonEmpty([a, c, d]) by {
      assert [a, c, d][1..] == [c, d];
    }
    PathJoin3(a, c, d);
  }

  /** The two surrounding parts of a string cancel. */
  lemma ConcatCancel(p: string, a: string, b: string, s: string)
    requires p + a + s == p + b + s
    ensures a == b
  {
    assert |a| == |b|;
    assert a == (p + a + s)[|p|..|p| + |a|];
    assert b == (p + b + s)[|p|..|p| + |b|];
  }

  /** strings.LastIndex for one character, or -1. */
  function LastIndexOf(s: string, c: char): (r: int)
    ensures r == -1 || (0 <= r < |s| && s[r] == c)
    ensures forall j :: r < j < |s| ==> s[j] != c
    decreases |s|
  {
    if s == [] then -1
    else if s[|s| - 1] == c then |s| - 1
    else LastIndexOf(s[..|s| - 1], c)
  }

  /** filepath.Dir: everything before the last '/', "/" when that is the leading
      one, "." when there is none. */
  function PathDir(p: string): (d: string)
    ensures d != []
  {
    var i := LastIndexOf(p, '/');
    if i < 0 then "." else if i == 0 then "/" else p[..i]
  }

  /** The directory of a path built as `a + "/" + last`, `last` without a
      slash, is `a` (or the root when `a` is empty). */
  lemma PathDirAppend(a: string, last: string)
    requires '/' !in last
    ensures PathDir(a + "/" + last) == if a == [] then "/" else a
  {
    var p := a + "/" + last;
    assert p[|a|] == '/';
    forall j | |a| < j < |p|
      ensures p[j] != '/'
    {
      assert p[j] == last[j - |a| - 1];
    }
    var i := LastIndexOf(p, '/');
    assert i == |a|;
    assert p[..i] == a;
  }

  // ---------------------------------------------------------------------------
  // fmt.Sprintf("%.0f", v) for integral v

  predicate IsDigit(c: char) {
    '0' <= c <= '9'
  }

  predicate IsDigits(s: string) {
    forall i :: 0 <= i < |s| ==> IsDigit(s[i])
  }

  function DigitChar(d: nat): (c: char)
    requires d < 10
    ensures IsDigit(c)
  {
    ('0' as int + d) as char
  }

  function DigitValue(c: char): (d: nat)
    requires IsDigit(c)
    ensures d < 10
  {
    c as int - '0' as int
  }

  /** The decimal digits of `n`, most significant first, without leading zeros. */
  function NatToDecimal(n: nat): (s: string)
    ensures s != [] && IsDigits(s)
    decreases n
  {
    if n < 10 then [DigitChar(n)] else NatToDecimal(n / 10) + [DigitChar(n % 10)]
  }

  /** "%.0f" of an integral float: an optional minus sign and the digits. */
  function IntToDecimal(n: int): (s: string)
    ensures n >= 0 ==> s == NatToDecimal(n)
    ensures n < 0 ==> s == "-" + NatToDecimal(-n)
  {
    if n < 0 then "-" + NatToDecimal(-n) else NatToDecimal(n)
  }

  /** The number a string of decimal digits denotes. */
  function DecimalValue(s: string): nat
    requires IsDigits(s)
    decreases |s|
  {
    if s == [] then 0 else 10 * DecimalValue(s[..|s| - 1]) + DigitValue(s[|s| - 1])
  }

  /** Reading the digits back gives the number. */
  lemma {:induction false} DecimalRoundTrip(n: nat)
    ensures DecimalValue(NatToDecimal(n)) == n
    decreases n
  {
    if n >= 10 {
      var s := NatToDecimal(n);
      DecimalRoundTrip(n / 10);
      assert s[..|s| - 1] == NatToDecimal(n / 10);
    }
  }
}

/** The string operations the pages use: toLowerCase, includes, localeCompare, split,
    join and trim, over strings as sequences of UTF-16 code units. */
module Text {

  function LowerChar(c: char): (d: char)
    ensures 'A' <= c <= 'Z' ==> 'a' <= d <= 'z'
    ensures !('A' <= c <= 'Z') ==> d == c
  {
    if 'A' <= c <= 'Z' then (c as int + 32) as char else c
  }

  /** `s.toLowerCase()` restricted to the ASCII letters. */
  function ToLower(s: string): (r: string)
    ensures |r| == |s|
    ensures forall i :: 0 <= i < |s| ==> r[i] == LowerChar(s[i])
  {
    seq(|s|, i requires 0 <= i < |s| => LowerChar(s[i]))
  }

  /** Lower-casing twice is lower-casing once. */
  lemma ToLowerIdempotent(s: string)
    ensures ToLower(ToLower(s)) == ToLower(s)
  {
  }

  /** `hay.includes(needle)`. */
  predicate Contains(hay: string, needle: string) {
    exists i :: 0 <= i <= |hay| - |needle| && OccursAt(hay, needle, i)
  }

  predicate OccursAt(hay: string, needle: string, i: int)
    requires 0 <= i <= |hay| - |needle|
  {
    hay[i..i + |needle|] == needle
  }

  lemma EmptyIsContained(hay: string)
    ensures Contains(hay, "")
  {
    assert OccursAt(hay, "", 0);
  }

  /** Strict lexicographic order by code unit; the model's stand-in for localeCompare < 0. */
  predicate Less(a: string, b: string) {
    if a == [] then b != []
    else if b == [] then false
    else if a[0] != b[0] then a[0] < b[0]
    else Less(a[1..], b[1..])
  }

  lemma {:induction false} LessIrreflexive(a: string)
    ensures !Less(a, a)
  {
    if a != [] { LessIrreflexive(a[1..]); }
  }

  lemma {:induction false} LessTrichotomy(a: string, b: string)
    ensures Less(a, b) || a == b || Less(b, a)
    ensures !(Less(a, b) && Less(b, a))
  {
    if a != [] && b != [] && a[0] == b[0] {
      LessTrichotomy(a[1..], b[1..]);
      if a[1..] == b[1..] { assert a == [a[0]] + a[1..] && b == [b[0]] + b[1..]; }
    }
  }

  lemma {:induction false} LessTransitive(a: string, b: string, c: string)
    requires Less(a, b) && Less(b, c)
    ensures Less(a, c)
  {
    if a != [] && a[0] == b[0] && b[0] == c[0] {
      LessTransitive(a[1..], b[1..], c[1..]);
    }
  }

  /** `s.split(sep)` for a one-character separator: at least one part, none containing sep. */
  function Split(s: string, sep: char): (r: seq<string>)
    ensures |r| >= 1
    ensures forall i :: 0 <= i < |r| ==> sep !in r[i]
  {
    if s == [] then [""]
    else
      var rest := Split(s[1..], sep);
      if s[0] == sep then [""] + rest
      else [[s[0]] + rest[0]] + rest[1..]
  }

  /** `l.join(sep)`. */
  function Join(l: seq<string>, sep: string): string {
    if |l| == 0 then "" else if |l| == 1 then l[0] else l[0] + sep + Join(l[1..], sep)
  }

  /** Splitting a text that starts with a character other than the separator extends the
      first part of the rest. */
  lemma SplitCons(c: char, t: string, sep: char)
    requires c != sep
    ensures Split([c] + t, sep) == [[c] + Split(t, sep)[0]] + Split(t, sep)[1..]
  {
    assert ([c] + t)[0] == c && ([c] + t)[1..] == t;
  }

  /** Splitting a text whose first segment holds no separator yields that segment first. */
  lemma {:induction false} SplitAfterSegment(a: string, t: string, sep: char)
    requires sep !in a
    ensures Split(a + t, sep) == [a + Split(t, sep)[0]] + Split(t, sep)[1..]
  {
    var r := Split(t, sep);
    if a == [] {
      assert a + t == t && a + r[0] == r[0];
      assert r == [r[0]] + r[1..];
    } else {
      SplitAfterSegment(a[1..], t, sep);
      assert a + t == [a[0]] + (a[1..] + t);
      SplitCons(a[0], a[1..] + t, sep);
      var rest := Split(a[1..] + t, sep);
      assert rest[0] == a[1..] + r[0] && rest[1..] == r[1..];
      assert [a[0]] + (a[1..] + r[0]) == a + r[0];
    }
  }

  /** Splitting a join, where the separator is followed by glue g, gives back the parts with
      g put in front of every part after the first. */
  lemma {:induction false} SplitJoin(l: seq<string>, sep: char, g: string)
    requires |l| >= 1
    requires forall i :: 0 <= i < |l| ==> sep !in l[i]
    requires sep !in g
    ensures |Split(Join(l, [sep] + g), sep)| == |l|
    ensures Split(Join(l, [sep] + g), sep)[0] == l[0]
    ensures forall i :: 1 <= i < |l| ==> Split(Join(l, [sep] + g), sep)[i] == g + l[i]
  {
    var j := Join(l, [sep] + g);
    if |l| == 1 {
      SplitAfterSegment(l[0], "", sep);
      assert l[0] + "" == l[0];
    } else {
      var jr := Join(l[1..], [sep] + g);
      assert j == l[0] + ([sep] + (g + jr));
      SplitAfterSegment(l[0], [sep] + (g + jr), sep);
      var u := [sep] + (g + jr);
      assert u[0] == sep && u[1..] == g + jr;
      assert Split(u, sep) == [""] + Split(g + jr, sep);
      assert l[0] + "" == l[0];
      SplitAfterSegment(g, jr, sep);
      SplitJoin(l[1..], sep, g);
      assert Split(j, sep) == [l[0]] + Split(g + jr, sep);
    }
  }

  predicate IsSpace(c: char) {
    c == ' ' || c == '\t' || c == '\n' || c == '\r' || c == '\U{000B}' || c == '\U{000C}'
  }

  /** A string with no surrounding white space. */
  predicate Trimmed(s: string) {
    s == [] || (!IsSpace(s[0]) && !IsSpace(s[|s| - 1]))
  }

  function TrimStart(s: string): (r: string)
    ensures r == [] || !IsSpace(r[0])
    ensures |r| <= |s| && r == s[|s| - |r|..]
    ensures forall k :: 0 <= k < |s| - |r| ==> IsSpace(s[k])
  {
    if s != [] && IsSpace(s[0]) then TrimStart(s[1..]) else s
  }

  function TrimEnd(s: string): (r: string)
    ensures r == [] || !IsSpace(r[|r| - 1])
    ensures |r| <= |s| && r == s[..|r|]
    ensures forall k :: |r| <= k < |s| ==> IsSpace(s[k])
  {
    if s != [] && IsSpace(s[|s| - 1]) then TrimEnd(s[..|s| - 1]) else s
  }

  /** `s.trim()` for ASCII white space: the result is a slice of `s`, everything cut away
      is white space, and the result neither starts nor ends with white space. */
  function Trim(s: string): (r: string)
    ensures Trimmed(r)
    ensures exists a, b :: 0 <= a <= b <= |s| && r == s[a..b]
              && (forall k :: 0 <= k < a || b <= k < |s| ==> IsSpace(s[k]))
  {
    var t := TrimStart(s);
    var r := TrimEnd(t);
    var a := |s| - |t|;
    TrimCuts(s, t, r);
    assert r != [] ==> r[0] == t[0];
    assert r == s[a..a + |r|];
    r
  }

  /** Cutting white space off the front and then off the back leaves a slice of the original
      with white space all around it. */
  lemma TrimCuts(s: string, t: string, r: string)
    requires |t| <= |s| && t == s[|s| - |t|..] && forall k :: 0 <= k < |s| - |t| ==> IsSpace(s[k])
    requires |r| <= |t| && r == t[..|r|] && forall k :: |r| <= k < |t| ==> IsSpace(t[k])
    ensures var a := |s| - |t|;
      && r == s[a..a + |r|]
      && (forall k :: 0 <= k < a || a + |r| <= k < |s| ==> IsSpace(s[k]))
  {
    var a := |s| - |t|;
    forall k | a + |r| <= k < |s| ensures IsSpace(s[k]) {
      assert s[k] == t[k - a];
    }
  }

  /** Trimming a trimmed string after one leading space gives it back. */
  lemma TrimAfterSpace(s: string)
    requires Trimmed(s)
    ensures Trim(s) == s
    ensures Trim([' '] + s) == s
  {
    assert TrimStart(s) == s;
    assert TrimEnd(s) == s;
    var t := [' '] + s;
    assert t[1..] == s;
    assert TrimStart(t) == TrimStart(s);
  }

  function TrimAll(l: seq<string>): (r: seq<string>)
    ensures |r| == |l|
    ensures forall i :: 0 <= i < |l| ==> r[i] == Trim(l[i])
  {
    seq(|l|, i requires 0 <= i < |l| => Trim(l[i]))
  }

  /** `parts.filter(Boolean)` on strings: the non-empty parts in order. */
  function NonEmpty(l: seq<string>): (r: seq<string>)
    ensures forall x :: x in r <==> x in l && x != ""
    ensures |r| <= |l|
  {
    if l == [] then []
    else (if l[0] == "" then [] else [l[0]]) + NonEmpty(l[1..])
  }

  lemma {:induction false} NonEmptyKeepsAll(l: seq<string>)
    requires forall i :: 0 <= i < |l| ==> l[i] != ""
    ensures NonEmpty(l) == l
  {
    if l != [] { NonEmptyKeepsAll(l[1..]); }
  }

  lemma {:induction false} NonEmptyConcat(a: seq<string>, b: seq<string>)
    ensures NonEmpty(a + b) == NonEmpty(a) + NonEmpty(b)
  {
    if a != [] {
      assert (a + b)[0] == a[0] && (a + b)[1..] == a[1..] + b;
      NonEmptyConcat(a[1..], b);
    } else {
      assert a + b == b;
    }
  }

  lemma {:induction false} NonEmptyOfBlanks(l: seq<string>)
    requires forall i :: 0 <= i < |l| ==> l[i] == ""
    ensures NonEmpty(l) == []
  {
    if l != [] { NonEmptyOfBlanks(l[1..]); }
  }
}

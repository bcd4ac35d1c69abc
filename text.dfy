/**
 * The string primitives the scraper relies on, written out with Python's
 * semantics: `str.strip()`, `str.lower()`, the `in` operator on strings,
 * `str.split(sep)`, `str.split()`, `sep.join(parts)`, `int(token)` and the
 * tag-removing `re.sub(r'<[^>]+>', '', s)`.
 */
module Text {
  import opened Wrappers

  /** Python's `str.isspace()` for one character: the set `strip()` and `split()` use. */
  predicate IsSpace(c: char) {
    c == ' ' || ('\t' <= c <= '\r') || ('\U{1c}' <= c <= '\U{1f}')
    || c == '\U{85}' || c == '\U{a0}' || c == '\U{1680}'
    || ('\U{2000}' <= c <= '\U{200a}') || c == '\U{2028}' || c == '\U{2029}'
    || c == '\U{202f}' || c == '\U{205f}' || c == '\U{3000}'
  }

  /** Length of the longest prefix of `s` whose characters are all spaces (`space`) or all non-spaces (`!space`). */
  function Span(s: string, space: bool): (n: nat)
    ensures n <= |s|
    ensures forall i :: 0 <= i < n ==> IsSpace(s[i]) == space
    ensures n < |s| ==> IsSpace(s[n]) != space
  {
    if s == [] || IsSpace(s[0]) != space then 0 else 1 + Span(s[1..], space)
  }

  /** Number of whitespace characters at the end of `s`. */
  function TrailingSpace(s: string): (n: nat)
    ensures n <= |s|
    ensures forall i :: |s| - n <= i < |s| ==> IsSpace(s[i])
    ensures n < |s| ==> !IsSpace(s[|s| - 1 - n])
  {
    if s == [] || !IsSpace(s[|s| - 1]) then 0 else 1 + TrailingSpace(s[..|s| - 1])
  }

  /** Python's `s.strip()`. */
  function Strip(s: string): (r: string)
    ensures |r| <= |s|
    ensures r == [] || (!IsSpace(r[0]) && !IsSpace(r[|r| - 1]))
    ensures (s == [] || (!IsSpace(s[0]) && !IsSpace(s[|s| - 1]))) ==> r == s
    ensures r == [] <==> forall i :: 0 <= i < |s| ==> IsSpace(s[i])
  {
    var a := Span(s, true);
    var t := s[a..];
    var r := t[..|t| - TrailingSpace(t)];
    assert r != [] ==> r[0] == s[a];
    r
  }

  /**
   * What `strip()` keeps is a contiguous slice of its argument, and all it
   * cuts off on either side is whitespace; with the ends of the result being
   * non-spaces, this fixes the result.
   */
  lemma StripIsSlice(s: string)
    ensures exists a, b ::
              && 0 <= a <= b <= |s| && Strip(s) == s[a..b]
              && (forall i :: 0 <= i < a ==> IsSpace(s[i]))
              && (forall i :: b <= i < |s| ==> IsSpace(s[i]))
  {
    var a := Span(s, true);
    var t := s[a..];
    var b := a + |t| - TrailingSpace(t);
    assert Strip(s) == s[a..b];
    assert forall i :: b <= i < |s| ==> s[i] == t[i - a];
  }

  /** Stripping twice is stripping once. */
  lemma StripOfStripped(s: string)
    ensures Strip(Strip(s)) == Strip(s)
  {
  }

  /** `str.lower()` on one character; only ASCII letters are folded in this model. */
  function LowerChar(c: char): char {
    if 'A' <= c <= 'Z' then (c as int + 32) as char else c
  }

  /** Python's `s.lower()`, restricted to ASCII case folding. */
  function Lower(s: string): (r: string)
    ensures |r| == |s|
    ensures forall i :: 0 <= i < |s| ==> r[i] == LowerChar(s[i])
  {
    if s == [] then [] else [LowerChar(s[0])] + Lower(s[1..])
  }

  /** Lower-casing twice is lower-casing once. */
  lemma LowerIdempotent(s: string)
    ensures Lower(Lower(s)) == Lower(s)
  {
    assert forall i :: 0 <= i < |s| ==> Lower(Lower(s))[i] == Lower(s)[i];
  }

  /** Python's `s.startswith(p)`. */
  predicate StartsWith(s: string, p: string) {
    |p| <= |s| && s[..|p|] == p
  }

  /** Python's `p in s` for strings: `p` occurs in `s` as a contiguous piece. */
  predicate Contains(s: string, p: string)
    decreases |s|
  {
    StartsWith(s, p) || (s != [] && Contains(s[1..], p))
  }

  lemma {:induction false} ContainsAt(s: string, p: string, i: nat)
    requires i + |p| <= |s| && s[i..i + |p|] == p
    ensures Contains(s, p)
    decreases i
  {
    if i > 0 {
      assert s[1..][i - 1..i - 1 + |p|] == s[i..i + |p|];
      ContainsAt(s[1..], p, i - 1);
    }
  }

  /** Every occurrence has a position: the converse of ContainsAt. */
  lemma {:induction false} ContainsPosition(s: string, p: string) returns (i: nat)
    requires Contains(s, p)
    ensures i + |p| <= |s| && s[i..i + |p|] == p
    decreases |s|
  {
    if StartsWith(s, p) {
      i := 0;
    } else {
      var j := ContainsPosition(s[1..], p);
      i := j + 1;
      assert s[1..][j..j + |p|] == s[i..i + |p|];
    }
  }

  /** Occurrence is transitive: a piece of a piece of `s` is a piece of `s`. */
  lemma ContainsTransitive(s: string, p: string, q: string)
    requires Contains(s, p) && Contains(p, q)
    ensures Contains(s, q)
  {
    var i := ContainsPosition(s, p);
    var j := ContainsPosition(p, q);
    forall k | 0 <= k < |q|
      ensures s[i + j + k] == q[k]
    {
      assert s[i + j + k] == s[i..i + |p|][j + k];
      assert q[k] == p[j..j + |q|][k];
    }
    assert s[i + j..i + j + |q|] == q;
    ContainsAt(s, q, i + j);
  }

  /** A non-empty piece of `s` starts with a character of `s`. */
  lemma ContainsFirstChar(s: string, p: string)
    requires Contains(s, p) && p != []
    ensures p[0] in s
  {
    var i := ContainsPosition(s, p);
    assert s[i] == p[0];
  }

  /** `any(p in s for p in ps)`. */
  predicate ContainsAny(s: string, ps: seq<string>)
    decreases |ps|
  {
    ps != [] && (Contains(s, ps[0]) || ContainsAny(s, ps[1..]))
  }

  lemma {:induction false} ContainsAnySpec(s: string, ps: seq<string>)
    ensures ContainsAny(s, ps) <==> exists i :: 0 <= i < |ps| && Contains(s, ps[i])
    decreases |ps|
  {
    if ps != [] {
      ContainsAnySpec(s, ps[1..]);
      assert forall i :: 1 <= i < |ps| ==> ps[1..][i - 1] == ps[i];
    }
  }

  /** Index of the first `c` in `s`, or `|s|` when there is none. */
  function IndexOf(s: string, c: char): (i: nat)
    ensures i <= |s|
    ensures c !in s[..i]
    ensures i < |s| ==> s[i] == c
    ensures i == |s| <==> c !in s
  {
    if s == [] || s[0] == c then 0
    else
      var j := IndexOf(s[1..], c);
      assert s[..j + 1] == [s[0]] + s[1..][..j];
      j + 1
  }

  /** Python's `s.split(c)[0]`: everything before the first `c`. */
  function Before(s: string, c: char): string {
    s[..IndexOf(s, c)]
  }

  /** Python's `sep.join(parts)`. */
  function Join(parts: seq<string>, sep: string): string {
    if parts == [] then []
    else if |parts| == 1 then parts[0]
    else parts[0] + sep + Join(parts[1..], sep)
  }

  /** A string is what comes before position `i`, the character there, and what follows. */
  lemma SplitAt(s: string, i: nat)
    requires i < |s|
    ensures s == s[..i] + [s[i]] + s[i + 1..]
  {
    assert s[..i] + [s[i]] == s[..i + 1];
  }

  /** Python's `s.split(c)` for a one-character separator `c`. */
  function SplitOn(s: string, c: char): (parts: seq<string>)
    ensures |parts| >= 1
    ensures forall i :: 0 <= i < |parts| ==> c !in parts[i]
    ensures Join(parts, [c]) == s
    ensures parts[0] == Before(s, c)
    ensures |parts| == 1 <==> c !in s
    decreases |s|
  {
    var i := IndexOf(s, c);
    if i == |s| then
      assert s[..i] == s;
      [s]
    else
      var rest := SplitOn(s[i + 1..], c);
      var parts := [s[..i]] + rest;
      assert parts[0] == s[..i] && parts[1..] == rest;
      assert forall k :: 1 <= k < |parts| ==> parts[k] == rest[k - 1];
      assert Join(parts, [c]) == s[..i] + [c] + Join(rest, [c]);
      SplitAt(s, i);
      parts
  }

  /** The second piece of `s.split(c)`, when there is one, runs up to the second `c`. */
  lemma SplitOnSecond(s: string, c: char)
    requires c in s
    ensures |SplitOn(s, c)| >= 2
    ensures SplitOn(s, c)[1] == Before(s[IndexOf(s, c) + 1..], c)
  {
  }

  /** A whitespace-free, non-empty token, as produced by `str.split()`. */
  predicate IsWord(w: string) {
    w != [] && forall i :: 0 <= i < |w| ==> !IsSpace(w[i])
  }

  /** Python's `s.split()` with no argument: the maximal runs of non-whitespace characters. */
  function Words(s: string): (ws: seq<string>)
    ensures forall i :: 0 <= i < |ws| ==> IsWord(ws[i])
    ensures s != [] && !IsSpace(s[0]) ==> ws != [] && ws[0] == s[..Span(s, false)]
    decreases |s|
  {
    if s == [] then []
    else if IsSpace(s[0]) then Words(s[1..])
    else
      var n := Span(s, false);
      [s[..n]] + Words(s[n..])
  }

  /** `s.split()` undoes `' '.join(ws)` when every `w` is a token. */
  lemma {:induction false} WordsOfJoin(ws: seq<string>)
    requires forall i :: 0 <= i < |ws| ==> IsWord(ws[i])
    ensures Words(Join(ws, " ")) == ws
  {
    if |ws| == 1 {
      var w := ws[0];
      assert Join(ws, " ") == w;
      assert Span(w, false) == |w|;
      assert w[..|w|] == w;
      assert w[|w|..] == [];
    } else if |ws| > 1 {
      var w, rest := ws[0], Join(ws[1..], " ");
      var s := w + " " + rest;
      assert Join(ws, " ") == s;
      assert Span(s, false) == |w| by {
        assert s[|w|] == ' ';
        assert forall i :: 0 <= i < |w| ==> s[i] == w[i];
      }
      assert s[..|w|] == w;
      assert s[|w|..][1..] == rest;
      WordsOfJoin(ws[1..]);
    }
  }

  /** `' '.join(ws)` of tokens starts and ends with a non-space, so `strip()` leaves it alone. */
  lemma {:induction false} JoinOfWordsStripped(ws: seq<string>)
    requires ws != [] && forall i :: 0 <= i < |ws| ==> IsWord(ws[i])
    ensures Strip(Join(ws, " ")) == Join(ws, " ")
  {
    JoinOfWordsEnds(ws);
  }

  lemma {:induction false} JoinOfWordsEnds(ws: seq<string>)
    requires ws != [] && forall i :: 0 <= i < |ws| ==> IsWord(ws[i])
    ensures var s := Join(ws, " "); s != [] && !IsSpace(s[0]) && !IsSpace(s[|s| - 1])
    decreases |ws|
  {
    if |ws| > 1 {
      JoinOfWordsEnds(ws[1..]);
      var s := ws[0] + " " + Join(ws[1..], " ");
      assert s[0] == ws[0][0];
      assert s[|s| - 1] == Join(ws[1..], " ")[|Join(ws[1..], " ")| - 1];
    }
  }

  /** `s` with every run of whitespace made one space and trailing whitespace dropped. */
  function Squeezed(s: string): string
    decreases |s|
  {
    if s == [] then []
    else if !IsSpace(s[0]) then [s[0]] + Squeezed(s[1..])
    else
      var rest := s[Span(s, true)..];
      if rest == [] then [] else [' '] + Squeezed(rest)
  }

  /** Leading whitespace produces no token. */
  lemma {:induction false} WordsSkipLeading(s: string)
    ensures Words(s) == Words(s[Span(s, true)..])
    decreases |s|
  {
    if s != [] && IsSpace(s[0]) {
      WordsSkipLeading(s[1..]);
      assert s[Span(s, true)..] == s[1..][Span(s[1..], true)..];
    } else {
      assert s[0..] == s;
    }
  }

  /** A run of non-spaces passes through `Squeezed` unchanged. */
  lemma {:induction false} SqueezedPrefix(t: string, n: nat)
    requires n <= |t| && forall i :: 0 <= i < n ==> !IsSpace(t[i])
    ensures Squeezed(t) == t[..n] + Squeezed(t[n..])
    decreases n
  {
    if n > 0 {
      SqueezedPrefix(t[1..], n - 1);
      assert t[1..][n - 1..] == t[n..];
      assert [t[0]] + t[1..][..n - 1] == t[..n];
    } else {
      assert t[0..] == t;
    }
  }

  /** Joining one more token in front. */
  lemma JoinCons(w: string, ws: seq<string>, sep: string)
    requires ws != []
    ensures Join([w] + ws, sep) == w + sep + Join(ws, sep)
  {
    assert ([w] + ws)[1..] == ws;
  }

  lemma {:induction false} WordsJoinFromToken(t: string)
    requires t == [] || !IsSpace(t[0])
    ensures Join(Words(t), " ") == Squeezed(t)
    decreases |t|
  {
    if t != [] {
      var n := Span(t, false);
      var w, u := t[..n], t[n..];
      assert Words(t) == [w] + Words(u);
      SqueezedPrefix(t, n);
      WordsSkipLeading(u);
      var rest := u[Span(u, true)..];
      if rest == [] {
        assert Squeezed(u) == [] by {
          if u != [] {
            assert IsSpace(u[0]);
          }
        }
        assert Words([]) == [];
        assert [w] + [] == [w];
        assert t[..n] + [] == t[..n];
      } else {
        assert IsSpace(u[0]);
        assert Squeezed(u) == [' '] + Squeezed(rest);
        WordsJoinFromToken(rest);
        JoinCons(w, Words(rest), " ");
      }
    }
  }

  /**
   * `' '.join(s.split())` is `s` with its ends stripped and every inner run of
   * whitespace made one space. Since the tokens hold no whitespace, this fixes
   * them: they are the maximal runs of non-spaces of `s`, all of them, in order.
   */
  lemma WordsSingleSpaced(s: string)
    ensures Join(Words(s), " ") == Squeezed(s[Span(s, true)..])
  {
    WordsSkipLeading(s);
    WordsJoinFromToken(s[Span(s, true)..]);
  }

  /** Two token lists with the same single-spaced join are equal; with `WordsSingleSpaced` this pins `Words(s)` down. */
  lemma TokensDeterminedByJoin(ws: seq<string>, vs: seq<string>)
    requires forall i :: 0 <= i < |ws| ==> IsWord(ws[i])
    requires forall i :: 0 <= i < |vs| ==> IsWord(vs[i])
    requires Join(ws, " ") == Join(vs, " ")
    ensures ws == vs
  {
    WordsOfJoin(ws);
    WordsOfJoin(vs);
  }

  /** Everything after the first `c`, rejoined with `c`: `c.join(s.split(c)[1:])`. */
  lemma SplitTailJoin(s: string, c: char)
    requires c in s
    ensures Join(SplitOn(s, c)[1..], [c]) == s[IndexOf(s, c) + 1..]
  {
  }

  /** From the first `c` on is `c` followed by what comes after it. */
  lemma FromFirst(s: string, c: char)
    requires c in s
    ensures s[IndexOf(s, c)..] == [c] + s[IndexOf(s, c) + 1..]
  {
    var i := IndexOf(s, c);
    assert s[i..][0] == c && s[i..][1..] == s[i + 1..];
  }

  predicate IsDigit(c: char) {
    '0' <= c <= '9'
  }

  predicate AllDigits(s: string) {
    forall i :: 0 <= i < |s| ==> IsDigit(s[i])
  }

  /** The value of a string of decimal digits, most significant first. */
  function DigitsValue(s: string): nat
    requires AllDigits(s)
  {
    if s == [] then 0 else 10 * DigitsValue(s[..|s| - 1]) + (s[|s| - 1] as int - '0' as int)
  }

  /** Python's `int(token)` for a token without surrounding whitespace: an optional sign, then ASCII digits. */
  function ParseInt(s: string): Option<int> {
    if s != [] && (s[0] == '+' || s[0] == '-') then
      var digits := s[1..];
      if digits != [] && AllDigits(digits) then
        var v: int := DigitsValue(digits);
        Some(if s[0] == '-' then -v else v)
      else None
    else if s != [] && AllDigits(s) then Some(DigitsValue(s))
    else None
  }

  /** Python's `str(n)` for a natural number. */
  function Decimal(n: nat): (s: string)
    ensures s != [] && AllDigits(s)
  {
    if n < 10 then [('0' as int + n) as char]
    else Decimal(n / 10) + [('0' as int + n % 10) as char]
  }

  /** `int` reads back what `str` writes. */
  lemma {:induction false} ParseIntOfDecimal(n: nat)
    ensures ParseInt(Decimal(n)) == Some(n)
  {
    DigitsOfDecimal(n);
  }

  lemma {:induction false} DigitsOfDecimal(n: nat)
    ensures DigitsValue(Decimal(n)) == n
  {
    var s := Decimal(n);
    if n < 10 {
      assert s[..0] == [];
    } else {
      assert s[..|s| - 1] == Decimal(n / 10);
      DigitsOfDecimal(n / 10);
    }
  }

  /** At position `i` of `s` starts a match of `<[^>]+>`: a `<`, then at least one character before the next `>`. */
  predicate TagAt(s: string, i: nat)
    requires i < |s|
  {
    s[i] == '<' && 1 <= IndexOf(s[i + 1..], '>') < |s| - i - 1
  }

  /** No match of `<[^>]+>` anywhere in `s`. */
  predicate NoTag(s: string) {
    forall i :: 0 <= i < |s| ==> !TagAt(s, i)
  }

  /** `re.sub(r'<[^>]+>', '', s)`: scanning left to right, every match is deleted. */
  function StripTags(s: string): (r: string)
    ensures |r| <= |s|
    ensures forall i :: 0 <= i < |r| ==> r[i] in s
    decreases |s|
  {
    if s == [] then []
    else if TagAt(s, 0) then
      var r := StripTags(s[IndexOf(s[1..], '>') + 2..]);
      assert forall i :: 0 <= i < |r| ==> r[i] in s[IndexOf(s[1..], '>') + 2..];
      r
    else [s[0]] + StripTags(s[1..])
  }

  /** Dropping the first character shifts every match position by one. */
  lemma TagAtTail(s: string, i: nat)
    requires 0 < i < |s|
    ensures TagAt(s, i) == TagAt(s[1..], i - 1)
  {
    assert s[1..][i - 1 + 1..] == s[i + 1..];
  }

  /** After `re.sub` no tag remains in the result. */
  lemma {:induction false} StripTagsLeavesNoTag(s: string)
    ensures NoTag(StripTags(s))
    decreases |s|
  {
    if s == [] {
    } else if TagAt(s, 0) {
      StripTagsLeavesNoTag(s[IndexOf(s[1..], '>') + 2..]);
    } else {
      var rest := StripTags(s[1..]);
      var r := [s[0]] + rest;
      StripTagsLeavesNoTag(s[1..]);
      forall i | 0 < i < |r|
        ensures !TagAt(r, i)
      {
        assert r[1..] == rest;
        TagAtTail(r, i);
      }
      if s[0] == '<' && |r| > 1 {
        if IndexOf(s[1..], '>') == 0 {
          assert s[1] == '>';
          assert !TagAt(s[1..], 0);
          assert rest[0] == '>';
          assert r[1..][0] == '>';
        } else {
          assert '>' !in s[1..];
          assert '>' !in rest;
          assert r[1..] == rest;
        }
      }
    }
  }

  /** When `s` holds no tag, `re.sub` returns it unchanged. */
  lemma {:induction false} StripTagsKeepsTagFree(s: string)
    requires NoTag(s)
    ensures StripTags(s) == s
    decreases |s|
  {
    if s != [] {
      assert !TagAt(s, 0);
      forall i | 0 <= i < |s| - 1
        ensures !TagAt(s[1..], i)
      {
        TagAtTail(s, i + 1);
      }
      StripTagsKeepsTagFree(s[1..]);
    }
  }

  /** Removing tags twice removes nothing more. */
  lemma StripTagsIdempotent(s: string)
    ensures StripTags(StripTags(s)) == StripTags(s)
  {
    StripTagsLeavesNoTag(s);
    StripTagsKeepsTagFree(StripTags(s));
  }

  /** The first `c` of a string is the first `c` of every extension of it. */
  lemma {:induction false} IndexOfExtension(u: string, v: string, c: char)
    requires |v| <= |u| && v == u[..|v|] && IndexOf(v, c) < |v|
    ensures IndexOf(u, c) == IndexOf(v, c)
    decreases |v|
  {
    if u[0] != c {
      assert v[1..] == u[1..][..|v| - 1];
      IndexOfExtension(u[1..], v[1..], c);
    }
  }

  /** A contiguous piece of a tag-free string is tag-free. */
  lemma NoTagSlice(s: string, a: nat, b: nat)
    requires a <= b <= |s| && NoTag(s)
    ensures NoTag(s[a..b])
  {
    var t := s[a..b];
    forall i | 0 <= i < |t|
      ensures !TagAt(t, i)
    {
      var u, v := s[a + i + 1..], t[i + 1..];
      assert v == u[..|v|];
      if t[i] == '<' && IndexOf(v, '>') < |v| {
        IndexOfExtension(u, v, '>');
      }
      assert !TagAt(s, a + i);
    }
  }

  /** `strip()` keeps a contiguous piece of its argument, so it keeps a tag-free string tag-free. */
  lemma StripKeepsNoTag(s: string)
    requires NoTag(s)
    ensures NoTag(Strip(s))
  {
    var a := Span(s, true);
    var t := s[a..];
    var b := |t| - TrailingSpace(t);
    assert Strip(s) == t[..b];
    NoTagSlice(s, a, |s|);
    assert s[a..|s|] == t;
    assert t[0..b] == t[..b];
    NoTagSlice(t, 0, b);
  }

  /** Markup made only of tags leaves nothing: `re.sub(r'<[^>]+>', '', "<b></b>")` is empty. */
  lemma TagStripExample()
    ensures StripTags("<b></b>") == ""
  {
    var s := "<b></b>";
    assert IndexOf(s[1..], '>') == 1;
    assert TagAt(s, 0);
    var t := s[3..];
    assert t == "</b>";
    assert IndexOf(t[1..], '>') == 2;
    assert TagAt(t, 0);
    assert t[4..] == [];
  }

  /** Python's `s.replace(a, b)` for one character `a` and a replacement string `b`. */
  function ReplaceChar(s: string, a: char, b: string): (r: string)
    ensures a !in b ==> a !in r
    ensures |r| == |s| + (|b| - 1) * CountChar(s, a)
    decreases |s|
  {
    if s == [] then []
    else (if s[0] == a then b else [s[0]]) + ReplaceChar(s[1..], a, b)
  }

  /** Replacing by one character keeps every position: each `a` becomes `c`, every other character stays. */
  lemma {:induction false} ReplaceByChar(s: string, a: char, c: char)
    ensures |ReplaceChar(s, a, [c])| == |s|
    ensures forall i :: 0 <= i < |s| ==> ReplaceChar(s, a, [c])[i] == if s[i] == a then c else s[i]
    decreases |s|
  {
    if s != [] {
      ReplaceByChar(s[1..], a, c);
      var rest := ReplaceChar(s[1..], a, [c]);
      assert forall i :: 1 <= i < |s| ==> ReplaceChar(s, a, [c])[i] == rest[i - 1] && s[i] == s[1..][i - 1];
    }
  }

  /** Text without `a` is left unchanged by `replace`. */
  lemma {:induction false} ReplaceAbsent(s: string, a: char, b: string)
    requires a !in s
    ensures ReplaceChar(s, a, b) == s
    decreases |s|
  {
    if s != [] {
      ReplaceAbsent(s[1..], a, b);
      assert [s[0]] + s[1..] == s;
    }
  }

  /** `replace` works piece by piece. */
  lemma {:induction false} ReplaceAppend(u: string, v: string, a: char, b: string)
    ensures ReplaceChar(u + v, a, b) == ReplaceChar(u, a, b) + ReplaceChar(v, a, b)
    decreases |u|
  {
    if u == [] {
      assert u + v == v;
    } else {
      assert (u + v)[1..] == u[1..] + v;
      ReplaceAppend(u[1..], v, a, b);
    }
  }

  /**
   * `s.replace(a, b) == b.join(s.split(a))`: the pieces between the
   * occurrences of `a` are kept, in order, and each `a` becomes `b`.
   */
  lemma {:induction false} ReplaceIsJoinOfSplit(s: string, a: char, b: string)
    ensures ReplaceChar(s, a, b) == Join(SplitOn(s, a), b)
    decreases |s|
  {
    var i := IndexOf(s, a);
    if i == |s| {
      ReplaceAbsent(s, a, b);
      assert s[..i] == s;
    } else {
      ReplaceAtFirst(s, a, b);
      ReplaceIsJoinOfSplit(s[i + 1..], a, b);
      SplitOnUnfold(s, a);
      JoinCons(s[..i], SplitOn(s[i + 1..], a), b);
    }
  }

  /** Up to the first `a` nothing changes, and that `a` becomes `b`. */
  lemma ReplaceAtFirst(s: string, a: char, b: string)
    requires a in s
    ensures var i := IndexOf(s, a);
            ReplaceChar(s, a, b) == s[..i] + b + ReplaceChar(s[i + 1..], a, b)
  {
    var i := IndexOf(s, a);
    SplitAt(s, i);
    ReplaceAround(s[..i], s[i + 1..], a, b);
  }

  lemma ReplaceAround(u: string, v: string, a: char, b: string)
    requires a !in u
    ensures ReplaceChar(u + [a] + v, a, b) == u + b + ReplaceChar(v, a, b)
  {
    var w := [a] + v;
    assert u + [a] + v == u + w;
    ReplaceAppend(u, w, a, b);
    ReplaceAbsent(u, a, b);
    assert w[1..] == v;
  }

  /** `s.split(a)` is the piece before the first `a`, then the split of the rest. */
  lemma SplitOnUnfold(s: string, a: char)
    requires a in s
    ensures SplitOn(s, a) == [s[..IndexOf(s, a)]] + SplitOn(s[IndexOf(s, a) + 1..], a)
  {
  }

  /** How often `a` occurs in `s`. */
  function CountChar(s: string, a: char): nat
    decreases |s|
  {
    if s == [] then 0 else (if s[0] == a then 1 else 0) + CountChar(s[1..], a)
  }
}

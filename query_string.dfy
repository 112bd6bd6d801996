/**
 * `getParameterByName` (static/js/tools.js): the value of a query-string
 * parameter. The name is escaped, placed in the pattern `[?&]name=([^&#]*)`
 * and matched against the page's search string; `decodeURIComponent` is a
 * parameter.
 */
module QueryString {
  import opened Wrappers

  /** `s.replace(/c/, r)` for a one-character pattern: only the first `c` is replaced. */
  function ReplaceFirst(s: string, c: char, r: string): (t: string)
    ensures c !in s ==> t == s
  {
    if |s| == 0 then s
    else if s[0] == c then r + s[1..]
    else [s[0]] + ReplaceFirst(s[1..], c, r)
  }

  /** The text before the first `c`, then `r`, then the text after it. */
  lemma {:induction false} ReplaceFirstAt(before: string, c: char, after: string, r: string)
    requires c !in before
    ensures ReplaceFirst(before + [c] + after, c, r) == before + r + after
  {
    var s := before + [c] + after;
    if |before| == 0 {
      assert s == [c] + after;
    } else {
      var b := before[1..];
      assert s[0] == before[0] && s[0] != c;
      assert s[1..] == b + [c] + after;
      assert c !in b by {
        assert forall x :: x in b ==> x in before;
      }
      ReplaceFirstAt(b, c, after, r);
      assert ReplaceFirst(s, c, r) == [s[0]] + ReplaceFirst(s[1..], c, r);
      assert before + r + after == [before[0]] + (b + r + after);
    }
  }

  /** The first `[` and the first `]` get a backslash before them. */
  function Escape(name: string): string {
    ReplaceFirst(ReplaceFirst(name, '[', "\\["), ']', "\\]")
  }

  /** Characters with a meaning of their own in a regular expression. */
  predicate IsMeta(c: char) {
    c in "\\^$.|?*+()[]{}"
  }

  /** The text a regular-expression fragment matches, when it is made of plain and escaped characters only. */
  function LiteralOf(p: string): Option<string>
    decreases |p|
  {
    if |p| == 0 then Some("")
    else if p[0] == '\\' then
      if |p| >= 2 && IsMeta(p[1]) then
        match LiteralOf(p[2..])
        case Some(t) => Some([p[1]] + t)
        case None => None
      else None
    else if IsMeta(p[0]) then None
    else
      match LiteralOf(p[1..])
      case Some(t) => Some([p[0]] + t)
      case None => None
  }

  function Occurrences(s: string, c: char): nat {
    if |s| == 0 then 0 else (if s[0] == c then 1 else 0) + Occurrences(s[1..], c)
  }

  /**
   * A name whose escaped form the pattern matches literally: no
   * metacharacter except at most one `[` and at most one `]`.
   */
  predicate PlainName(name: string) {
    && (forall i :: 0 <= i < |name| ==> !IsMeta(name[i]) || name[i] == '[' || name[i] == ']')
    && Occurrences(name, '[') <= 1
    && Occurrences(name, ']') <= 1
  }

  /** Every `c` replaced by `r`. */
  function ReplaceAll(s: string, c: char, r: string): string {
    if |s| == 0 then [] else (if s[0] == c then r else [s[0]]) + ReplaceAll(s[1..], c, r)
  }

  lemma {:induction false} OccurrencesZero(s: string, c: char)
    ensures Occurrences(s, c) == 0 <==> c !in s
  {
    if |s| > 0 {
      OccurrencesZero(s[1..], c);
      assert s == [s[0]] + s[1..];
    }
  }

  lemma {:induction false} ReplaceAllAbsent(s: string, c: char, r: string)
    requires c !in s
    ensures ReplaceAll(s, c, r) == s
  {
    if |s| > 0 {
      assert c !in s[1..];
      ReplaceAllAbsent(s[1..], c, r);
    }
  }

  /** With at most one `c`, replacing the first is replacing all. */
  lemma {:induction false} ReplaceFirstOnce(s: string, c: char, r: string)
    requires Occurrences(s, c) <= 1
    ensures ReplaceFirst(s, c, r) == ReplaceAll(s, c, r)
  {
    if |s| > 0 {
      if s[0] == c {
        OccurrencesZero(s[1..], c);
        ReplaceAllAbsent(s[1..], c, r);
      } else {
        ReplaceFirstOnce(s[1..], c, r);
      }
    }
  }

  lemma {:induction false} ReplaceAllConcat(x: string, y: string, c: char, r: string)
    ensures ReplaceAll(x + y, c, r) == ReplaceAll(x, c, r) + ReplaceAll(y, c, r)
  {
    if |x| > 0 {
      assert (x + y)[1..] == x[1..] + y;
      ReplaceAllConcat(x[1..], y, c, r);
    } else {
      assert x + y == y;
    }
  }

  /** Replacing `c` by a text without `d` keeps the number of `d`s. */
  lemma {:induction false} ReplaceAllKeepsOthers(s: string, c: char, r: string, d: char)
    requires d != c && d !in r
    ensures Occurrences(ReplaceAll(s, c, r), d) == Occurrences(s, d)
  {
    if |s| > 0 {
      ReplaceAllKeepsOthers(s[1..], c, r, d);
      var head := if s[0] == c then r else [s[0]];
      OccurrencesConcat(head, ReplaceAll(s[1..], c, r), d);
      OccurrencesZero(r, d);
    }
  }

  lemma {:induction false} OccurrencesConcat(x: string, y: string, d: char)
    ensures Occurrences(x + y, d) == Occurrences(x, d) + Occurrences(y, d)
  {
    if |x| > 0 {
      assert (x + y)[1..] == x[1..] + y;
      OccurrencesConcat(x[1..], y, d);
    } else {
      assert x + y == y;
    }
  }

  /** Both brackets escaped, every other character kept. */
  lemma {:induction false} BracketsLiteral(s: string)
    requires forall i :: 0 <= i < |s| ==> !IsMeta(s[i]) || s[i] == '[' || s[i] == ']'
    ensures LiteralOf(ReplaceAll(ReplaceAll(s, '[', "\\["), ']', "\\]")) == Some(s)
  {
    if |s| > 0 {
      var rest := s[1..];
      BracketsLiteral(rest);
      var inner := ReplaceAll(rest, '[', "\\[");
      var head := if s[0] == '[' then "\\[" else [s[0]];
      assert ReplaceAll(s, '[', "\\[") == head + inner;
      ReplaceAllConcat(head, inner, ']', "\\]");
      var tail := ReplaceAll(inner, ']', "\\]");
      var h2 := ReplaceAll(head, ']', "\\]");
      var whole := h2 + tail;
      assert s == [s[0]] + rest;
      if s[0] == '[' || s[0] == ']' {
        assert h2 == ['\\', s[0]];
        assert whole[0] == '\\' && whole[1] == s[0] && whole[2..] == tail;
      } else {
        assert h2 == [s[0]];
        assert whole[0] == s[0] && whole[1..] == tail;
      }
    }
  }

  /** The escaped name, read as a pattern, matches exactly the name. */
  lemma EscapeIsLiteral(name: string)
    requires PlainName(name)
    ensures LiteralOf(Escape(name)).Some? && LiteralOf(Escape(name)).value == name
  {
    ReplaceFirstOnce(name, '[', "\\[");
    ReplaceAllKeepsOthers(name, '[', "\\[", ']');
    ReplaceFirstOnce(ReplaceAll(name, '[', "\\["), ']', "\\]");
    BracketsLiteral(name);
  }

  /** A name with no bracket is put in the pattern unchanged. */
  lemma BracketFreeUnchanged(name: string)
    requires '[' !in name && ']' !in name
    ensures Escape(name) == name
  {
  }

  /** Only the first `[` is escaped: a second one stays bare. */
  lemma OnlyFirstBracketEscaped()
    ensures Escape("a[[") == "a\\[["
  {
    assert ReplaceFirst("a[[", '[', "\\[") == "a\\[[" by {
      assert "a[["[1..] == "[[";
      assert "[["[1..] == "[";
    }
  }

  // ---------------------------------------------------------------------------
  // Matching

  /** At `i` the search string has `?` or `&`, then `lit`, then `=`. */
  predicate MatchesAt(search: string, lit: string, i: int) {
    && 0 <= i && i + |lit| + 2 <= |search|
    && (search[i] == '?' || search[i] == '&')
    && search[i + 1..i + 1 + |lit|] == lit
    && search[i + 1 + |lit|] == '='
  }

  /** `regex.exec`: the leftmost position from `from` on where the pattern matches. */
  function FindMatch(search: string, lit: string, from: nat): (r: Option<nat>)
    ensures r.Some? ==> from <= r.value && r.value + |lit| + 2 <= |search|
    decreases |search| - from
  {
    if from + |lit| + 2 > |search| then None
    else if MatchesAt(search, lit, from) then Some(from)
    else FindMatch(search, lit, from + 1)
  }

  /** The search finds a match, the leftmost from `from` on, or there is none. */
  lemma {:induction false} FindMatchLeftmost(search: string, lit: string, from: nat)
    ensures var r := FindMatch(search, lit, from);
      && (r.Some? ==>
            && from <= r.value && MatchesAt(search, lit, r.value)
            && forall j :: from <= j < r.value ==> !MatchesAt(search, lit, j))
      && (r.None? ==> forall j :: from <= j ==> !MatchesAt(search, lit, j))
    decreases |search| - from
  {
    if from + |lit| + 2 > |search| {
      forall j | from <= j ensures !MatchesAt(search, lit, j) {
      }
    } else if !MatchesAt(search, lit, from) {
      FindMatchLeftmost(search, lit, from + 1);
      assert FindMatch(search, lit, from) == FindMatch(search, lit, from + 1);
    }
  }

  /** The capture `([^&#]*)` from position `j`: everything up to the first `&` or `#`. */
  function ValueFrom(s: string, j: nat): (v: string)
    requires j <= |s|
    ensures j + |v| <= |s| && s[j..j + |v|] == v
    ensures forall k :: 0 <= k < |v| ==> v[k] != '&' && v[k] != '#'
    ensures j + |v| == |s| || s[j + |v|] == '&' || s[j + |v|] == '#'
    decreases |s| - j
  {
    if j == |s| || s[j] == '&' || s[j] == '#' then []
    else [s[j]] + ValueFrom(s, j + 1)
  }

  /** `.replace(/\+/g, ' ')`. */
  function PlusToSpace(s: string): (t: string)
    ensures |t| == |s|
    ensures forall i :: 0 <= i < |s| ==> t[i] == (if s[i] == '+' then ' ' else s[i])
  {
    if |s| == 0 then [] else [if s[0] == '+' then ' ' else s[0]] + PlusToSpace(s[1..])
  }

  /** The pattern for the literal text `lit` run on `search`: the decoded capture, or `""`. */
  function MatchValue(search: string, lit: string, decode: string -> string): string {
    var m := FindMatch(search, lit, 0);
    if m.None? then "" else decode(Captured(search, m.value + |lit| + 2))
  }

  /** The capture from `j` with `+` read as a space, before decoding. */
  function Captured(search: string, j: nat): string
    requires j <= |search|
  {
    PlusToSpace(ValueFrom(search, j))
  }

  lemma MatchValueAt(search: string, lit: string, decode: string -> string, i: nat)
    requires FindMatch(search, lit, 0) == Some(i)
    ensures MatchValue(search, lit, decode) == decode(PlusToSpace(ValueFrom(search, i + |lit| + 2)))
  {
    assert MatchValue(search, lit, decode) == decode(Captured(search, i + |lit| + 2));
  }

  /** `getParameterByName(name)` on the search string `search`. */
  function GetParameterByName(search: string, name: string, decode: string -> string): string
    requires PlainName(name)
  {
    EscapeIsLiteral(name);
    MatchValue(search, LiteralOf(Escape(name)).value, decode)
  }

  /** For a plain name the pattern's literal text is the name itself. */
  lemma ParameterIsMatchValue(search: string, name: string, decode: string -> string)
    requires PlainName(name)
    ensures GetParameterByName(search, name, decode) == MatchValue(search, name, decode)
  {
    EscapeIsLiteral(name);
  }

  /** With no `?name=` or `&name=` anywhere, the result is the empty string. */
  lemma NoMatchGivesEmpty(search: string, name: string, decode: string -> string)
    requires PlainName(name)
    requires forall i :: !MatchesAt(search, name, i)
    ensures GetParameterByName(search, name, decode) == ""
  {
    ParameterIsMatchValue(search, name, decode);
    FindMatchLeftmost(search, name, 0);
  }

  /**
   * At the leftmost match the value is the decoded text after `name=` up
   * to the first `&` or `#`, with every `+` turned into a space first.
   */
  lemma LeftmostMatchGivesValue(search: string, name: string, decode: string -> string, i: nat)
    requires PlainName(name)
    requires MatchesAt(search, name, i)
    requires forall j :: 0 <= j < i ==> !MatchesAt(search, name, j)
    ensures GetParameterByName(search, name, decode) == decode(PlusToSpace(ValueFrom(search, i + |name| + 2)))
  {
    ParameterIsMatchValue(search, name, decode);
    FindMatchFrom(search, name, 0, i);
    MatchValueAt(search, name, decode, i);
  }

  /** The search from `from` stops at the first match at or after it. */
  lemma {:induction false} FindMatchFrom(search: string, lit: string, from: nat, i: nat)
    requires from <= i && MatchesAt(search, lit, i)
    requires forall j :: from <= j < i ==> !MatchesAt(search, lit, j)
    ensures FindMatch(search, lit, from) == Some(i)
    decreases i - from
  {
    if from < i {
      FindMatchFrom(search, lit, from + 1, i);
    }
  }
}

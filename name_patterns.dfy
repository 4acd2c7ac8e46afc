/**
 * Specimen and box names are parsed with the configured name pattern, a regular expression
 * with named groups. Parsing keeps only the named groups. The specimen search derives a
 * database pattern from the name pattern: each chosen group that the search value filled is
 * replaced by the parsed text, and the named-group syntax is stripped from what remains.
 *
 * The regex engine used for parsing is a parameter. The derivation is the host's list
 * replacement written out: each replacement pattern in turn rewrites the whole text left by
 * the one before it. For a pattern simple enough to split into literal text and named groups,
 * the derivation is also stated token by token.
 */
module NamePatterns {
  import opened Wrappers
  import opened Php

  // ---------------------------------------------------------------- parsing names

  /** The matches of a successful `preg_match`: numbered and named groups, an unmatched group being null. */
  type Matches = Assoc<Option<string>>

  /** The host regex engine: the matches of a pattern against a subject, or nothing when it does not match. */
  type Preg = (string, string) -> Option<Matches>

  /** A pattern without a '/' is given '/' delimiters before matching. */
  function Delimited(regex: string): (r: string)
    ensures '/' !in regex ==> r == "/" + regex + "/"
    ensures '/' in regex ==> r == regex
  {
    if '/' in regex then regex else "/" + regex + "/"
  }

  /** The matches under non-numeric keys, in order. */
  function NamedOnly(m: Matches): (r: Matches)
    ensures forall i :: 0 <= i < |r| ==> r[i] in m && !IsNumericStr(r[i].0)
    ensures forall i :: 0 <= i < |m| && !IsNumericStr(m[i].0) ==> m[i] in r
    ensures |r| <= |m|
  {
    if |m| == 0 then []
    else if IsNumericStr(m[0].0) then NamedOnly(m[1..])
    else [m[0]] + NamedOnly(m[1..])
  }

  /** `parseSpecimenName`: the named groups of the match, or nothing when the name does not match. */
  function ParseName(preg: Preg, name: string, regex: string): Matches {
    match preg(name, Delimited(regex))
    case None => []
    case Some(m) => NamedOnly(m)
  }

  /** `parsePlateName`: like `parseSpecimenName`, but null for an empty name or pattern. */
  function ParsePlateName(preg: Preg, name: string, regex: string): (r: Option<Matches>)
    ensures r.None? <==> EmptyStr(name) || EmptyStr(regex)
    ensures r.Some? ==> forall i :: 0 <= i < |r.value| ==> !IsNumericStr(r.value[i].0)
  {
    if EmptyStr(name) || EmptyStr(regex) then None else Some(ParseName(preg, name, regex))
  }

  /**
   * A parsed name holds exactly the named groups of the match, each with its matched text
   * or null; a name that does not match parses to nothing.
   */
  lemma ParseKeepsNamedGroups(preg: Preg, name: string, regex: string)
    ensures preg(name, Delimited(regex)).None? ==> ParseName(preg, name, regex) == []
    ensures preg(name, Delimited(regex)).Some? ==>
      var m := preg(name, Delimited(regex)).value;
      var r := ParseName(preg, name, regex);
      && (forall e :: e in r <==> e in m && !IsNumericStr(e.0))
  {
    if preg(name, Delimited(regex)).Some? {
      var m := preg(name, Delimited(regex)).value;
      var r := NamedOnly(m);
      forall e | e in m && !IsNumericStr(e.0) ensures e in r {
        var i :| 0 <= i < |m| && m[i] == e;
      }
      forall e | e in r ensures e in m && !IsNumericStr(e.0) {
        var i :| 0 <= i < |r| && r[i] == e;
      }
    }
  }

  /** Whether a parsed name holds a (non-null) value for group `g`: `isset($parsed[$g])`. */
  predicate IsSet(parsed: Matches, g: string) {
    var v: Option<Option<string>> := Get(parsed, g);
    v.Some? && v.value.Some?
  }

  function SetValue(parsed: Matches, g: string): string
    requires IsSet(parsed, g)
  {
    Get(parsed, g).value.value
  }

  // ---------------------------------------------------------------- the pattern as tokens

  /** A piece of a pattern: literal text, or a named group `(?<name>body)`. */
  datatype Token = Lit(s: string) | Group(name: string, body: string)

  function TokenText(t: Token): string {
    match t
    case Lit(s) => s
    case Group(n, b) => "(?<" + n + ">" + b + ")"
  }

  function Render(ts: seq<Token>): string
    decreases |ts|
  {
    if |ts| == 0 then "" else TokenText(ts[0]) + Render(ts[1..])
  }

  lemma {:induction false} RenderAppend(a: seq<Token>, b: seq<Token>)
    ensures Render(a + b) == Render(a) + Render(b)
    decreases |a|
  {
    if |a| > 0 {
      assert (a + b)[1..] == a[1..] + b;
      RenderAppend(a[1..], b);
    } else {
      assert a + b == b;
    }
  }

  /** The characters `\w` matches. */
  predicate WordChar(c: char) {
    ('a' <= c <= 'z') || ('A' <= c <= 'Z') || ('0' <= c <= '9') || c == '_'
  }

  /** The position of the '>' ending a group name that starts at `j`, if word characters lead up to one. */
  function NameEnd(s: string, j: nat): (r: Option<nat>)
    ensures r.Some? ==> j <= r.value < |s| && s[r.value] == '>' && forall m :: j <= m < r.value ==> WordChar(s[m])
    decreases |s| - j
  {
    if j >= |s| then None
    else if s[j] == '>' then Some(j)
    else if WordChar(s[j]) then NameEnd(s, j + 1)
    else None
  }

  /** The first ')' at or after `j`. */
  function CloseFrom(s: string, j: nat): (r: Option<nat>)
    ensures r.Some? ==> j <= r.value < |s| && s[r.value] == ')' && ')' !in s[j..r.value]
    ensures r.None? && j <= |s| ==> ')' !in s[j..]
    decreases |s| - j
  {
    if j >= |s| then None
    else if s[j] == ')' then Some(j)
    else
      var r := CloseFrom(s, j + 1);
      assert r.Some? ==> s[j..r.value] == [s[j]] + s[j + 1..r.value];
      assert r.None? ==> s[j..] == [s[j]] + s[j + 1..];
      r
  }

  /** Where a named group sits in a pattern: its "(?<", the '>' ending its name, and its ')'. */
  datatype Span = Span(open: nat, nameEnd: nat, close: nat)

  /** A span of `s` that holds a named group whose body has no ')'. */
  predicate GroupSpan(s: string, sp: Span) {
    && sp.open + 3 <= sp.nameEnd < sp.close < |s|
    && s[sp.open..sp.open + 3] == "(?<" && s[sp.nameEnd] == '>' && s[sp.close] == ')'
    && (forall m :: sp.open + 3 <= m < sp.nameEnd ==> WordChar(s[m]))
    && ')' !in s[sp.nameEnd + 1..sp.close]
  }

  /**
   * The first named group at or after `from`: its opening "(?<", the '>' after its name, and
   * the first ')' after that, which the lazy `.*?\)` of the replacement pattern stops at.
   */
  function GroupAt(s: string, from: nat): (r: Option<Span>)
    ensures r.Some? ==> from <= r.value.open && GroupSpan(s, r.value)
    decreases |s| - from
  {
    match FindFrom(s, "(?<", from)
    case None => None
    case Some(i) =>
      match NameEnd(s, i + 3)
      case None => GroupAt(s, i + 1)
      case Some(j) =>
        match CloseFrom(s, j + 1)
        case None => None
        case Some(k) => Some(Span(i, j, k))
  }

  function GroupOf(s: string, sp: Span): Token
    requires GroupSpan(s, sp)
  {
    Group(s[sp.open + 3..sp.nameEnd], s[sp.nameEnd + 1..sp.close])
  }

  /** The pattern split into literal text and named groups. */
  function Tokenize(s: string): (ts: seq<Token>)
    decreases |s|
  {
    var g := GroupAt(s, 0);
    if g.None? then (if s == "" then [] else [Lit(s)])
    else
      var sp := g.value;
      (if sp.open == 0 then [] else [Lit(s[..sp.open])]) + [GroupOf(s, sp)] + Tokenize(s[sp.close + 1..])
  }

  /** A group found in a pattern is the text of its token, between the text before and after it. */
  lemma GroupSplit(s: string, sp: Span)
    requires GroupSpan(s, sp)
    ensures s == s[..sp.open] + TokenText(GroupOf(s, sp)) + s[sp.close + 1..]
  {
    var i, j, k := sp.open, sp.nameEnd, sp.close;
    assert TokenText(GroupOf(s, sp)) == "(?<" + s[i + 3..j] + ">" + s[j + 1..k] + ")";
    Reassemble(s, i, j, k, "(?<", ">", ")");
  }

  /** A sequence cut around a span whose opening three elements and two single elements are known. */
  lemma Reassemble<T>(s: seq<T>, i: nat, j: nat, k: nat, open: seq<T>, gt: seq<T>, close: seq<T>)
    requires i + 3 <= j < k < |s| && s[i..i + 3] == open && gt == [s[j]] && close == [s[k]]
    ensures s == s[..i] + (open + s[i + 3..j] + gt + s[j + 1..k] + close) + s[k + 1..]
  {
    SliceSplit(s, i, i + 3, j);
    SliceSplit(s, i, j, j + 1);
    SliceSplit(s, i, j + 1, k);
    SliceSplit(s, i, k, k + 1);
    assert s[j..j + 1] == [s[j]] && s[k..k + 1] == [s[k]];
    assert s == s[..i] + s[i..k + 1] + s[k + 1..];
  }

  lemma SliceSplit<T>(s: seq<T>, a: nat, b: nat, c: nat)
    requires a <= b <= c <= |s|
    ensures s[a..c] == s[a..b] + s[b..c]
  {
  }

  /** Splitting a pattern into tokens loses nothing: the tokens render back to the pattern. */
  lemma {:induction false} TokenizeRenders(s: string)
    ensures Render(Tokenize(s)) == s
    decreases |s|
  {
    var g := GroupAt(s, 0);
    if g.None? {
      if s != "" {
        RenderOne(Lit(s));
      }
    } else {
      var sp := g.value;
      var pre: seq<Token> := if sp.open == 0 then [] else [Lit(s[..sp.open])];
      var t := GroupOf(s, sp);
      var rest := s[sp.close + 1..];
      TokenizeRenders(rest);
      RenderAppend(pre + [t], Tokenize(rest));
      RenderAppend(pre, [t]);
      RenderOne(t);
      if sp.open > 0 {
        RenderOne(Lit(s[..sp.open]));
      }
      assert Render(pre) == s[..sp.open];
      GroupSplit(s, sp);
    }
  }

  lemma RenderOne(t: Token)
    ensures Render([t]) == TokenText(t)
  {
    assert Render([t]) == TokenText(t) + Render([]);
  }

  // ---------------------------------------------------------------- deriving the search pattern

  /** One replacement of the derivation. */
  datatype Rewrite =
    | ReplaceGroup(group: string, value: string)  // "#\(\?\<group\>.*?\)#" replaced by the parsed value
    | StripNames                                  // "(\?\<\w*\>)" replaced by ""

  predicate Digit(c: char) {
    '0' <= c <= '9'
  }

  /**
   * A back-reference at the start of a replacement text — `\n`, `$n` or `${n}` with one or two
   * digits — as the group number and the length it takes up.
   */
  function BackRef(r: string): (b: Option<(nat, nat)>)
    ensures b.Some? ==> 2 <= b.value.1 <= |r| && (r[0] == '\\' || r[0] == '$')
  {
    if |r| < 2 || !(r[0] == '\\' || r[0] == '$') then None
    else
      var brace := r[0] == '$' && r[1] == '{';
      var d := if brace then 2 else 1;
      if d >= |r| || !Digit(r[d]) then None
      else
        var two := d + 1 < |r| && Digit(r[d + 1]);
        var n := if two then 10 * (r[d] as int - '0' as int) + (r[d + 1] as int - '0' as int) else r[d] as int - '0' as int;
        var e := if two then d + 2 else d + 1;
        if !brace then Some((n, e))
        else if e < |r| && r[e] == '}' then Some((n, e + 1))
        else None
  }

  /**
   * The text a replacement puts in place of a match: back-reference 0 is the whole match, any
   * other number refers to a group the replacement pattern does not have and is dropped, and a
   * backslash before `\` or `$` makes that character literal.
   */
  function Expand(r: string, whole: string): string
    decreases |r|
  {
    if |r| == 0 then ""
    else match BackRef(r)
      case Some(b) => (if b.0 == 0 then whole else "") + Expand(r[b.1..], whole)
      case None =>
        if r[0] == '\\' && |r| >= 2 && (r[1] == '\\' || r[1] == '$') then [r[1]] + Expand(r[2..], whole)
        else [r[0]] + Expand(r[1..], whole)
  }

  /** A replacement text without `\` or `$` is inserted as it is. */
  lemma {:induction false} ExpandPlain(r: string, whole: string)
    requires '\\' !in r && '$' !in r
    ensures Expand(r, whole) == r
    decreases |r|
  {
    if |r| > 0 {
      assert r[1..] == r[0..][1..];
      assert forall c :: c in r[1..] ==> c in r;
      ExpandPlain(r[1..], whole);
    }
  }

  /**
   * The length of a match of "\(\?\<g\>.*?\)" at the start of `s`: the literal "(?<g>", then the
   * lazy `.*?` up to the first ')' — no match when a line break comes first.
   */
  function GroupMatch(s: string, g: string): (n: Option<nat>)
    ensures n.Some? ==> |g| + 5 <= n.value <= |s| && s[..|g| + 4] == "(?<" + g + ">" && s[n.value - 1] == ')'
  {
    var open := "(?<" + g + ">";
    if !(open <= s) then None
    else match CloseFrom(s, |open|)
      case None => None
      case Some(k) => if '\n' in s[|open|..k] then None else Some(k + 1)
  }

  /**
   * `preg_replace` with "#\(\?\<g\>.*?\)#": scanning left to right, each match is replaced by
   * the expanded value and the scan goes on after it.
   */
  function ReplaceGroupAll(s: string, g: string, v: string): string
    decreases |s|
  {
    if |s| == 0 then ""
    else match GroupMatch(s, g)
      case Some(n) => Expand(v, s[..n]) + ReplaceGroupAll(s[n..], g, v)
      case None => [s[0]] + ReplaceGroupAll(s[1..], g, v)
  }

  /** `preg_replace` with "(\?\<\w*\>)" and "": every `?<name>` is removed in one left-to-right pass. */
  function StripNameSyntax(s: string): (r: string)
    ensures |r| <= |s|
    decreases |s|
  {
    if |s| == 0 then ""
    else if |s| >= 2 && s[0] == '?' && s[1] == '<' && NameEnd(s, 2).Some? then StripNameSyntax(s[NameEnd(s, 2).value + 1..])
    else [s[0]] + StripNameSyntax(s[1..])
  }

  /** One pattern of the list, applied to the whole text. */
  function RewriteText(r: Rewrite, s: string): string {
    match r
    case ReplaceGroup(g, v) => ReplaceGroupAll(s, g, v)
    case StripNames => StripNameSyntax(s)
  }

  /** `preg_replace` with a list of patterns: each is applied, in order, to the previous result. */
  function ApplyAllText(rs: seq<Rewrite>, s: string): string
    decreases |rs|
  {
    if |rs| == 0 then s else ApplyAllText(rs[1..], RewriteText(rs[0], s))
  }

  /** The group replacements, one for each chosen group that the parsed search value sets, in order. */
  function GroupRewrites(groups: seq<string>, parsed: Matches): seq<Rewrite>
    decreases |groups|
  {
    if |groups| == 0 then []
    else
      var g := groups[|groups| - 1];
      GroupRewrites(groups[..|groups| - 1], parsed) + (if IsSet(parsed, g) then [ReplaceGroup(g, SetValue(parsed, g))] else [])
  }

  /** All the replacements of the derivation: the group replacements, then the stripping of names. */
  function Rewrites(groups: seq<string>, parsed: Matches): seq<Rewrite> {
    GroupRewrites(groups, parsed) + [StripNames]
  }

  /** The derived pattern of a stored name pattern, as the string the database matches against. */
  function DerivePattern(groups: seq<string>, parsed: Matches, regex: string): (r: string)
    // with no chosen group set by the search value, only the group names are stripped
    ensures (forall i :: 0 <= i < |groups| ==> !IsSet(parsed, groups[i])) ==> r == StripNameSyntax(regex)
  {
    NothingSetNoRewrites(groups, parsed);
    assert (forall i :: 0 <= i < |groups| ==> !IsSet(parsed, groups[i])) ==> Rewrites(groups, parsed) == [StripNames];
    assert ApplyAllText([StripNames], regex) == ApplyAllText([], StripNameSyntax(regex));
    ApplyAllText(Rewrites(groups, parsed), regex)
  }

  /** No group replacement is made when the parsed value sets none of the chosen groups. */
  lemma {:induction false} NothingSetNoRewrites(groups: seq<string>, parsed: Matches)
    ensures (forall i :: 0 <= i < |groups| ==> !IsSet(parsed, groups[i])) ==> GroupRewrites(groups, parsed) == []
  {
    if |groups| > 0 {
      NothingSetNoRewrites(groups[..|groups| - 1], parsed);
    }
  }

  /**
   * Collects the replacements in a loop, one for each chosen group the parsed value sets,
   * and the name-stripping pass last.
   */
  method BuildRewrites(groups: seq<string>, parsed: Matches) returns (rs: seq<Rewrite>)
    ensures rs == Rewrites(groups, parsed)
  {
    rs := [];
    for i := 0 to |groups|
      invariant rs == GroupRewrites(groups[..i], parsed)
    {
      assert groups[..i + 1][..i] == groups[..i];
      if IsSet(parsed, groups[i]) {
        rs := rs + [ReplaceGroup(groups[i], SetValue(parsed, groups[i]))];
      }
    }
    assert groups[..|groups|] == groups;
    rs := rs + [StripNames];
  }

  lemma {:induction false} ApplyAllTextAppend(a: seq<Rewrite>, b: seq<Rewrite>, s: string)
    ensures ApplyAllText(a + b, s) == ApplyAllText(b, ApplyAllText(a, s))
    decreases |a|
  {
    if |a| > 0 {
      assert (a + b)[1..] == a[1..] + b;
      ApplyAllTextAppend(a[1..], b, RewriteText(a[0], s));
    } else {
      assert a + b == b;
    }
  }

  /** The derived pattern is the name-stripping pass over the result of the group replacements. */
  lemma StripLast(groups: seq<string>, parsed: Matches, s: string)
    ensures DerivePattern(groups, parsed, s) == StripNameSyntax(ApplyAllText(GroupRewrites(groups, parsed), s))
  {
    ApplyAllTextAppend(GroupRewrites(groups, parsed), [StripNames], s);
    assert [StripNames][1..] == [];
  }

  /**
   * A chosen group nested in another is replaced inside it, and the enclosing group then loses
   * its name: with `b` chosen and parsed as `v`, "(?<a>x(?<b>y)z)" derives "(xvz)".
   */
  lemma NestedGroupReplaced(a: string, x: string, b: string, y: string, z: string, v: string)
    requires forall m :: 0 <= m < |a| ==> WordChar(a[m])
    requires '>' !in b && a != b
    requires '(' !in x && '?' !in x && '(' !in z && '?' !in z && ')' !in y && '\n' !in y
    requires '?' !in v && '\\' !in v && '$' !in v
    ensures DerivePattern([b], [(b, Some(v))], "(?<" + a + ">" + x + "(?<" + b + ">" + y + ")" + z + ")") ==
      "(" + x + v + z + ")"
  {
    var s := "(?<" + a + ">" + x + "(?<" + b + ">" + y + ")" + z + ")";
    var t := "(?<" + a + ">" + x + v + z + ")";
    OneChoice(b, v);
    TwoPasses(b, v, s);
    InnerGroupReplaced(a, x, b, y, z, v);
    assert '?' !in x + v + z;
    StripGroup(a, x + v + z, "");
    assert StripNameSyntax("") == "";
    OuterText(a, x, v, z);
    assert DerivePattern([b], [(b, Some(v))], s) == StripNameSyntax(t);
  }

  /** With `b` chosen and parsed as "V", "(?<a>x(?<b>y)z)" derives "(xVz)". */
  lemma NestedExample()
    ensures DerivePattern(["b"], [("b", Some("V"))], "(?<a>x(?<b>y)z)") == "(xVz)"
  {
    NestedGroupReplaced("a", "x", "b", "y", "z", "V");
    assert "(?<" + "a" + ">" + "x" + "(?<" + "b" + ">" + "y" + ")" + "z" + ")" == "(?<a>x(?<b>y)z)";
    assert "(" + "x" + "V" + "z" + ")" == "(xVz)";
  }

  /** Choosing one group that the parsed value sets gives one group replacement. */
  lemma OneChoice(b: string, v: string)
    ensures Rewrites([b], [(b, Some(v))]) == [ReplaceGroup(b, v), StripNames]
  {
    var parsed: Matches := [(b, Some(v))];
    assert Get(parsed, b) == Some(Some(v)) by {
      assert KeyIndex(parsed, b) == Some(0);
    }
    assert IsSet(parsed, b) && SetValue(parsed, b) == v;
    assert [b][..0] == [];
    assert GroupRewrites([b], parsed) == GroupRewrites([], parsed) + [ReplaceGroup(b, v)];
  }

  lemma TwoPasses(g: string, v: string, s: string)
    ensures ApplyAllText([ReplaceGroup(g, v), StripNames], s) == StripNameSyntax(ReplaceGroupAll(s, g, v))
  {
    assert [ReplaceGroup(g, v), StripNames][1..] == [StripNames];
    assert [StripNames][1..] == [];
  }

  lemma OuterText(a: string, x: string, v: string, z: string)
    ensures TokenText(Group(a, x + v + z)) + "" == "(?<" + a + ">" + x + v + z + ")"
    ensures "(" + (x + v + z) + ")" + "" == "(" + x + v + z + ")"
  {
  }

  lemma InnerGroupReplaced(a: string, x: string, b: string, y: string, z: string, v: string)
    requires forall m :: 0 <= m < |a| ==> WordChar(a[m])
    requires '>' !in b && a != b
    requires '(' !in x && '(' !in z && ')' !in y && '\n' !in y && '\\' !in v && '$' !in v
    ensures ReplaceGroupAll("(?<" + a + ">" + x + "(?<" + b + ">" + y + ")" + z + ")", b, v) ==
      "(?<" + a + ">" + x + v + z + ")"
  {
    var inner := TokenText(Group(b, y));
    var close := z + ")";
    NestedText(a, x, b, y, z, v);
    OpenSkip(a, x + (inner + close), b, v);
    ReplaceSkip(x, inner + close, b, v);
    OwnGroupReplaced(b, y, close, v);
    assert '(' !in close;
    ReplaceSkip(close, "", b, v);
    assert close + "" == close;
  }

  lemma NestedText(a: string, x: string, b: string, y: string, z: string, v: string)
    ensures "(?<" + a + ">" + x + "(?<" + b + ">" + y + ")" + z + ")" ==
      "(?<" + a + ">" + (x + (TokenText(Group(b, y)) + (z + ")")))
    ensures "(?<" + a + ">" + (x + (v + (z + ")" + ""))) == "(?<" + a + ">" + x + v + z + ")"
  {
    var o := "(?<" + a + ">";
    var inner := TokenText(Group(b, y));
    calc {
      o + x + inner + z + ")";
      { Assoc3(o + x + inner, z, ")"); }
      o + x + inner + (z + ")");
      { Assoc3(o + x, inner, z + ")"); }
      o + x + (inner + (z + ")"));
      { Assoc3(o, x, inner + (z + ")")); }
      o + (x + (inner + (z + ")")));
    }
    assert z + ")" + "" == z + ")";
    calc {
      o + (x + (v + (z + ")")));
      { Assoc3(o, x, v + (z + ")")); }
      o + x + (v + (z + ")"));
      { Assoc3(o + x, v, z + ")"); }
      o + x + v + (z + ")");
      { Assoc3(o + x + v, z, ")"); }
      o + x + v + z + ")";
    }
  }

  /** The replacement text may refer back to the match: "$0" puts back the group it replaces. */
  lemma WholeMatchBackRef()
    ensures ReplaceGroupAll("(?<b>y)", "b", "[$0]") == "[(?<b>y)]"
  {
    var s := "(?<b>y)";
    assert GroupMatch(s, "b") == Some(7) by {
      assert CloseFrom(s, 5) == Some(6) by {
        assert s[5] != ')' && s[6] == ')';
      }
    }
    assert BackRef("[$0]").None?;
    assert "[$0]"[1..] == "$0]";
    assert BackRef("$0]") == Some((0, 2));
    assert "$0]"[2..] == "]";
    assert BackRef("]").None?;
    assert Expand("]", s) == "]" + Expand("", s);
  }

  // ---------------------------------------------------------------- the derivation, token by token

  /**
   * A pattern simple enough to read as tokens: literal text without '(' or '?', and named
   * groups with word-character names whose bodies have no parenthesis, line break or '?'.
   */
  predicate Flat(ts: seq<Token>) {
    forall i :: 0 <= i < |ts| ==>
      match ts[i]
      case Lit(s) => '(' !in s && '?' !in s
      case Group(n, b) =>
        (forall m :: 0 <= m < |n| ==> WordChar(n[m])) && '(' !in b && ')' !in b && '\n' !in b && '?' !in b
  }

  /** Chosen group names without '>' and parsed values without '(', '?', '\' or '$'. */
  predicate PlainChoice(groups: seq<string>, parsed: Matches) {
    forall g :: g in groups && IsSet(parsed, g) ==>
      '>' !in g && var v := SetValue(parsed, g); '(' !in v && '?' !in v && '\\' !in v && '$' !in v
  }

  /** Each chosen group that the parsed value sets becomes that value. */
  function Chosen(groups: seq<string>, parsed: Matches, ts: seq<Token>): (out: seq<Token>)
    ensures |out| == |ts|
  {
    seq(|ts|, i requires 0 <= i < |ts| =>
      if ts[i].Group? && ts[i].name in groups && IsSet(parsed, ts[i].name) then Lit(SetValue(parsed, ts[i].name)) else ts[i])
  }

  /** What the derivation makes of one token of a flat pattern, stated directly. */
  function DerivedToken(groups: seq<string>, parsed: Matches, t: Token): Token {
    match t
    case Lit(s) => Lit(s)
    case Group(n, b) =>
      if n in groups && IsSet(parsed, n) then Lit(SetValue(parsed, n)) else Lit("(" + b + ")")
  }

  function Derived(groups: seq<string>, parsed: Matches, ts: seq<Token>): (out: seq<Token>)
    ensures |out| == |ts|
  {
    seq(|ts|, i requires 0 <= i < |ts| => DerivedToken(groups, parsed, ts[i]))
  }

  /** Text without '(' is copied by a group replacement. */
  lemma {:induction false} ReplaceSkip(x: string, rest: string, g: string, v: string)
    requires '(' !in x
    ensures ReplaceGroupAll(x + rest, g, v) == x + ReplaceGroupAll(rest, g, v)
    decreases |x|
  {
    if |x| > 0 {
      var c := x[0];
      assert x + rest == [c] + (x[1..] + rest) by {
        assert x == [c] + x[1..];
        Assoc3([c], x[1..], rest);
      }
      NoMatchAt(c, x[1..] + rest, g);
      ReplaceFirst(c, x[1..] + rest, g, v);
      assert forall d :: d in x[1..] ==> d in x;
      ReplaceSkip(x[1..], rest, g, v);
      Assoc3([c], x[1..], ReplaceGroupAll(rest, g, v));
      assert [c] + x[1..] == x;
    } else {
      assert x + rest == rest;
    }
  }

  /** No replacement pattern for another group matches at the opening of a named group. */
  lemma OtherGroupNoMatch(n: string, rest: string, g: string)
    requires forall m :: 0 <= m < |n| ==> WordChar(n[m])
    requires '>' !in g && n != g
    ensures GroupMatch("(?<" + n + ">" + rest, g).None?
  {
    var s := "(?<" + n + ">" + rest;
    var open := "(?<" + g + ">";
    if |g| < |n| {
      assert s[3 + |g|] == n[|g|] != '>' == open[3 + |g|];
    } else if |g| > |n| {
      assert g[|n|] in g;
      assert s[3 + |n|] == '>' != g[|n|] == open[3 + |n|];
    } else {
      assert s[3..3 + |n|] == n != g == open[3..3 + |g|];
    }
  }

  /** Where no match starts, the first character is copied. */
  lemma ReplaceNoMatch(s: string, g: string, v: string)
    requires |s| > 0 && GroupMatch(s, g).None?
    ensures ReplaceGroupAll(s, g, v) == [s[0]] + ReplaceGroupAll(s[1..], g, v)
  {
  }

  /** The opening of a group other than the chosen one is copied. */
  lemma OpenSkip(n: string, rest: string, g: string, v: string)
    requires forall m :: 0 <= m < |n| ==> WordChar(n[m])
    requires '>' !in g && n != g
    ensures ReplaceGroupAll("(?<" + n + ">" + rest, g, v) == "(?<" + n + ">" + ReplaceGroupAll(rest, g, v)
  {
    var head := "?<" + n + ">";
    OtherGroupNoMatch(n, rest, g);
    OpenText(n, rest);
    ReplaceFirst('(', head + rest, g, v);
    NoParenInOpening(n);
    ReplaceSkip(head, rest, g, v);
    Assoc3(['('], head, ReplaceGroupAll(rest, g, v));
  }

  /** No match starts at a character other than '('. */
  lemma NoMatchAt(c: char, x: string, g: string)
    requires c != '('
    ensures GroupMatch([c] + x, g).None?
  {
    assert ([c] + x)[0] != ("(?<" + g + ">")[0];
  }

  /** Where no match starts, the first character is copied, stated for a leading character. */
  lemma ReplaceFirst(c: char, x: string, g: string, v: string)
    requires GroupMatch([c] + x, g).None?
    ensures ReplaceGroupAll([c] + x, g, v) == [c] + ReplaceGroupAll(x, g, v)
  {
    ReplaceNoMatch([c] + x, g, v);
    assert ([c] + x)[1..] == x;
  }

  /** A name of word characters puts no '(' in `?<name>`. */
  lemma NoParenInOpening(n: string)
    requires forall m :: 0 <= m < |n| ==> WordChar(n[m])
    ensures '(' !in "?<" + n + ">"
  {
    var head := "?<" + n + ">";
    forall m | 0 <= m < |head| ensures head[m] != '(' {
      if 2 <= m < 2 + |n| {
        assert head[m] == n[m - 2];
      }
    }
  }

  /** The first ')' from `j` on is the one at `k` when none comes before it. */
  lemma CloseAt(s: string, j: nat, k: nat)
    requires j <= k < |s| && s[k] == ')' && ')' !in s[j..k]
    ensures CloseFrom(s, j) == Some(k)
  {
    assert s[k] in s[j..];
  }

  /** The replacement pattern of a group matches the whole of that group in a flat pattern. */
  lemma OwnGroupMatch(n: string, b: string, rest: string)
    requires ')' !in b && '\n' !in b
    ensures GroupMatch(TokenText(Group(n, b)) + rest, n) == Some(|TokenText(Group(n, b))|)
  {
    var open := "(?<" + n + ">";
    var s := TokenText(Group(n, b)) + rest;
    assert s == open + b + ")" + rest;
    assert open <= s;
    var k := |open| + |b|;
    assert s[|open|..k] == b;
    CloseAt(s, |open|, k);
  }

  /** A group replacement turns its own group into the value and copies any other group. */
  lemma ReplaceAtGroup(n: string, b: string, rest: string, g: string, v: string)
    requires Flat([Group(n, b)])
    requires '>' !in g && '\\' !in v && '$' !in v
    ensures ReplaceGroupAll(TokenText(Group(n, b)) + rest, g, v) ==
      (if n == g then v else TokenText(Group(n, b))) + ReplaceGroupAll(rest, g, v)
  {
    assert [Group(n, b)][0] == Group(n, b);
    if n == g {
      OwnGroupReplaced(n, b, rest, v);
    } else {
      OtherGroupCopied(n, b, rest, g, v);
    }
  }

  lemma OwnGroupReplaced(n: string, b: string, rest: string, v: string)
    requires ')' !in b && '\n' !in b && '\\' !in v && '$' !in v
    ensures ReplaceGroupAll(TokenText(Group(n, b)) + rest, n, v) == v + ReplaceGroupAll(rest, n, v)
  {
    var text := TokenText(Group(n, b));
    var s := text + rest;
    OwnGroupMatch(n, b, rest);
    assert s[..|text|] == text && s[|text|..] == rest;
    ExpandPlain(v, text);
  }

  lemma OtherGroupCopied(n: string, b: string, rest: string, g: string, v: string)
    requires forall m :: 0 <= m < |n| ==> WordChar(n[m])
    requires '(' !in b && '>' !in g && n != g
    ensures ReplaceGroupAll(TokenText(Group(n, b)) + rest, g, v) == TokenText(Group(n, b)) + ReplaceGroupAll(rest, g, v)
  {
    var close := b + ")";
    GroupText(n, b, rest);
    OpenSkip(n, close + rest, g, v);
    assert '(' !in close;
    ReplaceSkip(close, rest, g, v);
    GroupText(n, b, ReplaceGroupAll(rest, g, v));
  }

  lemma GroupText(n: string, b: string, rest: string)
    ensures TokenText(Group(n, b)) + rest == "(?<" + n + ">" + ((b + ")") + rest)
  {
  }

  lemma {:induction false} RenderCons(ts: seq<Token>)
    requires |ts| > 0
    ensures Render(ts) == TokenText(ts[0]) + Render(ts[1..])
  {
  }

  /** One group replacement over a flat pattern replaces exactly the tokens of that group. */
  lemma {:induction false} ReplaceTokens(ts: seq<Token>, g: string, v: string)
    requires Flat(ts) && '>' !in g && '\\' !in v && '$' !in v
    ensures ReplaceGroupAll(Render(ts), g, v) == Render(ReplacedTokens(ts, g, v))
    decreases |ts|, 1
  {
    var out := ReplacedTokens(ts, g, v);
    if |ts| == 0 {
      assert Render(ts) == "" && Render(out) == "";
    } else {
      ReplaceTail(ts, g, v);
      ReplaceFront(ts, g, v);
      RenderCons(ts);
      RenderCons(out);
      ReplaceCombine(g, v, Render(ts), TokenText(ts[0]), Render(ts[1..]), Render(out), TokenText(out[0]), Render(out[1..]));
    }
  }

  /** The tokens of a pattern with every group named `g` turned into the literal `v`. */
  function ReplacedTokens(ts: seq<Token>, g: string, v: string): (out: seq<Token>)
    ensures |out| == |ts|
  {
    seq(|ts|, i requires 0 <= i < |ts| => if ts[i].Group? && ts[i].name == g then Lit(v) else ts[i])
  }

  /** The tail step of ReplaceTokens. */
  lemma {:induction false} ReplaceTail(ts: seq<Token>, g: string, v: string)
    requires |ts| > 0 && Flat(ts) && '>' !in g && '\\' !in v && '$' !in v
    ensures ReplaceGroupAll(Render(ts[1..]), g, v) == Render(ReplacedTokens(ts, g, v)[1..])
    decreases |ts|, 0
  {
    assert Flat(ts[1..]) by {
      forall i | 0 <= i < |ts[1..]| ensures ts[1..][i] == ts[i + 1] { }
    }
    ReplaceTokens(ts[1..], g, v);
    assert ReplacedTokens(ts, g, v)[1..] == ReplacedTokens(ts[1..], g, v);
  }

  /** The head step of ReplaceTokens. */
  lemma ReplaceFront(ts: seq<Token>, g: string, v: string)
    requires |ts| > 0 && Flat(ts) && '>' !in g && '\\' !in v && '$' !in v
    ensures ReplaceGroupAll(TokenText(ts[0]) + Render(ts[1..]), g, v) ==
      TokenText(ReplacedTokens(ts, g, v)[0]) + ReplaceGroupAll(Render(ts[1..]), g, v)
  {
    match ts[0]
    case Lit(x) =>
      assert '(' !in x by { assert ts[0] == Lit(x); }
      ReplaceSkip(x, Render(ts[1..]), g, v);
    case Group(n, b) =>
      assert Flat([Group(n, b)]) by {
        assert [Group(n, b)][0] == ts[0];
      }
      ReplaceAtGroup(n, b, Render(ts[1..]), g, v);
  }

  /** Replacing in a head and a tail whose replacement is known. */
  lemma ReplaceCombine(g: string, v: string, sc: string, hc: string, rc: string, sd: string, hd: string, rd: string)
    requires sc == hc + rc && sd == hd + rd
    requires ReplaceGroupAll(hc + rc, g, v) == hd + ReplaceGroupAll(rc, g, v)
    requires ReplaceGroupAll(rc, g, v) == rd
    ensures ReplaceGroupAll(sc, g, v) == sd
  {
  }

  /** Chosen groups stay flat once replaced, so every later pass still reads the pattern as tokens. */
  lemma ChosenFlat(groups: seq<string>, parsed: Matches, ts: seq<Token>)
    requires Flat(ts) && PlainChoice(groups, parsed)
    ensures Flat(Chosen(groups, parsed, ts))
  {
  }

  /** The group passes, in order, replace exactly the chosen groups that the parsed value sets. */
  lemma {:induction false} GroupPasses(groups: seq<string>, parsed: Matches, ts: seq<Token>)
    requires Flat(ts) && PlainChoice(groups, parsed)
    ensures ApplyAllText(GroupRewrites(groups, parsed), Render(ts)) == Render(Chosen(groups, parsed, ts))
    decreases |groups|
  {
    if |groups| == 0 {
      assert Chosen(groups, parsed, ts) == ts;
    } else {
      var init := groups[..|groups| - 1];
      var g := groups[|groups| - 1];
      assert groups == init + [g];
      assert PlainChoice(init, parsed);
      GroupPasses(init, parsed, ts);
      var last := if IsSet(parsed, g) then [ReplaceGroup(g, SetValue(parsed, g))] else [];
      ApplyAllTextAppend(GroupRewrites(init, parsed), last, Render(ts));
      ChosenFlat(init, parsed, ts);
      LastPass(init, g, parsed, ts);
    }
  }

  /** The pass for one more chosen group, after those before it. */
  lemma LastPass(init: seq<string>, g: string, parsed: Matches, ts: seq<Token>)
    requires Flat(Chosen(init, parsed, ts)) && PlainChoice(init + [g], parsed)
    ensures var last := if IsSet(parsed, g) then [ReplaceGroup(g, SetValue(parsed, g))] else [];
      ApplyAllText(last, Render(Chosen(init, parsed, ts))) == Render(Chosen(init + [g], parsed, ts))
  {
    var mid := Chosen(init, parsed, ts);
    if IsSet(parsed, g) {
      var v := SetValue(parsed, g);
      assert g in init + [g];
      ReplaceTokens(mid, g, v);
      ChosenOneMore(init, g, parsed, ts);
      assert ApplyAllText([ReplaceGroup(g, v)], Render(mid)) == ReplaceGroupAll(Render(mid), g, v);
    } else {
      ChosenOneMore(init, g, parsed, ts);
    }
  }

  /** Choosing one more group replaces its tokens when the parsed value sets it, and nothing otherwise. */
  lemma ChosenOneMore(init: seq<string>, g: string, parsed: Matches, ts: seq<Token>)
    ensures IsSet(parsed, g) ==>
      ReplacedTokens(Chosen(init, parsed, ts), g, SetValue(parsed, g)) == Chosen(init + [g], parsed, ts)
    ensures !IsSet(parsed, g) ==> Chosen(init, parsed, ts) == Chosen(init + [g], parsed, ts)
  {
    var mid := Chosen(init, parsed, ts);
    var next := Chosen(init + [g], parsed, ts);
    forall n ensures n in init + [g] <==> n in init || n == g { }
    if IsSet(parsed, g) {
      var out := ReplacedTokens(mid, g, SetValue(parsed, g));
      forall i | 0 <= i < |ts| ensures out[i] == next[i] { }
    } else {
      forall i | 0 <= i < |ts| ensures mid[i] == next[i] { }
    }
  }

  /** Text without '?' passes the name-stripping unchanged. */
  lemma {:induction false} StripSkip(x: string, rest: string)
    requires '?' !in x
    ensures StripNameSyntax(x + rest) == x + StripNameSyntax(rest)
    decreases |x|
  {
    if |x| > 0 {
      var s := x + rest;
      assert s[0] == x[0];
      assert s[1..] == x[1..] + rest;
      assert forall c :: c in x[1..] ==> c in x;
      StripSkip(x[1..], rest);
    } else {
      assert x + rest == rest;
    }
  }

  /** Word characters up to a '>' are a group name. */
  lemma {:induction false} NameEndAt(s: string, j: nat, n: string)
    requires j + |n| < |s| && s[j..j + |n|] == n && s[j + |n|] == '>'
    requires forall m :: 0 <= m < |n| ==> WordChar(n[m])
    ensures NameEnd(s, j) == Some(j + |n|)
    decreases |n|
  {
    if |n| > 0 {
      assert s[j] == n[0];
      assert s[j + 1..j + 1 + |n[1..]|] == n[1..];
      NameEndAt(s, j + 1, n[1..]);
    }
  }

  /** The name-stripping pass drops a `?<name>` at the start of the text. */
  lemma StripName(n: string, tail: string)
    requires forall m :: 0 <= m < |n| ==> WordChar(n[m])
    ensures StripNameSyntax("?<" + n + ">" + tail) == StripNameSyntax(tail)
  {
    var s1 := "?<" + n + ">" + tail;
    assert s1[2..2 + |n|] == n && s1[2 + |n|] == '>';
    NameEndAt(s1, 2, n);
    assert s1[2 + |n| + 1..] == tail;
  }

  /** Text starting with a character other than '?' keeps it through the name-stripping pass. */
  lemma StripFirst(c: char, s: string)
    requires c != '?'
    ensures StripNameSyntax([c] + s) == [c] + StripNameSyntax(s)
  {
    assert ([c] + s)[1..] == s;
  }

  /** The name-stripping pass leaves a named group as a plain group around its body. */
  lemma StripGroup(n: string, b: string, rest: string)
    requires forall m :: 0 <= m < |n| ==> WordChar(n[m])
    requires '?' !in b
    ensures StripNameSyntax(TokenText(Group(n, b)) + rest) == "(" + b + ")" + StripNameSyntax(rest)
  {
    var tail := b + ")" + rest;
    var s1 := "?<" + n + ">" + tail;
    GroupTextSplit(n, b, rest, StripNameSyntax(rest));
    StripFirst('(', s1);
    StripName(n, tail);
    assert '?' !in b + ")";
    StripSkip(b + ")", rest);
  }

  /** How a named group's text splits around its opening parenthesis. */
  lemma GroupTextSplit(n: string, b: string, rest: string, z: string)
    ensures TokenText(Group(n, b)) + rest == ['('] + ("?<" + n + ">" + (b + ")" + rest))
    ensures "(" + b + ")" + z == ['('] + (b + ")" + z)
  {
    var o := "?<" + n + ">";
    assert "(?<" + n + ">" == ['('] + o;
    calc {
      TokenText(Group(n, b)) + rest;
      (['('] + o) + b + ")" + rest;
      { Assoc3(['('] + o, b, ")"); }
      (['('] + o) + (b + ")") + rest;
      { Assoc3(['('] + o, b + ")", rest); }
      (['('] + o) + (b + ")" + rest);
      { Assoc3(['('], o, b + ")" + rest); }
      ['('] + (o + (b + ")" + rest));
    }
    Assoc3("(", b, ")");
    Assoc3("(" + b, ")", z);
    Assoc3("(", b, ")" + z);
    Assoc3(b, ")", z);
  }

  /** How the text of a group opening regroups around its first characters. */
  lemma OpenText(n: string, rest: string)
    ensures "(?<" + n + ">" + rest == "(?" + ("<" + n + ">" + rest)
    ensures "(?<" + n + ">" + rest == ['('] + ("?<" + n + ">" + rest)
    ensures "(?<" + n + ">" == ['('] + ("?<" + n + ">")
  {
    assert "(?<" == "(?" + "<" == ['('] + "?<";
    Assoc3("(?<" + n, ">", rest);
    Assoc3("(?<", n, ">" + rest);
    Assoc3("(?", "<", n + (">" + rest));
    Assoc3("<" + n, ">", rest);
    Assoc3("<", n, ">" + rest);
    Assoc3(['('], "?<", n + (">" + rest));
    Assoc3("?<" + n, ">", rest);
    Assoc3("?<", n, ">" + rest);
    Assoc3(['('], "?<", n);
    Assoc3(['('], "?<" + n, ">");
  }

  /** The text of a group followed by more text, regrouped after its opening. */
  lemma GroupTextAssoc(n: string, b: string, rest: string)
    ensures TokenText(Group(n, b)) + rest == "(?<" + n + ">" + (b + ")" + rest)
  {
    var o := "(?<" + n + ">";
    Assoc3(o + b, ")", rest);
    Assoc3(o, b, ")" + rest);
    Assoc3(b, ")", rest);
  }

  lemma Assoc3(x: string, y: string, z: string)
    ensures x + y + z == x + (y + z)
  {
  }

  /** The name-stripping pass over one token of a flat pattern whose chosen groups are replaced. */
  lemma StripHead(groups: seq<string>, parsed: Matches, t: Token, rest: string)
    requires Flat([t]) && PlainChoice(groups, parsed)
    ensures var c := if t.Group? && t.name in groups && IsSet(parsed, t.name) then Lit(SetValue(parsed, t.name)) else t;
      StripNameSyntax(TokenText(c) + rest) == TokenText(DerivedToken(groups, parsed, t)) + StripNameSyntax(rest)
  {
    assert [t][0] == t;
    match t
    case Lit(x) =>
      StripSkip(x, rest);
    case Group(n, b) =>
      if n in groups && IsSet(parsed, n) {
        StripSkip(SetValue(parsed, n), rest);
      } else {
        StripGroup(n, b, rest);
      }
  }

  /** The name-stripping pass over a flat pattern whose chosen groups are replaced. */
  lemma {:induction false} StripTokens(groups: seq<string>, parsed: Matches, ts: seq<Token>)
    requires Flat(ts) && PlainChoice(groups, parsed)
    ensures StripNameSyntax(Render(Chosen(groups, parsed, ts))) == Render(Derived(groups, parsed, ts))
    decreases |ts|, 1
  {
    var c := Chosen(groups, parsed, ts);
    var d := Derived(groups, parsed, ts);
    if |ts| == 0 {
      assert Render(c) == "" && Render(d) == "";
    } else {
      StripTail(groups, parsed, ts);
      StripFront(groups, parsed, ts);
      RenderCons(c);
      RenderCons(d);
      StripCombine(Render(c), TokenText(c[0]), Render(c[1..]), Render(d), TokenText(d[0]), Render(d[1..]));
    }
  }

  /** The tail step of StripTokens. */
  lemma {:induction false} StripTail(groups: seq<string>, parsed: Matches, ts: seq<Token>)
    requires |ts| > 0 && Flat(ts) && PlainChoice(groups, parsed)
    ensures StripNameSyntax(Render(Chosen(groups, parsed, ts)[1..])) == Render(Derived(groups, parsed, ts)[1..])
    decreases |ts|, 0
  {
    assert Flat(ts[1..]) by {
      forall i | 0 <= i < |ts[1..]| ensures ts[1..][i] == ts[i + 1] { }
    }
    StripTokens(groups, parsed, ts[1..]);
    ChosenTail(groups, parsed, ts);
  }

  /** Choosing and deriving commute with dropping the first token. */
  lemma ChosenTail(groups: seq<string>, parsed: Matches, ts: seq<Token>)
    requires |ts| > 0
    ensures Chosen(groups, parsed, ts)[1..] == Chosen(groups, parsed, ts[1..])
    ensures Derived(groups, parsed, ts)[1..] == Derived(groups, parsed, ts[1..])
  {
  }

  /** The head step of StripTokens. */
  lemma StripFront(groups: seq<string>, parsed: Matches, ts: seq<Token>)
    requires |ts| > 0 && Flat(ts) && PlainChoice(groups, parsed)
    ensures var c := Chosen(groups, parsed, ts);
      StripNameSyntax(TokenText(c[0]) + Render(c[1..]))
        == TokenText(Derived(groups, parsed, ts)[0]) + StripNameSyntax(Render(c[1..]))
  {
    assert Flat([ts[0]]) by {
      assert [ts[0]][0] == ts[0];
    }
    StripHead(groups, parsed, ts[0], Render(Chosen(groups, parsed, ts)[1..]));
  }

  /** Stripping a head and a tail whose stripping is known. */
  lemma StripCombine(sc: string, hc: string, rc: string, sd: string, hd: string, rd: string)
    requires sc == hc + rc && sd == hd + rd
    requires StripNameSyntax(hc + rc) == hd + StripNameSyntax(rc)
    requires StripNameSyntax(rc) == rd
    ensures StripNameSyntax(sc) == sd
  {
  }

  /**
   * The derived pattern of a flat pattern, token by token: a chosen group that the parsed
   * search value sets becomes that value, any other group keeps its sub-pattern without the
   * `?<name>` syntax, and literal text is kept; no '?' is left in it.
   */
  lemma DerivationPointwise(groups: seq<string>, parsed: Matches, ts: seq<Token>)
    requires Flat(ts) && PlainChoice(groups, parsed)
    ensures DerivePattern(groups, parsed, Render(ts)) == Render(Derived(groups, parsed, ts))
    ensures '?' !in DerivePattern(groups, parsed, Render(ts))
  {
    StripLast(groups, parsed, Render(ts));
    GroupPasses(groups, parsed, ts);
    StripTokens(groups, parsed, ts);
    DerivedPlain(groups, parsed, ts);
    NoQuestionLeft(groups, parsed, Derived(groups, parsed, ts));
  }

  /** Every derived token of a flat pattern is literal text without '?'. */
  lemma DerivedPlain(groups: seq<string>, parsed: Matches, ts: seq<Token>)
    requires Flat(ts) && PlainChoice(groups, parsed)
    ensures var ds := Derived(groups, parsed, ts);
      forall i :: 0 <= i < |ds| ==> ds[i].Lit? && '?' !in ds[i].s
  {
    var ds := Derived(groups, parsed, ts);
    forall i | 0 <= i < |ds| ensures ds[i].Lit? && '?' !in ds[i].s {
      match ts[i]
      case Lit(x) =>
      case Group(n, b) =>
        if !(n in groups && IsSet(parsed, n)) {
          assert ds[i].s == "(" + b + ")";
        }
    }
  }

  lemma {:induction false} NoQuestionLeft(groups: seq<string>, parsed: Matches, ds: seq<Token>)
    requires forall i :: 0 <= i < |ds| ==> ds[i].Lit? && '?' !in ds[i].s
    ensures '?' !in Render(ds)
    decreases |ds|
  {
    if |ds| > 0 {
      NoQuestionLeft(groups, parsed, ds[1..]);
      RenderCons(ds);
    }
  }

  /** A stored pattern whose tokens are flat derives, token by token, as above. */
  lemma DerivationOfPattern(groups: seq<string>, parsed: Matches, regex: string)
    requires Flat(Tokenize(regex)) && PlainChoice(groups, parsed)
    ensures DerivePattern(groups, parsed, regex) == Render(Derived(groups, parsed, Tokenize(regex)))
  {
    TokenizeRenders(regex);
    DerivationPointwise(groups, parsed, Tokenize(regex));
  }
}

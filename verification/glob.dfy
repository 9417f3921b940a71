/** `Glob` and `toRegExp` from src/fs.ts: a shell-style glob translated,
    one character at a time, into the source text of a regular expression.
    Matching a string against that expression is not part of this model. */
module Glob {

  import opened Text

  /** The pattern `toRegExp` emits for a single `*`: any run of characters
      other than `/` and `\`. */
  const SingleStar := "[^/\\\\]*"

  /** The characters `toRegExp` emits behind a backslash. */
  predicate Escaped(c: char) {
    c == '.' || c == '/' || c == '\\' || c == '$' || c == '^'
  }

  /** What one character other than `*` becomes, given whether a `[...]`
      range or a `{...}` block is open. `[` and `]` are copied, like every
      character the source's switch sends to its default case. */
  function EmitChar(c: char, range: bool, block: bool): string {
    if Escaped(c) then ['\\', c]
    else if c == '?' then "."
    else if c == '!' then (if range then "^" else "!")
    else if c == '{' then "("
    else if c == '}' then ")"
    else if c == ',' then (if block then "|" else "\\,")
    else [c]
  }

  function NextRange(c: char, range: bool): bool {
    if c == '[' then true else if c == ']' then false else range
  }

  function NextBlock(c: char, block: bool): bool {
    if c == '{' then true else if c == '}' then false else block
  }

  predicate IsSeparator(c: char) {
    c == '/' || c == '\\'
  }

  /** How many characters a `*` at the head of `p` consumes: one for a
      lone `*`, two for `**`, three for `**` followed by a separator. */
  function StarLength(p: string): (n: nat)
    requires |p| > 0 && p[0] == '*'
    ensures 1 <= n <= 3 && n <= |p|
  {
    if |p| > 1 && p[1] == '*' then (if |p| > 2 && IsSeparator(p[2]) then 3 else 2) else 1
  }

  /** How many characters the head of a non-empty glob consumes. */
  function HeadLength(p: string): (n: nat)
    requires |p| > 0
    ensures 1 <= n <= |p|
  {
    if p[0] == '*' then StarLength(p) else 1
  }

  /** What the head of a non-empty glob becomes. */
  function HeadOutput(p: string, range: bool, block: bool): string
    requires |p| > 0
  {
    if p[0] != '*' then EmitChar(p[0], range, block)
    else if StarLength(p) == 1 then SingleStar
    else ".*"
  }

  /** The translation of `p` when the flags are `range` and `block`: the
      recursive reading of the loop in `toRegExp`. A `*` head leaves the
      flags as they are, like every character but the four brackets. */
  function Translate(p: string, range: bool, block: bool): string
    decreases |p|
  {
    if |p| == 0 then ""
    else HeadOutput(p, range, block) + Translate(p[HeadLength(p)..], NextRange(p[0], range), NextBlock(p[0], block))
  }

  /** The flags after reading `p`: `[` opens a range and `]` closes it, `{`
      opens a block and `}` closes it; nothing else changes them. */
  function FlagsAfter(p: string, range: bool, block: bool): (bool, bool)
    decreases |p|
  {
    if |p| == 0 then (range, block) else FlagsAfter(p[1..], NextRange(p[0], range), NextBlock(p[0], block))
  }

  /** One step of the translation at position `i` of `pattern`, stated on
      the positions of `pattern` itself. */
  lemma TranslateAt(pattern: string, i: nat, range: bool, block: bool)
    requires i < |pattern|
    ensures var n := HeadLength(pattern[i..]);
      && i + n <= |pattern|
      && n == (if pattern[i] != '*' then 1
               else if i + 1 < |pattern| && pattern[i + 1] == '*' then
                 (if i + 2 < |pattern| && IsSeparator(pattern[i + 2]) then 3 else 2)
               else 1)
      && HeadOutput(pattern[i..], range, block) ==
           (if pattern[i] != '*' then EmitChar(pattern[i], range, block) else if n == 1 then SingleStar else ".*")
      && Translate(pattern[i..], range, block) ==
           HeadOutput(pattern[i..], range, block) +
           Translate(pattern[i + n..], NextRange(pattern[i], range), NextBlock(pattern[i], block))
  {
    var rest := pattern[i..];
    assert rest[0] == pattern[i];
    if |rest| > 1 {
      assert rest[1] == pattern[i + 1];
    }
    if |rest| > 2 {
      assert rest[2] == pattern[i + 2];
    }
    assert rest[HeadLength(rest)..] == pattern[i + HeadLength(rest)..];
  }

  /** The loop of `toRegExp` keeps its invariant across one step. */
  lemma LoopStep(pattern: string, i: nat, range: bool, block: bool, before: string,
                 i': nat, range': bool, block': bool, after: string)
    requires i < |pattern|
    requires before + Translate(pattern[i..], range, block) == Translate(pattern, false, false)
    requires i' == i + HeadLength(pattern[i..])
    requires after == before + HeadOutput(pattern[i..], range, block)
    requires range' == NextRange(pattern[i], range) && block' == NextBlock(pattern[i], block)
    ensures i' <= |pattern|
    ensures after + Translate(pattern[i'..], range', block') == Translate(pattern, false, false)
  {
    TranslateAt(pattern, i, range, block);
    AppendAssoc(before, HeadOutput(pattern[i..], range, block), Translate(pattern[i'..], range', block'));
  }

  /** `toRegExp(pattern)`. */
  method ToRegExp(pattern: string) returns (re: string)
    ensures re == Translate(pattern, false, false)
  {
    re := "";
    var range, block := false, false;
    var i := 0;
    while i < |pattern|
      invariant 0 <= i <= |pattern|
      invariant re + Translate(pattern[i..], range, block) == Translate(pattern, false, false)
    {
      TranslateAt(pattern, i, range, block);
      ghost var n := HeadLength(pattern[i..]);
      ghost var out := HeadOutput(pattern[i..], range, block);
      ghost var i0, before, range0, block0 := i, re, range, block;
      var c := pattern[i];
      if c == '*' {
        if i + 1 < |pattern| && pattern[i + 1] == '*' {
          re := re + ".*";
          i := i + 1;
          if i + 1 < |pattern| && IsSeparator(pattern[i + 1]) {
            i := i + 1;
          }
        } else {
          re := re + SingleStar;
        }
      } else {
        re := re + EmitChar(c, range, block);
        range, block := NextRange(c, range), NextBlock(c, block);
      }
      i := i + 1;
      assert i == i0 + n && re == before + out;
      assert range == NextRange(pattern[i0], range0) && block == NextBlock(pattern[i0], block0);
      LoopStep(pattern, i0, range0, block0, before, i, range, block, re);
    }
  }

  /** A `*` that is not the last character of `p` consumes the same
      characters whatever follows `p`. */
  lemma StarLengthAppend(p: string, q: string)
    requires |p| > 0 && p[0] == '*' && p[|p| - 1] != '*'
    ensures StarLength(p + q) == StarLength(p)
    ensures (p + q)[StarLength(p)..] == p[StarLength(p)..] + q
  {
    var pq := p + q;
    assert |p| >= 2 && pq[1] == p[1];
    if p[1] == '*' {
      assert |p| >= 3 && pq[2] == p[2];
    }
  }

  /** Stars and separators leave the flags alone. */
  lemma FlagsAfterStar(p: string, range: bool, block: bool)
    requires |p| > 0 && p[0] == '*'
    ensures FlagsAfter(p, range, block) == FlagsAfter(p[StarLength(p)..], range, block)
  {
    if StarLength(p) >= 2 {
      assert p[1..][1..] == p[2..];
      if StarLength(p) == 3 {
        assert p[2..][1..] == p[3..];
        assert FlagsAfter(p[2..], range, block) == FlagsAfter(p[3..], range, block);
      }
    }
  }

  /** The head of a non-empty glob that does not end in `*` is read the
      same way whatever follows it. */
  lemma HeadOfAppend(p: string, q: string, range: bool, block: bool)
    requires |p| > 0 && p[|p| - 1] != '*'
    ensures var n := HeadLength(p);
      && HeadLength(p + q) == n && (p + q)[n..] == p[n..] + q && (p + q)[0] == p[0]
      && HeadOutput(p + q, range, block) == HeadOutput(p, range, block)
      && FlagsAfter(p, range, block) == FlagsAfter(p[n..], NextRange(p[0], range), NextBlock(p[0], block))
  {
    var pq := p + q;
    assert pq[0] == p[0];
    if p[0] == '*' {
      StarLengthAppend(p, q);
      FlagsAfterStar(p, range, block);
    } else {
      assert pq[1..] == p[1..] + q;
    }
  }

  /** A glob that does not end in `*` translates independently of what
      follows it, once the flags it leaves open are carried over. */
  lemma {:induction false} TranslateAppend(p: string, q: string, range: bool, block: bool)
    requires |p| == 0 || p[|p| - 1] != '*'
    ensures Translate(p + q, range, block) ==
      Translate(p, range, block) + Translate(q, FlagsAfter(p, range, block).0, FlagsAfter(p, range, block).1)
    decreases |p|
  {
    if |p| > 0 {
      var r', b' := NextRange(p[0], range), NextBlock(p[0], block);
      var n := HeadLength(p);
      var h := HeadOutput(p, range, block);
      HeadOfAppend(p, q, range, block);
      TranslateAppend(p[n..], q, r', b');
      var f := FlagsAfter(p, range, block);
      assert Translate(p + q, range, block) == h + Translate(p[n..] + q, r', b');
      AppendAssoc(h, Translate(p[n..], r', b'), Translate(q, f.0, f.1));
    } else {
      assert p + q == q;
    }
  }

  /** The head step of `Translate` on a glob whose first character is
      consumed alone. */
  lemma SingleHead(c: char, q: string, range: bool, block: bool)
    requires c != '*' || |q| == 0 || q[0] != '*'
    ensures Translate([c] + q, range, block) ==
      (if c == '*' then SingleStar else EmitChar(c, range, block)) + Translate(q, NextRange(c, range), NextBlock(c, block))
  {
    var cq := [c] + q;
    assert cq[0] == c;
    if |q| > 0 {
      assert cq[1] == q[0];
    }
    assert HeadLength(cq) == 1;
    assert cq[1..] == q;
  }

  /** `p` followed by one character consumed alone and then by `q`. */
  lemma AppendSingle(p: string, c: char, q: string)
    requires |p| == 0 || p[|p| - 1] != '*'
    requires c != '*' || |q| == 0 || q[0] != '*'
    ensures var (r, b) := FlagsAfter(p, false, false);
            Translate(p + [c] + q, false, false) ==
              Translate(p, false, false) + (if c == '*' then SingleStar else EmitChar(c, r, b)) +
              Translate(q, NextRange(c, r), NextBlock(c, b))
  {
    var (r, b) := FlagsAfter(p, false, false);
    AppendAssoc(p, [c], q);
    TranslateAppend(p, [c] + q, false, false);
    SingleHead(c, q, r, b);
    AppendAssoc(Translate(p, false, false), if c == '*' then SingleStar else EmitChar(c, r, b),
                Translate(q, NextRange(c, r), NextBlock(c, b)));
  }

  /** A lone `*` becomes "[^/\\]*" wherever it stands. */
  lemma StarRule(p: string, q: string)
    requires |p| == 0 || p[|p| - 1] != '*'
    requires |q| == 0 || q[0] != '*'
    ensures var (r, b) := FlagsAfter(p, false, false);
            Translate(p + "*" + q, false, false) == Translate(p, false, false) + SingleStar + Translate(q, r, b)
  {
    AppendSingle(p, '*', q);
  }

  /** `**` becomes `.*` and swallows one separator right after it. */
  lemma DoubleStarRule(p: string, sep: char, q: string)
    requires |p| == 0 || p[|p| - 1] != '*'
    requires IsSeparator(sep)
    ensures var (r, b) := FlagsAfter(p, false, false);
            Translate(p + "**" + [sep] + q, false, false) == Translate(p, false, false) + ".*" + Translate(q, r, b)
  {
    var (r, b) := FlagsAfter(p, false, false);
    var tail := "**" + [sep] + q;
    assert p + "**" + [sep] + q == p + tail;
    TranslateAppend(p, tail, false, false);
    assert tail[0] == '*' && tail[1] == '*' && tail[2] == sep;
    assert tail[3..] == q;
    assert Translate(tail, r, b) == ".*" + Translate(q, r, b);
    AppendAssoc(Translate(p, false, false), ".*", Translate(q, r, b));
  }

  /** `**` not followed by a separator becomes `.*` and consumes only the
      two stars. */
  lemma DoubleStarNoSeparatorRule(p: string, q: string)
    requires |p| == 0 || p[|p| - 1] != '*'
    requires |q| == 0 || !IsSeparator(q[0])
    ensures var (r, b) := FlagsAfter(p, false, false);
            Translate(p + "**" + q, false, false) == Translate(p, false, false) + ".*" + Translate(q, r, b)
  {
    var (r, b) := FlagsAfter(p, false, false);
    var tail := "**" + q;
    assert p + "**" + q == p + tail;
    TranslateAppend(p, tail, false, false);
    assert tail[0] == '*' && tail[1] == '*';
    assert |q| > 0 ==> tail[2] == q[0];
    assert StarLength(tail) == 2;
    assert tail[2..] == q;
    assert Translate(tail, r, b) == ".*" + Translate(q, r, b);
    AppendAssoc(Translate(p, false, false), ".*", Translate(q, r, b));
  }

  /** `?` matches any one character, in any context. */
  lemma QuestionRule(p: string, q: string)
    requires |p| == 0 || p[|p| - 1] != '*'
    ensures var (r, b) := FlagsAfter(p, false, false);
            Translate(p + "?" + q, false, false) == Translate(p, false, false) + "." + Translate(q, r, b)
  {
    AppendSingle(p, '?', q);
  }

  /** `[` is copied and opens a range, `]` is copied and closes it. */
  lemma BracketRules(p: string, q: string)
    requires |p| == 0 || p[|p| - 1] != '*'
    ensures var (r, b) := FlagsAfter(p, false, false);
            Translate(p + "[" + q, false, false) == Translate(p, false, false) + "[" + Translate(q, true, b)
    ensures var (r, b) := FlagsAfter(p, false, false);
            Translate(p + "]" + q, false, false) == Translate(p, false, false) + "]" + Translate(q, false, b)
  {
    AppendSingle(p, '[', q);
    AppendSingle(p, ']', q);
  }

  /** `{` becomes a group `(` and opens a block, `}` becomes `)` and closes
      it. */
  lemma BraceRules(p: string, q: string)
    requires |p| == 0 || p[|p| - 1] != '*'
    ensures var (r, b) := FlagsAfter(p, false, false);
            Translate(p + "{" + q, false, false) == Translate(p, false, false) + "(" + Translate(q, r, true)
    ensures var (r, b) := FlagsAfter(p, false, false);
            Translate(p + "}" + q, false, false) == Translate(p, false, false) + ")" + Translate(q, r, false)
  {
    AppendSingle(p, '{', q);
    AppendSingle(p, '}', q);
  }

  /** Each of `. / \ $ ^` is emitted behind a backslash, in any context. */
  lemma EscapeRule(p: string, c: char, q: string)
    requires |p| == 0 || p[|p| - 1] != '*'
    requires Escaped(c)
    ensures var (r, b) := FlagsAfter(p, false, false);
            Translate(p + [c] + q, false, false) == Translate(p, false, false) + ['\\', c] + Translate(q, r, b)
  {
    AppendSingle(p, c, q);
  }

  /** `!` is a negation `^` exactly when a `[` range is open before it. */
  lemma BangRule(p: string, q: string)
    requires |p| == 0 || p[|p| - 1] != '*'
    ensures var (r, b) := FlagsAfter(p, false, false);
            Translate(p + "!" + q, false, false) == Translate(p, false, false) + (if r then "^" else "!") + Translate(q, r, b)
  {
    AppendSingle(p, '!', q);
  }

  /** `,` is an alternation `|` exactly when a `{` block is open before it,
      and an escaped comma otherwise. */
  lemma CommaRule(p: string, q: string)
    requires |p| == 0 || p[|p| - 1] != '*'
    ensures var (r, b) := FlagsAfter(p, false, false);
            Translate(p + "," + q, false, false) == Translate(p, false, false) + (if b then "|" else "\\,") + Translate(q, r, b)
  {
    AppendSingle(p, ',', q);
  }

  /** A character with no meaning in a glob is copied unchanged. */
  predicate Plain(c: char) {
    c !in {'.', '/', '\\', '$', '^', '?', '[', ']', '!', '{', '}', ',', '*'}
  }

  /** A glob made only of plain characters is its own regular expression. */
  lemma {:induction false} TranslatePlain(p: string, range: bool, block: bool)
    requires forall k :: 0 <= k < |p| ==> Plain(p[k])
    ensures Translate(p, range, block) == p
    decreases |p|
  {
    if |p| > 0 {
      TranslatePlain(p[1..], NextRange(p[0], range), NextBlock(p[0], block));
    }
  }

  /** With no range open, the translation never begins with `^`: a glob
      cannot anchor its expression at the start. */
  lemma TranslateNeverStartsWithCaret(p: string, block: bool)
    ensures var t := Translate(p, false, block); |t| == 0 || t[0] != '^'
  {
  }

  /** What `new Glob(pattern)` is given: one string or a list of strings. */
  datatype Pattern = One(s: string) | Many(ps: seq<string>)

  /** The compiled glob: the source text of its regular expression. */
  datatype GlobRegex = GlobRegex(source: string)

  function TranslateAll(ps: seq<string>): (ts: seq<string>)
    ensures |ts| == |ps|
    ensures forall k :: 0 <= k < |ps| ==> ts[k] == Translate(ps[k], false, false)
  {
    if |ps| == 0 then [] else [Translate(ps[0], false, false)] + TranslateAll(ps[1..])
  }

  /** The `Glob` constructor: a string holding `;` is split into a list; a
      list becomes `(r1|r2|...)`; the result is followed by `$`. */
  function NewGlob(pattern: Pattern): (g: GlobRegex)
    ensures |g.source| >= 1 && g.source[|g.source| - 1] == '$'
  {
    var pattern := if pattern.One? && ';' in pattern.s then Many(Split(pattern.s, ';')) else pattern;
    var re := match pattern
      case Many(ps) => "(" + Join(TranslateAll(ps), "|") + ")"
      case One(s) => Translate(s, false, false);
    GlobRegex(re + "$")
  }

  /** A single pattern without `;` is its translation anchored at the end
      only. */
  lemma NewGlobSingle(s: string)
    requires ';' !in s
    ensures NewGlob(One(s)).source == Translate(s, false, false) + "$"
    ensures NewGlob(One(s)).source[0] != '^'
  {
    TranslateNeverStartsWithCaret(s, false);
  }

  /** A `;`-separated pattern becomes the alternation of its pieces, one
      alternative per piece, in order. */
  lemma NewGlobAlternatives(s: string)
    requires ';' in s
    ensures NewGlob(One(s)) == NewGlob(Many(Split(s, ';')))
    ensures NewGlob(One(s)).source == "(" + Join(TranslateAll(Split(s, ';')), "|") + ")$"
    ensures |Split(s, ';')| >= 2
  {
    assert IndexOf(s, ';') != -1;
  }

  /** An empty list compiles to `()$`, whose empty group matches at the end
      of every string. */
  lemma NewGlobEmptyList()
    ensures NewGlob(Many([])).source == "()$"
  {
  }
}

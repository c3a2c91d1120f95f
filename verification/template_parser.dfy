/**
 * The template engine of src/utils/templateParser.ts.
 *
 * Both regular expressions are used with `String.prototype.replace` and the
 * global flag: the text is scanned left to right, at each position the pattern
 * is tried, a match is replaced and scanning resumes after it, otherwise one
 * character is kept and scanning moves on. Replacement text is never rescanned
 * by the same pattern. `Scan` is that scan; it cuts the text into literal
 * characters and matches (`Hit`), and every replace in the module is a map over
 * those pieces.
 *
 * Neither pattern needs backtracking to decide a match, because each greedy
 * `\s*` is followed by something white space cannot be (`\w`, `R`, `|`, `}`)
 * and `\w+` is followed by `\s` or `}`. So a match is decided by skipping runs
 * of characters, which is what `MatchPlaceholder` and `MatchRandom` do.
 */
module TemplateParser {
  import opened Wrappers
  import opened Text

  /** `/\{\{\s*(\w+)\s*\}\}/g` and `/\{\{\s*RANDOM\s*\|(.*?)\}\}/g`. */
  datatype Pattern = Placeholder | RandomBlock

  /** A match ends (exclusive) at `end`; `group` is capture group 1. */
  datatype Match = Match(end: nat, group: string)

  /** One step of the scan: a character kept as is, or a match and its capture. */
  datatype Piece = Lit(c: char) | Hit(raw: string, group: string)

  // ---------------------------------------------------------------- matching

  function SkipSpaces(s: string, i: nat): (j: nat)
    requires i <= |s|
    ensures i <= j <= |s| && AllSpace(s[i..j])
    ensures j == |s| || !IsSpace(s[j])
    decreases |s| - i
  {
    if i < |s| && IsSpace(s[i]) then SkipSpaces(s, i + 1) else i
  }

  function SkipWord(s: string, i: nat): (j: nat)
    requires i <= |s|
    ensures i <= j <= |s|
    ensures forall k :: i <= k < j ==> IsWordChar(s[k])
    ensures j == |s| || !IsWordChar(s[j])
    decreases |s| - i
  {
    if i < |s| && IsWordChar(s[i]) then SkipWord(s, i + 1) else i
  }

  predicate OpensAt(s: string, i: nat) { i + 2 <= |s| && s[i] == '{' && s[i + 1] == '{' }

  predicate ClosesAt(s: string, i: nat) { i + 2 <= |s| && s[i] == '}' && s[i + 1] == '}' }

  /** `{{`, white space, a word (the key), white space, `}}`. */
  function MatchPlaceholder(s: string, i: nat): (m: Option<Match>)
    requires i <= |s|
    ensures m.Some? ==> i + 5 <= m.value.end <= |s|
  {
    if !OpensAt(s, i) then None else KeyFrom(s, SkipSpaces(s, i + 2))
  }

  /** The rest of a placeholder once `{{` and white space end at a: the key, white space, `}}`. */
  function KeyFrom(s: string, a: nat): (m: Option<Match>)
    requires a <= |s|
    ensures m.Some? ==> a + 3 <= m.value.end <= |s|
  {
    var b := SkipWord(s, a);
    var c := SkipSpaces(s, b);
    if a < b && ClosesAt(s, c) then Some(Match(c + 2, s[a..b])) else None
  }

  /**
   * The lazy `(.*?)\}\}`: the first `}}` at or after k, provided no line
   * terminator comes before it.
   */
  function FindClose(s: string, k: nat): (j: Option<nat>)
    requires k <= |s|
    ensures j.Some? ==> k <= j.value && ClosesAt(s, j.value)
    ensures j.Some? ==> forall t :: k <= t < j.value ==> !ClosesAt(s, t) && !IsLineTerminator(s[t])
    decreases |s| - k
  {
    if ClosesAt(s, k) then Some(k)
    else if k == |s| || IsLineTerminator(s[k]) then None
    else FindClose(s, k + 1)
  }

  /** `{{`, white space, `RANDOM`, white space, `|`, the options, the first `}}` on the line. */
  function MatchRandom(s: string, i: nat): (m: Option<Match>)
    requires i <= |s|
    ensures m.Some? ==> i + 11 <= m.value.end <= |s|
  {
    if !OpensAt(s, i) then None
    else
      var a := SkipSpaces(s, i + 2);
      if !(a + 6 <= |s| && s[a..a + 6] == "RANDOM") then None
      else
        var b := SkipSpaces(s, a + 6);
        if !(b < |s| && s[b] == '|') then None
        else
          match FindClose(s, b + 1)
          case None => None
          case Some(j) => Some(Match(j + 2, s[b + 1..j]))
  }

  function MatchAt(p: Pattern, s: string, i: nat): (m: Option<Match>)
    requires i <= |s|
    ensures m.Some? ==> OpensAt(s, i) && i < m.value.end <= |s|
  {
    match p
    case Placeholder => MatchPlaceholder(s, i)
    case RandomBlock => MatchRandom(s, i)
  }

  /** The global scan of `s` from position i. It loses nothing: its pieces spell the scanned text. */
  function Scan(p: Pattern, s: string, i: nat): (ps: seq<Piece>)
    requires i <= |s|
    ensures Raw(ps) == s[i..]
    decreases |s| - i
  {
    if i == |s| then []
    else
      match MatchAt(p, s, i)
      case Some(m) =>
        var rest := Scan(p, s, m.end);
        RawCons(Hit(s[i..m.end], m.group), rest);
        SuffixSplit(s, i, m.end);
        [Hit(s[i..m.end], m.group)] + rest
      case None =>
        var rest := Scan(p, s, i + 1);
        RawCons(Lit(s[i]), rest);
        SuffixSplit(s, i, i + 1);
        [Lit(s[i])] + rest
  }

  function RawOf(x: Piece): string
  {
    match x
    case Lit(c) => [c]
    case Hit(raw, _) => raw
  }

  /** The text the pieces were cut from. */
  function Raw(ps: seq<Piece>): string
  {
    if ps == [] then [] else RawOf(ps[0]) + Raw(ps[1..])
  }

  predicate NoHits(ps: seq<Piece>) { forall k :: 0 <= k < |ps| ==> ps[k].Lit? }

  /** The capture groups of the matches, in order. */
  function Groups(ps: seq<Piece>): seq<string>
  {
    if ps == [] then []
    else if ps[0].Hit? then [ps[0].group] + Groups(ps[1..])
    else Groups(ps[1..])
  }

  // ---------------------------------------------------------------- the regex semantics

  /** Skipping white space stops exactly at the end of a run of white space. */
  lemma {:induction false} SkipSpacesStopsAt(s: string, i: nat, j: nat)
    requires i <= j <= |s| && AllSpace(s[i..j])
    requires j == |s| || !IsSpace(s[j])
    ensures SkipSpaces(s, i) == j
    decreases j - i
  {
    if i < j {
      assert IsSpace(s[i..j][0]);
      assert s[i + 1..j] == s[i..j][1..];
      SkipSpacesStopsAt(s, i + 1, j);
    }
  }

  lemma {:induction false} SkipWordStopsAt(s: string, i: nat, j: nat)
    requires i <= j <= |s| && forall k :: i <= k < j ==> IsWordChar(s[k])
    requires j == |s| || !IsWordChar(s[j])
    ensures SkipWord(s, i) == j
    decreases j - i
  {
    if i < j {
      SkipWordStopsAt(s, i + 1, j);
    }
  }

  predicate IsWord(w: string) { |w| > 0 && forall k :: 0 <= k < |w| ==> IsWordChar(w[k]) }

  /** The text of a placeholder: `{{`, white space, the key, white space, `}}`. */
  function PlaceholderText(w1: string, key: string, w2: string): string
  {
    "{{" + w1 + key + w2 + "}}"
  }

  /** Every placeholder match is `{{ key }}` with optional white space around a word. */
  lemma PlaceholderMatchIsPlaceholder(s: string, i: nat)
    requires i <= |s| && MatchPlaceholder(s, i).Some?
    ensures var m := MatchPlaceholder(s, i).value;
            exists w1, w2 :: AllSpace(w1) && AllSpace(w2) && IsWord(m.group)
                          && s[i..m.end] == PlaceholderText(w1, m.group, w2)
  {
    var a := SkipSpaces(s, i + 2);
    var b := SkipWord(s, a);
    var c := SkipSpaces(s, b);
    assert s[i..i + 2] == "{{" && s[c..c + 2] == "}}";
    PlaceholderTextOfParts(s, i, a, b, c);
  }

  /** The slice from `{{` to `}}` spells a placeholder around the pieces between its parts. */
  lemma PlaceholderTextOfParts(s: string, i: nat, a: nat, b: nat, c: nat)
    requires i + 2 <= a <= b <= c && c + 2 <= |s|
    requires s[i..i + 2] == "{{" && s[c..c + 2] == "}}"
    ensures s[i..c + 2] == PlaceholderText(s[i + 2..a], s[a..b], s[b..c])
  {
    SliceJoin(s, i, c, c + 2);
    SliceJoin(s, i, b, c);
    SliceJoin(s, i, a, b);
    SliceJoin(s, i, i + 2, a);
  }

  /** A slice that spells `x + y` splits into a slice spelling x and one spelling y. */
  lemma SliceSplit(s: string, i: nat, x: string, y: string)
    requires i + |x| + |y| <= |s| && s[i..i + |x| + |y|] == x + y
    ensures s[i..i + |x|] == x && s[i + |x|..i + |x| + |y|] == y
  {
    assert s[i..i + |x|] == s[i..i + |x| + |y|][..|x|];
    assert s[i + |x|..i + |x| + |y|] == s[i..i + |x| + |y|][|x|..];
  }

  /** A slice that spells a placeholder splits into slices spelling its parts. */
  lemma PlaceholderSlices(s: string, i: nat, w1: string, key: string, w2: string)
    requires i + |PlaceholderText(w1, key, w2)| <= |s|
    requires s[i..i + |PlaceholderText(w1, key, w2)|] == PlaceholderText(w1, key, w2)
    ensures var a := i + 2 + |w1|;
            var b := a + |key|;
            var c := b + |w2|;
            && s[i..i + 2] == "{{" && s[i + 2..a] == w1 && s[a..b] == key && s[b..c] == w2 && s[c..c + 2] == "}}"
  {
    var c0 := "{{" + w1;
    var b0 := c0 + key;
    var a0 := b0 + w2;
    SliceSplit(s, i, a0, "}}");
    SliceSplit(s, i, b0, w2);
    SliceSplit(s, i, c0, key);
    SliceSplit(s, i, "{{", w1);
  }

  /** Conversely every `{{ key }}` with a `\w+` key and white space padding is matched, capturing the key. */
  lemma PlaceholderIsMatched(s: string, i: nat, w1: string, key: string, w2: string)
    requires AllSpace(w1) && IsWord(key) && AllSpace(w2)
    requires i + |PlaceholderText(w1, key, w2)| <= |s|
    requires s[i..i + |PlaceholderText(w1, key, w2)|] == PlaceholderText(w1, key, w2)
    ensures MatchPlaceholder(s, i) == Some(Match(i + |PlaceholderText(w1, key, w2)|, key))
  {
    PlaceholderSlices(s, i, w1, key, w2);
    var a := i + 2 + |w1|;
    var b := a + |key|;
    var c := b + |w2|;
    assert s[i] == s[i..i + 2][0] && s[i + 1] == s[i..i + 2][1];
    assert s[c] == s[c..c + 2][0] && s[c + 1] == s[c..c + 2][1];
    assert forall k :: a <= k < b ==> s[k] == key[k - a];
    assert forall k :: b <= k < c ==> s[k] == w2[k - b];
    PlaceholderFromParts(s, i, a, b, c);
  }

  /** A placeholder match, read off the positions of its parts. */
  lemma PlaceholderFromParts(s: string, i: nat, a: nat, b: nat, c: nat)
    requires i + 2 <= a < b <= c && c + 2 <= |s|
    requires s[i] == '{' && s[i + 1] == '{' && AllSpace(s[i + 2..a]) && AllSpace(s[b..c])
    requires forall k :: a <= k < b ==> IsWordChar(s[k])
    requires s[c] == '}' && s[c + 1] == '}'
    ensures MatchPlaceholder(s, i) == Some(Match(c + 2, s[a..b]))
  {
    assert s[a] == s[a..b][0];
    SkipSpacesStopsAt(s, i + 2, a);
    if b < c {
      assert IsSpace(s[b..c][0]);
    }
    SkipWordStopsAt(s, a, b);
    SkipSpacesStopsAt(s, b, c);
  }

  /** The text of a RANDOM block: `{{`, white space, `RANDOM`, white space, `|`, the options, `}}`. */
  function RandomText(w1: string, w2: string, options: string): string
  {
    "{{" + w1 + "RANDOM" + w2 + "|" + options + "}}"
  }

  lemma SliceJoin(s: string, i: nat, j: nat, k: nat)
    requires i <= j <= k <= |s|
    ensures s[i..k] == s[i..j] + s[j..k]
  {
  }

  /** The positions a RANDOM match is made of. */
  lemma RandomMatchParts(s: string, i: nat) returns (a: nat, b: nat, j: nat)
    requires i <= |s| && MatchRandom(s, i).Some?
    ensures i + 2 <= a && a + 6 <= b < j && j + 2 <= |s|
    ensures s[i..i + 2] == "{{" && AllSpace(s[i + 2..a]) && s[a..a + 6] == "RANDOM"
    ensures AllSpace(s[a + 6..b]) && s[b] == '|' && s[j..j + 2] == "}}"
    ensures forall t :: b + 1 <= t < j ==> !IsLineTerminator(s[t])
    ensures MatchRandom(s, i) == Some(Match(j + 2, s[b + 1..j]))
  {
    a := SkipSpaces(s, i + 2);
    b := SkipSpaces(s, a + 6);
    j := FindClose(s, b + 1).value;
  }

  /** Every RANDOM match is `{{ RANDOM |` and options without a line break, closed by the first `}}`. */
  lemma RandomMatchIsBlock(s: string, i: nat)
    requires i <= |s| && MatchRandom(s, i).Some?
    ensures var m := MatchRandom(s, i).value;
            && NoLineBreak(m.group)
            && exists w1, w2 :: AllSpace(w1) && AllSpace(w2) && s[i..m.end] == RandomText(w1, w2, m.group)
  {
    var a, b, j := RandomMatchParts(s, i);
    RandomTextOfParts(s, i, a, b, j);
    var g := s[b + 1..j];
    assert forall t :: 0 <= t < |g| ==> g[t] == s[b + 1 + t];
  }

  /** The slice from `{{` to `}}` spells a RANDOM block around the pieces between its parts. */
  lemma RandomTextOfParts(s: string, i: nat, a: nat, b: nat, j: nat)
    requires i + 2 <= a && a + 6 <= b < j && j + 2 <= |s|
    requires s[i..i + 2] == "{{" && s[a..a + 6] == "RANDOM" && s[b] == '|' && s[j..j + 2] == "}}"
    ensures s[i..j + 2] == RandomText(s[i + 2..a], s[a + 6..b], s[b + 1..j])
  {
    SliceJoin(s, i, j, j + 2);
    SliceJoin(s, i, b + 1, j);
    SliceJoin(s, i, b, b + 1);
    SliceJoin(s, i, a + 6, b);
    SliceJoin(s, i, a, a + 6);
    SliceJoin(s, i, i + 2, a);
    assert s[b..b + 1] == "|";
  }

  /** The lazy group stops at the first `}}` when nothing before it is `}` or a line break. */
  lemma {:induction false} FindCloseFinds(s: string, k: nat, j: nat)
    requires k <= j && ClosesAt(s, j)
    requires forall t :: k <= t < j ==> s[t] != '}' && !IsLineTerminator(s[t])
    ensures FindClose(s, k) == Some(j)
    decreases j - k
  {
    if k < j {
      FindCloseFinds(s, k + 1, j);
    }
  }

  /** A RANDOM match, read off the positions of its parts. */
  lemma RandomMatchFromParts(s: string, i: nat, a: nat, b: nat, j: nat)
    requires i + 2 <= a && a + 6 <= b < j && j + 2 <= |s|
    requires s[i] == '{' && s[i + 1] == '{' && AllSpace(s[i + 2..a]) && s[a..a + 6] == "RANDOM"
    requires AllSpace(s[a + 6..b]) && s[b] == '|' && s[j] == '}' && s[j + 1] == '}'
    requires forall t :: b + 1 <= t < j ==> s[t] != '}' && !IsLineTerminator(s[t])
    ensures MatchRandom(s, i) == Some(Match(j + 2, s[b + 1..j]))
  {
    assert s[a] == s[a..a + 6][0];
    SkipSpacesStopsAt(s, i + 2, a);
    SkipSpacesStopsAt(s, a + 6, b);
    FindCloseFinds(s, b + 1, j);
  }

  /**
   * Conversely a RANDOM block whose options hold neither a line break nor a
   * `}` is matched, capturing the options.
   */
  lemma RandomBlockIsMatched(s: string, i: nat, w1: string, w2: string, g: string)
    requires AllSpace(w1) && AllSpace(w2) && NoLineBreak(g) && '}' !in g
    requires i + |RandomText(w1, w2, g)| <= |s|
    requires s[i..i + |RandomText(w1, w2, g)|] == RandomText(w1, w2, g)
    ensures MatchRandom(s, i) == Some(Match(i + |RandomText(w1, w2, g)|, g))
  {
    var a := i + 2 + |w1|;
    var b := a + 6 + |w2|;
    var j := b + 1 + |g|;
    RandomTextSlices(s, i, w1, w2, g);
    assert s[i] == s[i..i + 2][0] && s[i + 1] == s[i..i + 2][1];
    assert s[b] == s[b..b + 1][0];
    assert s[j] == s[j..j + 2][0] && s[j + 1] == s[j..j + 2][1];
    assert forall t :: b + 1 <= t < j ==> s[t] == s[b + 1..j][t - b - 1];
    RandomMatchFromParts(s, i, a, b, j);
  }

  /** A slice that spells a RANDOM block splits into slices spelling its parts. */
  lemma RandomTextSlices(s: string, i: nat, w1: string, w2: string, g: string)
    requires i + |RandomText(w1, w2, g)| <= |s|
    requires s[i..i + |RandomText(w1, w2, g)|] == RandomText(w1, w2, g)
    ensures var a := i + 2 + |w1|;
            var b := a + 6 + |w2|;
            var j := b + 1 + |g|;
            && s[i..i + 2] == "{{" && s[i + 2..a] == w1 && s[a..a + 6] == "RANDOM" && s[a + 6..b] == w2
            && s[b..b + 1] == "|" && s[b + 1..j] == g && s[j..j + 2] == "}}"
  {
    var x1 := "{{" + w1;
    var x2 := x1 + "RANDOM";
    var x3 := x2 + w2;
    var x4 := x3 + "|";
    var x5 := x4 + g;
    SliceSplit(s, i, x5, "}}");
    SliceSplit(s, i, x4, g);
    SliceSplit(s, i, x3, "|");
    SliceSplit(s, i, x2, w2);
    SliceSplit(s, i, x1, "RANDOM");
    SliceSplit(s, i, "{{", w1);
  }

  /** A text that is exactly one match scans as that single match. */
  lemma ScanSingleMatch(p: Pattern, s: string, g: string)
    requires |s| > 0 && MatchAt(p, s, 0) == Some(Match(|s|, g))
    ensures Scan(p, s, 0) == [Hit(s, g)]
  {
    assert s[0..|s|] == s;
  }

  predicate NoLineBreak(s: string) { forall k :: 0 <= k < |s| ==> !IsLineTerminator(s[k]) }

  // ---------------------------------------------------------------- scanning facts

  lemma RawCons(x: Piece, ps: seq<Piece>)
    ensures Raw([x] + ps) == RawOf(x) + Raw(ps)
  {
    assert ([x] + ps)[1..] == ps;
  }

  lemma SuffixSplit(s: string, i: nat, j: nat)
    requires i <= j <= |s|
    ensures s[i..] == s[i..j] + s[j..] && (j == i + 1 ==> s[i..j] == [s[i]])
  {
  }

  predicate NoOpening(s: string) { forall k :: 0 <= k < |s| ==> !OpensAt(s, k) }

  /** Without `{{` from position i on, nothing matches there, whichever the pattern. */
  lemma {:induction false} ScanWithoutOpening(p: Pattern, s: string, i: nat)
    requires i <= |s| && forall k :: i <= k < |s| ==> !OpensAt(s, k)
    ensures NoHits(Scan(p, s, i))
    decreases |s| - i
  {
    if i < |s| {
      assert MatchAt(p, s, i).None?;
      ScanWithoutOpening(p, s, i + 1);
    }
  }

  // ---------------------------------------------------------------- phase 1: variables

  /**
   * The properties every plain object inherits from `Object.prototype`. Each
   * name is a `\w+` key, so `variables[key]` finds it on a variables object
   * that has no own property of that name.
   */
  const InheritedKeys: set<string> := {
    "constructor", "__defineGetter__", "__defineSetter__", "hasOwnProperty",
    "__lookupGetter__", "__lookupSetter__", "isPrototypeOf", "propertyIsEnumerable",
    "toString", "valueOf", "__proto__", "toLocaleString"}

  /**
   * The text an inherited property becomes when the replacer returns it:
   * `__proto__` is `Object.prototype` itself, printed as `[object Object]`;
   * every other one is a built-in function, printed as V8 prints native
   * functions (`constructor` is `Object`).
   */
  function InheritedText(key: string): string
  {
    if key == "__proto__" then "[object Object]"
    else if key == "constructor" then "function Object() { [native code] }"
    else "function " + key + "() { [native code] }"
  }

  /**
   * `variables[key] || match`. An own property is used when its value is not
   * empty, and an own empty value keeps the placeholder; a key the object does
   * not own is looked up on `Object.prototype`, whose properties are all
   * truthy; any other key keeps the placeholder.
   */
  function Lookup(vars: map<string, string>, key: string, raw: string): string
  {
    if key in vars then (if vars[key] != "" then vars[key] else raw)
    else if key in InheritedKeys then InheritedText(key)
    else raw
  }

  /** `variables[key]` is truthy: the placeholder is replaced. */
  predicate Bound(vars: map<string, string>, key: string)
  {
    if key in vars then vars[key] != "" else key in InheritedKeys
  }

  function SubstituteOne(x: Piece, vars: map<string, string>): string
  {
    match x
    case Lit(c) => [c]
    case Hit(raw, key) => Lookup(vars, key, raw)
  }

  function Substitute(ps: seq<Piece>, vars: map<string, string>): string
  {
    if ps == [] then [] else SubstituteOne(ps[0], vars) + Substitute(ps[1..], vars)
  }

  /**
   * The first replace (`src/utils/templateParser.ts` lines 5-7). Placeholders
   * whose key is unbound (not owned and not inherited, or owned with the
   * value "") are left in place, and so is every other character: when no
   * key is bound, the text comes back unchanged.
   */
  function SubstituteVariables(text: string, vars: map<string, string>): (r: string)
    ensures AllUnbound(Groups(Scan(Placeholder, text, 0)), vars) ==> r == text
  {
    SubstituteUnbound(Scan(Placeholder, text, 0), vars);
    Substitute(Scan(Placeholder, text, 0), vars)
  }

  /** True when no placeholder key is bound: none owns a non-empty value or is inherited. */
  predicate AllUnbound(keys: seq<string>, vars: map<string, string>)
  {
    forall k :: 0 <= k < |keys| ==> !Bound(vars, keys[k])
  }

  lemma {:induction false} SubstituteUnbound(ps: seq<Piece>, vars: map<string, string>)
    ensures AllUnbound(Groups(ps), vars) ==> Substitute(ps, vars) == Raw(ps)
  {
    if ps != [] && AllUnbound(Groups(ps), vars) {
      if ps[0].Hit? {
        assert Groups(ps) == [ps[0].group] + Groups(ps[1..]);
        assert Groups(ps)[0] == ps[0].group;
        assert forall k :: 0 <= k < |Groups(ps[1..])| ==> Groups(ps[1..])[k] == Groups(ps)[k + 1];
      }
      SubstituteUnbound(ps[1..], vars);
    }
  }

  /**
   * A text that is one placeholder becomes the key's own value when that is
   * not empty, the printed form of an inherited property when the key is not
   * owned but inherited, and otherwise stays as it is.
   */
  lemma SinglePlaceholder(w1: string, key: string, w2: string, vars: map<string, string>)
    requires AllSpace(w1) && IsWord(key) && AllSpace(w2)
    ensures var t := PlaceholderText(w1, key, w2);
            var r := SubstituteVariables(t, vars);
            && (key in vars && vars[key] != "" ==> r == vars[key])
            && (key !in vars && key in InheritedKeys ==> r == InheritedText(key))
            && (!Bound(vars, key) ==> r == t)
  {
    var t := PlaceholderText(w1, key, w2);
    PlaceholderIsMatched(t, 0, w1, key, w2);
    var ps := Scan(Placeholder, t, 0);
    assert t[0..|t|] == t;
    assert ps == [Hit(t, key)] + Scan(Placeholder, t, |t|);
    assert ps == [Hit(t, key)] && ps[1..] == [];
    assert Substitute(ps, vars) == Lookup(vars, key, t) + Substitute([], vars);
  }

  /**
   * `{{ constructor }}`, with variables that do not own `constructor` (such
   * as `{ name: "Ann" }`), reads the inherited `Object` constructor.
   */
  lemma InheritedKeyReplaced(key: string, vars: map<string, string>)
    requires key == "constructor" && key !in vars
    ensures SubstituteVariables(PlaceholderText(" ", key, " "), vars) == "function Object() { [native code] }"
  {
    ConstructorIsWord();
    SinglePlaceholder(" ", key, " ", vars);
  }

  lemma ConstructorIsWord()
    ensures IsWord("constructor") && AllSpace(" ")
  {
    var key := "constructor";
    forall k | 0 <= k < |key| ensures IsWordChar(key[k]) {
      assert 'a' <= key[k] <= 'z';
    }
  }

  // ---------------------------------------------------------------- phase 2: RANDOM blocks

  /** `options.split('|').map(s => s.trim())` */
  function Options(group: string): seq<string>
  {
    SplitTrim(group, '|')
  }

  /** A value of `Math.random()`. */
  type Fraction = r: real | 0.0 <= r < 1.0 witness 0.0

  /** The random value drawn for the b-th block of one render. */
  type Draw = nat -> Fraction

  /** `Math.floor(Math.random() * choices.length)`: always a valid index. */
  function Pick(r: Fraction, n: nat): (k: nat)
    requires n > 0
    ensures k < n
  {
    ScaledFraction(r, n as real);
    (r * n as real).Floor
  }

  /** A fraction of m lies in [0, m). */
  lemma ScaledFraction(r: real, m: real)
    requires 0.0 <= r < 1.0 && m > 0.0
    ensures 0.0 <= r * m < m
  {
    var d := 1.0 - r;
    assert d > 0.0;
    assert d * m > 0.0;
    assert m - r * m == d * m;
  }

  /** Every option can be drawn: the draw k/n picks option k. */
  lemma PickReachesEveryOption(k: nat, n: nat)
    requires k < n
    ensures 0.0 <= k as real / n as real < 1.0
    ensures Pick(k as real / n as real, n) == k
  {
    var r := k as real / n as real;
    assert r * n as real == k as real;
  }

  function Resolve(ps: seq<Piece>, draw: Draw, b: nat): string
  {
    if ps == [] then []
    else
      match ps[0]
      case Lit(c) => [c] + Resolve(ps[1..], draw, b)
      case Hit(_, group) =>
        var o := Options(group);
        o[Pick(draw(b), |o|)] + Resolve(ps[1..], draw, b + 1)
  }

  /**
   * The second replace (`src/utils/templateParser.ts` lines 10-13): whatever
   * the random draws, each RANDOM block of the text is replaced by one of its
   * trimmed options and all text outside the blocks is kept.
   */
  function ResolveRandom(text: string, draw: Draw): (r: string)
    ensures OneOptionPerBlock(Scan(RandomBlock, text, 0), r)
  {
    ResolvePicksOptions(Scan(RandomBlock, text, 0), draw, 0);
    Resolve(Scan(RandomBlock, text, 0), draw, 0)
  }

  /**
   * `replaceVariables(text, variables)`: phase 2 runs on the output of phase
   * 1, so every RANDOM block of the substituted text, including one a
   * variable's value brought in, becomes one of its options.
   */
  function ReplaceVariables(text: string, vars: map<string, string>, draw: Draw): (r: string)
    ensures OneOptionPerBlock(Scan(RandomBlock, SubstituteVariables(text, vars), 0), r)
  {
    ResolveRandom(SubstituteVariables(text, vars), draw)
  }

  /**
   * `out` is `ps` with every literal kept and every block replaced by exactly
   * one of its trimmed options.
   */
  ghost predicate OneOptionPerBlock(ps: seq<Piece>, out: string)
    decreases |ps|
  {
    if ps == [] then out == []
    else
      match ps[0]
      case Lit(c) => |out| > 0 && out[0] == c && OneOptionPerBlock(ps[1..], out[1..])
      case Hit(_, group) =>
        var o := Options(group);
        exists k :: 0 <= k < |o| && o[k] <= out && OneOptionPerBlock(ps[1..], out[|o[k]|..])
  }

  lemma {:induction false} ResolvePicksOptions(ps: seq<Piece>, draw: Draw, b: nat)
    ensures OneOptionPerBlock(ps, Resolve(ps, draw, b))
    decreases |ps|
  {
    if ps != [] {
      var out := Resolve(ps, draw, b);
      match ps[0]
      case Lit(c) =>
        ResolvePicksOptions(ps[1..], draw, b);
        assert out[1..] == Resolve(ps[1..], draw, b);
      case Hit(_, group) =>
        var o := Options(group);
        var k := Pick(draw(b), |o|);
        ResolvePicksOptions(ps[1..], draw, b + 1);
        assert out[|o[k]|..] == Resolve(ps[1..], draw, b + 1);
    }
  }

  lemma {:induction false} NoHitsRendered(ps: seq<Piece>, vars: map<string, string>, draw: Draw, b: nat)
    ensures NoHits(ps) ==> Substitute(ps, vars) == Raw(ps)
    ensures NoHits(ps) ==> Resolve(ps, draw, b) == Raw(ps)
    ensures NoHits(ps) ==> Preview(ps) == Raw(ps)
  {
    if ps != [] && NoHits(ps) {
      assert ps[0].Lit?;
      NoHitsRendered(ps[1..], vars, draw, b);
    }
  }

  /** `replaceVariables` returns a text without `{{` unchanged. */
  lemma ReplaceWithoutBraces(text: string, vars: map<string, string>, draw: Draw)
    requires NoOpening(text)
    ensures SubstituteVariables(text, vars) == text
    ensures ReplaceVariables(text, vars, draw) == text
  {
    ScanWithoutOpening(Placeholder, text, 0);
    NoHitsRendered(Scan(Placeholder, text, 0), vars, draw, 0);
    ScanWithoutOpening(RandomBlock, text, 0);
    NoHitsRendered(Scan(RandomBlock, text, 0), vars, draw, 0);
  }

  // ---------------------------------------------------------------- preview

  /** The markup `previewRandomSyntax` puts in place of a block. */
  function PreviewMarkup(o: seq<string>): string
    requires |o| >= 1
  {
    "<span class=\"bg-blue-50 text-blue-600 px-1 rounded cursor-help\" title=\"Options: "
    + Join(o, " | ") + "\">" + o[0]
    + " <span class=\"text-xs\">(" + NatToString(|o|) + " options)</span></span>"
  }

  function PreviewOne(x: Piece): string
  {
    match x
    case Lit(c) => [c]
    case Hit(_, group) => PreviewMarkup(Options(group))
  }

  function Preview(ps: seq<Piece>): string
  {
    if ps == [] then [] else PreviewOne(ps[0]) + Preview(ps[1..])
  }

  /** `previewRandomSyntax(text)`: no draw is involved, and a text without RANDOM blocks previews as itself. */
  function PreviewRandomSyntax(text: string): (r: string)
    ensures NoHits(Scan(RandomBlock, text, 0)) ==> r == text
  {
    NoHitsRendered(Scan(RandomBlock, text, 0), map[], _ => 0.0, 0);
    Preview(Scan(RandomBlock, text, 0))
  }

  // ---------------------------------------------------------------- replacing inside a longer text

  /** A `{` is neither white space nor a word character, so the skips stop before it. */
  lemma {:induction false} SkipSpacesPrefix(s: string, n: nat, x: nat)
    requires x <= n < |s| && !IsSpace(s[n])
    ensures SkipSpaces(s, x) == SkipSpaces(s[..n], x)
    decreases n - x
  {
    if x < n {
      assert s[..n][x] == s[x];
      SkipSpacesPrefix(s, n, x + 1);
    }
  }

  lemma {:induction false} SkipWordPrefix(s: string, n: nat, x: nat)
    requires x <= n < |s| && !IsWordChar(s[n])
    ensures SkipWord(s, x) == SkipWord(s[..n], x)
    decreases n - x
  {
    if x < n {
      assert s[..n][x] == s[x];
      SkipWordPrefix(s, n, x + 1);
    }
  }

  /** A placeholder match that starts before a `{{` lies before it: the `{{` stops every part. */
  lemma PlaceholderBefore(s: string, n: nat, i: nat)
    requires i < n && n + 2 <= |s| && s[n] == '{' && s[n + 1] == '{'
    ensures MatchPlaceholder(s, i) == MatchPlaceholder(s[..n], i)
  {
    var t := s[..n];
    if i + 2 <= n && OpensAt(s, i) {
      assert t[i] == s[i] && t[i + 1] == s[i + 1];
      SkipSpacesPrefix(s, n, i + 2);
      KeyFromBefore(s, n, SkipSpaces(t, i + 2));
    } else if i + 2 <= n {
      assert t[i] == s[i] && t[i + 1] == s[i + 1];
    }
  }

  /** The key, the white space and the `}}` after it are found the same way before a `{{`. */
  lemma KeyFromBefore(s: string, n: nat, a: nat)
    requires a <= n && n + 2 <= |s| && s[n] == '{' && s[n + 1] == '{'
    ensures KeyFrom(s, a) == KeyFrom(s[..n], a)
  {
    var t := s[..n];
    SkipWordPrefix(s, n, a);
    var b := SkipWord(s, a);
    SkipSpacesPrefix(s, n, b);
    var c := SkipSpaces(s, b);
    if c + 2 <= n {
      assert t[c] == s[c] && t[c + 1] == s[c + 1];
    }
    assert s[a..b] == t[a..b];
  }

  /** A RANDOM match cannot start just before a `{{`, and elsewhere needs an opening. */
  lemma RandomBefore(s: string, n: nat, i: nat)
    requires i < n && n + 2 <= |s| && s[n] == '{' && s[n + 1] == '{'
    requires i + 1 < n ==> !OpensAt(s, i)
    ensures MatchRandom(s, i) == MatchRandom(s[..n], i) == None
  {
    if i + 1 == n && OpensAt(s, i) && n + 7 <= |s| {
      assert s[n + 1..n + 7][0] == s[n + 1];
    }
  }

  /** Either pattern matches the same way before a `{{` as in the text cut there. */
  lemma MatchBefore(p: Pattern, s: string, n: nat, i: nat)
    requires i < n && n + 2 <= |s| && s[n] == '{' && s[n + 1] == '{'
    requires p == RandomBlock && i + 1 < n ==> !OpensAt(s, i)
    ensures MatchAt(p, s, i) == MatchAt(p, s[..n], i)
  {
    match p
    case Placeholder => PlaceholderBefore(s, n, i);
    case RandomBlock => RandomBefore(s, n, i);
  }

  /**
   * The scan up to a `{{` at n is the scan of the text before it; the scan
   * goes on at n. For RANDOM blocks, nothing may open before n.
   */
  lemma {:induction false} ScanBefore(p: Pattern, s: string, n: nat, i: nat)
    requires i <= n && n + 2 <= |s| && s[n] == '{' && s[n + 1] == '{'
    requires p == RandomBlock ==> forall k :: i <= k && k + 1 < n ==> !OpensAt(s, k)
    ensures Scan(p, s, i) == Scan(p, s[..n], i) + Scan(p, s, n)
    decreases n - i
  {
    if i == n {
      assert Scan(p, s[..n], n) == [];
    } else {
      MatchBefore(p, s, n, i);
      var e := Next(p, s, i);
      ScanBefore(p, s, n, e);
      ScanStepBefore(p, s, n, i);
    }
  }

  /** Where the scan goes on after position i: past the match, or to the next character. */
  function Next(p: Pattern, s: string, i: nat): (e: nat)
    requires i < |s|
    ensures i < e <= |s|
  {
    match MatchAt(p, s, i)
    case Some(m) => m.end
    case None => i + 1
  }

  /** One step of the scan: the piece at i, then the scan from where it ends. */
  lemma ScanStep(p: Pattern, s: string, i: nat)
    requires i < |s|
    ensures Scan(p, s, i) == [PieceAt(p, s, i)] + Scan(p, s, Next(p, s, i))
  {
  }

  /** The piece the scan cuts at position i. */
  function PieceAt(p: Pattern, s: string, i: nat): Piece
    requires i < |s|
  {
    match MatchAt(p, s, i)
    case Some(m) => Hit(s[i..m.end], m.group)
    case None => Lit(s[i])
  }

  lemma TextAssoc(x: string, y: string, z: string)
    ensures x + (y + z) == x + y + z
  {
  }

  lemma ConsAssoc(x: Piece, a: seq<Piece>, b: seq<Piece>)
    ensures [x] + (a + b) == ([x] + a) + b
  {
  }

  /** The piece at i and where it ends are the same in the text cut at n. */
  lemma PieceBefore(p: Pattern, s: string, n: nat, i: nat)
    requires i < n <= |s| && MatchAt(p, s, i) == MatchAt(p, s[..n], i)
    requires Next(p, s, i) <= n
    ensures PieceAt(p, s, i) == PieceAt(p, s[..n], i) && Next(p, s, i) == Next(p, s[..n], i)
  {
    var e := Next(p, s, i);
    assert s[i..e] == s[..n][i..e] && s[i] == s[..n][i];
  }

  /** One step of `ScanBefore`: the step before the `{{` is the same in the cut text. */
  lemma ScanStepBefore(p: Pattern, s: string, n: nat, i: nat)
    requires i < n && n + 2 <= |s| && s[n] == '{' && s[n + 1] == '{'
    requires MatchAt(p, s, i) == MatchAt(p, s[..n], i)
    requires Next(p, s, i) <= n
    requires Scan(p, s, Next(p, s, i)) == Scan(p, s[..n], Next(p, s, i)) + Scan(p, s, n)
    ensures Scan(p, s, i) == Scan(p, s[..n], i) + Scan(p, s, n)
  {
    var t := s[..n];
    var e := Next(p, s, i);
    PieceBefore(p, s, n, i);
    calc {
      Scan(p, s, i);
      { ScanStep(p, s, i); }
      [PieceAt(p, s, i)] + Scan(p, s, e);
      [PieceAt(p, t, i)] + (Scan(p, t, e) + Scan(p, s, n));
      { ConsAssoc(PieceAt(p, t, i), Scan(p, t, e), Scan(p, s, n)); }
      ([PieceAt(p, t, i)] + Scan(p, t, e)) + Scan(p, s, n);
      { ScanStep(p, t, i); }
      Scan(p, t, i) + Scan(p, s, n);
    }
  }

  lemma {:induction false} SkipSpacesShift(s: string, j: nat, k: nat)
    requires j + k <= |s|
    ensures SkipSpaces(s, j + k) == j + SkipSpaces(s[j..], k)
    decreases |s| - j - k
  {
    if j + k < |s| {
      assert s[j..][k] == s[j + k];
      SkipSpacesShift(s, j, k + 1);
    }
  }

  lemma {:induction false} SkipWordShift(s: string, j: nat, k: nat)
    requires j + k <= |s|
    ensures SkipWord(s, j + k) == j + SkipWord(s[j..], k)
    decreases |s| - j - k
  {
    if j + k < |s| {
      assert s[j..][k] == s[j + k];
      SkipWordShift(s, j, k + 1);
    }
  }

  lemma {:induction false} FindCloseShift(s: string, j: nat, k: nat)
    requires j + k <= |s|
    ensures FindClose(s, j + k).Some? <==> FindClose(s[j..], k).Some?
    ensures FindClose(s, j + k).Some? ==> FindClose(s, j + k).value == j + FindClose(s[j..], k).value
    decreases |s| - j - k
  {
    var u := s[j..];
    assert ClosesAt(s, j + k) <==> ClosesAt(u, k) by {
      if j + k + 2 <= |s| {
        assert u[k] == s[j + k] && u[k + 1] == s[j + k + 1];
      }
    }
    if j + k < |s| {
      assert u[k] == s[j + k];
      FindCloseShift(s, j, k + 1);
    }
  }

  /** A match found at k of a suffix, moved back to the whole text (the suffix starts at j). */
  function Shifted(m: Option<Match>, j: nat): Option<Match>
  {
    match m
    case None => None
    case Some(x) => Some(Match(x.end + j, x.group))
  }

  lemma OpensShift(s: string, j: nat)
    requires j <= |s|
    ensures OpensAt(s, j) <==> OpensAt(s[j..], 0)
  {
    if j + 2 <= |s| {
      assert s[j..][0] == s[j] && s[j..][1] == s[j + 1];
    }
  }

  /** A match does not look behind its start: matching in the suffix from j gives the same match, shifted. */
  lemma MatchShift(p: Pattern, s: string, j: nat)
    requires j <= |s|
    ensures MatchAt(p, s, j) == Shifted(MatchAt(p, s[j..], 0), j)
  {
    match p
    case Placeholder => MatchPlaceholderShift(s, j);
    case RandomBlock => MatchRandomShift(s, j);
  }

  lemma MatchPlaceholderShift(s: string, j: nat)
    requires j <= |s|
    ensures MatchPlaceholder(s, j) == Shifted(MatchPlaceholder(s[j..], 0), j)
  {
    OpensShift(s, j);
    if OpensAt(s[j..], 0) {
      SkipSpacesShift(s, j, 2);
      KeyFromShift(s, j, SkipSpaces(s[j..], 2));
    }
  }

  /** The key and the white space after it, found in a suffix from a, are the same parts shifted. */
  lemma KeyFromShift(s: string, j: nat, a: nat)
    requires j + a <= |s|
    ensures KeyFrom(s, j + a) == Shifted(KeyFrom(s[j..], a), j)
  {
    var u := s[j..];
    SkipWordShift(s, j, a);
    var b := SkipWord(u, a);
    SkipSpacesShift(s, j, b);
    var c := SkipSpaces(u, b);
    ClosesShift(s, j, c);
    assert s[j + a..j + b] == u[a..b];
  }

  lemma ClosesShift(s: string, j: nat, c: nat)
    requires j + c <= |s|
    ensures ClosesAt(s, j + c) <==> ClosesAt(s[j..], c)
  {
    if j + c + 2 <= |s| {
      assert s[j..][c] == s[j + c] && s[j..][c + 1] == s[j + c + 1];
    }
  }

  lemma MatchRandomShift(s: string, j: nat)
    requires j <= |s|
    ensures MatchRandom(s, j) == Shifted(MatchRandom(s[j..], 0), j)
  {
    OpensShift(s, j);
    if OpensAt(s[j..], 0) {
      SkipSpacesShift(s, j, 2);
      var a := SkipSpaces(s[j..], 2);
      if a + 6 <= |s| - j {
        KeywordShift(s, j, a);
      }
    }
  }

  /** `RANDOM`, the white space after it and the rest of a block, found in a suffix from a, shifted. */
  lemma KeywordShift(s: string, j: nat, a: nat)
    requires j + a + 6 <= |s|
    ensures var u := s[j..];
            && s[j + a..j + a + 6] == u[a..a + 6]
            && SkipSpaces(s, j + a + 6) == j + SkipSpaces(u, a + 6)
            && (SkipSpaces(u, a + 6) < |u| ==> RandomTailShift(s, j, SkipSpaces(u, a + 6)))
  {
    var u := s[j..];
    assert s[j + a..j + a + 6] == u[a..a + 6];
    SkipSpacesShift(s, j, a + 6);
    assert j + (a + 6) == j + a + 6;
    var b := SkipSpaces(u, a + 6);
    if b < |u| {
      RandomTail(s, j, b);
    }
  }

  /** After the `|` at b of the suffix, the options and the closing `}}` are found shifted. */
  ghost predicate RandomTailShift(s: string, j: nat, b: nat)
    requires j + b < |s|
  {
    var u := s[j..];
    && s[j + b] == u[b]
    && (FindClose(s, j + b + 1).Some? <==> FindClose(u, b + 1).Some?)
    && (FindClose(u, b + 1).Some? ==>
          FindClose(s, j + b + 1).value == j + FindClose(u, b + 1).value
          && s[j + b + 1..j + FindClose(u, b + 1).value] == u[b + 1..FindClose(u, b + 1).value])
  }

  lemma RandomTail(s: string, j: nat, b: nat)
    requires j + b < |s|
    ensures RandomTailShift(s, j, b)
  {
    var u := s[j..];
    assert s[j + b] == u[b];
    FindCloseShift(s, j, b + 1);
    if FindClose(u, b + 1).Some? {
      var e := FindClose(u, b + 1).value;
      assert s[j + b + 1..j + e] == u[b + 1..e];
    }
  }

  /** The piece at j and where it ends are those at the start of the suffix from j, shifted. */
  lemma PieceShift(p: Pattern, s: string, j: nat)
    requires j < |s|
    ensures PieceAt(p, s, j) == PieceAt(p, s[j..], 0) && Next(p, s, j) == j + Next(p, s[j..], 0)
  {
    var u := s[j..];
    MatchShift(p, s, j);
    assert s[j] == u[0];
    var e := Next(p, u, 0);
    assert s[j..j + e] == u[0..e];
  }

  /** Two texts that agree from i and from k on scan alike from there. */
  lemma {:induction false} ScanSame(p: Pattern, s: string, i: nat, u: string, k: nat)
    requires i <= |s| && k <= |u| && s[i..] == u[k..]
    ensures Scan(p, s, i) == Scan(p, u, k)
    decreases |s| - i
  {
    if i == |s| {
      assert |u[k..]| == 0;
      assert Scan(p, s, i) == [] && Scan(p, u, k) == [];
    } else {
      PieceSame(p, s, i, u, k);
      ScanSame(p, s, Next(p, s, i), u, Next(p, u, k));
      SameScanStep(p, s, i, Next(p, s, i), u, k, Next(p, u, k));
    }
  }

  /** Two texts that agree from i and from k on have the same piece there, and agree after it. */
  lemma PieceSame(p: Pattern, s: string, i: nat, u: string, k: nat)
    requires i < |s| && k < |u| && s[i..] == u[k..]
    ensures PieceAt(p, s, i) == PieceAt(p, u, k) && s[Next(p, s, i)..] == u[Next(p, u, k)..]
  {
    var w := s[i..];
    PieceShift(p, s, i);
    PieceShift(p, u, k);
    var e := Next(p, w, 0);
    SuffixOfSuffix(s, i, e);
    SuffixOfSuffix(u, k, e);
  }

  lemma SuffixOfSuffix(s: string, i: nat, e: nat)
    requires i + e <= |s|
    ensures s[i..][e..] == s[i + e..]
  {
  }

  /** Two scans agree if their first pieces agree and the scans after those pieces agree. */
  lemma SameScanStep(p: Pattern, s: string, i: nat, f: nat, u: string, k: nat, e: nat)
    requires i < |s| && k < |u| && f <= |s| && e <= |u|
    requires PieceAt(p, s, i) == PieceAt(p, u, k)
    requires Next(p, s, i) == f && Next(p, u, k) == e
    requires Scan(p, s, f) == Scan(p, u, e)
    ensures Scan(p, s, i) == Scan(p, u, k)
  {
    ScanStep(p, s, i);
    ScanStep(p, u, k);
  }

  /**
   * A text cut just before a `{{` scans as its two parts. For RANDOM blocks
   * the first part must hold no `{{`, which could open a block running past
   * the cut.
   */
  lemma ScanSplit(p: Pattern, a: string, b: string)
    requires |b| >= 2 && b[0] == '{' && b[1] == '{'
    requires p == RandomBlock ==> NoOpening(a)
    ensures Scan(p, a + b, 0) == Scan(p, a, 0) + Scan(p, b, 0)
  {
    var s := a + b;
    forall k | 0 <= k && k + 1 < |a|
      ensures p == RandomBlock ==> !OpensAt(s, k)
    {
      assert s[k] == a[k] && s[k + 1] == a[k + 1];
      assert p == RandomBlock ==> !OpensAt(a, k);
    }
    ScanBefore(p, s, |a|, 0);
    assert s[..|a|] == a;
    assert s[|a|..] == b[0..];
    ScanSame(p, s, |a|, b, 0);
  }

  /** A text that starts with a match scans as that match, then the scan of the rest. */
  lemma ScanLeadingMatch(p: Pattern, t: string, g: string, b: string)
    requires |t| > 0 && MatchAt(p, t + b, 0) == Some(Match(|t|, g))
    ensures Scan(p, t + b, 0) == [Hit(t, g)] + Scan(p, b, 0)
  {
    var s := t + b;
    assert s[0..|t|] == t;
    assert s[|t|..] == b[0..];
    ScanSame(p, s, |t|, b, 0);
  }

  lemma {:induction false} SubstituteAppend(x: seq<Piece>, y: seq<Piece>, vars: map<string, string>)
    ensures Substitute(x + y, vars) == Substitute(x, vars) + Substitute(y, vars)
  {
    if x != [] {
      assert (x + y)[0] == x[0] && (x + y)[1..] == x[1..] + y;
      assert Substitute(x + y, vars) == SubstituteOne(x[0], vars) + Substitute(x[1..] + y, vars);
      SubstituteAppend(x[1..], y, vars);
    } else {
      assert x + y == y;
    }
  }

  lemma {:induction false} PreviewAppend(x: seq<Piece>, y: seq<Piece>)
    ensures Preview(x + y) == Preview(x) + Preview(y)
  {
    if x != [] {
      assert (x + y)[0] == x[0] && (x + y)[1..] == x[1..] + y;
      assert Preview(x + y) == PreviewOne(x[0]) + Preview(x[1..] + y);
      PreviewAppend(x[1..], y);
    } else {
      assert x + y == y;
    }
  }

  /** Phase 1 works piecewise: a text cut just before a `{{` is substituted part by part. */
  lemma SubstituteSplit(a: string, b: string, vars: map<string, string>)
    requires |b| >= 2 && b[0] == '{' && b[1] == '{'
    ensures SubstituteVariables(a + b, vars) == SubstituteVariables(a, vars) + SubstituteVariables(b, vars)
  {
    ScanSplit(Placeholder, a, b);
    SubstituteAppend(Scan(Placeholder, a, 0), Scan(Placeholder, b, 0), vars);
  }

  /**
   * Every `{{ key }}` in a text becomes `variables[key] || match`, whatever
   * surrounds it, and the text before and after it is substituted on its own.
   */
  lemma PlaceholderInText(a: string, w1: string, key: string, w2: string, b: string, vars: map<string, string>)
    requires AllSpace(w1) && IsWord(key) && AllSpace(w2)
    ensures var t := PlaceholderText(w1, key, w2);
            SubstituteVariables(a + t + b, vars)
              == SubstituteVariables(a, vars) + Lookup(vars, key, t) + SubstituteVariables(b, vars)
  {
    var t := PlaceholderText(w1, key, w2);
    calc {
      SubstituteVariables(a + t + b, vars);
      { TextAssoc(a, t, b); }
      SubstituteVariables(a + (t + b), vars);
      { SubstituteSplit(a, t + b, vars); }
      SubstituteVariables(a, vars) + SubstituteVariables(t + b, vars);
      { LeadingPlaceholder(w1, key, w2, b, vars); }
      SubstituteVariables(a, vars) + (Lookup(vars, key, t) + SubstituteVariables(b, vars));
      { TextAssoc(SubstituteVariables(a, vars), Lookup(vars, key, t), SubstituteVariables(b, vars)); }
      SubstituteVariables(a, vars) + Lookup(vars, key, t) + SubstituteVariables(b, vars);
    }
  }

  /** A text that starts with `{{ key }}` substitutes as the key's replacement, then the rest. */
  lemma LeadingPlaceholder(w1: string, key: string, w2: string, b: string, vars: map<string, string>)
    requires AllSpace(w1) && IsWord(key) && AllSpace(w2)
    ensures var t := PlaceholderText(w1, key, w2);
            SubstituteVariables(t + b, vars) == Lookup(vars, key, t) + SubstituteVariables(b, vars)
  {
    var t := PlaceholderText(w1, key, w2);
    assert (t + b)[0..|t|] == t;
    PlaceholderIsMatched(t + b, 0, w1, key, w2);
    ScanLeadingMatch(Placeholder, t, key, b);
    var y := Scan(Placeholder, b, 0);
    calc {
      SubstituteVariables(t + b, vars);
      Substitute([Hit(t, key)] + y, vars);
      { SubstituteAppend([Hit(t, key)], y, vars); }
      Substitute([Hit(t, key)], vars) + Substitute(y, vars);
      { OneHitSubstitute(t, key, vars); }
      Lookup(vars, key, t) + SubstituteVariables(b, vars);
    }
  }

  lemma OneHitSubstitute(t: string, key: string, vars: map<string, string>)
    ensures Substitute([Hit(t, key)], vars) == Lookup(vars, key, t)
  {
    assert Substitute([Hit(t, key)], vars) == SubstituteOne(Hit(t, key), vars) + Substitute([], vars);
  }

  /** The preview works piecewise after a text without `{{`: that text is kept, the rest previewed. */
  lemma PreviewSplit(a: string, b: string)
    requires NoOpening(a) && |b| >= 2 && b[0] == '{' && b[1] == '{'
    ensures PreviewRandomSyntax(a + b) == a + PreviewRandomSyntax(b)
  {
    var x, y := Scan(RandomBlock, a, 0), Scan(RandomBlock, b, 0);
    calc {
      PreviewRandomSyntax(a + b);
      Preview(Scan(RandomBlock, a + b, 0));
      { ScanSplit(RandomBlock, a, b); }
      Preview(x + y);
      { PreviewAppend(x, y); }
      Preview(x) + Preview(y);
      { PreviewWithoutOpening(a); }
      a + PreviewRandomSyntax(b);
    }
  }

  lemma PreviewWithoutOpening(a: string)
    requires NoOpening(a)
    ensures Preview(Scan(RandomBlock, a, 0)) == a
  {
    ScanWithoutOpening(RandomBlock, a, 0);
    NoHitsRendered(Scan(RandomBlock, a, 0), map[], _ => 0.0, 0);
    assert a[0..] == a;
  }

  /**
   * Every RANDOM block becomes its markup, whatever follows it, when nothing
   * before it opens with `{{` and its options hold no `}` and no line break.
   */
  lemma BlockInText(a: string, w1: string, w2: string, g: string, b: string)
    requires NoOpening(a) && AllSpace(w1) && AllSpace(w2) && NoLineBreak(g) && '}' !in g
    ensures PreviewRandomSyntax(a + RandomText(w1, w2, g) + b)
              == a + PreviewMarkup(Options(g)) + PreviewRandomSyntax(b)
  {
    var t := RandomText(w1, w2, g);
    BlockOpens(w1, w2, g, b);
    calc {
      PreviewRandomSyntax(a + t + b);
      { TextAssoc(a, t, b); }
      PreviewRandomSyntax(a + (t + b));
      { PreviewSplit(a, t + b); }
      a + PreviewRandomSyntax(t + b);
      { LeadingBlock(w1, w2, g, b); }
      a + (PreviewMarkup(Options(g)) + PreviewRandomSyntax(b));
      { TextAssoc(a, PreviewMarkup(Options(g)), PreviewRandomSyntax(b)); }
      a + PreviewMarkup(Options(g)) + PreviewRandomSyntax(b);
    }
  }

  lemma BlockOpens(w1: string, w2: string, g: string, b: string)
    ensures var u := RandomText(w1, w2, g) + b; |u| >= 2 && u[0] == '{' && u[1] == '{'
  {
    var u := RandomText(w1, w2, g) + b;
    assert u == "{{" + (w1 + "RANDOM" + w2 + "|" + g + "}}" + b);
  }

  /** A text that starts with a RANDOM block previews as the block's markup, then the rest. */
  lemma LeadingBlock(w1: string, w2: string, g: string, b: string)
    requires AllSpace(w1) && AllSpace(w2) && NoLineBreak(g) && '}' !in g
    ensures PreviewRandomSyntax(RandomText(w1, w2, g) + b) == PreviewMarkup(Options(g)) + PreviewRandomSyntax(b)
  {
    var t := RandomText(w1, w2, g);
    var y := Scan(RandomBlock, b, 0);
    calc {
      PreviewRandomSyntax(t + b);
      { LeadingBlockScan(w1, w2, g, b); }
      Preview([Hit(t, g)] + y);
      { PreviewAppend([Hit(t, g)], y); }
      Preview([Hit(t, g)]) + Preview(y);
      { OneHitPreview(t, g); }
      PreviewMarkup(Options(g)) + PreviewRandomSyntax(b);
    }
  }

  /** A RANDOM block at the start of a text is scanned as one hit, then the rest is scanned alone. */
  lemma LeadingBlockScan(w1: string, w2: string, g: string, b: string)
    requires AllSpace(w1) && AllSpace(w2) && NoLineBreak(g) && '}' !in g
    ensures var t := RandomText(w1, w2, g); Scan(RandomBlock, t + b, 0) == [Hit(t, g)] + Scan(RandomBlock, b, 0)
  {
    var t := RandomText(w1, w2, g);
    assert (t + b)[0..|t|] == t;
    RandomBlockIsMatched(t + b, 0, w1, w2, g);
    ScanLeadingMatch(RandomBlock, t, g, b);
  }

  lemma OneHitPreview(t: string, g: string)
    ensures Preview([Hit(t, g)]) == PreviewMarkup(Options(g))
  {
    assert Preview([Hit(t, g)]) == PreviewOne(Hit(t, g)) + Preview([]);
  }

  // ---------------------------------------------------------------- validation

  const TooFewOptions: string := "Random blocks must have at least two options"

  datatype Validation = Validation(isValid: bool, error: Option<string>)

  /** The options text of every RANDOM block, in order (`text.match(/.../g)` then group 1). */
  function Blocks(text: string): seq<string>
  {
    Groups(Scan(RandomBlock, text, 0))
  }

  /** `!options || options.split('|').length < 2`, negated; pieces are counted untrimmed. */
  predicate HasTwoOptions(options: string)
  {
    options != "" && |Split(options, '|')| >= 2
  }

  predicate WellFormed(text: string)
  {
    forall k :: 0 <= k < |Blocks(text)| ==> HasTwoOptions(Blocks(text)[k])
  }

  /** `validateRandomSyntax`: the first block with fewer than two pieces makes the text invalid. */
  method ValidateRandomSyntax(text: string) returns (v: Validation)
    ensures v.isValid <==> WellFormed(text)
    ensures v == Validation(true, None) || v == Validation(false, Some(TooFewOptions))
  {
    var blocks := Blocks(text);
    var i := 0;
    while i < |blocks|
      invariant 0 <= i <= |blocks|
      invariant forall k :: 0 <= k < i ==> HasTwoOptions(blocks[k])
    {
      var options := blocks[i];
      if options == "" || |Split(options, '|')| < 2 {
        return Validation(false, Some(TooFewOptions));
      }
      i := i + 1;
    }
    return Validation(true, None);
  }

  /** A block has two pieces exactly when its options contain a `|`. */
  lemma HasTwoOptionsIffPipe(options: string)
    ensures HasTwoOptions(options) <==> '|' in options
  {
    SplitHasTwoPieces(options, '|');
  }

  /** A well-formed template offers every block at least two options to choose from. */
  lemma WellFormedBlocksOfferChoice(text: string)
    requires WellFormed(text)
    ensures forall k :: 0 <= k < |Blocks(text)| ==> |Options(Blocks(text)[k])| >= 2
  {
  }

  /** Texts without `{{` have no RANDOM block and are valid. */
  lemma ValidWithoutBraces(text: string)
    requires NoOpening(text)
    ensures Blocks(text) == [] && WellFormed(text)
  {
    ScanWithoutOpening(RandomBlock, text, 0);
    NoHitsNoGroups(Scan(RandomBlock, text, 0));
  }

  lemma {:induction false} NoHitsNoGroups(ps: seq<Piece>)
    requires NoHits(ps)
    ensures Groups(ps) == []
  {
    if ps != [] {
      NoHitsNoGroups(ps[1..]);
    }
  }

  // ---------------------------------------------------------------- one-block texts

  /** A text that is a single RANDOM block has that block only, renders to one option, previews as its markup. */
  lemma SingleBlock(w1: string, w2: string, g: string, draw: Draw)
    requires AllSpace(w1) && AllSpace(w2) && NoLineBreak(g) && '}' !in g
    ensures var t := RandomText(w1, w2, g);
            var o := Options(g);
            && Blocks(t) == [g]
            && ResolveRandom(t, draw) == o[Pick(draw(0), |o|)]
            && PreviewRandomSyntax(t) == PreviewMarkup(o)
  {
    var t := RandomText(w1, w2, g);
    assert t[0..|t|] == t;
    RandomBlockIsMatched(t, 0, w1, w2, g);
    ScanSingleMatch(RandomBlock, t, g);
    var ps := Scan(RandomBlock, t, 0);
    assert ps[1..] == [];
    assert Groups(ps) == [g] + Groups([]);
    var o := Options(g);
    assert Resolve(ps, draw, 0) == o[Pick(draw(0), |o|)] + Resolve([], draw, 1);
    assert Preview(ps) == PreviewMarkup(o) + Preview([]);
  }

  lemma TwoPieceSplit(x: string, y: string)
    requires '|' !in x && '|' !in y
    ensures Split(x + "|" + y, '|') == [x, y]
  {
    SplitAtSeparator(x, y, '|');
    SplitWithoutSeparator(x, '|');
    SplitWithoutSeparator(y, '|');
  }

  lemma TrimPadded(x: string)
    requires x != [] && IsTrimmed(x)
    ensures Trim(" " + x + " ") == x
  {
    var t := " " + x + " ";
    assert t[1..] == x + " ";
    assert TrimStart(x + " ") == x + " ";
    assert (x + " ")[..|x|] == x;
  }

  /** An option that survives trimming and contains nothing that ends the block or splits it. */
  predicate PlainOption(x: string)
  {
    x != [] && IsTrimmed(x) && '|' !in x && '}' !in x && NoLineBreak(x)
  }

  /** A padded option, as the options text holds it. */
  function Padded(x: string): string { " " + x + " " }

  /** The options text ` x | y `. */
  function TwoOptions(x: string, y: string): string { Padded(x) + "|" + Padded(y) }

  /** `{{ RANDOM | x | y }}` */
  function TwoOptionText(x: string, y: string): string
  {
    RandomText(" ", " ", TwoOptions(x, y))
  }

  lemma PaddedPlain(x: string)
    requires PlainOption(x)
    ensures '|' !in Padded(x) && '}' !in Padded(x) && NoLineBreak(Padded(x))
    ensures Trim(Padded(x)) == x
  {
    TrimPadded(x);
    assert forall k :: 0 <= k < |Padded(x)| ==> Padded(x)[k] == ' ' || Padded(x)[k] == x[k - 1];
  }

  lemma NoLineBreakConcat(a: string, b: string)
    requires NoLineBreak(a) && NoLineBreak(b)
    ensures NoLineBreak(a + b)
  {
    assert forall k :: 0 <= k < |a + b| ==> (a + b)[k] == if k < |a| then a[k] else b[k - |a|];
  }

  lemma TwoOptionParts(x: string, y: string)
    requires PlainOption(x) && PlainOption(y)
    ensures var g := TwoOptions(x, y);
            && NoLineBreak(g) && '}' !in g && '|' in g
            && Options(g) == [x, y]
  {
    var px, py := Padded(x), Padded(y);
    PaddedPlain(x);
    PaddedPlain(y);
    NoLineBreakConcat(px, "|");
    NoLineBreakConcat(px + "|", py);
    TwoPieceSplit(px, py);
    assert TrimAll([px, py]) == [Trim(px)] + TrimAll([py]);
  }

  lemma TwoOptionResolve(x: string, y: string, draw: Draw)
    requires PlainOption(x) && PlainOption(y)
    ensures ResolveRandom(TwoOptionText(x, y), draw) in {x, y}
  {
    TwoOptionParts(x, y);
    SingleBlock(" ", " ", TwoOptions(x, y), draw);
    var o := Options(TwoOptions(x, y));
    assert o == [x, y];
    var k := Pick(draw(0), |o|);
    assert k == 0 || k == 1;
  }

  /**
   * `{{ RANDOM | x | y }}` holds no placeholder when the options hold no `{`:
   * the one `{{` is followed by `RANDOM` and then `|`, not by `}}`.
   */
  lemma TwoOptionTextHasNoPlaceholder(x: string, y: string)
    requires '{' !in x && '{' !in y
    ensures NoHits(Scan(Placeholder, TwoOptionText(x, y), 0))
  {
    var t := TwoOptionText(x, y);
    TwoOptionTextStartsNoPlaceholder(x, y);
    TwoOptionTextOpensOnce(x, y);
    ScanWithoutOpening(Placeholder, t, 1);
    assert Scan(Placeholder, t, 0) == [Lit(t[0])] + Scan(Placeholder, t, 1);
  }

  /** The `{{` at the start of `{{ RANDOM | x | y }}` does not begin a placeholder. */
  lemma TwoOptionTextStartsNoPlaceholder(x: string, y: string)
    ensures MatchPlaceholder(TwoOptionText(x, y), 0).None?
  {
    var t := TwoOptionText(x, y);
    var g := TwoOptions(x, y);
    assert t == "{{ RANDOM |" + g + "}}";
    assert t[..11] == "{{ RANDOM |";
    assert AllSpace(t[2..3]) && AllSpace(t[9..10]);
    SkipSpacesStopsAt(t, 2, 3);
    SkipWordStopsAt(t, 3, 9);
    SkipSpacesStopsAt(t, 9, 10);
  }

  /** No `{{` opens after the first character of `{{ RANDOM | x | y }}` when x and y hold no `{`. */
  lemma TwoOptionTextOpensOnce(x: string, y: string)
    requires '{' !in x && '{' !in y
    ensures forall k | 1 <= k < |TwoOptionText(x, y)| :: !OpensAt(TwoOptionText(x, y), k)
  {
    var t := TwoOptionText(x, y);
    var g := TwoOptions(x, y);
    assert t == "{{ RANDOM |" + g + "}}";
    assert t[..11] == "{{ RANDOM |";
    assert '{' !in g by {
      assert forall k :: 0 <= k < |g| ==> g[k] == ' ' || g[k] == '|' || g[k] in x || g[k] in y;
    }
    forall k | 1 <= k < |t|
      ensures !OpensAt(t, k)
    {
      if k < 11 {
        assert t[k] != '{' || t[k + 1] != '{';
      } else if k < 11 + |g| {
        assert t[k] == g[k - 11];
      } else {
        assert t[k] == '}';
      }
    }
  }

  /** `replaceVariables` renders `{{ RANDOM | x | y }}` as x or y, whatever the variables and the draw. */
  lemma TwoOptionRender(x: string, y: string, vars: map<string, string>, draw: Draw)
    requires PlainOption(x) && PlainOption(y) && '{' !in x && '{' !in y
    ensures ReplaceVariables(TwoOptionText(x, y), vars, draw) in {x, y}
  {
    var t := TwoOptionText(x, y);
    TwoOptionTextHasNoPlaceholder(x, y);
    NoHitsRendered(Scan(Placeholder, t, 0), vars, draw, 0);
    TwoOptionResolve(x, y, draw);
  }

  /** A variable whose value is a RANDOM block is resolved by phase 2: `{{greeting}}` becomes one of its options. */
  lemma SubstitutedBlockIsResolved(key: string, x: string, y: string, draw: Draw)
    requires IsWord(key) && PlainOption(x) && PlainOption(y)
    ensures ReplaceVariables(PlaceholderText("", key, ""), map[key := TwoOptionText(x, y)], draw) in {x, y}
  {
    var t := TwoOptionText(x, y);
    var vars := map[key := t];
    SinglePlaceholder("", key, "", vars);
    assert t != "";
    assert SubstituteVariables(PlaceholderText("", key, ""), vars) == t;
    TwoOptionResolve(x, y, draw);
  }

  /** The preview markup of two options lists both, shows the first, and counts 2. */
  lemma TwoOptionMarkup(x: string, y: string)
    ensures PreviewMarkup([x, y])
         == "<span class=\"bg-blue-50 text-blue-600 px-1 rounded cursor-help\" title=\"Options: " + x + " | " + y
            + "\">" + x + " <span class=\"text-xs\">(" + "2" + " options)</span></span>"
  {
    assert [x, y][1..] == [y];
    assert Join([x, y], " | ") == x + " | " + y;
    assert NatToString(2) == "2";
  }

  /** The preview of `{{ RANDOM | x | y }}` is the markup of its two options. */
  lemma TwoOptionPreview(x: string, y: string)
    requires PlainOption(x) && PlainOption(y)
    ensures PreviewRandomSyntax(TwoOptionText(x, y)) == PreviewMarkup([x, y])
  {
    TwoOptionParts(x, y);
    SingleBlock(" ", " ", TwoOptions(x, y), _ => 0.0);
  }

  /**
   * A text that is one RANDOM block is valid exactly when its options contain
   * a `|`: a single option is rejected, and an empty last piece still counts.
   */
  lemma SingleBlockValidity(w1: string, w2: string, g: string)
    requires AllSpace(w1) && AllSpace(w2) && NoLineBreak(g) && '}' !in g
    ensures WellFormed(RandomText(w1, w2, g)) <==> '|' in g
  {
    var t := RandomText(w1, w2, g);
    var d: Draw := _ => 0.0;
    SingleBlock(w1, w2, g, d);
    assert Blocks(t) == [g];
    HasTwoOptionsIffPipe(g);
    assert WellFormed(t) <==> HasTwoOptions(Blocks(t)[0]);
  }

  // ---------------------------------------------------------------- variations

  const DefaultVariationCount: int := 5

  /** `generateVariations`: `count` independent renders, each with its own draws. */
  method GenerateVariations(template: string, variables: map<string, string>, draws: nat -> Draw,
                            count: int := DefaultVariationCount)
    returns (variations: seq<string>)
    ensures |variations| == if count > 0 then count else 0
    ensures forall i :: 0 <= i < |variations| ==> variations[i] == ReplaceVariables(template, variables, draws(i))
  {
    variations := [];
    var n := if count > 0 then count else 0;
    for i := 0 to n
      invariant |variations| == i
      invariant forall k :: 0 <= k < i ==> variations[k] == ReplaceVariables(template, variables, draws(k))
    {
      var v := ReplaceVariables(template, variables, draws(i));
      variations := variations + [v];
    }
  }
}

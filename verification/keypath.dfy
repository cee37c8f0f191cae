/**
  Key paths of free-form CLI flags (`parse_key` and `process_nested_key` in
  flowctl/utils.py). A flag name such as `a.b[0].c` or `list[]` is scanned left
  to right for the regular expression `\w+|\[\d*\]`, as `re.findall` does, and
  each match becomes one path segment: a dict key, a list index, or "append".
  `\w` and `\d` are taken as ASCII.
 */
module KeyPath {

  predicate IsWordChar(c: char) {
    ('a' <= c <= 'z') || ('A' <= c <= 'Z') || ('0' <= c <= '9') || c == '_'
  }

  predicate IsDigit(c: char) {
    '0' <= c <= '9'
  }

  predicate AllDigits(s: string) {
    forall i :: 0 <= i < |s| ==> IsDigit(s[i])
  }

  /** A match of `\w+`. */
  predicate IsWordRun(t: string) {
    |t| > 0 && forall i :: 0 <= i < |t| ==> IsWordChar(t[i])
  }

  /** A match of `\[\d*\]`. */
  predicate IsBracketGroup(t: string) {
    |t| >= 2 && t[0] == '[' && t[|t| - 1] == ']' && AllDigits(t[1..|t| - 1])
  }

  /** Length of the longest prefix of `s` made of word characters. */
  function WordRun(s: string): (n: nat)
    ensures n <= |s|
    ensures forall i :: 0 <= i < n ==> IsWordChar(s[i])
    ensures n < |s| ==> !IsWordChar(s[n])
  {
    if s == [] || !IsWordChar(s[0]) then 0 else 1 + WordRun(s[1..])
  }

  /** Length of the longest prefix of `s` made of digits. */
  function DigitRun(s: string): (n: nat)
    ensures n <= |s|
    ensures AllDigits(s[..n])
    ensures n < |s| ==> !IsDigit(s[n])
  {
    if s == [] || !IsDigit(s[0]) then 0
    else
      var n := 1 + DigitRun(s[1..]);
      assert s[..n] == [s[0]] + s[1..][..n - 1];
      n
  }

  /** Length of the `[digits]` group `s` starts with, or 0 when it starts with none. */
  function BracketGroup(s: string): (n: nat)
    ensures n <= |s|
    ensures n > 0 ==> IsBracketGroup(s[..n])
    ensures n == 0 ==> forall m :: 0 <= m <= |s| ==> !IsBracketGroup(s[..m])
  {
    if |s| > 0 && s[0] == '[' then
      var d := DigitRun(s[1..]);
      if 1 + d < |s| && s[1 + d] == ']' then
        assert s[..d + 2][1..d + 1] == s[1..][..d];
        d + 2
      else
        forall m | 0 <= m <= |s| ensures !IsBracketGroup(s[..m]) {
          if IsBracketGroup(s[..m]) {
            BracketGroupShape(s, m, d);
          }
        }
        0
    else
      0
  }

  /** A bracket group ending at `m` forces the digit run after `[` to end at `m - 1`. */
  lemma BracketGroupShape(s: string, m: nat, d: nat)
    requires 2 <= m <= |s| && IsBracketGroup(s[..m])
    requires 0 < |s| && d == DigitRun(s[1..])
    ensures 1 + d < |s| && s[1 + d] == ']'
  {
    var t := s[1..];
    var g := s[..m];
    assert t[..m - 2] == g[1..m - 1];
    assert t[m - 2] == g[m - 1] == ']';
    DigitRunIs(t, m - 2);
  }

  /** The digit run of `s` is determined by where the digits stop. */
  lemma {:induction false} DigitRunIs(s: string, n: nat)
    requires n <= |s| && AllDigits(s[..n]) && (n < |s| ==> !IsDigit(s[n]))
    ensures DigitRun(s) == n
    decreases n
  {
    if n > 0 {
      assert s[..n][0] == s[0];
      assert s[1..][..n - 1] == s[..n][1..];
      DigitRunIs(s[1..], n - 1);
    }
  }

  lemma {:induction false} WordRunIs(s: string, n: nat)
    requires n <= |s| && (forall i :: 0 <= i < n ==> IsWordChar(s[i]))
    requires n < |s| ==> !IsWordChar(s[n])
    ensures WordRun(s) == n
    decreases n
  {
    if n > 0 {
      WordRunIs(s[1..], n - 1);
    }
  }

  /** The matches of `\w+|\[\d*\]` in `key`, left to right (`parse_key`). */
  function Tokens(key: string): (ts: seq<string>)
    decreases |key|
    ensures forall i :: 0 <= i < |ts| ==> IsWordRun(ts[i]) || IsBracketGroup(ts[i])
    ensures WordChars(Concat(ts)) == WordChars(key)
  {
    if key == [] then []
    else if IsWordChar(key[0]) then
      var n := WordRun(key);
      var rest := Tokens(key[n..]);
      WordCharsOfRun(key[..n]);
      SplitWordChars(key, n);
      assert Concat([key[..n]] + rest) == key[..n] + Concat(rest);
      WordCharsConcat(key[..n], Concat(rest));
      [key[..n]] + rest
    else
      var b := BracketGroup(key);
      if b > 0 then
        var rest := Tokens(key[b..]);
        SplitWordChars(key, b);
        assert Concat([key[..b]] + rest) == key[..b] + Concat(rest);
        WordCharsConcat(key[..b], Concat(rest));
        [key[..b]] + rest
      else
        SplitWordChars(key, 1);
        assert WordChars(key[..1]) == [];
        Tokens(key[1..])
  }

  function Concat(ts: seq<string>): string {
    if ts == [] then [] else ts[0] + Concat(ts[1..])
  }

  /** The word characters of `s`, in order. */
  function WordChars(s: string): string {
    if s == [] then []
    else if IsWordChar(s[0]) then [s[0]] + WordChars(s[1..])
    else WordChars(s[1..])
  }

  lemma {:induction false} WordCharsConcat(a: string, b: string)
    ensures WordChars(a + b) == WordChars(a) + WordChars(b)
  {
    if a != [] {
      assert (a + b)[1..] == a[1..] + b;
      WordCharsConcat(a[1..], b);
    } else {
      assert a + b == b;
    }
  }

  lemma SplitWordChars(s: string, n: nat)
    requires n <= |s|
    ensures WordChars(s) == WordChars(s[..n]) + WordChars(s[n..])
  {
    assert s == s[..n] + s[n..];
    WordCharsConcat(s[..n], s[n..]);
  }

  lemma {:induction false} WordCharsOfRun(t: string)
    requires forall i :: 0 <= i < |t| ==> IsWordChar(t[i])
    ensures WordChars(t) == t
  {
    if t != [] {
      WordCharsOfRun(t[1..]);
    }
  }

  /** One step of a key path. */
  datatype Segment = Key(name: string) | Index(n: nat) | Append

  function DigitValue(c: char): nat
    requires IsDigit(c)
  {
    c as int - '0' as int
  }

  /** `int(ds)` for a string of ASCII digits (the empty string reads as 0). */
  function DecimalValue(ds: string): nat
    requires AllDigits(ds)
    decreases |ds|
  {
    if ds == [] then 0 else 10 * DecimalValue(ds[..|ds| - 1]) + DigitValue(ds[|ds| - 1])
  }

  /** The decimal spelling of `n`, which `int` reads back as `n`. */
  function Decimal(n: nat): (ds: string)
    ensures |ds| > 0 && AllDigits(ds)
    ensures DecimalValue(ds) == n
  {
    var last := ['0' + (n % 10) as char];
    if n < 10 then last
    else
      var ds := Decimal(n / 10) + last;
      assert ds[..|ds| - 1] == Decimal(n / 10);
      ds
  }

  /** `process_nested_key` on one match: `[n]` becomes index `n`, `[]` stays the
      append marker, a word run is a dict key. */
  function ToSegment(t: string): (s: Segment)
    requires IsWordRun(t) || IsBracketGroup(t)
    ensures s.Key? <==> IsWordRun(t)
    ensures s.Key? ==> s.name == t
    ensures s.Append? <==> t == "[]"
    ensures s.Index? ==> t == "[" + t[1..|t| - 1] + "]" && s.n == DecimalValue(t[1..|t| - 1])
  {
    if t[0] == '[' then
      if t == "[]" then Append else Index(DecimalValue(t[1..|t| - 1]))
    else
      Key(t)
  }

  /** The key path of a flag name with its leading dashes already stripped. */
  function ParseKey(key: string): (path: seq<Segment>)
    ensures |path| == |Tokens(key)|
    ensures forall i :: 0 <= i < |path| ==> path[i] == ToSegment(Tokens(key)[i])
  {
    var ts := Tokens(key);
    seq(|ts|, i requires 0 <= i < |ts| => ToSegment(ts[i]))
  }

  /** A segment some flag name can spell. */
  predicate Spellable(s: Segment) {
    s.Key? ==> IsWordRun(s.name)
  }

  function SpellSegment(s: Segment): string {
    match s
    case Key(name) => name
    case Index(n) => "[" + Decimal(n) + "]"
    case Append => "[]"
  }

  /** A flag name for a key path: keys separated by dots, indices in brackets.
      `first` says whether a key at the head of `path` may go without a dot. */
  function Spell(path: seq<Segment>, first: bool): string {
    if path == [] then []
    else (if path[0].Key? && !first then "." else "") + SpellSegment(path[0]) + Spell(path[1..], false)
  }

  /** Spelling a key path and parsing it back gives the same path. */
  lemma {:induction false} ParseKeyOfSpell(path: seq<Segment>)
    requires forall i :: 0 <= i < |path| ==> Spellable(path[i])
    ensures ParseKey(Spell(path, true)) == path
  {
    TokensOfSpell(path, true);
    var ts := Tokens(Spell(path, true));
    forall i | 0 <= i < |path| ensures ToSegment(ts[i]) == path[i] {
      ToSegmentOfSpell(path[i]);
    }
  }

  lemma ToSegmentOfSpell(s: Segment)
    requires Spellable(s)
    ensures IsWordRun(SpellSegment(s)) || IsBracketGroup(SpellSegment(s))
    ensures ToSegment(SpellSegment(s)) == s
  {
    match s
    case Key(_) =>
    case Append =>
    case Index(n) =>
      var t := SpellSegment(s);
      assert t[1..|t| - 1] == Decimal(n);
  }

  /** The spellings of the segments of `path`, one per segment. */
  function SpellAll(path: seq<Segment>): (ts: seq<string>)
    ensures |ts| == |path|
    ensures forall i :: 0 <= i < |path| ==> ts[i] == SpellSegment(path[i])
  {
    if path == [] then [] else [SpellSegment(path[0])] + SpellAll(path[1..])
  }

  lemma {:induction false} TokensOfSpell(path: seq<Segment>, first: bool)
    requires forall i :: 0 <= i < |path| ==> Spellable(path[i])
    ensures Tokens(Spell(path, first)) == SpellAll(path)
  {
    if path != [] {
      TokensOfSpell(path[1..], false);
      TokensOfSpellHead(path, first);
    }
  }

  lemma TokensOfSpellHead(path: seq<Segment>, first: bool)
    requires path != [] && Spellable(path[0])
    ensures Tokens(Spell(path, first)) == [SpellSegment(path[0])] + Tokens(Spell(path[1..], false))
  {
    SpellStartsWithSeparator(path[1..]);
    ToSegmentOfSpell(path[0]);
    var sep := if path[0].Key? && !first then "." else "";
    TokensOfPiece(sep, SpellSegment(path[0]), Spell(path[1..], false));
  }

  /** One spelled segment, with its optional dot, contributes exactly one match. */
  lemma TokensOfPiece(sep: string, t: string, rest: string)
    requires sep == "" || (sep == "." && IsWordRun(t))
    requires IsWordRun(t) || IsBracketGroup(t)
    requires rest == [] || rest[0] in {'.', '['}
    ensures Tokens(sep + t + rest) == [t] + Tokens(rest)
  {
    if sep == "." {
      TokensOfDottedMatch(t, rest);
    } else {
      assert sep + t + rest == t + rest;
      TokensOfMatch(t, rest);
    }
  }

  lemma TokensOfDottedMatch(t: string, rest: string)
    requires IsWordRun(t)
    requires rest == [] || rest[0] in {'.', '['}
    ensures Tokens("." + t + rest) == [t] + Tokens(rest)
  {
    var u := t + rest;
    assert "." + t + rest == ['.'] + u;
    TokensSkipChar('.', u);
    TokensOfMatch(t, rest);
  }

  /** A match followed by a separator is one token. */
  lemma TokensOfMatch(t: string, rest: string)
    requires IsWordRun(t) || IsBracketGroup(t)
    requires rest == [] || rest[0] in {'.', '['}
    ensures Tokens(t + rest) == [t] + Tokens(rest)
  {
    if IsWordRun(t) {
      assert rest == [] || !IsWordChar(rest[0]);
      TokensOfWordRun(t, rest);
    } else {
      TokensOfBracketGroup(t, rest);
    }
  }

  /** Every spelled segment but the first begins with `.` or `[`. */
  lemma SpellStartsWithSeparator(path: seq<Segment>)
    ensures Spell(path, false) == [] || Spell(path, false)[0] in {'.', '['}
  {
  }

  /** A character that is neither a word character nor the start of a
      bracket group is skipped. */
  lemma TokensSkipChar(c: char, s: string)
    requires !IsWordChar(c) && BracketGroup([c] + s) == 0
    ensures Tokens([c] + s) == Tokens(s)
  {
    assert ([c] + s)[0] == c && ([c] + s)[1..] == s;
  }

  lemma TokensOfWordRun(t: string, rest: string)
    requires IsWordRun(t)
    requires rest == [] || !IsWordChar(rest[0])
    ensures Tokens(t + rest) == [t] + Tokens(rest)
  {
    var s := t + rest;
    WordRunIs(s, |t|);
    assert s[..|t|] == t && s[|t|..] == rest;
  }

  lemma TokensOfBracketGroup(t: string, rest: string)
    requires IsBracketGroup(t)
    ensures Tokens(t + rest) == [t] + Tokens(rest)
  {
    var s := t + rest;
    assert s[1..][..|t| - 2] == t[1..|t| - 1];
    assert s[1..][|t| - 2] == ']';
    DigitRunIs(s[1..], |t| - 2);
    assert s[..|t|] == t && s[|t|..] == rest;
  }
}

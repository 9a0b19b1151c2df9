/** The string helpers of plugins/pad/utils/words.js and lib/utils/words.js:
    `normalize`, `escape`, `regexEscape` and `splitTags`.  The two files hold
    the same code except for the character table `escape` applies, so the
    shared functions are defined once and the two tables are `PadTable` and
    `UtilTable`. */
module Words {

  /** The characters JavaScript's `\s` matches. */
  predicate IsSpace(c: char) {
    || c == '\t' || c == '\n' || c == '\U{B}' || c == '\U{C}' || c == '\r' || c == ' '
    || c == '\U{A0}' || c == '\U{1680}' || ('\U{2000}' <= c <= '\U{200A}')
    || c == '\U{2028}' || c == '\U{2029}' || c == '\U{202F}' || c == '\U{205F}'
    || c == '\U{3000}' || c == '\U{FEFF}'
  }

  /** `s` without its leading run of whitespace. */
  function DropSpaces(s: string): (r: string)
    ensures |r| <= |s| && r == s[|s| - |r|..]
    ensures r == [] || !IsSpace(r[0])
  {
    if s != [] && IsSpace(s[0]) then DropSpaces(s[1..]) else s
  }

  // ---------------------------------------------------------------- normalize

  /** `replace(/\s+/g, ' ')`: every maximal run of whitespace becomes one space. */
  function Collapse(s: string): string
    decreases |s|
  {
    if s == [] then []
    else if IsSpace(s[0]) then " " + Collapse(DropSpaces(s[1..]))
    else [s[0]] + Collapse(s[1..])
  }

  /** `replace(/(^\s|\s$)/g, '')`: one whitespace character goes at each end. */
  function Trim(s: string): string {
    var a := if |s| > 0 && IsSpace(s[0]) then s[1..] else s;
    if |a| > 0 && IsSpace(a[|a| - 1]) then a[..|a| - 1] else a
  }

  function Normalize(s: string): string {
    Trim(Collapse(s))
  }

  /** Every whitespace character is a plain space and no two of them are adjacent. */
  ghost predicate Clean(s: string) {
    && (forall i :: 0 <= i < |s| && IsSpace(s[i]) ==> s[i] == ' ')
    && (forall i :: 0 < i < |s| && IsSpace(s[i]) ==> !IsSpace(s[i - 1]))
  }

  /** Neither the first nor the last character is whitespace. */
  ghost predicate Trimmed(s: string) {
    s == [] || (!IsSpace(s[0]) && !IsSpace(s[|s| - 1]))
  }

  lemma {:induction false} CollapseClean(s: string)
    ensures Clean(Collapse(s))
    ensures s == [] <==> Collapse(s) == []
    ensures s != [] ==> (IsSpace(Collapse(s)[0]) <==> IsSpace(s[0]))
    decreases |s|
  {
    if s == [] {
    } else if IsSpace(s[0]) {
      var t := DropSpaces(s[1..]);
      CollapseClean(t);
      var c := Collapse(t);
      assert Collapse(s) == " " + c;
      assert c == [] || !IsSpace(c[0]);
    } else {
      CollapseClean(s[1..]);
      assert Collapse(s) == [s[0]] + Collapse(s[1..]);
    }
  }

  lemma {:induction false} CollapseOfClean(s: string)
    requires Clean(s)
    ensures Collapse(s) == s
    decreases |s|
  {
    if s != [] {
      var t := s[1..];
      CleanTail(s);
      CollapseOfClean(t);
      if IsSpace(s[0]) {
        CleanSpaceHead(s);
        assert DropSpaces(t) == t;
      }
      assert s == [s[0]] + t;
    }
  }

  /** In a clean string a leading whitespace is a space followed by no whitespace. */
  lemma CleanSpaceHead(s: string)
    requires Clean(s) && s != [] && IsSpace(s[0])
    ensures s[0] == ' ' && (|s| == 1 || !IsSpace(s[1]))
  {
  }

  /** A clean string stays clean without its first character. */
  lemma CleanTail(s: string)
    requires Clean(s) && s != []
    ensures Clean(s[1..])
  {
    var t := s[1..];
    forall i | 0 <= i < |t| && IsSpace(t[i])
      ensures t[i] == ' '
    {
      assert t[i] == s[i + 1];
    }
    forall i | 0 < i < |t| && IsSpace(t[i])
      ensures !IsSpace(t[i - 1])
    {
      assert t[i] == s[i + 1] && t[i - 1] == s[i];
    }
  }

  lemma TrimClean(s: string)
    requires Clean(s)
    ensures Clean(Trim(s)) && Trimmed(Trim(s))
    ensures Trimmed(s) ==> Trim(s) == s
  {
    var a := if |s| > 0 && IsSpace(s[0]) then s[1..] else s;
    assert Clean(a);
    var b := if |a| > 0 && IsSpace(a[|a| - 1]) then a[..|a| - 1] else a;
    assert Clean(b);
    if |s| > 0 && IsSpace(s[0]) && |s| > 1 {
      assert !IsSpace(a[0]);
    }
    if |a| > 1 && IsSpace(a[|a| - 1]) {
      assert !IsSpace(a[|a| - 2]);
    }
  }

  /** What `normalize` promises: no double whitespace, nothing at either end,
      and a second application changes nothing. */
  lemma NormalizeShape(s: string)
    ensures var r := Normalize(s);
      && (forall i :: 0 < i < |r| && IsSpace(r[i]) ==> !IsSpace(r[i - 1]))
      && (r != [] ==> !IsSpace(r[0]) && !IsSpace(r[|r| - 1]))
      && Normalize(r) == r
  {
    CollapseClean(s);
    TrimClean(Collapse(s));
    NormalizeOfCleanTrimmed(Normalize(s));
  }

  lemma NormalizeOfCleanTrimmed(s: string)
    requires Clean(s) && Trimmed(s)
    ensures Normalize(s) == s
  {
    CollapseOfClean(s);
    TrimClean(s);
  }

  // ------------------------------------------------------------------- escape

  /** `toLowerCase` on the letters it can change here: ASCII A-Z and the
      Latin-1 capitals U+00C0..U+00DE (except the sign U+00D7). */
  function Lower(c: char): char {
    if 'A' <= c <= 'Z' || ('\U{C0}' <= c <= '\U{DE}' && c != '\U{D7}')
    then (c as int + 32) as char
    else c
  }

  function LowerStr(s: string): (r: string)
    ensures |r| == |s| && forall i :: 0 <= i < |s| ==> r[i] == Lower(s[i])
  {
    seq(|s|, i requires 0 <= i < |s| => Lower(s[i]))
  }

  /** One entry of a character table: every character of `cls` becomes `val`. */
  datatype Rule = Rule(val: char, cls: set<char>)

  /** The table of plugins/pad/utils/words.js. */
  const PadTable: seq<Rule> := [
    Rule('a', {'á', 'à', 'ã', 'â', 'ä'}),
    Rule('e', {'é', 'è', 'ê', 'ë'}),
    Rule('i', {'í', 'ì', 'î', 'ï'}),
    Rule('o', {'ó', 'ò', 'õ', 'ô', 'ö'}),
    Rule('u', {'ú', 'ù', 'û', 'ü'}),
    Rule('n', {'ñ'}),
    Rule('A', {'Á', 'À', 'Ã', 'Â', 'Ä'}),
    Rule('E', {'É', 'È', 'Ê', 'Ë'}),
    Rule('I', {'Í', 'Ì', 'Î', 'Ï'}),
    Rule('O', {'Ó', 'Ò', 'Õ', 'Ô', 'Ö'}),
    Rule('U', {'Ú', 'Ù', 'Û'}),
    Rule('N', {'Ñ'})
  ]

  /** The table of lib/utils/words.js, whose classes are the accented letters'
      bytes mis-decoded into other glyphs; they are kept exactly as written. */
  const UtilTable: seq<Rule> := [
    Rule('a', {'谩', '脿', '茫', '芒', '盲'}),
    Rule('e', {'茅', '猫', '锚', '毛'}),
    Rule('i', {'铆', '矛', '卯', '茂'}),
    Rule('o', {'贸', '貌', '玫', '么', '枚'}),
    Rule('u', {'煤', '霉', '没', '眉'}),
    Rule('n', {'帽'}),
    Rule('A', {'脕', '脌', '脙', '脗', '脛'}),
    Rule('E', {'脡', '脠', '脢', '脣'}),
    Rule('I', {'脥', '脤', '脦', '脧'}),
    Rule('O', {'脫', '脪', '脮', '脭', '脰'}),
    Rule('U', {'脷', '脵', '脹'}),
    Rule('N', {'脩'})
  ]

  /** `low.replace(r.regex, r.val)` for one table entry. */
  function Replace(t: string, r: Rule): (u: string)
    ensures |u| == |t|
  {
    seq(|t|, i requires 0 <= i < |t| => if t[i] in r.cls then r.val else t[i])
  }

  /** The table entries applied one after the other, first entry first. */
  function ApplyRules(rules: seq<Rule>, t: string): (u: string)
    ensures |u| == |t|
    decreases |rules|
  {
    if rules == [] then t
    else Replace(ApplyRules(rules[..|rules| - 1], t), rules[|rules| - 1])
  }

  /** What `escape` computes with the given table. */
  function Escaped(table: seq<Rule>, s: string): string {
    ApplyRules(table, Normalize(LowerStr(s)))
  }

  /** `escape`: lower-case, normalize, then one replacement per table entry. */
  method Escape(table: seq<Rule>, s: string) returns (low: string)
    ensures low == Escaped(table, s)
  {
    low := Normalize(LowerStr(s));
    ghost var start := low;
    for i := 0 to |table|
      invariant low == ApplyRules(table[..i], start)
    {
      assert table[..i + 1][..i] == table[..i];
      low := Replace(low, table[i]);
    }
    assert table[..|table|] == table;
  }

  /** The table applied to one character. */
  function RulesOn(rules: seq<Rule>, c: char): char
    decreases |rules|
  {
    if rules == [] then c
    else
      var d := RulesOn(rules[..|rules| - 1], c);
      if d in rules[|rules| - 1].cls then rules[|rules| - 1].val else d
  }

  lemma {:induction false} ApplyRulesAt(rules: seq<Rule>, t: string, i: int)
    requires 0 <= i < |t|
    ensures ApplyRules(rules, t)[i] == RulesOn(rules, t[i])
    decreases |rules|
  {
    if rules != [] {
      ApplyRulesAt(rules[..|rules| - 1], t, i);
    }
  }

  /** No entry's replacement letter belongs to any entry's class. */
  ghost predicate ValsOutside(rules: seq<Rule>) {
    forall j, k :: 0 <= j < |rules| && 0 <= k < |rules| ==> rules[j].val !in rules[k].cls
  }

  lemma {:induction false} RulesOnLeavesNoClassChar(rules: seq<Rule>, c: char, k: int)
    requires ValsOutside(rules) && 0 <= k < |rules|
    ensures RulesOn(rules, c) !in rules[k].cls
    decreases |rules|
  {
    var last := |rules| - 1;
    var d := RulesOn(rules[..last], c);
    if d !in rules[last].cls && k < last {
      assert ValsOutside(rules[..last]);
      RulesOnLeavesNoClassChar(rules[..last], c, k);
      assert rules[..last][k] == rules[k];
    }
  }

  /** After `escape`, no character of any table class is left. */
  lemma EscapedHasNoClassChar(table: seq<Rule>, s: string, i: int, k: int)
    requires ValsOutside(table)
    requires 0 <= i < |Escaped(table, s)| && 0 <= k < |table|
    ensures Escaped(table, s)[i] !in table[k].cls
  {
    var n := Normalize(LowerStr(s));
    ApplyRulesAt(table, n, i);
    RulesOnLeavesNoClassChar(table, n[i], k);
  }

  /** Every replacement letter is ASCII and every class character is not. */
  ghost predicate AsciiVals(rules: seq<Rule>) {
    && (forall j :: 0 <= j < |rules| ==> rules[j].val <= '\U{7F}')
    && (forall k, c :: 0 <= k < |rules| && c in rules[k].cls ==> '\U{7F}' < c)
  }

  lemma AsciiValsOutside(rules: seq<Rule>)
    requires AsciiVals(rules)
    ensures ValsOutside(rules)
  {
  }

  lemma PadTableValsOutside()
    ensures ValsOutside(PadTable)
  {
    forall k, c | 0 <= k < |PadTable| && c in PadTable[k].cls ensures '\U{7F}' < c {
      match k
      case 0 => case 1 => case 2 => case 3 => case 4 => case 5 =>
      case 6 => case 7 => case 8 => case 9 => case 10 => case 11 =>
    }
    AsciiValsOutside(PadTable);
  }

  lemma UtilTableValsOutside()
    ensures ValsOutside(UtilTable)
  {
    forall k, c | 0 <= k < |UtilTable| && c in UtilTable[k].cls ensures '\U{7F}' < c {
      match k
      case 0 => case 1 => case 2 => case 3 => case 4 => case 5 =>
      case 6 => case 7 => case 8 => case 9 => case 10 => case 11 =>
    }
    AsciiValsOutside(UtilTable);
  }

  // -------------------------------------------------------------- regexEscape

  /** The characters of `/[-[\]{}()*+?.,\\^$|#\s]/`. */
  predicate IsSpecial(c: char) {
    c in "-[]{}()*+?.,\\^$|#" || IsSpace(c)
  }

  /** `regexEscape`: a backslash before every special character. */
  function RegexEscape(s: string): string
    decreases |s|
  {
    if s == [] then []
    else (if IsSpecial(s[0]) then ['\\', s[0]] else [s[0]]) + RegexEscape(s[1..])
  }

  function CountSpecials(s: string): nat
    decreases |s|
  {
    if s == [] then 0 else (if IsSpecial(s[0]) then 1 else 0) + CountSpecials(s[1..])
  }

  /** Reads an escaped pattern back: a backslash keeps only the character after it. */
  function Unescape(r: string): string
    decreases |r|
  {
    if r == [] then []
    else if r[0] == '\\' && |r| >= 2 then [r[1]] + Unescape(r[2..])
    else [r[0]] + Unescape(r[1..])
  }

  lemma {:induction false} RegexEscapeLength(s: string)
    ensures |RegexEscape(s)| == |s| + CountSpecials(s)
    decreases |s|
  {
    if s != [] {
      RegexEscapeLength(s[1..]);
    }
  }

  lemma {:induction false} RegexEscapeRoundTrip(s: string)
    ensures Unescape(RegexEscape(s)) == s
    decreases |s|
  {
    if s != [] {
      RegexEscapeRoundTrip(s[1..]);
      var rest := RegexEscape(s[1..]);
      if IsSpecial(s[0]) {
        assert RegexEscape(s) == ['\\', s[0]] + rest;
        assert (['\\', s[0]] + rest)[2..] == rest;
      } else {
        assert s[0] != '\\';
        assert RegexEscape(s) == [s[0]] + rest;
        assert ([s[0]] + rest)[1..] == rest;
      }
    }
  }

  // ---------------------------------------------------------------- splitTags

  /** `str.split(/,\s*\/ig)`: cut at every comma and drop the whitespace after it. */
  function SplitTags(s: string): (r: seq<string>)
    ensures |r| >= 1
    decreases |s|
  {
    if s == [] then [[]]
    else if s[0] == ',' then [[]] + SplitTags(DropSpaces(s[1..]))
    else
      var rest := SplitTags(s[1..]);
      [[s[0]] + rest[0]] + rest[1..]
  }

  function CountCommas(s: string): nat
    decreases |s|
  {
    if s == [] then 0 else (if s[0] == ',' then 1 else 0) + CountCommas(s[1..])
  }

  lemma {:induction false} DropSpacesKeepsCommas(s: string)
    ensures CountCommas(DropSpaces(s)) == CountCommas(s)
    decreases |s|
  {
    if s != [] && IsSpace(s[0]) {
      DropSpacesKeepsCommas(s[1..]);
    }
  }

  /** The pieces hold no comma, and there is one piece more than there are commas. */
  lemma {:induction false} SplitTagsPieces(s: string)
    ensures |SplitTags(s)| == CountCommas(s) + 1
    ensures forall k :: 0 <= k < |SplitTags(s)| ==> ',' !in SplitTags(s)[k]
    decreases |s|
  {
    if s == [] {
    } else if s[0] == ',' {
      SplitTagsPieces(DropSpaces(s[1..]));
      DropSpacesKeepsCommas(s[1..]);
    } else {
      SplitTagsPieces(s[1..]);
      var rest := SplitTags(s[1..]);
      forall k | 0 <= k < |SplitTags(s)| ensures ',' !in SplitTags(s)[k] {
        if k > 0 {
          assert SplitTags(s)[k] == rest[k];
        }
      }
    }
  }

  /** The pieces put back together with commas between them. */
  function JoinTags(pieces: seq<string>): string
    decreases |pieces|
  {
    if pieces == [] then []
    else if |pieces| == 1 then pieces[0]
    else pieces[0] + "," + JoinTags(pieces[1..])
  }

  /** No whitespace follows a comma. */
  ghost predicate NoSpaceAfterComma(s: string) {
    forall i :: 0 <= i < |s| - 1 && s[i] == ',' ==> !IsSpace(s[i + 1])
  }

  /** The property holds of the tail, and a leading comma has no whitespace after it. */
  lemma NoSpaceAfterCommaTail(s: string)
    requires NoSpaceAfterComma(s) && s != []
    ensures NoSpaceAfterComma(s[1..])
    ensures s[0] == ',' && |s| > 1 ==> !IsSpace(s[1])
  {
    var t := s[1..];
    forall i | 0 <= i < |t| - 1 && t[i] == ','
      ensures !IsSpace(t[i + 1])
    {
      assert t[i] == s[i + 1] && t[i + 1] == s[i + 2];
    }
  }

  /** Where no whitespace follows a comma, splitting loses nothing. */
  lemma {:induction false} SplitTagsJoin(s: string)
    requires NoSpaceAfterComma(s)
    ensures JoinTags(SplitTags(s)) == s
    decreases |s|
  {
    if s != [] {
      NoSpaceAfterCommaTail(s);
      SplitTagsJoin(s[1..]);
      var rest := SplitTags(s[1..]);
      if s[0] == ',' {
        assert DropSpaces(s[1..]) == s[1..] by {
          if s[1..] != [] { assert s[1..][0] == s[1]; }
        }
        assert SplitTags(s) == [[]] + rest;
        JoinAfterComma(rest);
      } else {
        assert SplitTags(s) == [[s[0]] + rest[0]] + rest[1..];
        JoinAfterChar(s[0], rest);
      }
      assert s == [s[0]] + s[1..];
    }
  }

  lemma JoinAfterComma(rest: seq<string>)
    requires |rest| >= 1
    ensures JoinTags([[]] + rest) == "," + JoinTags(rest)
  {
    assert ([[]] + rest)[1..] == rest;
  }

  lemma JoinAfterChar(c: char, rest: seq<string>)
    requires |rest| >= 1
    ensures JoinTags([[c] + rest[0]] + rest[1..]) == [c] + JoinTags(rest)
  {
    var r := [[c] + rest[0]] + rest[1..];
    if |rest| > 1 {
      assert r[1..] == rest[1..];
    }
  }

  // ------------------------------------------------------------ substring test

  /** `text.indexOf(part) !== -1`. */
  predicate Contains(text: string, part: string)
    decreases |text|
  {
    part <= text || (text != [] && Contains(text[1..], part))
  }
}

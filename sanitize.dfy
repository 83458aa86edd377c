/** The text sanitizers of the bot: `escape_markdown`, `safe_markdown_text`,
    `clean_name_for_mention`, `clean_text_for_telegram` and `validate_markdown_text`.

    `safe_markdown_text`, `clean_name_for_mention` and `clean_text_for_telegram` are written
    the way the bot computes them: a comprehension that drops control characters, then a loop
    that calls `str.replace` once per character of a fixed list. `escape_markdown` is that
    replace loop alone. The lemmas prove these four equal to one-pass reference definitions
    (`Keep`, `Escaped`) and derive the promised properties from them. `Collapse`, the bot's
    own `' '.join(s.split())`, is characterised by `CollapseIsCollapsed` and
    `CollapseKeepsText`.
    `validate_markdown_text` is a predicate of `in` tests; the lemmas relate it to the
    outputs of the other four. */
module Sanitize {
  import opened Strings

  /** The display name used when a user has none left. */
  const DefaultName: string := "Usuario"

  /** The characters `escape_markdown` and `safe_markdown_text` prefix with a backslash, in
      the order of their replace loop. */
  const EscapeChars: seq<char> := "_*[]()~`>#+-=|{}.!"

  /** The characters `clean_name_for_mention` deletes. */
  const MentionChars: seq<char> := "[]()\\*_`~>#+-=|{}!"

  /** The characters `clean_text_for_telegram` deletes. */
  const MarkdownChars: seq<char> := "*_`[]()~>#+-=|{}!"

  /** `validate_markdown_text` rejects a text holding two of these in a row ("**", "__", ...). */
  const DoubledChars: seq<char> := "*_`~>#+-=|{}"

  /** `validate_markdown_text` rejects a text holding one of these when it never holds the
      same character preceded by a backslash. */
  const ValidateChars: seq<char> := "*_`~>#+-=|{}!"

  function SetOf(cs: seq<char>): set<char>
  {
    set c | c in cs
  }

  predicate Distinct(cs: seq<char>)
  {
    forall i, j :: 0 <= i < j < |cs| ==> cs[i] != cs[j]
  }

  /** The filter `ord(char) >= 32 or char in '\n\r\t'` shared by every sanitizer. */
  predicate Printable(c: char)
  {
    c as int >= 32 || c == '\n' || c == '\r' || c == '\t'
  }

  // ---------------------------------------------------------------------------------------
  // The source's building blocks

  /** `s.replace(c, r)` for a single character c. */
  function ReplaceChar(s: string, c: char, r: string): string
  {
    if s == [] then [] else (if s[0] == c then r else [s[0]]) + ReplaceChar(s[1..], c, r)
  }

  /** `for char in cs: s = s.replace(char, '\\' + char)` */
  function EscapeLoop(s: string, cs: seq<char>): string
    decreases cs, s
  {
    if cs == [] then s else EscapeLoop(ReplaceChar(s, cs[0], ['\\', cs[0]]), cs[1..])
  }

  /** `for char in cs: s = s.replace(char, '')` */
  function DeleteLoop(s: string, cs: seq<char>): string
    decreases cs, s
  {
    if cs == [] then s else DeleteLoop(ReplaceChar(s, cs[0], []), cs[1..])
  }

  /** `if len(s) > limit: s = s[:limit - 3] + "..."` */
  function Truncate(s: string, limit: nat): string
    requires limit >= 3
  {
    if |s| > limit then s[..limit - 3] + "..." else s
  }

  /** Drops leading whitespace. */
  function SkipSpace(s: string): (r: string)
    ensures |r| <= |s| && r == s[|s| - |r|..]
    ensures r != [] ==> !IsSpace(r[0])
    ensures forall i :: 0 <= i < |s| - |r| ==> IsSpace(s[i])
  {
    if s == [] || !IsSpace(s[0]) then s else SkipSpace(s[1..])
  }

  /** Length of the leading run of non-whitespace. */
  function WordLen(s: string): (n: nat)
    ensures n <= |s|
    ensures forall i :: 0 <= i < n ==> !IsSpace(s[i])
    ensures n < |s| ==> IsSpace(s[n])
  {
    if s == [] || IsSpace(s[0]) then 0 else 1 + WordLen(s[1..])
  }

  /** `s.split()`: the maximal runs of non-whitespace, in order. */
  function Split(s: string): (ws: seq<string>)
    decreases |s|
  {
    var t := SkipSpace(s);
    if t == [] then []
    else
      var n := WordLen(t);
      [t[..n]] + Split(t[n..])
  }

  /** What `s.split()` produces: non-empty words without whitespace. */
  predicate Words(ws: seq<string>)
  {
    forall i :: 0 <= i < |ws| ==> ws[i] != [] && NoSpace(ws[i])
  }

  /** `' '.join(s.split())` */
  function Collapse(s: string): string
  {
    JoinSpace(Split(s))
  }

  /** `not s.strip()` */
  predicate Blank(s: string)
  {
    forall i :: 0 <= i < |s| ==> IsSpace(s[i])
  }

  // ---------------------------------------------------------------------------------------
  // The sanitizers

  /** `escape_markdown` (an empty text is returned as it is). */
  function EscapeMarkdown(text: string): string
  {
    if text == "" then text else EscapeLoop(text, EscapeChars)
  }

  /** `safe_markdown_text` */
  function SafeMarkdownText(text: string): string
  {
    if text == "" then DefaultName
    else Truncate(EscapeLoop(Keep(text, {}), EscapeChars), 50)
  }

  /** `clean_name_for_mention` */
  function CleanNameForMention(name: string): string
  {
    if name == "" then DefaultName
    else
      var collapsed := Collapse(DeleteLoop(Keep(name, {}), MentionChars));
      var named := if Blank(collapsed) then DefaultName else collapsed;
      Truncate(named, 20)
  }

  /** `clean_text_for_telegram` */
  function CleanTextForTelegram(text: string): string
  {
    if text == "" then "" else DeleteLoop(Keep(text, {}), MarkdownChars)
  }

  /** `pattern in text` for a two-character pattern ab. */
  predicate HasPair(t: string, a: char, b: char)
  {
    exists i :: 0 <= i < |t| - 1 && t[i] == a && t[i + 1] == b
  }

  /** `validate_markdown_text` */
  predicate ValidateMarkdownText(text: string)
  {
    && text != ""
    && (forall c :: c in DoubledChars ==> !HasPair(text, c, c))
    && (forall c :: c in ValidateChars && c in text ==> HasPair(text, '\\', c))
  }

  // ---------------------------------------------------------------------------------------
  // Reference definitions

  /** The printable characters of s that are not in d, in order. */
  function Keep(s: string, d: set<char>): string
  {
    if s == [] then []
    else (if Printable(s[0]) && s[0] !in d then [s[0]] else []) + Keep(s[1..], d)
  }

  /** s with every character of e preceded by a backslash. */
  function Escaped(s: string, e: set<char>): string
  {
    if s == [] then [] else (if s[0] in e then ['\\', s[0]] else [s[0]]) + Escaped(s[1..], e)
  }

  /** Removes the backslash in front of each character of e. */
  function Unescape(s: string, e: set<char>): string
  {
    if s == [] then []
    else if |s| >= 2 && s[0] == '\\' && s[1] in e then [s[1]] + Unescape(s[2..], e)
    else [s[0]] + Unescape(s[1..], e)
  }

  /** The number of characters of s that are in e. */
  function CountIn(s: string, e: set<char>): nat
  {
    if s == [] then 0 else (if s[0] in e then 1 else 0) + CountIn(s[1..], e)
  }

  /** The non-whitespace characters of s, in order. */
  function NonSpace(s: string): string
  {
    if s == [] then [] else (if IsSpace(s[0]) then [] else [s[0]]) + NonSpace(s[1..])
  }

  /** No leading or trailing whitespace, every whitespace character is a plain space, and no
      two of them are adjacent. */
  ghost predicate IsCollapsed(s: string)
  {
    && (s != [] ==> !IsSpace(s[0]) && !IsSpace(s[|s| - 1]))
    && (forall i :: 0 <= i < |s| && IsSpace(s[i]) ==> s[i] == ' ')
    && (forall i, j :: 0 <= i < j < |s| && j == i + 1 && IsSpace(s[i]) ==> !IsSpace(s[j]))
  }

  // ---------------------------------------------------------------------------------------
  // The replace loops compute the one-pass definitions

  lemma {:induction false} ReplaceConcat(a: string, b: string, c: char, r: string)
    ensures ReplaceChar(a + b, c, r) == ReplaceChar(a, c, r) + ReplaceChar(b, c, r)
  {
    if a == [] {
      assert a + b == b;
    } else {
      assert (a + b)[0] == a[0];
      assert (a + b)[1..] == a[1..] + b;
      ReplaceConcat(a[1..], b, c, r);
    }
  }

  /** Deleting c from an already filtered text filters c out as well. */
  lemma {:induction false} ReplaceDeletes(s: string, d: set<char>, c: char)
    ensures ReplaceChar(Keep(s, d), c, []) == Keep(s, d + {c})
  {
    if s != [] {
      var piece := if Printable(s[0]) && s[0] !in d then [s[0]] else [];
      ReplaceConcat(piece, Keep(s[1..], d), c, []);
      ReplaceDeletes(s[1..], d, c);
    }
  }

  lemma {:induction false} DeleteLoopKeeps(s: string, d: set<char>, cs: seq<char>)
    ensures DeleteLoop(Keep(s, d), cs) == Keep(s, d + SetOf(cs))
    decreases cs
  {
    if cs == [] {
      assert d + SetOf(cs) == d;
    } else {
      ReplaceDeletes(s, d, cs[0]);
      DeleteLoopKeeps(s, d + {cs[0]}, cs[1..]);
      assert d + {cs[0]} + SetOf(cs[1..]) == d + SetOf(cs);
    }
  }

  /** Escaping c in a text whose other special characters are already escaped never touches
      the escapes made so far, because the backslash is not c. */
  lemma {:induction false} ReplaceEscapes(s: string, e: set<char>, c: char)
    requires c !in e && c != '\\'
    ensures ReplaceChar(Escaped(s, e), c, ['\\', c]) == Escaped(s, e + {c})
  {
    if s != [] {
      var piece := if s[0] in e then ['\\', s[0]] else [s[0]];
      ReplaceConcat(piece, Escaped(s[1..], e), c, ['\\', c]);
      ReplaceEscapes(s[1..], e, c);
      if s[0] in e {
        ReplaceConcat(['\\'], [s[0]], c, ['\\', c]);
        assert piece == ['\\'] + [s[0]];
      }
    }
  }

  lemma {:induction false} EscapeLoopEscapes(s: string, e: set<char>, cs: seq<char>)
    requires Distinct(cs)
    requires forall i :: 0 <= i < |cs| ==> cs[i] != '\\' && cs[i] !in e
    ensures EscapeLoop(Escaped(s, e), cs) == Escaped(s, e + SetOf(cs))
    decreases cs
  {
    if cs == [] {
      assert e + SetOf(cs) == e;
    } else {
      ReplaceEscapes(s, e, cs[0]);
      EscapeLoopEscapes(s, e + {cs[0]}, cs[1..]);
      assert e + {cs[0]} + SetOf(cs[1..]) == e + SetOf(cs);
    }
  }

  lemma {:induction false} EscapedNothing(s: string)
    ensures Escaped(s, {}) == s
  {
    if s != [] {
      EscapedNothing(s[1..]);
    }
  }

  lemma {:induction false} KeepNothing(s: string, d: set<char>)
    requires forall i :: 0 <= i < |s| ==> Printable(s[i]) && s[i] !in d
    ensures Keep(s, d) == s
  {
    if s != [] {
      KeepNothing(s[1..], d);
    }
  }

  lemma {:induction false} KeepKeep(s: string, d1: set<char>, d2: set<char>)
    ensures Keep(Keep(s, d1), d2) == Keep(s, d1 + d2)
  {
    if s != [] {
      var piece := if Printable(s[0]) && s[0] !in d1 then [s[0]] else [];
      KeepConcat(piece, Keep(s[1..], d1), d2);
      KeepKeep(s[1..], d1, d2);
    }
  }

  lemma {:induction false} KeepConcat(a: string, b: string, d: set<char>)
    ensures Keep(a + b, d) == Keep(a, d) + Keep(b, d)
  {
    if a == [] {
      assert a + b == b;
    } else {
      assert (a + b)[0] == a[0];
      assert (a + b)[1..] == a[1..] + b;
      KeepConcat(a[1..], b, d);
    }
  }

  /** What Keep keeps: printable characters outside d, taken from s in order. */
  lemma {:induction false} KeptChars(s: string, d: set<char>)
    ensures forall i :: 0 <= i < |Keep(s, d)| ==> Printable(Keep(s, d)[i]) && Keep(s, d)[i] !in d
  {
    if s != [] {
      KeptChars(s[1..], d);
      var k := Keep(s, d);
      if Printable(s[0]) && s[0] !in d {
        assert k == [s[0]] + Keep(s[1..], d);
      }
    }
  }

  lemma {:induction false} KeepFilters(s: string, d: set<char>)
    ensures IsSubseq(Keep(s, d), s)
    ensures forall i :: 0 <= i < |Keep(s, d)| ==> Printable(Keep(s, d)[i]) && Keep(s, d)[i] !in d
    ensures forall c :: c in s && Printable(c) && c !in d ==> c in Keep(s, d)
  {
    if s != [] {
      KeepFilters(s[1..], d);
      var k := Keep(s, d);
      if Printable(s[0]) && s[0] !in d {
        assert k == [s[0]] + Keep(s[1..], d);
        assert k[1..] == Keep(s[1..], d);
      } else {
        assert k == Keep(s[1..], d);
      }
      forall c | c in s && Printable(c) && c !in d ensures c in k {
        if c != s[0] {
          assert c in s[1..];
        }
      }
    }
  }

  lemma {:induction false} EscapedLength(s: string, e: set<char>)
    ensures |Escaped(s, e)| == |s| + CountIn(s, e)
  {
    if s != [] {
      EscapedLength(s[1..], e);
    }
  }

  /** In an escaped text every character of e sits right after a backslash. */
  lemma {:induction false} EscapedPreceded(s: string, e: set<char>)
    requires '\\' !in e
    ensures forall i :: 0 <= i < |Escaped(s, e)| && Escaped(s, e)[i] in e ==> 0 < i && Escaped(s, e)[i - 1] == '\\'
  {
    if s != [] {
      EscapedPreceded(s[1..], e);
      var piece := if s[0] in e then ['\\', s[0]] else [s[0]];
      var rest := Escaped(s[1..], e);
      var r := Escaped(s, e);
      assert r == piece + rest;
      forall i | 0 <= i < |r| && r[i] in e ensures 0 < i && r[i - 1] == '\\' {
        if i >= |piece| {
          assert r[i] == rest[i - |piece|];
        }
      }
    }
  }

  /** Unescape undoes Escaped: a backslash the text already held is never mistaken for an
      escape, because what follows it in the escaped text is a backslash or a character
      outside e. */
  lemma {:induction false} UnescapeEscaped(s: string, e: set<char>)
    requires '\\' !in e
    ensures Unescape(Escaped(s, e), e) == s
  {
    if s != [] {
      UnescapeEscaped(s[1..], e);
      var rest := Escaped(s[1..], e);
      var r := Escaped(s, e);
      if s[0] in e {
        assert r == ['\\', s[0]] + rest;
        assert r[2..] == rest;
      } else {
        assert r == [s[0]] + rest;
        assert r[1..] == rest;
        if |r| >= 2 {
          assert r[1] == rest[0];
          assert rest == (if s[1..][0] in e then ['\\', s[1..][0]] else [s[1..][0]]) + Escaped(s[1..][1..], e);
        }
      }
    }
  }

  lemma EscapeCharsDistinct()
    ensures Distinct(EscapeChars)
    ensures forall i :: 0 <= i < |EscapeChars| ==> EscapeChars[i] != '\\' && EscapeChars[i] !in {}
  {
  }

  /** `escape_markdown` is the one-pass escape of its 18 special characters. */
  lemma EscapeLoopIsEscaped(text: string)
    ensures EscapeLoop(text, EscapeChars) == Escaped(text, SetOf(EscapeChars))
  {
    var e := SetOf(EscapeChars);
    EscapedNothing(text);
    EscapeCharsDistinct();
    EscapeLoopEscapes(text, {}, EscapeChars);
    assert {} + e == e;
  }

  lemma EscapeMarkdownIsEscaped(text: string)
    ensures EscapeMarkdown(text) == Escaped(text, SetOf(EscapeChars))
  {
    EscapeLoopIsEscaped(text);
    if text != "" {
      assert EscapeMarkdown(text) == EscapeLoop(text, EscapeChars);
    }
  }

  /** What `escape_markdown` promises: the empty text comes back unchanged; otherwise each
      special character gains exactly one backslash in front of it, so the length grows by
      the number of special characters, every special character of the result is preceded by
      a backslash, and removing those backslashes gives the input back. */
  lemma EscapeMarkdownSpec(text: string)
    ensures text == "" ==> EscapeMarkdown(text) == ""
    ensures |EscapeMarkdown(text)| == |text| + CountIn(text, SetOf(EscapeChars))
    ensures forall i :: 0 <= i < |EscapeMarkdown(text)| && EscapeMarkdown(text)[i] in EscapeChars ==>
              0 < i && EscapeMarkdown(text)[i - 1] == '\\'
    ensures Unescape(EscapeMarkdown(text), SetOf(EscapeChars)) == text
  {
    var e := SetOf(EscapeChars);
    var r := EscapeMarkdown(text);
    EscapeMarkdownIsEscaped(text);
    assert r == Escaped(text, e);
    EscapedLength(text, e);
    EscapedPreceded(text, e);
    UnescapeEscaped(text, e);
  }

  /** `clean_text_for_telegram` keeps exactly the printable characters that are not among its
      17 markdown characters. */
  lemma CleanTextIsKeep(text: string)
    ensures CleanTextForTelegram(text) == Keep(text, SetOf(MarkdownChars))
  {
    if text != "" {
      DeleteLoopKeeps(text, {}, MarkdownChars);
      assert {} + SetOf(MarkdownChars) == SetOf(MarkdownChars);
    }
  }

  /** What `clean_text_for_telegram` promises: the empty text gives the empty text; the result
      is a subsequence of the input, so no longer than it; it holds no markdown character and
      no control character other than newline, carriage return and tab; and every printable
      non-markdown character of the input survives. */
  lemma CleanTextSpec(text: string)
    ensures text == "" ==> CleanTextForTelegram(text) == ""
    ensures IsSubseq(CleanTextForTelegram(text), text)
    ensures |CleanTextForTelegram(text)| <= |text|
    ensures forall i :: 0 <= i < |CleanTextForTelegram(text)| ==>
              CleanTextForTelegram(text)[i] !in MarkdownChars && Printable(CleanTextForTelegram(text)[i])
    ensures forall c :: c in text && Printable(c) && c !in MarkdownChars ==> c in CleanTextForTelegram(text)
  {
    var r := CleanTextForTelegram(text);
    var m := SetOf(MarkdownChars);
    CleanTextIsKeep(text);
    assert r == Keep(text, m);
    KeepFilters(text, m);
    SubseqLength(r, text);
  }

  /** Cleaning twice is cleaning once. */
  lemma CleanTextIdempotent(text: string)
    ensures CleanTextForTelegram(CleanTextForTelegram(text)) == CleanTextForTelegram(text)
  {
    CleanTextIsKeep(text);
    CleanTextIsKeep(CleanTextForTelegram(text));
    KeepKeep(text, SetOf(MarkdownChars), SetOf(MarkdownChars));
    assert SetOf(MarkdownChars) + SetOf(MarkdownChars) == SetOf(MarkdownChars);
  }

  // ---------------------------------------------------------------------------------------
  // safe_markdown_text

  /** `safe_markdown_text` is `escape_markdown` of the printable characters, cut to 50. Only an
      empty input gives "Usuario": one made only of control characters gives "". */
  lemma SafeMarkdownSpec(text: string)
    ensures text == "" ==> SafeMarkdownText(text) == DefaultName
    ensures text != "" ==>
              var esc := EscapeMarkdown(Keep(text, {}));
              SafeMarkdownText(text) == (if |esc| <= 50 then esc else esc[..47] + "...")
    ensures |SafeMarkdownText(text)| <= 50
    ensures SafeMarkdownText(text) == "" <==> text != "" && Keep(text, {}) == ""
  {
    if text != "" {
      var k := Keep(text, {});
      EscapeLoopIsEscaped(k);
      EscapeMarkdownIsEscaped(k);
      EscapeMarkdownSpec(k);
      assert SafeMarkdownText(text) == Truncate(EscapeMarkdown(k), 50);
    }
  }

  /** When nothing is cut off, unescaping `safe_markdown_text` gives back the printable
      characters of the input. */
  lemma SafeMarkdownRoundTrip(text: string)
    requires text != "" && |EscapeMarkdown(Keep(text, {}))| <= 50
    ensures Unescape(SafeMarkdownText(text), SetOf(EscapeChars)) == Keep(text, {})
  {
    SafeMarkdownSpec(text);
    EscapeMarkdownSpec(Keep(text, {}));
  }

  // ---------------------------------------------------------------------------------------
  // validate_markdown_text

  /** The doubled-pattern and lone-character lists of `validate_markdown_text` are contained in
      each of the deletion and escape lists, and hold no backslash. */
  lemma ValidateListsNest()
    ensures forall c :: c in DoubledChars ==> c in ValidateChars
    ensures forall c :: c in ValidateChars ==>
              c in MarkdownChars && c in MentionChars && c in EscapeChars && c != '\\'
  {
  }

  /** Text cleaned by `clean_text_for_telegram` passes `validate_markdown_text` exactly when it
      is not empty. */
  lemma ValidateCleanText(text: string)
    ensures ValidateMarkdownText(CleanTextForTelegram(text)) <==> CleanTextForTelegram(text) != ""
  {
    var r := CleanTextForTelegram(text);
    CleanTextSpec(text);
    ValidateListsNest();
    forall c, i | c in DoubledChars && 0 <= i < |r| - 1 ensures r[i] != c {
    }
  }

  /** Text escaped by `escape_markdown` passes `validate_markdown_text` exactly when it is not
      empty: every special character is preceded by a backslash, so none is doubled. */
  lemma ValidateEscaped(text: string)
    ensures ValidateMarkdownText(EscapeMarkdown(text)) <==> text != ""
  {
    var r := EscapeMarkdown(text);
    EscapeMarkdownSpec(text);
    ValidateListsNest();
    forall c, i | c in DoubledChars && 0 <= i < |r| - 1 ensures !(r[i] == c && r[i + 1] == c) {
      if r[i + 1] == c {
        assert r[i] == '\\';
      }
    }
    forall c | c in ValidateChars && c in r ensures HasPair(r, '\\', c) {
      var i :| 0 <= i < |r| && r[i] == c;
      assert r[i - 1] == '\\';
      assert 0 <= i - 1 < |r| - 1 && r[i - 1] == '\\' && r[i] == c;
    }
  }

  // ---------------------------------------------------------------------------------------
  // Whitespace collapsing

  lemma {:induction false} SplitWords(s: string)
    ensures Words(Split(s))
    decreases |s|
  {
    var t := SkipSpace(s);
    if t != [] {
      var n := WordLen(t);
      SplitWords(t[n..]);
      var ws := Split(s);
      assert ws == [t[..n]] + Split(t[n..]);
      forall i | 0 <= i < |ws| ensures ws[i] != [] && NoSpace(ws[i]) {
        if i > 0 {
          assert ws[i] == Split(t[n..])[i - 1];
        }
      }
    }
  }

  lemma {:induction false} JoinCollapsed(ws: seq<string>)
    requires Words(ws)
    ensures IsCollapsed(JoinSpace(ws))
    ensures ws != [] ==> JoinSpace(ws) != [] && JoinSpace(ws)[0] == ws[0][0]
  {
    if |ws| == 1 {
      assert JoinSpace(ws) == ws[0];
    } else if |ws| >= 2 {
      var w := ws[0];
      var j := JoinSpace(ws[1..]);
      JoinCollapsed(ws[1..]);
      var r := w + " " + j;
      assert r == JoinSpace(ws);
      assert forall i :: 0 <= i < |w| ==> r[i] == w[i];
      assert r[|w|] == ' ' && r[|w| + 1] == j[0];
      assert forall i :: |w| < i < |r| ==> r[i] == j[i - |w| - 1];
      assert r[|r| - 1] == j[|j| - 1];
    }
  }

  /** `' '.join(s.split())` leaves no leading, trailing or repeated whitespace, and only plain
      spaces. */
  lemma CollapseIsCollapsed(s: string)
    ensures IsCollapsed(Collapse(s))
  {
    SplitWords(s);
    JoinCollapsed(Split(s));
  }

  lemma JoinCons(w: string, ws: seq<string>)
    requires ws != []
    ensures JoinSpace([w] + ws) == w + " " + JoinSpace(ws)
  {
    assert ([w] + ws)[1..] == ws;
  }

  lemma SplitWord(s: string)
    requires s != [] && !IsSpace(s[0])
    ensures Split(s) == [s[..WordLen(s)]] + Split(s[WordLen(s)..])
  {
  }

  lemma SplitNonEmpty(s: string)
    requires s != [] && !IsSpace(s[0])
    ensures Split(s) != []
  {
    SplitWord(s);
  }

  lemma SplitAfterSpace(s: string)
    requires s != [] && IsSpace(s[0])
    requires |s| >= 2 && !IsSpace(s[1])
    ensures Split(s) == Split(s[1..])
  {
    assert SkipSpace(s) == SkipSpace(s[1..]) == s[1..];
  }

  lemma CollapsedTail(s: string, n: nat)
    requires IsCollapsed(s) && n < |s| && IsSpace(s[n])
    ensures s[n] == ' ' && n + 1 < |s| && !IsSpace(s[n + 1]) && IsCollapsed(s[n + 1..])
    ensures s == s[..n] + " " + s[n + 1..]
  {
    var u := s[n + 1..];
    assert forall i :: 0 <= i < |u| ==> u[i] == s[n + 1 + i];
  }

  /** A text that is already collapsed is left as it is. */
  lemma {:induction false} CollapsedFixpoint(s: string)
    requires IsCollapsed(s)
    ensures Collapse(s) == s
    decreases |s|
  {
    if s != [] {
      var n := WordLen(s);
      var w := s[..n];
      var rest := s[n..];
      SplitWord(s);
      assert Split(s) == [w] + Split(rest);
      if n == |s| {
        assert rest == [];
        assert Split(rest) == [];
        assert w == s;
        assert Split(s) == [s];
      } else {
        var u := s[n + 1..];
        CollapsedTail(s, n);
        assert rest[1..] == u;
        SplitAfterSpace(rest);
        assert Split(s) == [w] + Split(u);
        CollapsedFixpoint(u);
        assert JoinSpace(Split(u)) == u;
        SplitNonEmpty(u);
        JoinCons(w, Split(u));
        assert Collapse(s) == w + " " + u;
      }
    }
  }

  lemma {:induction false} NonSpaceConcat(a: string, b: string)
    ensures NonSpace(a + b) == NonSpace(a) + NonSpace(b)
  {
    if a == [] {
      assert a + b == b;
    } else {
      assert (a + b)[0] == a[0];
      assert (a + b)[1..] == a[1..] + b;
      NonSpaceConcat(a[1..], b);
    }
  }

  lemma {:induction false} NonSpaceOfWord(w: string)
    requires NoSpace(w)
    ensures NonSpace(w) == w
  {
    if w != [] {
      NonSpaceOfWord(w[1..]);
    }
  }

  lemma {:induction false} NonSpaceOfBlank(p: string)
    requires Blank(p)
    ensures NonSpace(p) == []
  {
    if p != [] {
      NonSpaceOfBlank(p[1..]);
    }
  }

  lemma {:induction false} InNonSpace(x: char, s: string)
    ensures x in NonSpace(s) <==> x in s && !IsSpace(x)
  {
    if s != [] {
      InNonSpace(x, s[1..]);
      assert s == [s[0]] + s[1..];
    }
  }

  /** The words of a list, glued together. */
  function Flatten(ws: seq<string>): string
  {
    if ws == [] then [] else ws[0] + Flatten(ws[1..])
  }

  lemma {:induction false} NonSpaceJoin(ws: seq<string>)
    requires Words(ws)
    ensures NonSpace(JoinSpace(ws)) == Flatten(ws)
  {
    if |ws| == 1 {
      NonSpaceOfWord(ws[0]);
      assert Flatten(ws) == ws[0] + Flatten([]);
    } else if |ws| >= 2 {
      NonSpaceJoin(ws[1..]);
      NonSpaceOfWord(ws[0]);
      NonSpaceConcat(ws[0] + " ", JoinSpace(ws[1..]));
      NonSpaceConcat(ws[0], " ");
    }
  }

  lemma SkipSpaceNonSpace(s: string)
    ensures NonSpace(SkipSpace(s)) == NonSpace(s)
  {
    var t := SkipSpace(s);
    var p := s[..|s| - |t|];
    assert s == p + t;
    NonSpaceOfBlank(p);
    NonSpaceConcat(p, t);
  }

  lemma WordNonSpace(t: string)
    ensures NonSpace(t) == t[..WordLen(t)] + NonSpace(t[WordLen(t)..])
  {
      var n := WordLen(t);
      var w := t[..n];
      var rest := t[n..];
      assert t == w + rest;
      NonSpaceConcat(w, rest);
      NonSpaceOfWord(w);
  }

  lemma SplitStep(s: string)
    ensures SkipSpace(s) == [] ==> Split(s) == []
    ensures SkipSpace(s) != [] ==> 
      var t := SkipSpace(s); var n := WordLen(t);
      0 < n && Flatten(Split(s)) == t[..n] + Flatten(Split(t[n..]))
  {
    var t := SkipSpace(s);
    if t != [] {
      var n := WordLen(t);
      var w := t[..n];
      var rest := t[n..];
      assert Split(s) == [w] + Split(rest);
      assert ([w] + Split(rest))[1..] == Split(rest);
    }
  }

  lemma {:induction false} SplitFlatten(s: string)
    ensures Flatten(Split(s)) == NonSpace(s)
    decreases |s|
  {
    var t := SkipSpace(s);
    SkipSpaceNonSpace(s);
    SplitStep(s);
    if t != [] {
      var n := WordLen(t);
      SplitFlatten(t[n..]);
      WordNonSpace(t);
    }
  }

  /** Collapsing whitespace removes and inserts only whitespace: the non-whitespace characters
      are those of the input, in order. */
  lemma CollapseKeepsText(s: string)
    ensures NonSpace(Collapse(s)) == NonSpace(s)
  {
    SplitWords(s);
    NonSpaceJoin(Split(s));
    SplitFlatten(s);
  }

  lemma CollapsedPrefixDots(c: string, k: nat)
    requires IsCollapsed(c) && 1 <= k <= |c|
    ensures IsCollapsed(c[..k] + "...")
  {
    var r := c[..k] + "...";
    assert forall i :: 0 <= i < k ==> r[i] == c[i];
    assert forall i :: k <= i < |r| ==> r[i] == '.';
  }

  // ---------------------------------------------------------------------------------------
  // clean_name_for_mention

  predicate Alnum(c: char)
  {
    ('a' <= c <= 'z') || ('A' <= c <= 'Z') || ('0' <= c <= '9')
  }

  /** None of the markup lists holds a letter, a digit or a plain space. */
  lemma MentionCharsPlain()
    ensures forall i :: 0 <= i < |MentionChars| ==> MentionChars[i] != ' ' && MentionChars[i] != '.' && !Alnum(MentionChars[i])
  {
  }

  lemma AlnumPlain(c: char)
    requires Alnum(c)
    ensures Printable(c) && !IsSpace(c) && c !in MentionChars
  {
    MentionCharsPlain();
  }

  /** A character that a cleaned display name may hold: no control character and none of the
      markup that `clean_name_for_mention` deletes. */
  predicate NameChar(c: char)
  {
    c as int >= 32 && c !in MentionChars
  }

  lemma DefaultNameSafe()
    ensures IsCollapsed(DefaultName)
    ensures forall i :: 0 <= i < |DefaultName| ==> NameChar(DefaultName[i])
  {
    forall i | 0 <= i < |DefaultName| ensures NameChar(DefaultName[i]) && !IsSpace(DefaultName[i]) {
      AlnumPlain(DefaultName[i]);
    }
  }

  lemma CollapseNameChars(k: string)
    requires forall i :: 0 <= i < |k| ==> Printable(k[i]) && k[i] !in SetOf(MentionChars)
    ensures forall i :: 0 <= i < |Collapse(k)| ==> NameChar(Collapse(k)[i])
  {
    var c := Collapse(k);
    CollapseIsCollapsed(k);
    CollapseKeepsText(k);
    MentionCharsPlain();
    forall i | 0 <= i < |c| ensures NameChar(c[i]) {
      if IsSpace(c[i]) {
        assert c[i] == ' ';
      } else {
        InNonSpace(c[i], c);
        InNonSpace(c[i], k);
        var j :| 0 <= j < |k| && k[j] == c[i];
      }
    }
  }

  /** `clean_name_for_mention` collapses the printable characters outside its 18-character
      list, falls back to "Usuario" when nothing is left, and truncates to 20. */
  lemma CleanNameShape(name: string)
    ensures var c := Collapse(Keep(name, SetOf(MentionChars)));
      && IsCollapsed(c)
      && NonSpace(c) == NonSpace(Keep(name, SetOf(MentionChars)))
      && CleanNameForMention(name) == (if c == [] then DefaultName else if |c| <= 20 then c else c[..17] + "...")
  {
    var m := SetOf(MentionChars);
    var k := Keep(name, m);
    var c := Collapse(k);
    CollapseIsCollapsed(k);
    CollapseKeepsText(k);
    if name != "" {
      DeleteLoopKeeps(name, {}, MentionChars);
      assert {} + m == m;
      assert DeleteLoop(Keep(name, {}), MentionChars) == k;
      assert Blank(c) <==> c == [];
    } else {
      assert k == [];
      assert Split(k) == [];
    }
  }

  /** What `clean_name_for_mention` promises of its result: between 1 and 20 characters, none
      of the 18 deleted characters, no control character, no leading, trailing or repeated
      whitespace. */
  ghost predicate SafeName(r: string)
  {
    && 1 <= |r| <= 20
    && (forall i :: 0 <= i < |r| ==> NameChar(r[i]))
    && IsCollapsed(r)
  }

  lemma TruncatedNameSafe(c: string)
    requires IsCollapsed(c) && |c| > 20
    requires forall i :: 0 <= i < |c| ==> NameChar(c[i])
    ensures SafeName(c[..17] + "...")
  {
    var r := c[..17] + "...";
    CollapsedPrefixDots(c, 17);
    MentionCharsPlain();
    assert forall i :: 0 <= i < 17 ==> r[i] == c[i];
    assert forall i :: 17 <= i < 20 ==> r[i] == '.';
  }

  lemma CleanNameSafe(name: string)
    ensures SafeName(CleanNameForMention(name))
    ensures name == "" ==> CleanNameForMention(name) == DefaultName
  {
    var m := SetOf(MentionChars);
    var k := Keep(name, m);
    var c := Collapse(k);
    CleanNameShape(name);
    KeptChars(name, m);
    CollapseNameChars(k);
    if c == [] {
      DefaultNameSafe();
    } else if |c| > 20 {
      TruncatedNameSafe(c);
    }
  }

  /** Cleaning a cleaned name changes nothing. */
  lemma CleanNameIdempotent(name: string)
    ensures CleanNameForMention(CleanNameForMention(name)) == CleanNameForMention(name)
  {
    var r := CleanNameForMention(name);
    var m := SetOf(MentionChars);
    CleanNameSafe(name);
    assert forall i :: 0 <= i < |r| ==> Printable(r[i]) && r[i] !in m;
    KeepNothing(r, m);
    CollapsedFixpoint(r);
    CleanNameShape(r);
  }

  /** A name cleaned by `clean_name_for_mention` always passes `validate_markdown_text`. */
  lemma ValidateCleanName(name: string)
    ensures ValidateMarkdownText(CleanNameForMention(name))
  {
    var r := CleanNameForMention(name);
    CleanNameSafe(name);
    ValidateListsNest();
    forall c, i | c in ValidateChars && 0 <= i < |r| ensures r[i] != c {
      assert NameChar(r[i]);
    }
  }

  /** A name whose kept characters are 1 to 20 letters and digits cleans to exactly those. */
  lemma CleanNameOfPlain(name: string, kept: string)
    requires Keep(name, SetOf(MentionChars)) == kept
    requires 1 <= |kept| <= 20 && forall i :: 0 <= i < |kept| ==> Alnum(kept[i])
    ensures CleanNameForMention(name) == kept
  {
    forall i | 0 <= i < |kept| ensures !IsSpace(kept[i]) {
      AlnumPlain(kept[i]);
    }
    assert IsCollapsed(kept);
    CollapsedFixpoint(kept);
    CleanNameShape(name);
  }

  /** Letters and digits, 1 to 20 of them, pass `clean_name_for_mention` unchanged. */
  lemma CleanNamePlain(name: string)
    requires 1 <= |name| <= 20 && forall i :: 0 <= i < |name| ==> Alnum(name[i])
    ensures CleanNameForMention(name) == name
  {
    forall i | 0 <= i < |name| ensures Printable(name[i]) && name[i] !in SetOf(MentionChars) {
      AlnumPlain(name[i]);
    }
    KeepNothing(name, SetOf(MentionChars));
    CleanNameOfPlain(name, name);
  }

  /** The underscore of a username is deleted: "a_b" cleans to "ab", the same as "ab". */
  lemma CleanNameDropsUnderscore()
    ensures CleanNameForMention("a_b") == "ab" == CleanNameForMention("ab")
  {
    var m := SetOf(MentionChars);
    AlnumPlain('a');
    AlnumPlain('b');
    assert '_' in MentionChars;
    assert "a_b"[1..] == "_b" && "_b"[1..] == "b" && "b"[1..] == [];
    assert Keep("b", m) == "b";
    assert Keep("_b", m) == "b";
    assert Keep("a_b", m) == "ab";
    CleanNameOfPlain("a_b", "ab");
    CleanNamePlain("ab");
  }
}

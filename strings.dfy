/**
 * The string helpers of src/api.js: the mock-mode test on the Hugging Face
 * key, the keyword-to-gradient choice of the mock image generator, and the
 * greedy line breaking that lays out the mock generator's caption.
 */
module Strings {
  import opened Wrappers

  // ---------------------------------------------------------------- isMockMode

  /** The characters `String.prototype.trim` removes: ECMAScript WhiteSpace and LineTerminator. */
  predicate IsJsWhitespace(c: char) {
    var n := c as int;
    // TAB, VT, FF, SP, NBSP, ZWNBSP, and the other space separators (Zs)
    || n == 0x09 || n == 0x0B || n == 0x0C || n == 0x20 || n == 0xA0 || n == 0xFEFF
    || n == 0x1680 || (0x2000 <= n <= 0x200A) || n == 0x202F || n == 0x205F || n == 0x3000
    // LF, CR, LINE SEPARATOR, PARAGRAPH SEPARATOR
    || n == 0x0A || n == 0x0D || n == 0x2028 || n == 0x2029
  }

  function TrimStart(s: string): (r: string)
    ensures |r| <= |s| && r == s[|s| - |r|..]
    ensures r != [] ==> !IsJsWhitespace(r[0])
    ensures forall i :: 0 <= i < |s| - |r| ==> IsJsWhitespace(s[i])
  {
    if s != [] && IsJsWhitespace(s[0]) then TrimStart(s[1..]) else s
  }

  function TrimEnd(s: string): (r: string)
    ensures |r| <= |s| && r == s[..|r|]
    ensures r != [] ==> !IsJsWhitespace(r[|r| - 1])
    ensures forall i :: |r| <= i < |s| ==> IsJsWhitespace(s[i])
  {
    if s != [] && IsJsWhitespace(s[|s| - 1]) then TrimEnd(s[..|s| - 1]) else s
  }

  /** `trim()`: the string without leading and trailing white space. */
  function Trim(s: string): (r: string)
    ensures r != [] ==> !IsJsWhitespace(r[0]) && !IsJsWhitespace(r[|r| - 1])
  {
    TrimEnd(TrimStart(s))
  }

  /** A string trims to nothing exactly when every character of it is white space. */
  lemma TrimEmpty(s: string)
    ensures Trim(s) == "" <==> forall i :: 0 <= i < |s| ==> IsJsWhitespace(s[i])
  {
    if Trim(s) == "" {
      assert TrimStart(s) == [];
    }
  }

  /**
   * `isMockMode`: a missing key or one that trims to the empty string means
   * mock mode (`!key` is true for `undefined` and for `""`).
   */
  function IsMockMode(huggingFaceKey: Option<string>): (mock: bool)
    ensures mock <==> huggingFaceKey.None? || forall i :: 0 <= i < |huggingFaceKey.value| ==> IsJsWhitespace(huggingFaceKey.value[i])
  {
    if huggingFaceKey.None? || huggingFaceKey.value == "" then true
    else (TrimEmpty(huggingFaceKey.value); Trim(huggingFaceKey.value) == "")
  }

  // ---------------------------------------------------------------- getColorsFromPrompt

  /** `toLowerCase` on the ASCII letters. */
  function LowerChar(c: char): (l: char)
    ensures !('A' <= l <= 'Z')
  {
    if 'A' <= c <= 'Z' then (c as int + 32) as char else c
  }

  function ToLower(s: string): (r: string)
    ensures |r| == |s| && forall i :: 0 <= i < |s| ==> r[i] == LowerChar(s[i])
  {
    seq(|s|, i requires 0 <= i < |s| => LowerChar(s[i]))
  }

  /** Lowering twice is lowering once. */
  lemma ToLowerIdempotent(s: string)
    ensures ToLower(ToLower(s)) == ToLower(s)
  {
  }

  predicate IsPrefix(sub: string, s: string) {
    |sub| <= |s| && s[..|sub|] == sub
  }

  /** `includes`: `sub` occurs in `s` at some position. */
  predicate Contains(s: string, sub: string)
    decreases |s|
  {
    IsPrefix(sub, s) || (s != [] && Contains(s[1..], sub))
  }

  /** `includes` finds exactly the positions where `sub` starts. */
  lemma {:induction false} ContainsAt(s: string, sub: string)
    ensures Contains(s, sub) <==> exists i :: 0 <= i <= |s| - |sub| && IsPrefix(sub, s[i..])
    decreases |s|
  {
    if s == [] {
      if sub == [] {
        assert IsPrefix(sub, s[0..]);
      }
    } else {
      if IsPrefix(sub, s) {
        assert IsPrefix(sub, s[0..]);
      }
      ContainsAt(s[1..], sub);
      if Contains(s[1..], sub) && !IsPrefix(sub, s) {
        var i :| 0 <= i <= |s| - 1 - |sub| && IsPrefix(sub, s[1..][i..]);
        assert s[1..][i..] == s[i + 1..];
      }
      if exists i :: 0 <= i <= |s| - |sub| && IsPrefix(sub, s[i..]) {
        var i :| 0 <= i <= |s| - |sub| && IsPrefix(sub, s[i..]);
        if i > 0 {
          assert s[1..][i - 1..] == s[i..];
        }
      }
    }
  }

  /** The fallback purple-pink gradient. */
  const DefaultColours: seq<string> := ["#a8edea", "#fed6e3"]

  /**
   * `getColorsFromPrompt` as the source writes it: the keyword groups are
   * tried in a fixed order on the lower-cased prompt.
   */
  function GetColorsFromPrompt(prompt: string): (colours: seq<string>)
    ensures |colours| == 2
  {
    var lower := ToLower(prompt);
    if Contains(lower, "ocean") || Contains(lower, "sea") || Contains(lower, "water") then ["#667eea", "#3b82f6"]
    else if Contains(lower, "sunset") || Contains(lower, "fire") || Contains(lower, "warm") then ["#f093fb", "#f5576c"]
    else if Contains(lower, "forest") || Contains(lower, "nature") || Contains(lower, "green") then ["#4facfe", "#00f2fe"]
    else if Contains(lower, "space") || Contains(lower, "galaxy") || Contains(lower, "cosmic") then ["#30cfd0", "#330867"]
    else if Contains(lower, "night") || Contains(lower, "dark") || Contains(lower, "moon") then ["#2c3e50", "#4ca1af"]
    else DefaultColours
  }

  /** A keyword group and the gradient it selects. */
  datatype Theme = Theme(keywords: seq<string>, colours: seq<string>)

  const Ocean := Theme(["ocean", "sea", "water"], ["#667eea", "#3b82f6"])
  const Sunset := Theme(["sunset", "fire", "warm"], ["#f093fb", "#f5576c"])
  const Forest := Theme(["forest", "nature", "green"], ["#4facfe", "#00f2fe"])
  const Space := Theme(["space", "galaxy", "cosmic"], ["#30cfd0", "#330867"])
  const Night := Theme(["night", "dark", "moon"], ["#2c3e50", "#4ca1af"])

  /** The themes in the order they are tried. */
  const Themes: seq<Theme> := [Ocean, Sunset, Forest, Space, Night]

  /** Some keyword of the group occurs in the text. */
  predicate MentionsAny(lower: string, keywords: seq<string>) {
    keywords != [] && (Contains(lower, keywords[0]) || MentionsAny(lower, keywords[1..]))
  }

  /** The colours of the first theme the text mentions, or the default. */
  function FirstTheme(lower: string, themes: seq<Theme>): seq<string> {
    if themes == [] then DefaultColours
    else if MentionsAny(lower, themes[0].keywords) then themes[0].colours
    else FirstTheme(lower, themes[1..])
  }

  /**
   * `FirstTheme` picks the earliest theme that is mentioned, and the default
   * when none is.
   */
  lemma {:induction false} FirstThemeIsFirstMatch(lower: string, themes: seq<Theme>)
    ensures (forall t :: 0 <= t < |themes| ==> !MentionsAny(lower, themes[t].keywords)) ==>
      FirstTheme(lower, themes) == DefaultColours
    ensures forall t :: (0 <= t < |themes| && MentionsAny(lower, themes[t].keywords)
      && (forall u :: 0 <= u < t ==> !MentionsAny(lower, themes[u].keywords))) ==>
      FirstTheme(lower, themes) == themes[t].colours
  {
    if themes != [] {
      FirstThemeIsFirstMatch(lower, themes[1..]);
      forall t | 0 < t < |themes| && MentionsAny(lower, themes[t].keywords)
          && (forall u :: 0 <= u < t ==> !MentionsAny(lower, themes[u].keywords))
        ensures FirstTheme(lower, themes) == themes[t].colours
      {
        assert !MentionsAny(lower, themes[0].keywords);
        assert themes[1..][t - 1] == themes[t];
        forall u | 0 <= u < t - 1
          ensures !MentionsAny(lower, themes[1..][u].keywords)
        {
          assert themes[1..][u] == themes[u + 1];
        }
      }
      if forall t :: 0 <= t < |themes| ==> !MentionsAny(lower, themes[t].keywords) {
        forall t | 0 <= t < |themes| - 1
          ensures !MentionsAny(lower, themes[1..][t].keywords)
        {
          assert themes[1..][t] == themes[t + 1];
        }
      }
    }
  }

  lemma FirstThemeCons(lower: string, theme: Theme, rest: seq<Theme>)
    ensures FirstTheme(lower, [theme] + rest) ==
      if MentionsAny(lower, theme.keywords) then theme.colours else FirstTheme(lower, rest)
  {
    assert ([theme] + rest)[1..] == rest;
  }

  /** The if-chain is the first match over the theme table: earlier groups win. */
  lemma ColoursAreFirstTheme(prompt: string)
    ensures GetColorsFromPrompt(prompt) == FirstTheme(ToLower(prompt), Themes)
  {
    var lower := ToLower(prompt);
    MentionsThree(lower, "ocean", "sea", "water");
    MentionsThree(lower, "sunset", "fire", "warm");
    MentionsThree(lower, "forest", "nature", "green");
    MentionsThree(lower, "space", "galaxy", "cosmic");
    MentionsThree(lower, "night", "dark", "moon");
    assert Themes == [Ocean] + ([Sunset] + ([Forest] + ([Space] + ([Night] + []))));
    FirstThemeCons(lower, Ocean, [Sunset, Forest, Space, Night]);
    FirstThemeCons(lower, Sunset, [Forest, Space, Night]);
    FirstThemeCons(lower, Forest, [Space, Night]);
    FirstThemeCons(lower, Space, [Night]);
    FirstThemeCons(lower, Night, []);
  }

  lemma MentionsThree(lower: string, a: string, b: string, c: string)
    ensures MentionsAny(lower, [a, b, c]) == (Contains(lower, a) || Contains(lower, b) || Contains(lower, c))
  {
    assert [a, b, c][1..] == [b, c] && [b, c][1..] == [c] && [c][1..] == [];
    assert MentionsAny(lower, [c]) == Contains(lower, c);
    assert MentionsAny(lower, [b, c]) == (Contains(lower, b) || Contains(lower, c));
  }

  /** The choice ignores letter case. */
  lemma ColoursIgnoreCase(prompt: string)
    ensures GetColorsFromPrompt(ToLower(prompt)) == GetColorsFromPrompt(prompt)
  {
    ToLowerIdempotent(prompt);
  }

  // ---------------------------------------------------------------- wrapText

  /** `text.split(" ")`: the pieces between single spaces; empty pieces are kept. */
  function Split(s: string): (words: seq<string>)
    ensures |words| >= 1
    ensures forall k :: 0 <= k < |words| ==> ' ' !in words[k]
  {
    if ' ' !in s then [s]
    else
      var i := FirstSpace(s);
      [s[..i]] + Split(s[i + 1..])
  }

  function FirstSpace(s: string): (i: nat)
    requires ' ' in s
    ensures i < |s| && s[i] == ' ' && ' ' !in s[..i]
  {
    if s[0] == ' ' then 0 else FirstSpace(s[1..]) + 1
  }

  /** `words.join(" ")`. */
  function Join(words: seq<string>): string
    requires |words| >= 1
  {
    if |words| == 1 then words[0] else words[0] + " " + Join(words[1..])
  }

  /** Splitting on spaces and joining with spaces gives the text back. */
  lemma {:induction false} JoinSplit(s: string)
    ensures Join(Split(s)) == s
  {
    if ' ' in s {
      var i := FirstSpace(s);
      var rest := Split(s[i + 1..]);
      var words := [s[..i]] + rest;
      assert Split(s) == words;
      assert words[0] == s[..i] && words[1..] == rest;
      assert Join(words) == s[..i] + " " + Join(rest);
      JoinSplit(s[i + 1..]);
      assert s == s[..i] + " " + s[i + 1..];
    } else {
      assert Split(s) == [s];
    }
  }

  /** Every word followed by one space, in order. */
  function Spaced(words: seq<string>): string {
    if words == [] then "" else Spaced(words[..|words| - 1]) + words[|words| - 1] + " "
  }

  function Flatten(lines: seq<string>): string {
    if lines == [] then "" else Flatten(lines[..|lines| - 1]) + lines[|lines| - 1]
  }

  lemma FlattenSnoc(lines: seq<string>, line: string)
    ensures Flatten(lines + [line]) == Flatten(lines) + line
  {
    assert (lines + [line])[..|lines|] == lines;
  }

  lemma {:induction false} SpacedAppend(a: seq<string>, b: seq<string>)
    ensures Spaced(a + b) == Spaced(a) + Spaced(b)
    decreases |b|
  {
    if b != [] {
      var ab := a + b;
      assert ab[..|ab| - 1] == a + b[..|b| - 1];
      SpacedAppend(a, b[..|b| - 1]);
    } else {
      assert a + b == a;
    }
  }

  /** The word after line k of a layout with the given line starts: the next start, or the end. */
  function LineEnd(starts: seq<nat>, k: nat, n: nat): nat
    requires k < |starts|
  {
    if k + 1 < |starts| then starts[k + 1] else n
  }

  /** Every word of `words[lo..hi]` after the first fitted on the line it joined. */
  predicate LineFits(words: seq<string>, lo: nat, hi: nat, measure: string -> real, maxWidth: real)
    requires lo <= hi <= |words|
  {
    forall j :: lo < j < hi ==> measure(Spaced(words[lo..j]) + words[j] + " ") <= maxWidth
  }

  /** Line k holds the words from its start up to the next start, and each of them fitted. */
  predicate LineOk(words: seq<string>, n: nat, lines: seq<string>, starts: seq<nat>, k: nat,
                   measure: string -> real, maxWidth: real)
    requires n <= |words| && |lines| == |starts| && k < |starts|
  {
    var e := LineEnd(starts, k, n);
    && starts[k] < e <= n
    && lines[k] == Spaced(words[starts[k]..e])
    && LineFits(words, starts[k], e, measure, maxWidth)
  }

  /** Line k was started because the first word on it did not fit on line k - 1. */
  predicate BrokeBefore(words: seq<string>, lines: seq<string>, starts: seq<nat>, k: nat,
                        measure: string -> real, maxWidth: real)
    requires |lines| == |starts| && 1 <= k < |starts| && starts[k] < |words|
  {
    measure(lines[k - 1] + words[starts[k]] + " ") > maxWidth
  }

  /**
   * `lines` lay out `words[..n]` greedily: line k holds the words from
   * `starts[k]` up to the next start, each followed by a space; a line is
   * broken only when the next word would make it wider than `maxWidth`, and
   * a word joins the line whenever it fits.
   */
  predicate Layout(words: seq<string>, n: nat, lines: seq<string>, starts: seq<nat>,
                   measure: string -> real, maxWidth: real)
  {
    && n <= |words| && |lines| == |starts| >= 1 && starts[0] == 0
    && LinesOk(words, n, lines, starts, measure, maxWidth)
    && BreaksOk(words, n, lines, starts, measure, maxWidth)
  }

  predicate LinesOk(words: seq<string>, n: nat, lines: seq<string>, starts: seq<nat>,
                    measure: string -> real, maxWidth: real)
    requires n <= |words| && |lines| == |starts|
  {
    forall k :: 0 <= k < |starts| ==> LineOk(words, n, lines, starts, k, measure, maxWidth)
  }

  predicate BreaksOk(words: seq<string>, n: nat, lines: seq<string>, starts: seq<nat>,
                     measure: string -> real, maxWidth: real)
    requires |lines| == |starts|
  {
    forall k :: 1 <= k < |starts| ==> starts[k] < n && starts[k] < |words| && BrokeBefore(words, lines, starts, k, measure, maxWidth)
  }

  lemma LayoutFirstWord(words: seq<string>, measure: string -> real, maxWidth: real)
    requires |words| >= 1
    ensures Layout(words, 1, [words[0] + " "], [0], measure, maxWidth)
  {
    assert words[0..1] == [words[0]];
    assert Spaced([words[0]]) == Spaced([]) + words[0] + " ";
    assert LineOk(words, 1, [words[0] + " "], [0], 0, measure, maxWidth);
  }

  lemma SpacedSnoc(words: seq<string>, lo: nat, n: nat)
    requires lo <= n < |words|
    ensures Spaced(words[lo..n + 1]) == Spaced(words[lo..n]) + words[n] + " "
  {
    assert words[lo..n + 1][..n - lo] == words[lo..n];
  }

  lemma LineFitsExtend(words: seq<string>, lo: nat, n: nat, measure: string -> real, maxWidth: real)
    requires lo <= n < |words| && LineFits(words, lo, n, measure, maxWidth)
    requires measure(Spaced(words[lo..n]) + words[n] + " ") <= maxWidth
    ensures LineFits(words, lo, n + 1, measure, maxWidth)
  {
  }

  /** A word that fits joins the last line. */
  lemma LayoutExtend(words: seq<string>, n: nat, lines: seq<string>, starts: seq<nat>,
                     measure: string -> real, maxWidth: real)
    requires Layout(words, n, lines, starts, measure, maxWidth) && n < |words|
    requires measure(lines[|lines| - 1] + words[n] + " ") <= maxWidth
    ensures Layout(words, n + 1, lines[..|lines| - 1] + [lines[|lines| - 1] + words[n] + " "], starts,
                   measure, maxWidth)
  {
    var last := |lines| - 1;
    var lines' := lines[..last] + [lines[last] + words[n] + " "];
    assert LineOk(words, n, lines, starts, last, measure, maxWidth);
    var lo := starts[last];
    assert LineEnd(starts, last, n) == n;
    SpacedSnoc(words, lo, n);
    assert lines'[last] == Spaced(words[lo..n + 1]);
    LineFitsExtend(words, lo, n, measure, maxWidth);
    assert LineOk(words, n + 1, lines', starts, last, measure, maxWidth);
    ExtendLinesOk(words, n, lines, starts, measure, maxWidth);
    ExtendBreaksOk(words, n, lines, starts, measure, maxWidth);
  }

  lemma ExtendLinesOk(words: seq<string>, n: nat, lines: seq<string>, starts: seq<nat>,
                      measure: string -> real, maxWidth: real)
    requires n < |words| && |lines| == |starts| >= 1
    requires LinesOk(words, n, lines, starts, measure, maxWidth)
    requires LineOk(words, n + 1, lines[..|lines| - 1] + [lines[|lines| - 1] + words[n] + " "], starts,
                    |lines| - 1, measure, maxWidth)
    ensures LinesOk(words, n + 1, lines[..|lines| - 1] + [lines[|lines| - 1] + words[n] + " "], starts,
                    measure, maxWidth)
  {
    var last := |lines| - 1;
    var lines' := lines[..last] + [lines[last] + words[n] + " "];
    var n' := n + 1;
    forall k | 0 <= k < last
      ensures LineOk(words, n', lines', starts, k, measure, maxWidth)
    {
      assert LineOk(words, n, lines, starts, k, measure, maxWidth);
      assert LineEnd(starts, k, n') == LineEnd(starts, k, n);
      assert lines'[k] == lines[k];
    }
  }

  lemma ExtendBreaksOk(words: seq<string>, n: nat, lines: seq<string>, starts: seq<nat>,
                       measure: string -> real, maxWidth: real)
    requires n < |words| && |lines| == |starts| >= 1
    requires BreaksOk(words, n, lines, starts, measure, maxWidth)
    ensures BreaksOk(words, n + 1, lines[..|lines| - 1] + [lines[|lines| - 1] + words[n] + " "], starts,
                     measure, maxWidth)
  {
    var last := |lines| - 1;
    var lines' := lines[..last] + [lines[last] + words[n] + " "];
    forall k | 1 <= k < |starts|
      ensures BrokeBefore(words, lines', starts, k, measure, maxWidth)
    {
      assert BrokeBefore(words, lines, starts, k, measure, maxWidth);
      assert lines'[k - 1] == lines[k - 1];
    }
  }

  /** A word that does not fit starts a new line. */
  lemma LayoutBreak(words: seq<string>, n: nat, lines: seq<string>, starts: seq<nat>,
                    measure: string -> real, maxWidth: real)
    requires Layout(words, n, lines, starts, measure, maxWidth) && n < |words|
    requires measure(lines[|lines| - 1] + words[n] + " ") > maxWidth
    ensures Layout(words, n + 1, lines + [words[n] + " "], starts + [n], measure, maxWidth)
  {
    var starts' := starts + [n];
    var lines' := lines + [words[n] + " "];
    var last := |lines|;
    assert words[n..n + 1] == [words[n]];
    assert Spaced([words[n]]) == Spaced([]) + words[n] + " ";
    assert LineOk(words, n + 1, lines', starts', last, measure, maxWidth);
    var n' := n + 1;
    forall k | 0 <= k < |starts'|
      ensures LineOk(words, n', lines', starts', k, measure, maxWidth)
    {
      if k < last {
        assert LineOk(words, n, lines, starts, k, measure, maxWidth);
        assert LineEnd(starts', k, n + 1) == LineEnd(starts, k, n);
        assert lines'[k] == lines[k] && starts'[k] == starts[k];
      }
    }
    forall k | 1 <= k < |starts'|
      ensures starts'[k] < n + 1 && BrokeBefore(words, lines', starts', k, measure, maxWidth)
    {
      if k < last {
        assert BrokeBefore(words, lines, starts, k, measure, maxWidth);
        assert lines'[k - 1] == lines[k - 1] && starts'[k] == starts[k];
      }
    }
  }

  /**
   * `wrapText`: the words of `text` laid out greedily against `measure` (the
   * canvas's `measureText`); the lines together spell every word followed by
   * a space, and `ys`, the baselines handed to `fillText`, are centred on `y`.
   * `starts` records the index of the first word of each line.
   */
  method WrapText(text: string, y: real, maxWidth: real, lineHeight: real, measure: string -> real)
    returns (lines: seq<string>, ys: seq<real>, ghost starts: seq<nat>)
    ensures Layout(Split(text), |Split(text)|, lines, starts, measure, maxWidth)
    ensures Flatten(lines) == Spaced(Split(text))
    ensures |ys| == |lines|
    ensures forall i :: 0 <= i < |ys| ==> ys[i] == y - ((|lines| - 1) as real * lineHeight) / 2.0 + i as real * lineHeight
  {
    var words := Split(text);
    var line := "";
    lines, starts := [], [];
    ghost var lineStart: nat := 0;
    for i := 0 to |words|
      invariant i == 0 ==> lines == [] && starts == [] && line == "" && lineStart == 0
      invariant i > 0 ==> Layout(words, i, lines + [line], starts + [lineStart], measure, maxWidth)
      invariant Flatten(lines) + line == Spaced(words[..i])
    {
      lines, line, starts, lineStart := PlaceWord(words, i, lines, line, starts, lineStart, measure, maxWidth);
    }
    FlattenSnoc(lines, line);
    assert words[..|words|] == words;
    lines, starts := lines + [line], starts + [lineStart];
    ys := Baselines(|lines|, y, lineHeight);
  }

  /**
   * One turn of the loop in `wrapText`: word `i` goes on the current line
   * if it fits (or the line is still empty), and otherwise the current line
   * is closed and the word starts the next one.
   */
  method PlaceWord(words: seq<string>, i: nat, lines: seq<string>, line: string,
                   ghost starts: seq<nat>, ghost lineStart: nat, measure: string -> real, maxWidth: real)
    returns (lines': seq<string>, line': string, ghost starts': seq<nat>, ghost lineStart': nat)
    requires i < |words|
    requires i == 0 ==> lines == [] && starts == [] && line == "" && lineStart == 0
    requires i > 0 ==> Layout(words, i, lines + [line], starts + [lineStart], measure, maxWidth)
    requires Flatten(lines) + line == Spaced(words[..i])
    ensures Layout(words, i + 1, lines' + [line'], starts' + [lineStart'], measure, maxWidth)
    ensures Flatten(lines') + line' == Spaced(words[..i + 1])
    ensures lines' == lines || lines' == lines + [line]
    ensures line' == line + words[i] + " " || line' == words[i] + " "
  {
    var testLine := line + words[i] + " ";
    ghost var before := lines + [line];
    assert before[..|lines|] == lines && before[|lines|] == line;
    assert words[..i + 1][..i] == words[..i];
    assert Spaced(words[..i + 1]) == Spaced(words[..i]) + words[i] + " ";
    if measure(testLine) > maxWidth && i > 0 {
      LayoutBreak(words, i, before, starts + [lineStart], measure, maxWidth);
      FlattenSnoc(lines, line);
      lines', line' := lines + [line], words[i] + " ";
      starts', lineStart' := starts + [lineStart], i;
      FlattenSnoc(lines', line');
    } else {
      if i == 0 {
        LayoutFirstWord(words, measure, maxWidth);
      } else {
        LayoutExtend(words, i, before, starts + [lineStart], measure, maxWidth);
      }
      lines', line' := lines, testLine;
      starts', lineStart' := starts, lineStart;
      assert lines' + [line'] == before[..|lines|] + [before[|lines|] + words[i] + " "];
    }
  }

  /** The baselines of `count` lines `lineHeight` apart, centred on `y`. */
  method Baselines(count: nat, y: real, lineHeight: real) returns (ys: seq<real>)
    ensures |ys| == count
    ensures forall i :: 0 <= i < count ==> ys[i] == y - ((count - 1) as real * lineHeight) / 2.0 + i as real * lineHeight
  {
    var startY := y - ((count - 1) as real * lineHeight) / 2.0;
    ys := [];
    for i := 0 to count
      invariant |ys| == i && forall k :: 0 <= k < i ==> ys[k] == startY + k as real * lineHeight
    {
      ys := ys + [startY + i as real * lineHeight];
    }
  }
}
